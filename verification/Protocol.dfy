/** What each command does to the world, and what one turn of the handler does. */
module Protocol {
  import opened Text
  import opened Paths
  import opened Translation
  import opened HostPort
  import opened Dispatch
  import opened Machine

  /** The replies whose text is fixed. */
  datatype Notice =
    | Ready | LoggedIn | LoginIncorrect | SystemType | NoDataConnection
    | ListingComes | ListingSent | ListingDenied | NoDirectory | DirectoryChanged | DirectoryKept
    | TransferComplete | NoFileToSend | NoFileToSize | LocalError
    | BinaryMode | AsciiMode | BadParameter | Bye | UnknownCommand

  function Code(n: Notice): (code: string)
    ensures |code| == 3
  {
    match n
    case Ready => "220"
    case LoggedIn => "230"
    case LoginIncorrect => "530"
    case SystemType => "215"
    case NoDataConnection => "425"
    case ListingComes => "150"
    case ListingSent => "226"
    case ListingDenied => "550"
    case NoDirectory => "550"
    case DirectoryChanged => "250"
    case DirectoryKept => "550"
    case TransferComplete => "226"
    case NoFileToSend => "551"
    case NoFileToSize => "550"
    case LocalError => "451"
    case BinaryMode => "200"
    case AsciiMode => "200"
    case BadParameter => "504"
    case Bye => "221"
    case UnknownCommand => "502"
  }

  function Message(n: Notice): string {
    match n
    case Ready => "Service ready for new user."
    case LoggedIn => "User logged in, proceed."
    case LoginIncorrect => "Login incorrect."
    case SystemType => "UNIX Type: L8"
    case NoDataConnection => "Cannot open data connection."
    case ListingComes => "Here comes the directory listing."
    case ListingSent => "Directory send OK."
    case ListingDenied => "Permission Denied."
    case NoDirectory => "Failed to get directory."
    case DirectoryChanged => "Directory successfully changed."
    case DirectoryKept => "Failed to change directory."
    case TransferComplete => "Transfer Complete."
    case NoFileToSend => "File not found."
    case NoFileToSize => "File not found."
    case LocalError => "Requested action aborted:" + " Local error in processing."
    case BinaryMode => "Switching to Binary mode."
    case AsciiMode => "Switching to ASCII mode."
    case BadParameter => "Command not implemented" + " for that parameter."
    case Bye => "Bye."
    case UnknownCommand => "Command not implemented."
  }

  function Wording(n: Notice): string {
    Code(n) + " " + Message(n)
  }

  function DoUser(w: World, arg: string, o: Oracle): (World, bool) {
    if arg == "anonymous" then Reply(w, Wording(LoggedIn), o.final)
    else
      var (v, ok) := Reply(w, Wording(LoginIncorrect), o.final);
      (Disconnect(v, o), ok)
  }

  function PassiveReply(ip: string, port: nat): string {
    "227 Entering Passive Mode (" + HostPortText(ip, port) + ")."
  }

  function DoPasv(w: World, o: Oracle): (World, bool) {
    var (v, ok) := CreateTransfer(CloseData(w, o), PASV_PORT, o);
    Reply(v, if ok then PassiveReply(v.ip, PASV_PORT) else Wording(NoDataConnection), o.final)
  }

  /** The directory NLST lists: the cwd, or an argument that names a directory the root check admits. */
  function ListTarget(w: World, arg: string, o: Oracle): Option<string> {
    var cwd := CurrentDir(w, o);
    if cwd.None? || |arg| == 0 then cwd
    else
      var t := ServerToReal(w.fs, w.root, cwd, CStr(arg), |arg|, o.tail);
      if t.Some? && IsDirText(w.fs, t.value) && NotAbove(w.root, t.value) then t else None
  }

  /** The data phase of NLST: accept, announce, list. */
  function Listing(w: World, dir: string, withPath: bool, o: Oracle): (World, bool) {
    var (v, accepted) := AcceptData(w, o);
    if !accepted then (v, false)
    else
      var (u, ok) := Reply(v, Wording(ListingComes), o.prelim);
      if ok then ListDir(u, dir, withPath, o) else (u, false)
  }

  function DoNlst(w: World, arg: string, o: Oracle): (World, bool) {
    var dir := ListTarget(w, arg, o);
    var (v, ok) := if dir.Some? then Listing(w, dir.value, |arg| != 0, o) else (w, false);
    Reply(CloseData(v, o), if ok then Wording(ListingSent) else Wording(ListingDenied), o.final)
  }

  function DoPwd(w: World, o: Oracle): (World, bool) {
    var cwd := CurrentDir(w, o);
    if cwd.Some? && cwd.value != "" then Reply(w, "257 \"" + ServerPath(cwd.value, w.root) + "\"", o.final)
    else Reply(w, Wording(NoDirectory), o.final)
  }

  function DoCwd(w: World, arg: string, o: Oracle): (World, bool) {
    var t := CwdTarget(w.fs, w.root, CurrentDir(w, o), CStr(arg), |arg|, o.tail);
    if t.Some? then Reply(w.(cwd := t.value), Wording(DirectoryChanged), o.final)
    else Reply(w, Wording(DirectoryKept), o.final)
  }

  function FileTarget(w: World, arg: string, o: Oracle): (r: Option<string>)
    ensures r.Some? ==> IsFileText(w.fs, r.value)
  {
    var t := ServerToReal(w.fs, w.root, CurrentDir(w, o), CStr(arg), |arg|, o.tail);
    if t.Some? && IsFileText(w.fs, t.value) then t else None
  }

  function Content(fs: Fs, path: string): string
    requires IsFileText(fs, path)
  {
    fs.nodes[RealPath(fs, path).value].content
  }

  function Announced(binary: bool): string {
    "150 " + (if binary then "BINARY" else "ASCII") + " mode data connection for "
  }

  function Announcement(binary: bool, arg: string): string {
    Announced(binary) + CStr(arg) + "."
  }

  /** The data phase of RETR: accept, announce, send. */
  function Retrieval(w: World, path: string, file: string, arg: string, o: Oracle): (World, bool) {
    var (v, accepted) := AcceptData(w, o);
    if !accepted then (v, false)
    else
      var (u, ok) := Reply(v, Announcement(v.binary, arg), o.prelim);
      if ok then SendFile(u, path, file, o) else (u, false)
  }

  function DoRetr(w: World, arg: string, o: Oracle): (World, bool) {
    var t := FileTarget(w, arg, o);
    var (v, ok) := if t.Some? then Retrieval(w, t.value, Content(w.fs, t.value), arg, o) else (w, false);
    Reply(CloseData(v, o),
          if ok then Wording(TransferComplete)
          else if |arg| > 0 && t.None? then Wording(NoFileToSend)
          else Wording(LocalError), o.final)
  }

  function DoSize(w: World, arg: string, o: Oracle): (World, bool) {
    var t := FileTarget(w, arg, o);
    Reply(w,
          if t.Some? then "213 " + Dec(|Content(w.fs, t.value)|)
          else if |arg| > 0 then Wording(NoFileToSize)
          else Wording(LocalError), o.final)
  }

  predicate Selects(arg: string, upper: char, lower: char) {
    |arg| == 1 && (arg[0] == upper || arg[0] == lower)
  }

  function DoType(w: World, arg: string, o: Oracle): (World, bool) {
    if Selects(arg, 'I', 'i') then
      var (v, ok) := Reply(w, Wording(BinaryMode), o.final);
      (if ok then v.(binary := true) else v, ok)
    else if Selects(arg, 'A', 'a') then
      var (v, ok) := Reply(w, Wording(AsciiMode), o.final);
      (if ok then v.(binary := false) else v, ok)
    else Reply(w, Wording(BadParameter), o.final)
  }

  function Names(table: seq<Command>): string {
    if table == [] then "" else Names(table[..|table| - 1]) + " " + table[|table| - 1].Name()
  }

  function HelpHead(): string {
    "214-The following commands" + " are recognized." + CRLF
  }

  function HelpTail(): string {
    "\r\n214 Help OK."
  }

  function HelpText(): string {
    HelpHead() + Names(TABLE) + HelpTail()
  }

  /** HELP writes its own buffer: one multi-line reply. */
  function DoHelp(w: World, o: Oracle): (World, bool) {
    (w.Log(Control(w.clientSock, HelpText() + CRLF, o.final)), o.final)
  }

  function Execute(w: World, c: Command, arg: string, o: Oracle): (World, bool) {
    match c
    case User => DoUser(w, arg, o)
    case Syst => Reply(w, Wording(SystemType), o.final)
    case Pasv => DoPasv(w, o)
    case Nlst => DoNlst(w, arg, o)
    case Pwd => DoPwd(w, o)
    case Cwd => DoCwd(w, arg, o)
    case Retr => DoRetr(w, arg, o)
    case Size => DoSize(w, arg, o)
    case Type => DoType(w, arg, o)
    case Help => DoHelp(w, o)
    case Quit => Reply(w, Wording(Bye), o.final)
  }

  /** An unknown command is answered, and fails whatever became of the answer. */
  function Perform(w: World, line: string, o: Oracle): (World, bool) {
    var c := Find(TABLE, line);
    if c.Some? then Execute(w, c.value, Argument(c.value, line), o)
    else (Reply(w, Wording(UnknownCommand), o.final).0, false)
  }

  /** One request line; a failed command takes a transfer socket that is still open with it. */
  function Request(w: World, line: string, o: Oracle): World {
    var (v, ok) := Perform(w.Log(Command(line)), line, o);
    if ok then v else CloseData(v, o.Later())
  }

  predicate IsRequest(bytes: string) {
    |bytes| > 2 && bytes[|bytes| - 2..] == CRLF
  }

  /** The request line a read holds; "" if it is no request. */
  function LineOf(o: Oracle): string {
    if o.received.Some? && IsRequest(o.received.value) then o.received.value[..|o.received.value| - 2] else ""
  }

  function HandleConnection(w: World, o: Oracle): (World, bool) {
    if o.received.None? then (if o.again then w else Stop(w, o), false)
    else
      var bytes := o.received.value;
      if IsRequest(bytes) then (Request(w, bytes[..|bytes| - 2], o), true)
      else if bytes == "" then (Disconnect(w, o), true)
      else (if o.again then w else Stop(w, o), true)
  }

  function WaitForConnection(w: World, o: Oracle): (World, bool) {
    if w.serverSock in w.kernel.open && w.kernel.Fresh(o.accept) then
      var u := w.(clientSock := o.accept, kernel := w.kernel.Opened(o.accept).Logged(Session(o.accept)));
      var (v, ok) := ChangeDir(u, w.root, |w.root|, o);
      if !ok then (v, false)
      else
        var (x, greeted) := Reply(v, Wording(Ready), o.final);
        (if greeted then x.(connected := true) else x, greeted)
    else
      var u := w.(clientSock := -1);
      (if o.again then u else Stop(u, o), true)
  }

  /** One turn of the handler. */
  function Step(w: World, o: Oracle): (World, bool) {
    if !w.created then Start(w, o)
    else if !w.connected then WaitForConnection(w, o)
    else HandleConnection(w, o)
  }

  /** main's loop over a schedule: it ends early when a step fails. */
  function Run(w: World, os: seq<Oracle>): (World, bool)
    decreases |os|
  {
    if os == [] then (w, true)
    else
      var (v, ok) := Step(w, os[0]);
      if ok then Run(v, os[1..]) else (v, false)
  }
}
