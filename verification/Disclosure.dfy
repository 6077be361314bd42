/**
 * What each step adds to the trace: which directories it opens for a listing, and whether every
 * reply it writes reads as one.
 */
module Disclosure {
  import opened Text
  import opened Paths
  import opened Translation
  import opened HostPort
  import opened Dispatch
  import opened Machine
  import opened Protocol
  import opened Transfers
  import opened Sessions
  import opened Steps
  import opened Frames
  import opened Runs
  import opened Wire
  import opened Containment

  /**
   * What is promised of the events of a step: on which ports it listens, which directories and files it opens, and
   * that a reply reads as one.
   */
  datatype Promise = Promise(port: nat, allows: string -> bool, sends: string -> bool, texts: bool) {
    ghost predicate Holds(e: Event) {
      && (e.Listen? ==> e.port == if e.data then 40000 else port)
      && (e.Opens? ==> allows(e.dir))
      && (e.Fetches? ==> sends(e.path))
      && (texts && e.Control? ==> Whole(e.text))
    }

    ghost predicate Grows(t: seq<Event>, u: seq<Event>) {
      t <= u && forall i | |t| <= i < |u| :: Holds(u[i])
    }
  }

  lemma GrowsBy(p: Promise, t: seq<Event>, e: Event)
    requires p.Holds(e)
    ensures p.Grows(t, t + [e])
  {
  }

  lemma GrowsThen(p: Promise, t: seq<Event>, u: seq<Event>, v: seq<Event>)
    requires p.Grows(t, u) && p.Grows(u, v)
    ensures p.Grows(t, v)
  {
  }

  lemma ReplyGrows(p: Promise, w: World, text: string, sent: bool)
    requires p.texts ==> Whole(text + CRLF)
    ensures p.Grows(w.kernel.trace, Reply(w, text, sent).0.kernel.trace)
  {
    hide Whole, Within;
    GrowsBy(p, w.kernel.trace, Control(w.clientSock, text + CRLF, sent));
  }

  lemma NoticeGrows(p: Promise, w: World, n: Notice, sent: bool)
    ensures p.Grows(w.kernel.trace, Reply(w, Wording(n), sent).0.kernel.trace)
  {
    NoticeIsWhole(n);
    hide Whole, Wording, Reply, Within, Promise.Grows;
    ReplyGrows(p, w, Wording(n), sent);
  }

  lemma {:induction false} SendLoopGrows(p: Promise, t: seq<Event>, sock: int, file: string, pos: nat, count: nat, k: nat, o: Oracle)
    requires pos <= |file|
    ensures p.Grows(t, SendLoop(t, sock, file, pos, count, k, o).trace)
    decreases count
  {
    hide ReadResult, WriteResult, Whole, Within;
    var n := Got(file, pos, count, k, o);
    if count > 0 && n > 0 {
      var m := WriteResult(o.writes(k), n);
      if m == 0 {
        GrowsBy(p, t, Data(sock, ""));
      } else if m > 0 {
        var u := t + [Data(sock, file[pos..pos + m])];
        GrowsBy(p, t, Data(sock, file[pos..pos + m]));
        SendLoopGrows(p, u, sock, file, pos + n, count - m, k + 1, o);
      }
    }
  }

  lemma SendFileGrows(p: Promise, w: World, path: string, file: string, o: Oracle)
    requires p.sends(path)
    ensures p.Grows(w.kernel.trace, SendFile(w, path, file, o).0.kernel.trace)
  {
    hide SendLoop, Whole, Within;
    var t := w.kernel.trace + [Fetches(path)];
    GrowsBy(p, w.kernel.trace, Fetches(path));
    Unchanged(p, w.kernel.trace);
    hide Promise.Grows;
    SendLoopGrows(p, t, w.transferClientSock, file, 0, o.size, 0, o);
    GrowsThen(p, w.kernel.trace, t, SendLoop(t, w.transferClientSock, file, 0, o.size, 0, o).trace);
  }

  lemma Unchanged(p: Promise, t: seq<Event>)
    ensures p.Grows(t, t)
  {
  }

  lemma SendLineGrows(p: Promise, t: seq<Event>, sock: int, text: string, i: nat, o: Oracle)
    requires 0 < |text| < PATH_MAX
    ensures p.Grows(t, SendLine(t, sock, text, i, o).0)
  {
    hide Frame, WriteResult, Whole, Within;
  }

  lemma {:induction false} ListLoopGrows(
      p: Promise, t: seq<Event>, sock: int, root: string, dir: string, withPath: bool, i: nat, line: string, o: Oracle)
    requires i <= |o.entries| && (i > 0 ==> 0 < |line| < PATH_MAX)
    ensures p.Grows(t, ListLoop(t, sock, root, dir, withPath, i, line, o).trace)
    decreases |o.entries| - i
  {
    hide SendLine, Whole, Within, Promise.Grows, Shown;
    Unchanged(p, t);
    if i == |o.entries| {
      SendLineGrows(p, t, sock, Shown(root, withPath, line), i, o);
    } else {
      var next := Line(dir, withPath, o.entries[i]);
      if |next| < PATH_MAX {
        var (u, ok) := SendLine(t, sock, Shown(root, withPath, next), i, o);
        SendLineGrows(p, t, sock, Shown(root, withPath, next), i, o);
        if ok {
          ListLoopGrows(p, u, sock, root, dir, withPath, i + 1, next, o);
          GrowsThen(p, t, u, ListLoop(u, sock, root, dir, withPath, i + 1, next, o).trace);
        }
      }
    }
  }

  lemma ListDirGrows(p: Promise, w: World, dir: string, withPath: bool, o: Oracle)
    requires p.allows(dir)
    ensures p.Grows(w.kernel.trace, ListDir(w, dir, withPath, o).0.kernel.trace)
  {
    hide ListLoop, Whole, Within, Promise.Grows, WellFormed;
    Unchanged(p, w.kernel.trace);
    if dir != "" && w.kernel.Fresh(o.dir) {
      var t := w.kernel.trace + [Opens(dir)];
      GrowsBy(p, w.kernel.trace, Opens(dir));
      ListLoopGrows(p, t, w.transferClientSock, w.root, dir, withPath, 0, "", o);
      GrowsThen(p, w.kernel.trace, t, ListLoop(t, w.transferClientSock, w.root, dir, withPath, 0, "", o).trace);
    }
  }

  lemma AcceptGrows(p: Promise, w: World, o: Oracle)
    ensures p.Grows(w.kernel.trace, AcceptData(w, o).0.kernel.trace)
  {
    hide Whole, Within;
  }

  lemma ListingGrows(p: Promise, w: World, dir: string, withPath: bool, o: Oracle)
    requires p.allows(dir)
    ensures p.Grows(w.kernel.trace, Listing(w, dir, withPath, o).0.kernel.trace)
  {
    hide AcceptData, Reply, ListDir, Wording, Whole, Within, Promise.Grows, WellFormed;
    var (v, accepted) := AcceptData(w, o);
    var (u, ok) := Reply(v, Wording(ListingComes), o.prelim);
    AcceptGrows(p, w, o);
    NoticeGrows(p, v, ListingComes, o.prelim);
    ListDirGrows(p, u, dir, withPath, o);
    GrowsThen(p, w.kernel.trace, v.kernel.trace, u.kernel.trace);
    GrowsThen(p, w.kernel.trace, u.kernel.trace, ListDir(u, dir, withPath, o).0.kernel.trace);
  }

  /** A final reply behind the closing of the data sockets. */
  lemma ClosingGrows(p: Promise, w: World, n: Notice, o: Oracle)
    ensures p.Grows(w.kernel.trace, Reply(CloseData(w, o), Wording(n), o.final).0.kernel.trace)
  {
    hide CloseData, Reply, Wording, Whole, Within, Promise.Grows, WellFormed;
    CloseDataTrace(w, o);
    NoticeGrows(p, CloseData(w, o), n, o.final);
  }

  lemma NlstGrows(p: Promise, w: World, arg: string, o: Oracle)
    requires ListTarget(w, arg, o).Some? ==> p.allows(ListTarget(w, arg, o).value)
    ensures p.Grows(w.kernel.trace, DoNlst(w, arg, o).0.kernel.trace)
  {
    var dir := ListTarget(w, arg, o);
    hide ListTarget, Listing, CloseData, Reply, Wording, Whole, Within, Promise.Grows, WellFormed;
    Unchanged(p, w.kernel.trace);
    if dir.Some? {
      ListingGrows(p, w, dir.value, |arg| != 0, o);
    }
    var (v, ok) := if dir.Some? then Listing(w, dir.value, |arg| != 0, o) else (w, false);
    ClosingGrows(p, v, if ok then ListingSent else ListingDenied, o);
    GrowsThen(p, w.kernel.trace, v.kernel.trace,
           Reply(CloseData(v, o), Wording(if ok then ListingSent else ListingDenied), o.final).0.kernel.trace);
  }

  /** The directory NLST lists passes the root check; without an argument it is the current one. */
  lemma TargetWithin(w: World, arg: string, o: Oracle)
    requires Contained(w) && ListTarget(w, arg, o).Some?
    ensures var dir := ListTarget(w, arg, o).value;
            && (arg == "" && '%' !in w.cwd ==> dir == w.cwd)
            && (arg != "" || '%' !in w.cwd ==> Within(w.fs, w.root, dir))
  {
    if arg == "" && '%' !in w.cwd {
      CanonicalStarts(w.fs, w.cwd);
    }
  }

  lemma RetrGrows(p: Promise, w: World, arg: string, o: Oracle)
    requires FileTarget(w, arg, o).Some? ==> p.sends(FileTarget(w, arg, o).value)
    requires p.texts ==> NoCrlf(CStr(arg))
    ensures p.Grows(w.kernel.trace, DoRetr(w, arg, o).0.kernel.trace)
  {
    hide FileTarget, Content, Retrieval, CloseData, Reply, Wording, Whole, Within, Promise.Grows, WellFormed, NoCrlf, CStr;
    var t := FileTarget(w, arg, o);
    Unchanged(p, w.kernel.trace);
    if t.Some? {
      RetrievalGrows(p, w, t.value, Content(w.fs, t.value), arg, o);
    }
    var (v, ok) := if t.Some? then Retrieval(w, t.value, Content(w.fs, t.value), arg, o) else (w, false);
    var n := if ok then TransferComplete else if |arg| > 0 && t.None? then NoFileToSend else LocalError;
    ClosingGrows(p, v, n, o);
    GrowsThen(p, w.kernel.trace, v.kernel.trace, Reply(CloseData(v, o), Wording(n), o.final).0.kernel.trace);
  }

  lemma RetrievalGrows(p: Promise, w: World, path: string, file: string, arg: string, o: Oracle)
    requires p.sends(path) && (p.texts ==> NoCrlf(CStr(arg)))
    ensures p.Grows(w.kernel.trace, Retrieval(w, path, file, arg, o).0.kernel.trace)
  {
    hide AcceptData, Reply, SendFile, Announcement, CStr, Whole, Within, Promise.Grows, WellFormed, NoCrlf;
    var (v, accepted) := AcceptData(w, o);
    AnnouncementIsWhole(v.binary, arg);
    var (u, ok) := Reply(v, Announcement(v.binary, arg), o.prelim);
    AcceptGrows(p, w, o);
    ReplyGrows(p, v, Announcement(v.binary, arg), o.prelim);
    SendFileGrows(p, u, path, file, o);
    GrowsThen(p, w.kernel.trace, v.kernel.trace, u.kernel.trace);
    GrowsThen(p, w.kernel.trace, u.kernel.trace, SendFile(u, path, file, o).0.kernel.trace);
  }

  lemma PasvGrows(p: Promise, w: World, o: Oracle)
    requires ValidIp(w.ip)
    ensures p.Grows(w.kernel.trace, DoPasv(w, o).0.kernel.trace)
  {
    PassiveIsWhole(w.ip);
    hide CloseData, Reply, PassiveReply, Wording, Whole, Within, WellFormed;
    CloseDataTrace(w, o);
    CloseDataSteady(w, o);
    var u := CloseData(w, o);
    var (v, ok) := CreateTransfer(u, PASV_PORT, o);
    assert v.ip == w.ip;
    assert p.Grows(w.kernel.trace, v.kernel.trace);
    hide CreateTransfer, Promise.Grows;
    ReplyGrows(p, v, PassiveReply(w.ip, PASV_PORT), o.final);
    NoticeGrows(p, v, NoDataConnection, o.final);
    GrowsThen(p, w.kernel.trace, v.kernel.trace, DoPasv(w, o).0.kernel.trace);
  }

  lemma PwdGrows(p: Promise, w: World, o: Oracle)
    requires Contained(w) && (p.texts ==> '%' !in w.cwd && NoCrlf(ServerPath(w.cwd, w.root)))
    ensures p.Grows(w.kernel.trace, DoPwd(w, o).0.kernel.trace)
  {
    hide Reply, Wording, Whole, Promise.Grows, WellFormed, ServerPath;
    NoticeGrows(p, w, NoDirectory, o.final);
    var cwd := CurrentDir(w, o);
    if cwd.Some? && cwd.value != "" {
      var path := ServerPath(cwd.value, w.root);
      PathReplyIsWhole(path);
      ReplyGrows(p, w, "257 \"" + path + "\"", o.final);
    }
  }

  /** The request's echoes hold no CRLF: the argument of RETR and the server path PWD shows. */
  predicate Echoes(w: World, c: Command, arg: string) {
    && (c == Retr ==> NoCrlf(CStr(arg)))
    && (c == Pwd ==> '%' !in w.cwd && NoCrlf(ServerPath(w.cwd, w.root)))
  }

  lemma ExecuteGrows(p: Promise, w: World, c: Command, arg: string, o: Oracle)
    requires Contained(w) && ValidIp(w.ip)
    requires c == Nlst && ListTarget(w, arg, o).Some? ==> p.allows(ListTarget(w, arg, o).value)
    requires c == Retr && FileTarget(w, arg, o).Some? ==> p.sends(FileTarget(w, arg, o).value)
    requires p.texts ==> Echoes(w, c, arg)
    ensures p.Grows(w.kernel.trace, Execute(w, c, arg, o).0.kernel.trace)
  {
    hide Reply, DoUser, DoPasv, DoNlst, DoPwd, DoCwd, DoRetr, DoSize, DoType, DoHelp, Wording,
         Whole, Within, Promise.Grows, WellFormed, NoCrlf, CStr, ListTarget, FileTarget, ServerPath;
    match c {
      case User => UserGrows(p, w, arg, o);
      case Syst => NoticeGrows(p, w, SystemType, o.final);
      case Pasv => PasvGrows(p, w, o);
      case Nlst => NlstGrows(p, w, arg, o);
      case Pwd => PwdGrows(p, w, o);
      case Cwd => CwdGrows(p, w, arg, o);
      case Retr => RetrGrows(p, w, arg, o);
      case Size => SizeGrows(p, w, arg, o);
      case Type => TypeGrows(p, w, arg, o);
      case Help => HelpGrows(p, w, o);
      case Quit => NoticeGrows(p, w, Bye, o.final);
    }
  }

  lemma UserGrows(p: Promise, w: World, arg: string, o: Oracle)
    ensures p.Grows(w.kernel.trace, DoUser(w, arg, o).0.kernel.trace)
  {
    hide Reply, Disconnect, Wording, Whole, Within, Promise.Grows, WellFormed;
    NoticeGrows(p, w, LoggedIn, o.final);
    NoticeGrows(p, w, LoginIncorrect, o.final);
    DisconnectTrace(Reply(w, Wording(LoginIncorrect), o.final).0, o);
  }

  lemma CwdGrows(p: Promise, w: World, arg: string, o: Oracle)
    ensures p.Grows(w.kernel.trace, DoCwd(w, arg, o).0.kernel.trace)
  {
    hide Reply, CwdTarget, CurrentDir, CStr, Wording, Whole, Within, Promise.Grows, WellFormed;
    var t := CwdTarget(w.fs, w.root, CurrentDir(w, o), CStr(arg), |arg|, o.tail);
    if t.Some? {
      NoticeGrows(p, w.(cwd := t.value), DirectoryChanged, o.final);
    }
    NoticeGrows(p, w, DirectoryKept, o.final);
  }

  lemma SizeGrows(p: Promise, w: World, arg: string, o: Oracle)
    ensures p.Grows(w.kernel.trace, DoSize(w, arg, o).0.kernel.trace)
  {
    hide Reply, FileTarget, Content, Dec, Wording, Whole, Within, Promise.Grows, WellFormed;
    var t := FileTarget(w, arg, o);
    if t.Some? {
      SizeIsWhole(|Content(w.fs, t.value)|);
      ReplyGrows(p, w, "213 " + Dec(|Content(w.fs, t.value)|), o.final);
    }
    NoticeGrows(p, w, NoFileToSize, o.final);
    NoticeGrows(p, w, LocalError, o.final);
  }

  lemma TypeGrows(p: Promise, w: World, arg: string, o: Oracle)
    ensures p.Grows(w.kernel.trace, DoType(w, arg, o).0.kernel.trace)
  {
    hide Reply, Selects, Wording, Whole, Within, Promise.Grows, WellFormed;
    NoticeGrows(p, w, BinaryMode, o.final);
    NoticeGrows(p, w, AsciiMode, o.final);
    NoticeGrows(p, w, BadParameter, o.final);
  }

  lemma HelpGrows(p: Promise, w: World, o: Oracle)
    ensures p.Grows(w.kernel.trace, DoHelp(w, o).0.kernel.trace)
  {
    HelpIsWhole();
    hide HelpText, Whole, Within;
    GrowsBy(p, w.kernel.trace, Control(w.clientSock, HelpText() + CRLF, o.final));
  }

  // ---------- requests, steps and runs ----------

  /** The directory a request makes the server list, if any. */
  function NamedDirectory(w: World, line: string, o: Oracle): Option<string> {
    if Find(TABLE, line) == Some(Nlst) then ListTarget(w, Argument(Nlst, line), o) else None
  }

  /** The file a request makes the server send, if any. */
  function NamedFile(w: World, line: string, o: Oracle): Option<string> {
    if Find(TABLE, line) == Some(Retr) then FileTarget(w, Argument(Retr, line), o) else None
  }

  predicate EchoesPlainly(w: World, line: string) {
    Find(TABLE, line).Some? ==> Echoes(w, Find(TABLE, line).value, Argument(Find(TABLE, line).value, line))
  }

  lemma RequestGrows(p: Promise, w: World, line: string, o: Oracle)
    requires Contained(w) && ValidIp(w.ip)
    requires NamedDirectory(w, line, o).Some? ==> p.allows(NamedDirectory(w, line, o).value)
    requires NamedFile(w, line, o).Some? ==> p.sends(NamedFile(w, line, o).value)
    requires p.texts ==> EchoesPlainly(w, line)
    ensures p.Grows(w.kernel.trace, Request(w, line, o).kernel.trace)
  {
    hide Execute, CloseData, Find, Reply, Wording, Whole, Within, WellFormed, NoCrlf, CStr, ListTarget, FileTarget, ServerPath;
    var u := w.Log(Command(line));
    GrowsBy(p, w.kernel.trace, Command(line));
    hide Promise.Grows;
    var c := Find(TABLE, line);
    if c.Some? {
      TargetLogged(w, Command(line), Argument(c.value, line), o);
      ExecuteGrows(p, u, c.value, Argument(c.value, line), o);
    } else {
      NoticeGrows(p, u, UnknownCommand, o.final);
    }
    var v := Perform(u, line, o).0;
    GrowsThen(p, w.kernel.trace, u.kernel.trace, v.kernel.trace);
    CloseDataTrace(v, o.Later());
  }

  lemma TargetLogged(w: World, e: Event, arg: string, o: Oracle)
    ensures ListTarget(w.Log(e), arg, o) == ListTarget(w, arg, o) && FileTarget(w.Log(e), arg, o) == FileTarget(w, arg, o)
  {
    hide ServerToReal, CStr, WellFormed;
    assert CurrentDir(w.Log(e), o) == CurrentDir(w, o);
  }

  /**
   * What one step adds to the trace: it opens a directory only for an NLST request and a file only for a RETR
   * request, and only the one that names, and every reply reads as one if its echoes hold no CRLF.
   */
  lemma StepGrows(p: Promise, w: World, o: Oracle)
    requires Between(w)
    requires w.connected && NamedDirectory(w, LineOf(o), o).Some? ==> p.allows(NamedDirectory(w, LineOf(o), o).value)
    requires w.connected && NamedFile(w, LineOf(o), o).Some? ==> p.sends(NamedFile(w, LineOf(o), o).value)
    requires w.connected && p.texts ==> EchoesPlainly(w, LineOf(o))
    requires p.port == w.port
    ensures p.Grows(w.kernel.trace, Step(w, o).0.kernel.trace)
  {
    hide Start, WaitForConnection, Request, Stop, Disconnect, Whole, Watch, Owned, WellFormed, NamedDirectory, NamedFile, EchoesPlainly;
    Unchanged(p, w.kernel.trace);
    hide Promise.Grows, Within;
    if !w.created {
      StartGrows(p, w, o);
    } else if !w.connected {
      WaitGrows(p, w, o);
    } else {
      StopTrace(w, o);
      DisconnectTrace(w, o);
      if o.received.Some? && IsRequest(o.received.value) {
        RequestGrows(p, w, LineOf(o), o);
      }
    }
  }

  lemma StartGrows(p: Promise, w: World, o: Oracle)
    requires p.port == w.port
    ensures p.Grows(w.kernel.trace, Start(w, o).0.kernel.trace)
  {
    hide SetTarget, CurrentDir, Whole, Within;
  }

  lemma WaitGrows(p: Promise, w: World, o: Oracle)
    requires Configured(w)
    ensures p.Grows(w.kernel.trace, WaitForConnection(w, o).0.kernel.trace)
  {
    hide ChangeDir, Reply, Stop, Wording, Whole, Within, WellFormed;
    var u := w.(clientSock := o.accept, kernel := w.kernel.Opened(o.accept).Logged(Session(o.accept)));
    GrowsBy(p, w.kernel.trace, Session(o.accept));
    Unchanged(p, w.kernel.trace);
    hide Promise.Grows;
    RootCwd(u, o);
    var v := u.(cwd := u.root);
    NoticeGrows(p, v, Ready, o.final);
    GrowsThen(p, w.kernel.trace, u.kernel.trace, Reply(v, Wording(Ready), o.final).0.kernel.trace);
    StopTrace(w.(clientSock := -1), o);
  }

  /** A directory opened in a step is the one its NLST request names, and a file the one its RETR request names. */
  lemma StepOpens(w: World, o: Oracle, i: nat)
    requires Between(w)
    ensures var t := Step(w, o).0.kernel.trace;
            && (|w.kernel.trace| <= i < |t| && t[i].Opens? ==>
                  w.connected && NamedDirectory(w, LineOf(o), o) == Some(t[i].dir))
            && (|w.kernel.trace| <= i < |t| && t[i].Fetches? ==>
                  w.connected && NamedFile(w, LineOf(o), o) == Some(t[i].path))
  {
    hide Step, NamedDirectory, NamedFile, Between, WellFormed;
    var p := Promise(w.port, d => w.connected && NamedDirectory(w, LineOf(o), o) == Some(d),
                     f => w.connected && NamedFile(w, LineOf(o), o) == Some(f), false);
    StepGrows(p, w, o);
    if |w.kernel.trace| <= i < |Step(w, o).0.kernel.trace| {
      assert p.Holds(Step(w, o).0.kernel.trace[i]);
    }
  }

  /** No directory the root check admits has a '%' in its path. */
  ghost predicate NoFormats(fs: Fs, root: string) {
    forall t | Within(fs, root, t) :: '%' !in t
  }

  /** No directory the root check admits has a CRLF in the path that PWD shows for it. */
  ghost predicate NoBreaks(fs: Fs, root: string) {
    forall t | Within(fs, root, t) :: NoCrlf(ServerPath(t, root))
  }

  /** No request asks for a file by a path with a CRLF in it. */
  predicate AsksPlainly(os: seq<Oracle>) {
    forall i | 0 <= i < |os| :: AskPlain(LineOf(os[i]))
  }

  predicate AskPlain(line: string) {
    Find(TABLE, line) == Some(Retr) ==> NoCrlf(CStr(Argument(Retr, line)))
  }

  /** What is asked of whole runs: directories held to the root check, files to the root, replies to one reading. */
  datatype Aims = Aims(dirs: bool, files: bool, texts: bool)

  function RunPromise(fs: Fs, root: string, port: nat, aims: Aims): Promise {
    Promise(port, d => aims.dirs ==> Within(fs, root, d), f => aims.files ==> Inside(root, f), aims.texts)
  }

  /** What the tree and the requests must be like for it. */
  ghost predicate Achievable(fs: Fs, root: string, aims: Aims, os: seq<Oracle>)
    requires CanonicalText(fs, root)
  {
    && (aims.dirs || aims.texts ==> NoFormats(fs, root))
    && (aims.files ==> FilesInside(fs, root))
    && (aims.texts ==> NoBreaks(fs, root) && AsksPlainly(os))
  }

  lemma {:induction false} RunGrows(w: World, os: seq<Oracle>, aims: Aims)
    requires Between(w) && CanonicalText(w.fs, w.root) && Achievable(w.fs, w.root, aims, os)
    ensures RunPromise(w.fs, w.root, w.port, aims).Grows(w.kernel.trace, Run(w, os).0.kernel.trace)
    decreases |os|
  {
    hide Step, Between, Whole, WellFormed, AskPlain, BadStart, Promise.Grows, Within, NoFormats, NoBreaks, FilesInside,
         RunPromise, CanonicalText;
    var p := RunPromise(w.fs, w.root, w.port, aims);
    Unchanged(p, w.kernel.trace);
    if os != [] {
      var (v, ok) := Step(w, os[0]);
      assert aims.texts ==> AskPlain(LineOf(os[0]));
      assert Achievable(w.fs, w.root, aims, os[1..]);
      RunStepGrows(w, os[0], aims);
      StepKeeps(w, os[0]);
      ConnectedCreated(w);
      StepFixes(w, os[0]);
      if ok {
        RunGrows(v, os[1..], aims);
        GrowsThen(p, w.kernel.trace, v.kernel.trace, Run(v, os[1..]).0.kernel.trace);
      }
    }
  }

  lemma RunStepGrows(w: World, o: Oracle, aims: Aims)
    requires Between(w) && CanonicalText(w.fs, w.root) && Achievable(w.fs, w.root, aims, [o])
    ensures RunPromise(w.fs, w.root, w.port, aims).Grows(w.kernel.trace, Step(w, o).0.kernel.trace)
  {
    hide Step, Watch, Owned, WellFormed, NoCrlf, CStr, Find, CanonicalDir, ListTarget, FileTarget, Promise.Grows, ServerPath,
         FilesInside, CanonicalText, IsFileText;
    ConnectedCreated(w);
    if w.connected && NamedDirectory(w, LineOf(o), o).Some? {
      TargetWithin(w, Argument(Nlst, LineOf(o)), o);
    }
    if w.connected && NamedFile(w, LineOf(o), o).Some? && aims.files {
      TargetInside(w, Argument(Retr, LineOf(o)), o);
    }
    assert aims.texts ==> AskPlain(LineOf([o][0]));
    StepGrows(RunPromise(w.fs, w.root, w.port, aims), w, o);
  }

  /** Where all files are below the root, RETR and SIZE find no other. */
  lemma TargetInside(w: World, arg: string, o: Oracle)
    requires CanonicalDir(w.fs, w.root) && FilesInside(w.fs, w.root) && FileTarget(w, arg, o).Some?
    ensures Inside(w.root, FileTarget(w, arg, o).value)
  {
    hide WellFormed, RealPath, FilesInside, CStr, CurrentDir;
    FileInside(w.fs, w.root, FileTarget(w, arg, o).value);
  }
}
