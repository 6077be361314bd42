/**
 * The server as a value: its fields, the descriptors the kernel has given out, and the
 * trace of what the client can observe. `Oracle` holds the results of the system calls of
 * one handler step, so every operation is a function of the world and the oracle.
 */
module Machine {
  import opened Text
  import opened Paths
  import opened Translation
  import opened HostPort

  const REQUEST_MAX := 288
  const RESPONSE_MAX := 288
  const CHUNK_MAX := 8192
  const PASV_PORT := 40000

  type CText = s: string | NulFree(s) witness ""
  type Packet = s: string | |s| < REQUEST_MAX witness ""
  /** A directory stream: never empty, since every directory has an entry for itself. */
  type Stream = s: seq<CText> | s != [] && (forall e | e in s :: e != "") witness ["."]

  datatype Event =
    | Session(sock: int)                  // a control connection was accepted
    | Command(line: string)               // a complete request line arrived
    | Listen(port: nat, data: bool)       // a passive socket became ready, for data or for control connections
    | Opens(dir: string)                  // a directory was opened for a listing
    | Fetches(path: string)               // a file was opened for sending
    | Accepted(sock: int)                 // a data connection was accepted
    | Control(sock: int, text: string, ok: bool)  // a reply handed to write(), and whether that succeeded
    | Data(sock: int, bytes: string)      // bytes of a file or listing that write() took

  datatype Oracle = Oracle(
    socket: int,                          // the number socket() offers
    fcntl: bool, setsockopt: bool, bind: bool, listen: bool,
    accept: int, again: bool,             // the number accept() offers; errno says "try again"
    received: Option<Packet>,             // what read() on the control socket returned
    shutdown: int -> bool,                // does shutdown() succeed on a live socket
    cleanup: int -> bool,                 // the same, when a failed command's data sockets are closed
    prelim: bool, final: bool,            // do the writes of a preliminary and a final reply succeed
    expanded: Option<CText>,              // what snprintf makes of a cwd that contains '%'
    tail: CText, beyond: char,            // memory behind an unterminated path, behind a full buffer
    fileAccess: bool, file: int,          // access() of a file, and the number open() offers
    fileStat: bool, size: nat,            // fstat() behind it
    chunks: nat -> int, writes: nat -> int,  // the k-th read of the file and write of its data
    dir: int, entries: Stream,            // the number opendir() offers, and the entries in order
    sends: nat -> int)                    // the k-th write of a directory line
  {
    /** The oracle for the clean-up behind a failed command. */
    function Later(): Oracle {
      this.(shutdown := cleanup)
    }

    /** A socket gets through all of its set-up. */
    predicate Setup() {
      fcntl && setsockopt && bind && listen
    }
  }

  datatype Kernel = Kernel(open: set<int>, stray: seq<int>, trace: seq<Event>) {
    /** A number the kernel can give out: above the standard streams and not in use. */
    predicate Fresh(fd: int) {
      fd > 2 && fd !in open
    }

    function Opened(fd: int): Kernel {
      this.(open := open + {fd})
    }

    /** close(): on a number that is not open it fails, which `stray` records. */
    function Closed(fd: int): Kernel {
      if fd == -1 then this
      else if fd in open then this.(open := open - {fd})
      else this.(stray := stray + [fd])
    }

    function Logged(e: Event): Kernel {
      this.(trace := trace + [e])
    }
  }

  datatype World = World(
    fs: Fs, root: string, ip: string, port: nat,
    cwd: string,
    serverSock: int, clientSock: int, transferSock: int, transferClientSock: int,
    binary: bool, connected: bool, created: bool,
    lost: set<int>,                       // open, but no longer named by any field or variable
    kernel: Kernel)
  {
    function Log(e: Event): World {
      this.(kernel := kernel.Logged(e))
    }
  }

  // ---------- sockets ----------

  /** shutdown(), then close() if that succeeded; otherwise a live descriptor is lost. */
  function Release(w: World, fd: int, o: Oracle): World {
    if fd == -1 || fd !in w.kernel.open then w
    else if o.shutdown(fd) then w.(kernel := w.kernel.Closed(fd))
    else w.(lost := w.lost + {fd})
  }

  function CloseTransferClient(w: World, o: Oracle): World {
    Release(w, w.transferClientSock, o).(transferClientSock := -1)
  }

  function CloseTransfer(w: World, o: Oracle): World {
    Release(w, w.transferSock, o).(transferSock := -1)
  }

  function CloseClient(w: World, o: Oracle): World {
    Release(w, w.clientSock, o).(clientSock := -1)
  }

  function CloseData(w: World, o: Oracle): World {
    CloseTransfer(CloseTransferClient(w, o), o)
  }

  function Disconnect(w: World, o: Oracle): World {
    CloseClient(CloseData(w, o), o).(connected := false)
  }

  function Stop(w: World, o: Oracle): World {
    var v := CloseClient(CloseData(w, o), o);
    var k := if v.serverSock == -1 then v.kernel else v.kernel.Closed(v.serverSock);
    v.(kernel := k, serverSock := -1, created := false, connected := false)
  }

  /** The new kernel, the number left in the socket variable, and success. */
  function CreatePassive(k: Kernel, port: nat, data: bool, o: Oracle): (Kernel, int, bool) {
    if !k.Fresh(o.socket) then (k, -1, false)
    else if o.Setup() then (k.Opened(o.socket).Logged(Listen(port, data)), o.socket, true)
    else (k.Opened(o.socket).Closed(o.socket), o.socket, false)
  }

  function CreateTransfer(w: World, port: nat, o: Oracle): (World, bool) {
    if w.transferSock != -1 then (w, false)
    else
      var (k, sock, ok) := CreatePassive(w.kernel, port, true, o);
      (w.(kernel := k, transferSock := sock), ok)
  }

  function AcceptData(w: World, o: Oracle): (World, bool) {
    if w.transferSock != -1 && w.transferSock in w.kernel.open && w.kernel.Fresh(o.accept) then
      (w.(kernel := w.kernel.Opened(o.accept).Logged(Accepted(o.accept)), transferClientSock := o.accept), true)
    else (w, false)
  }

  // ---------- replies ----------

  /** One reply: nothing is written when it does not fit the response buffer. */
  function Reply(w: World, text: string, sent: bool): (World, bool) {
    if |text| + 2 >= RESPONSE_MAX then (w, false)
    else (w.Log(Control(w.clientSock, text + CRLF, sent)), sent)
  }

  // ---------- working directory ----------

  /** The cwd is used as a format string; with a '%' in it the result is the oracle's. */
  function CurrentDir(w: World, o: Oracle): (r: Option<string>)
    ensures r.Some? ==> |r.value| < PATH_MAX
  {
    if !(0 < |w.cwd| < PATH_MAX) then None
    else if '%' !in w.cwd then Some(w.cwd)
    else if o.expanded.Some? && |o.expanded.value| < PATH_MAX then Some(o.expanded.value)
    else None
  }

  function ChangeDir(w: World, dir: string, len: nat, o: Oracle): (World, bool) {
    var t := SetTarget(w.fs, w.root, CurrentDir(w, o), dir, len);
    if t.Some? then (w.(cwd := t.value), true) else (w, false)
  }

  function Start(w: World, o: Oracle): (World, bool) {
    var (v, ok) := ChangeDir(w.(transferSock := -1, serverSock := -1, clientSock := -1), w.root, |w.root|, o);
    if !ok then (v, false)
    else
      var (k, sock, ready) := CreatePassive(v.kernel, v.port, false, o);
      (v.(binary := true, kernel := k, serverSock := sock, created := v.created || ready), ready)
  }

  // ---------- file transfer ----------

  /** read(): -1 on error, 0 at the end of the file, otherwise at least one byte and at most what was asked. */
  function ReadResult(offered: int, toRead: nat, available: nat): (n: int)
    ensures -1 <= n <= toRead && n <= available
  {
    if offered == -1 then -1
    else
      var most := if toRead < available then toRead else available;
      if 1 <= offered <= most then offered else most
  }

  /** write(): -1 on error, otherwise a possibly short count. */
  function WriteResult(offered: int, n: nat): (m: int)
    ensures -1 <= m <= n
  {
    if offered == -1 then -1 else if 0 <= offered <= n then offered else n
  }

  /** How many bytes one turn asks for, gets and passes on. */
  function Asked(count: nat): (n: nat)
    ensures n <= count && (count > 0 ==> n > 0)
  {
    if count < CHUNK_MAX then count else CHUNK_MAX
  }

  function Got(file: string, pos: nat, count: nat, k: nat, o: Oracle): (n: int)
    requires pos <= |file|
    ensures -1 <= n <= count && n <= |file| - pos
    ensures n == 0 && count > 0 ==> pos == |file|
  {
    ReadResult(o.chunks(k), Asked(count), |file| - pos)
  }

  datatype Sent = Sent(trace: seq<Event>, left: nat, ok: bool)

  /** The send loop from read position pos with `count` bytes to go, at its k-th turn. */
  function SendLoop(t: seq<Event>, sock: int, file: string, pos: nat, count: nat, k: nat, o: Oracle): (r: Sent)
    requires pos <= |file|
    decreases count
  {
    if count == 0 then Sent(t, 0, true)
    else
      var n := Got(file, pos, count, k, o);
      if n <= 0 then Sent(t, count, n == 0)
      else
        var m := WriteResult(o.writes(k), n);
        if m == -1 then Sent(t, count, false)
        else if m == 0 then Sent(t + [Data(sock, "")], count, false)
        else SendLoop(t + [Data(sock, file[pos..pos + m])], sock, file, pos + n, count - m, k + 1, o)
  }

  /** Opening, sending and closing a file on the data connection. */
  function SendFile(w: World, path: string, file: string, o: Oracle): (World, bool) {
    if !o.fileAccess || !w.kernel.Fresh(o.file) then (w, false)
    else
      var t := w.kernel.trace + [Fetches(path)];
      var r := if o.fileStat then SendLoop(t, w.transferClientSock, file, 0, o.size, 0, o) else Sent(t, 0, false);
      (w.(kernel := w.kernel.Opened(o.file).(trace := r.trace).Closed(o.file)), r.ok)
  }

  // ---------- directory listing ----------

  /**
   * The two characters behind a text when it is handed to write(): snprintf put "\r\n" and a NUL into the room left
   * in the buffer, and write() is told two more characters whatever the room was.
   */
  function LineEnd(room: nat, beyond: char, further: char): (e: string)
    ensures |e| == 2
  {
    if room >= 3 then CRLF
    else if room == 2 then ['\r', NUL]
    else if room == 1 then [NUL, beyond]
    else [beyond, further]
  }

  /** A line of the listing as handed to write(), from a buffer of PATH_MAX. */
  function Frame(text: string, beyond: char): (f: string)
    requires 0 < |text| < PATH_MAX
    ensures |f| == |text| + 2 && text <= f
  {
    text + LineEnd(PATH_MAX - |text|, beyond, beyond)
  }

  /** One line on the data connection: the trace behind it, and success. */
  function SendLine(t: seq<Event>, sock: int, text: string, i: nat, o: Oracle): (seq<Event>, bool)
    requires 0 < |text| < PATH_MAX
  {
    var f := Frame(text, o.beyond);
    var m := WriteResult(o.sends(i), |f|);
    if m == -1 then (t, false) else (t + [Data(sock, f[..m])], true)
  }

  /** One line of the listing, as the file system layer builds it. */
  function Line(dir: string, withPath: bool, entry: string): string {
    if withPath then dir + "/" + entry else entry
  }

  /** The line as sent: with a directory argument it is turned into a server path first. */
  function Shown(root: string, withPath: bool, line: string): (s: string)
    requires line != "" && |line| < PATH_MAX
    ensures 0 < |s| < PATH_MAX
  {
    if !withPath then line
    else if line <= root then "/"
    else
      var n := CommonLength(line, root);
      assert n == |line| ==> line <= root;
      ServerPath(line, root)
  }

  datatype Listed = Listed(trace: seq<Event>, ok: bool, closed: bool)

  /** The listing loop at the i-th list call; `line` is what the buffer holds. */
  function ListLoop(
      t: seq<Event>, sock: int, root: string, dir: string, withPath: bool, i: nat, line: string, o: Oracle): Listed
    requires i <= |o.entries|
    requires i > 0 ==> 0 < |line| < PATH_MAX
    decreases |o.entries| - i
  {
    if i == |o.entries| then
      var (u, ok) := SendLine(t, sock, Shown(root, withPath, line), i, o);
      Listed(u, ok, true)
    else
      var next := Line(dir, withPath, o.entries[i]);
      if |next| >= PATH_MAX then Listed(t, false, true)
      else
        var (u, ok) := SendLine(t, sock, Shown(root, withPath, next), i, o);
        if ok then ListLoop(u, sock, root, dir, withPath, i + 1, next, o) else Listed(u, false, false)
  }

  /** The world behind a listing of an opened directory; a handle left open by a failed send is lost. */
  function AfterListing(w: World, r: Listed, o: Oracle): (World, bool) {
    var k := w.kernel.Opened(o.dir).(trace := r.trace);
    (if r.closed then w.(kernel := k.Closed(o.dir)) else w.(kernel := k, lost := w.lost + {o.dir}), r.ok)
  }

  function ListDir(w: World, dir: string, withPath: bool, o: Oracle): (World, bool) {
    if dir == "" || !w.kernel.Fresh(o.dir) then (w, false)
    else
      var u := w.Log(Opens(dir));
      AfterListing(u, ListLoop(u.kernel.trace, u.transferClientSock, u.root, dir, withPath, 0, "", o), o)
  }
}
