/** src/common/vsftp_commands.c: the command handlers and the parser, on the server object. */
module Handlers {
  import opened Text
  import opened Paths
  import opened Translation
  import opened HostPort
  import opened Dispatch
  import opened Machine
  import opened Protocol
  import opened Operating
  import opened Filesystem
  import opened Transfers
  import opened Daemon

  method HandleUser(s: Server, arg: string, o: Oracle) returns (ok: bool)
    requires s.Valid()
    modifies s, s.os
    ensures s.Valid() && (s.State(), ok) == DoUser(old(s.State()), arg, o)
  {
    hide Reply, Disconnect, CStr, Wording, WellFormed;
    if arg == "anonymous" {
      ok := s.SendReply(Wording(LoggedIn), o.final);
    } else {
      ok := s.SendReply(Wording(LoginIncorrect), o.final);
      s.ClientDisconnect(o);
    }
  }

  method HandlePasv(s: Server, o: Oracle) returns (ok: bool)
    requires s.Valid()
    modifies s, s.os
    ensures s.Valid() && (s.State(), ok) == DoPasv(old(s.State()), o)
  {
    hide Reply, CloseTransferClient, CloseTransfer, CreateTransfer, CStr, Wording, Dec, WellFormed, Commas;
    var ipAddrBuf := new char[IP_MAX];
    s.CloseTransferClientSocket(o);
    s.CloseTransferSocket(o);
    ok := s.CreateTransferSocket(PASV_PORT, o);
    if ok {
      var p1, p2 := PASV_PORT / 256 % 256, PASV_PORT % 256;
      var ipAddrLen := s.GetServerIP4(ipAddrBuf);
      DotsToCommas(ipAddrBuf, ipAddrLen);
      ok := s.SendReply("227 Entering Passive Mode (" + (CStr(ipAddrBuf[..]) + [','] + Dec(p1) + [','] + Dec(p2)) + ").",
                        o.final);
    } else {
      ok := s.SendReply(Wording(NoDataConnection), o.final);
    }
  }

  /** The loop over the address text, in place. */
  method DotsToCommas(buf: array<char>, len: nat)
    requires len == |CStr(buf[..])|
    modifies buf
    ensures CStr(buf[..]) == Commas(old(CStr(buf[..])))
  {
    ghost var ip := CStr(buf[..]);
    InBuffer(buf[..], ip);
    var i := 0;
    while i < len
      invariant 0 <= i <= len == |ip| <= buf.Length
      invariant buf[..i] == Commas(ip)[..i]
      invariant buf[i..|ip|] == ip[i..]
      invariant |ip| < buf.Length ==> buf[|ip|] == NUL
    {
      assert buf[i] == buf[i..|ip|][0] == ip[i];
      if buf[i] == '.' {
        buf[i] := ',';
      }
      i := i + 1;
    }
    CommasInBuffer(buf[..], ip);
  }

  lemma InBuffer(m: seq<char>, s: string)
    requires CStr(m) == s
    ensures s == m[..|s|] && (|s| < |m| ==> m[|s|] == NUL)
  {
  }

  lemma CommasInBuffer(m: seq<char>, ip: string)
    requires |ip| <= |m| && m[..|ip|] == Commas(ip) && NulFree(ip) && (|ip| < |m| ==> m[|ip|] == NUL)
    ensures CStr(m) == Commas(ip)
  {
    CStrUnique(m, Commas(ip));
  }

  /** NLST's choice: the cwd, or the argument's real path if it is a directory not above the root. */
  method ChooseDirectory(s: Server, arg: string, o: Oracle) returns (ok: bool, lpath: string)
    requires s.Valid()
    ensures var r := ListTarget(s.State(), arg, o);
            ok == r.Some? && (ok ==> lpath == r.value && NulFree(lpath))
    ensures ok && arg != "" ==> NotAbove(CStr(s.rootPath[..]), lpath)
  {
    hide CurrentDir, ServerToReal, CStr, WellFormed, IsDirText;
    var cwd := new char[PATH_MAX];
    var realPath := new char[PATH_MAX];
    var cwdLen, realPathLen;
    lpath := "";
    ok, cwdLen := s.GetCwd(cwd, o);
    if ok {
      lpath := CStr(cwd[..]);
      if |arg| != 0 {
        ok, realPathLen := s.ServerPathToRealPath(CStr(arg), |arg|, realPath, o);
        var target := CStr(realPath[..]);
        if ok {
          ok := IsDir(s.fs, target, realPathLen, false);
        }
        if ok {
          ok := s.AbsPathIsNotAboveRootPath(target, realPathLen);
        }
        if ok {
          lpath := target;
        }
      }
    }
  }

  /** One turn of the listing loop. */
  lemma ListTurn(t: seq<Event>, sock: int, root: string, dir: string, withPath: bool, i: nat, line: string, o: Oracle)
    requires i <= |o.entries| && (i > 0 ==> 0 < |line| < PATH_MAX)
    ensures var r := ListLoop(t, sock, root, dir, withPath, i, line, o);
            if i == |o.entries| then
              var (u, ok) := SendLine(t, sock, Shown(root, withPath, line), i, o);
              r == Listed(u, ok, true)
            else
              var next := Line(dir, withPath, o.entries[i]);
              if |next| >= PATH_MAX then r == Listed(t, false, true)
              else
                && next != ""
                && var (u, ok) := SendLine(t, sock, Shown(root, withPath, next), i, o);
                   r == if ok then ListLoop(u, sock, root, dir, withPath, i + 1, next, o) else Listed(u, false, false)
  {
  }

  /** Sends the line in the buffer, as a server path if a directory was named. */
  method SendListed(s: Server, buf: array<char>, bufLen: nat, withPath: bool, i: nat, o: Oracle) returns (ok: bool)
    requires s.Valid() && buf.Length == PATH_MAX && buf != s.cwd && buf != s.rootPath && buf != s.ipAddr
    requires 0 < bufLen < PATH_MAX
    requires withPath ==> CStr(buf[..]) == buf[..bufLen] && !(buf[..bufLen] <= CStr(s.rootPath[..]))
    modifies s.os, buf
    ensures s.Valid() && buf[..bufLen] == old(buf[..bufLen])
    ensures withPath ==> buf[..] == old(buf[..])
    ensures var w := old(s.State());
            var (t, sent) := SendLine(w.kernel.trace, w.transferClientSock,
                                      Shown(w.root, withPath, old(buf[..bufLen])), i, o);
            ok == sent && s.State() == w.(kernel := w.kernel.(trace := t))
  {
    hide WellFormed, SendLine, CommonLength;
    if withPath {
      var serverPath := new char[PATH_MAX];
      var serverPathLen;
      ok, serverPathLen := s.RealPathToServerPath(buf[..], PATH_MAX, serverPath, o.tail);
      DifferenceShown(buf[..], s.rootPath[..], PATH_MAX, o.tail);
      InBuffer(serverPath[..], CStr(serverPath[..]));
      ok := s.SendReplyOwnBufTransfer(serverPath, serverPathLen, i, o);
    } else {
      ok := s.SendReplyOwnBufTransfer(buf, bufLen, i, o);
    }
  }

  lemma LineNotRoot(root: string, dir: string, entry: string)
    requires NotAbove(root, dir)
    ensures !(Line(dir, true, entry) <= root)
  {
  }

  /** Accept, announce, and the do-while loop over the directory. */
  method ListOnTransfer(s: Server, lpath: string, withPath: bool, o: Oracle) returns (ok: bool)
    requires s.Valid() && NulFree(lpath)
    requires withPath ==> NotAbove(CStr(s.rootPath[..]), lpath)
    modifies s, s.os
    ensures s.Valid() && (s.State(), ok) == Listing(old(s.State()), lpath, withPath, o)
  {
    hide Reply, AcceptData, CStr, Wording, WellFormed, SendLine, ListLoop, Shown;
    ok := s.AcceptTransferClientConnection(o);
    if ok {
      ok := s.SendReply(Wording(ListingComes), o.prelim);
    }
    if ok {
      ok := ListAll(s, lpath, withPath, o);
    }
  }

  /** The whole listing of a directory that w opens. */
  function Begun(w: World, lpath: string, withPath: bool, o: Oracle): Listed {
    ListLoop(w.kernel.trace + [Opens(lpath)], w.transferClientSock, w.root, lpath, withPath, 0, "", o)
  }

  /** The trace once the directory is open: the first list call opens it. */
  function Entered(t: seq<Event>, i: nat, lpath: string): seq<Event> {
    if i == 0 then t + [Opens(lpath)] else t
  }

  /** The server in the middle of a listing that started in w, before list call i. */
  ghost predicate MidListing(s: Server, w: World, lpath: string, withPath: bool, buf: array<char>, bufLen: nat,
                             d: Option<DirStream>, i: nat, line: string, o: Oracle)
    reads s, s.os, s.rootPath, s.ipAddr, s.cwd, buf
  {
    && s.Valid() && i <= |o.entries| && buf.Length == PATH_MAX
    && s.State() == w.(kernel := s.os.State())
    && (if i == 0 then d == None && s.os.State() == w.kernel && line == ""
        else
          && lpath != "" && w.kernel.Fresh(o.dir) && d == Some(DirStream(o.dir, i))
          && s.os.State() == w.kernel.Opened(o.dir).(trace := s.os.trace)
          && line == Line(lpath, withPath, o.entries[i - 1])
          && 0 < bufLen == |line| < PATH_MAX && buf[..bufLen] == line && (withPath ==> CStr(buf[..]) == line))
    && (lpath != "" && w.kernel.Fresh(o.dir) ==>
          ListLoop(Entered(s.os.trace, i, lpath), w.transferClientSock, w.root, lpath, withPath, i, line, o)
          == Begun(w, lpath, withPath, o))
  }

  /** The world w with its directory handle open, or closed again, and another trace. */
  function Handed(w: World, t: seq<Event>, closed: bool, o: Oracle): World {
    var k := w.kernel.Opened(o.dir).(trace := t);
    w.(kernel := if closed then k.Closed(o.dir) else k)
  }

  /** With trace t behind list call i, `now` is the line to send. */
  ghost predicate Fetched(w: World, t: seq<Event>, lpath: string, withPath: bool, i: nat, now: string,
                          closed: bool, o: Oracle)
  {
    && lpath != "" && w.kernel.Fresh(o.dir) && 0 < |now| < PATH_MAX
    && (if closed then i == |o.entries| else i < |o.entries| && now == Line(lpath, withPath, o.entries[i]))
    && var (u, sent) := SendLine(t, w.transferClientSock, Shown(w.root, withPath, now), i, o);
       Begun(w, lpath, withPath, o)
       == if !closed && sent then
            ListLoop(u, w.transferClientSock, w.root, lpath, withPath, i + 1, now, o)
          else Listed(u, sent, closed)
  }

  lemma SentListed(w: World, t: seq<Event>, lpath: string, withPath: bool, i: nat, now: string,
                   closed: bool, o: Oracle)
    requires Fetched(w, t, lpath, withPath, i, now, closed, o)
    ensures var (u, sent) := SendLine(t, w.transferClientSock, Shown(w.root, withPath, now), i, o);
            && (closed ==> (Handed(w, u, true, o), sent) == ListDir(w, lpath, withPath, o))
            && (!closed && !sent ==>
                  (Handed(w, u, false, o).(lost := w.lost + {o.dir}), false) == ListDir(w, lpath, withPath, o))
            && (!closed && sent ==>
                  ListLoop(u, w.transferClientSock, w.root, lpath, withPath, i + 1, now, o)
                  == Begun(w, lpath, withPath, o))
  {
    hide ListLoop, SendLine, Shown, WellFormed;
  }

  lemma Retraced(w: World, t: seq<Event>, u: seq<Event>, closed: bool, o: Oracle)
    ensures var h := Handed(w, t, closed, o);
            && h.(kernel := h.kernel.(trace := u)) == Handed(w, u, closed, o)
            && h.root == w.root && h.transferClientSock == w.transferClientSock && h.kernel.trace == t
            && h.lost == w.lost
  {
    hide WellFormed;
  }

  /** One turn of the do-while loop: a list call and the send of its line. */
  method ListStep(s: Server, lpath: string, withPath: bool, buf: array<char>, bufLen: nat, d: Option<DirStream>,
                  i: nat, o: Oracle, ghost w: World, ghost line: string)
    returns (ok: bool, newLen: nat, next: Option<DirStream>)
    requires NulFree(lpath) && buf.Length == PATH_MAX
    requires MidListing(s, w, lpath, withPath, buf, bufLen, d, i, line, o)
    requires withPath ==> NotAbove(w.root, lpath)
    requires buf != s.cwd && buf != s.rootPath && buf != s.ipAddr
    modifies s`lost, s.os, buf
    ensures s.Valid()
    ensures ok && next.Some? ==>
              i < |o.entries|
              && MidListing(s, w, lpath, withPath, buf, newLen, next, i + 1, Line(lpath, withPath, o.entries[i]), o)
    ensures !(ok && next.Some?) ==> (s.State(), ok) == ListDir(w, lpath, withPath, o)
  {
    hide CStr, WellFormed, SendLine, ListLoop, Shown, ListDir, Line, MidListing, Handed, Fetched;
    ghost var now;
    ok, newLen, next, now := Fetch(s, lpath, withPath, buf, bufLen, d, i, o, w, line);
    if ok {
      ghost var t := s.os.trace;
      Retraced(w, t, SendLine(t, w.transferClientSock, Shown(w.root, withPath, now), i, o).0, next.None?, o);
      SentListed(w, t, lpath, withPath, i, now, next.None?, o);
      ok := SendListed(s, buf, newLen, withPath, i, o);
      if !ok && next.Some? {
        s.lost := s.lost + {o.dir};
      }
      if ok && next.Some? {
        Continues(s, w, lpath, withPath, buf, newLen, next, i + 1, now, o);
      }
    }
  }

  lemma Continues(s: Server, w: World, lpath: string, withPath: bool, buf: array<char>, bufLen: nat,
                  d: Option<DirStream>, i: nat, line: string, o: Oracle)
    requires s.Valid() && 0 < i <= |o.entries| && buf.Length == PATH_MAX
    requires lpath != "" && w.kernel.Fresh(o.dir) && d == Some(DirStream(o.dir, i))
    requires s.State() == Handed(w, s.os.trace, false, o)
    requires line == Line(lpath, withPath, o.entries[i - 1])
    requires 0 < bufLen == |line| < PATH_MAX && buf[..bufLen] == line && (withPath ==> CStr(buf[..]) == line)
    requires ListLoop(s.os.trace, w.transferClientSock, w.root, lpath, withPath, i, line, o)
          == Begun(w, lpath, withPath, o)
    ensures MidListing(s, w, lpath, withPath, buf, bufLen, d, i, line, o)
  {
    hide ListLoop, CStr, WellFormed, Line;
  }

  /** The list call of one turn. */
  method Fetch(s: Server, lpath: string, withPath: bool, buf: array<char>, bufLen: nat, d: Option<DirStream>,
               i: nat, o: Oracle, ghost w: World, ghost line: string)
    returns (ok: bool, newLen: nat, next: Option<DirStream>, ghost now: string)
    requires NulFree(lpath) && MidListing(s, w, lpath, withPath, buf, bufLen, d, i, line, o)
    requires withPath ==> NotAbove(w.root, lpath)
    requires buf != s.cwd && buf != s.rootPath && buf != s.ipAddr
    modifies s.os, buf
    ensures s.Valid()
    ensures !ok ==> (s.State(), false) == ListDir(w, lpath, withPath, o)
    ensures ok ==>
      && lpath != "" && w.kernel.Fresh(o.dir)
      && 0 < newLen == |now| < PATH_MAX && buf[..newLen] == now && (withPath ==> CStr(buf[..]) == now && !(now <= w.root))
      && next == (if i < |o.entries| then Some(DirStream(o.dir, i + 1)) else None)
      && (i < |o.entries| ==> now == Line(lpath, withPath, o.entries[i]))
      && s.State() == Handed(w, s.os.trace, next.None?, o)
      && Fetched(w, s.os.trace, lpath, withPath, i, now, next.None?, o)
  {
    hide CStr, WellFormed, SendLine, ListLoop, Shown, ListDir, Line, NotAbove, Fetched;
    if lpath != "" && w.kernel.Fresh(o.dir) {
      TurnLeads(w, Entered(s.os.trace, i, lpath), lpath, withPath, i, line, o);
    }
    NoListing(w, lpath, withPath, o);
    now := if i < |o.entries| then Line(lpath, withPath, o.entries[i]) else line;
    ok, newLen, next := ListDirPerLine(s.os, lpath, |lpath|, buf, bufLen, withPath, d, o);
    if ok {
      if i < |o.entries| {
        InBuffer(buf[..], now);
      }
      if withPath {
        LineNotRoot(w.root, lpath, o.entries[if i < |o.entries| then i else i - 1]);
      }
    } else if lpath != "" && w.kernel.Fresh(o.dir) {
      Unfit(w, s.os.trace, lpath, withPath, o);
    }
  }

  lemma TurnLeads(w: World, t: seq<Event>, lpath: string, withPath: bool, i: nat, line: string, o: Oracle)
    requires lpath != "" && w.kernel.Fresh(o.dir) && i <= |o.entries| && (i > 0 ==> 0 < |line| < PATH_MAX)
    requires ListLoop(t, w.transferClientSock, w.root, lpath, withPath, i, line, o)
          == Begun(w, lpath, withPath, o)
    ensures var end := i == |o.entries|;
            var now := if end then line else Line(lpath, withPath, o.entries[i]);
            && now != ""
            && (if |now| >= PATH_MAX then
                  Begun(w, lpath, withPath, o)
                  == Listed(t, false, true)
                else Fetched(w, t, lpath, withPath, i, now, end, o))
  {
    ListTurn(t, w.transferClientSock, w.root, lpath, withPath, i, line, o);
    hide SendLine, ListLoop, Shown, Line, WellFormed;
  }

  lemma Unfit(w: World, t: seq<Event>, lpath: string, withPath: bool, o: Oracle)
    requires lpath != "" && w.kernel.Fresh(o.dir)
    requires Begun(w, lpath, withPath, o) == Listed(t, false, true)
    ensures (Handed(w, t, true, o), false) == ListDir(w, lpath, withPath, o)
  {
    hide ListLoop, WellFormed;
  }

  lemma NoListing(w: World, dir: string, withPath: bool, o: Oracle)
    ensures dir == "" || !w.kernel.Fresh(o.dir) ==> ListDir(w, dir, withPath, o) == (w, false)
  {
  }

  method ListAll(s: Server, lpath: string, withPath: bool, o: Oracle) returns (ok: bool)
    requires s.Valid() && NulFree(lpath)
    requires withPath ==> NotAbove(CStr(s.rootPath[..]), lpath)
    modifies s`lost, s.os
    ensures s.Valid() && (s.State(), ok) == ListDir(old(s.State()), lpath, withPath, o)
  {
    hide CStr, WellFormed, ListLoop, ListDir;
    var buf := new char[PATH_MAX];
    var bufLen: nat, d: Option<DirStream>, i: nat := 0, None, 0;
    ghost var w, line := s.State(), "";
    var more := true;
    ok := true;
    while more
      invariant s.Valid() && i <= |o.entries|
      invariant more ==> MidListing(s, w, lpath, withPath, buf, bufLen, d, i, line, o)
      invariant !more ==> (s.State(), ok) == ListDir(w, lpath, withPath, o)
      modifies s`lost, s.os, buf
      decreases if more then |o.entries| + 1 - i else 0
    {
      ok, bufLen, d := ListStep(s, lpath, withPath, buf, bufLen, d, i, o, w, line);
      more := ok && d.Some?;
      if more {
        line := Line(lpath, withPath, o.entries[i]);
        i := i + 1;
      }
    }
  }

  method HandleNlst(s: Server, arg: string, o: Oracle) returns (ok: bool)
    requires s.Valid()
    modifies s, s.os
    ensures s.Valid() && (s.State(), ok) == DoNlst(old(s.State()), arg, o)
  {
    hide Reply, CloseTransferClient, CloseTransfer, Listing, ListTarget, CStr, Wording, WellFormed;
    var lpath;
    ok, lpath := ChooseDirectory(s, arg, o);
    if ok {
      ok := ListOnTransfer(s, lpath, |arg| != 0, o);
    }
    s.CloseTransferClientSocket(o);
    s.CloseTransferSocket(o);
    if ok {
      ok := s.SendReply(Wording(ListingSent), o.final);
    } else {
      ok := s.SendReply(Wording(ListingDenied), o.final);
    }
  }

  method HandlePwd(s: Server, o: Oracle) returns (ok: bool)
    requires s.Valid()
    modifies s.os
    ensures s.Valid() && (s.State(), ok) == DoPwd(old(s.State()), o)
  {
    hide Reply, CurrentDir, CStr, Wording, ServerPath, WellFormed;
    var cwd := new char[PATH_MAX];
    var serverPath := new char[PATH_MAX];
    var cwdLen, serverPathLen;
    ok, cwdLen := s.GetCwd(cwd, o);
    if ok {
      DifferenceShown(cwd[..], s.rootPath[..], cwdLen, o.tail);
      ok, serverPathLen := s.RealPathToServerPath(cwd[..], cwdLen, serverPath, o.tail);
    }
    if ok {
      ok := s.SendReply("257 \"" + CStr(serverPath[..]) + "\"", o.final);
    } else {
      ok := s.SendReply(Wording(NoDirectory), o.final);
    }
  }

  method HandleCwd(s: Server, arg: string, o: Oracle) returns (ok: bool)
    requires s.Valid()
    modifies s`cwdLen, s.cwd, s.os
    ensures s.Valid() && (s.State(), ok) == DoCwd(old(s.State()), arg, o)
  {
    hide Reply, CurrentDir, CStr, Wording, ServerToReal, SetTarget, WellFormed;
    var realPath := new char[PATH_MAX];
    var realPathLen;
    ok, realPathLen := s.ServerPathToRealPath(CStr(arg), |arg|, realPath, o);
    NoPathNoTarget(s.State(), arg, o);
    if ok {
      ok := s.SetCwd(CStr(realPath[..]), realPathLen, o);
    }
    if ok {
      ok := s.SendReply(Wording(DirectoryChanged), o.final);
    } else {
      ok := s.SendReply(Wording(DirectoryKept), o.final);
    }
  }

  /** The handler skips the translation of an empty argument; the translation refuses it anyway. */
  lemma NoPathNoTarget(w: World, arg: string, o: Oracle)
    ensures |arg| == 0 ==> ServerToReal(w.fs, w.root, CurrentDir(w, o), CStr(arg), |arg|, o.tail) == None
  {
  }

  /** RETR and SIZE: the argument's real path, if it names a regular file. */
  method FindFile(s: Server, arg: string, o: Oracle) returns (ok: bool, isFileError: bool, realPath: string)
    requires s.Valid()
    ensures var r := FileTarget(s.State(), arg, o);
            && ok == r.Some? && (ok ==> realPath == r.value && realPath != "")
            && (isFileError <==> |arg| > 0 && !ok)
  {
    hide CurrentDir, CStr, ServerToReal, IsFileText, WellFormed;
    var buf := new char[PATH_MAX];
    var len: nat := 0;
    ok, isFileError, realPath := false, false, "";
    NoPathNoTarget(s.State(), arg, o);
    if |arg| > 0 {
      ok, len := s.ServerPathToRealPath(CStr(arg), |arg|, buf, o);
      if !ok {
        isFileError := true;
      }
    }
    if ok {
      realPath := CStr(buf[..]);
      ok := IsFile(s.fs, realPath, len, false);
      if !ok {
        isFileError := true;
      }
    }
  }

  /** Accept, announce in the current mode, send. */
  method RetrieveOnTransfer(s: Server, realPath: string, arg: string, o: Oracle) returns (ok: bool)
    requires s.Valid() && IsFileText(s.fs, realPath) && realPath != ""
    modifies s, s.os
    ensures s.Valid() && (s.State(), ok) == Retrieval(old(s.State()), realPath, Content(s.fs, realPath), arg, o)
  {
    hide Reply, AcceptData, SendFile, CStr, Announcement, WellFormed, Content, IsFileText;
    ok := s.AcceptTransferClientConnection(o);
    if ok {
      ok := s.SendReply(Announcement(s.transferModeBinary, arg), o.prelim);
    }
    if ok {
      ok := s.SendfileTransfer(realPath, |realPath|, Content(s.fs, realPath), o);
    }
  }

  method HandleRetr(s: Server, arg: string, o: Oracle) returns (ok: bool)
    requires s.Valid()
    modifies s, s.os
    ensures s.Valid() && (s.State(), ok) == DoRetr(old(s.State()), arg, o)
  {
    hide Reply, CloseTransferClient, CloseTransfer, AcceptData, SendFile,
         FileTarget, Content, CStr, Wording, Retrieval, WellFormed;
    var isFileError, realPath;
    ok, isFileError, realPath := FindFile(s, arg, o);
    if ok {
      ok := RetrieveOnTransfer(s, realPath, arg, o);
    }
    s.CloseTransferClientSocket(o);
    s.CloseTransferSocket(o);
    if ok {
      ok := s.SendReply(Wording(TransferComplete), o.final);
    } else {
      ok := s.SendReply(if isFileError then Wording(NoFileToSend) else Wording(LocalError), o.final);
    }
  }

  method HandleSize(s: Server, arg: string, o: Oracle) returns (ok: bool)
    requires s.Valid()
    modifies s.os
    ensures s.Valid() && (s.State(), ok) == DoSize(old(s.State()), arg, o)
  {
    hide Reply, FileTarget, Content, CStr, Wording, Dec, WellFormed;
    var isFileError, realPath;
    ok, isFileError, realPath := FindFile(s, arg, o);
    if ok {
      ok := s.SendReply("213 " + Dec(|Content(s.fs, realPath)|), o.final);
    } else {
      ok := s.SendReply(if isFileError then Wording(NoFileToSize) else Wording(LocalError), o.final);
    }
  }

  method HandleType(s: Server, arg: string, o: Oracle) returns (ok: bool)
    requires s.Valid()
    modifies s`transferModeBinary, s.os
    ensures s.Valid() && (s.State(), ok) == DoType(old(s.State()), arg, o)
  {
    hide Reply, CStr, Wording, WellFormed;
    if |arg| == 1 && (arg[0] == 'I' || arg[0] == 'i') {
      ok := s.SendReply(Wording(BinaryMode), o.final);
      if ok {
        s.SetTransferMode(true);
      }
    } else if |arg| == 1 && (arg[0] == 'A' || arg[0] == 'a') {
      ok := s.SendReply(Wording(AsciiMode), o.final);
      if ok {
        s.SetTransferMode(false);
      }
    } else {
      ok := s.SendReply(Wording(BadParameter), o.final);
    }
  }

  lemma {:induction false} NamesLength(table: seq<Command>)
    ensures |Names(table)| <= 5 * |table|
  {
    if table != [] {
      NamesLength(table[..|table| - 1]);
    }
  }

  const HELP_MAX := 256

  /** Appends text to what is in the buffer. */
  method Append(buf: array<char>, written: nat, text: string) returns (newWritten: nat)
    requires written + |text| < buf.Length
    modifies buf
    ensures newWritten == written + |text|
    ensures buf[..newWritten] == old(buf[..written]) + text
  {
    var n := Snprintf(buf, written, buf.Length - written, text);
    newWritten := written + n;
  }

  method HandleHelp(s: Server, o: Oracle) returns (ok: bool)
    requires s.Valid()
    modifies s.os
    ensures s.Valid() && (s.State(), ok) == DoHelp(old(s.State()), o)
  {
    HelpLengths();
    hide CStr, WellFormed, Names, HelpHead, HelpTail;
    var buf := new char[HELP_MAX];
    var written := Append(buf, 0, HelpHead());
    var i := 0;
    NoNames();
    assert TABLE[..0] == [] && TABLE[..|TABLE|] == TABLE;
    while i < |TABLE|
      invariant 0 <= i <= |TABLE|
      invariant written == 44 + |Names(TABLE[..i])| <= 44 + 5 * i
      invariant buf[..written] == HelpHead() + Names(TABLE[..i])
      modifies buf
    {
      NamesStep(TABLE, i);
      written := Append(buf, written, " " + TABLE[i].Name());
      i := i + 1;
    }
    written := Append(buf, written, HelpTail());
    assert buf[..written] == HelpText();
    ok := s.SendReplyOwnBuf(buf, written, o.final, o.beyond, o.beyond);
  }

  lemma HelpLengths()
    ensures |HelpHead()| == 44 && |HelpTail()| == 14
  {
  }

  lemma NoNames()
    ensures Names([]) == ""
  {
  }

  lemma NamesStep(table: seq<Command>, i: nat)
    requires i < |table|
    ensures Names(table[..i + 1]) == Names(table[..i]) + (" " + table[i].Name())
    ensures |" " + table[i].Name()| <= 5
  {
    assert table[..i + 1][..i] == table[..i];
  }

  method Handle(s: Server, c: Command, arg: string, o: Oracle) returns (ok: bool)
    requires s.Valid()
    modifies s, s.os, s.cwd
    ensures s.Valid() && (s.State(), ok) == Execute(old(s.State()), c, arg, o)
  {
    hide CStr, WellFormed, Reply, DoUser, DoPasv, DoNlst, DoPwd, DoCwd, DoRetr, DoSize, DoType, DoHelp, Wording;
    match c {
      case User => ok := HandleUser(s, arg, o);
      case Syst => ok := s.SendReply(Wording(SystemType), o.final);
      case Pasv => ok := HandlePasv(s, o);
      case Nlst => ok := HandleNlst(s, arg, o);
      case Pwd => ok := HandlePwd(s, o);
      case Cwd => ok := HandleCwd(s, arg, o);
      case Retr => ok := HandleRetr(s, arg, o);
      case Size => ok := HandleSize(s, arg, o);
      case Type => ok := HandleType(s, arg, o);
      case Help => ok := HandleHelp(s, o);
      case Quit => ok := s.SendReply(Wording(Bye), o.final);
    }
  }

  /** Commands and arguments are separated by one character. */
  method PassArgument(s: Server, c: Command, line: string, o: Oracle) returns (ok: bool)
    requires s.Valid() && c.Name() <= line
    modifies s, s.os, s.cwd
    ensures s.Valid() && (s.State(), ok) == Execute(old(s.State()), c, Argument(c, line), o)
  {
    hide CStr, WellFormed, Execute;
    var nameLen := |c.Name()|;
    if |line| > nameLen {
      ok := Handle(s, c, line[nameLen + 1..], o);
    } else {
      ok := Handle(s, c, "", o);
    }
  }

  lemma FindStep(table: seq<Command>, line: string)
    ensures table == [] ==> Find(table, line) == None
    ensures table != [] ==>
              Find(table, line) == if table[0].Name() <= line then Some(table[0]) else Find(table[1..], line)
  {
  }

  /** The search through a command table, and the call of the handler found. */
  method Search(s: Server, table: seq<Command>, line: string, o: Oracle) returns (commandFound: bool, ok: bool)
    requires s.Valid()
    modifies s, s.os, s.cwd
    ensures s.Valid() && commandFound == Find(table, line).Some?
    ensures commandFound ==>
      var c := Find(table, line).value;
      (s.State(), ok) == Execute(old(s.State()), c, Argument(c, line), o)
    ensures !commandFound ==> s.State() == old(s.State()) && !ok
  {
    hide CStr, WellFormed, Execute, Find, Argument, Command.Name;
    commandFound, ok := false, false;
    var i := 0;
    ghost var w := s.State();
    assert table[0..] == table;
    while i < |table| && !commandFound
      invariant 0 <= i <= |table| && s.Valid()
      invariant !commandFound ==> s.State() == w && !ok && Find(table, line) == Find(table[i..], line)
      invariant commandFound ==>
        i < |table| && Find(table, line) == Some(table[i])
        && (s.State(), ok) == Execute(w, table[i], Argument(table[i], line), o)
      decreases |table| - i, !commandFound
    {
      assert table[i..][1..] == table[i + 1..];
      FindStep(table[i..], line);
      var name := table[i].Name();
      if name <= line {
        ok := PassArgument(s, table[i], line, o);
        commandFound := true;
      } else {
        i := i + 1;
      }
    }
    FindStep([], line);
  }

  /** A line that starts with no command is answered, and fails whatever became of the answer. */
  method Parse(s: Server, line: string, o: Oracle) returns (ok: bool)
    requires s.Valid()
    modifies s, s.os, s.cwd
    ensures s.Valid() && (s.State(), ok) == Perform(old(s.State()), line, o)
  {
    hide CStr, WellFormed, Reply, Execute, Wording, Find, Argument;
    var commandFound;
    commandFound, ok := Search(s, TABLE, line, o);
    if !commandFound {
      var _ := s.SendReply(Wording(UnknownCommand), o.final);
    }
  }
}
