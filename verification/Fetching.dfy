/** Which files RETR and SIZE can reach: when the root bounds them, and runs that send a file from outside. */
module Fetching {
  import opened Text
  import opened Paths
  import opened Translation
  import opened HostPort
  import opened Dispatch
  import opened Machine
  import opened Protocol
  import opened Transfers
  import opened Sessions
  import opened Steps
  import opened Frames
  import opened Runs
  import opened Refinement
  import opened Outcomes
  import opened Containment
  import opened Disclosure
  import opened Guarantees
  import opened Escapes

  // ---------- one request ----------

  /** Every file RETR and SIZE find, for any argument and whatever the system calls return, is inside the root. */
  ghost predicate TargetsInside(w: World) {
    forall arg, o | FileTarget(w, arg, o).Some? :: Inside(w.root, FileTarget(w, arg, o).value)
  }

  /** The same of the arguments whose path ends inside its buffer. */
  ghost predicate DefinedTargetsInside(w: World) {
    forall arg, o | !Unterminated(w.root, CStr(arg)) && FileTarget(w, arg, o).Some? ::
      Inside(w.root, FileTarget(w, arg, o).value)
  }

  /** A regular file outside the root whose path fits the buffers. */
  ghost predicate FileOutside(fs: Fs, root: string, p: seq<Name>)
    requires CanonicalText(fs, root)
  {
    IsFileAt(fs, p) && |Render(p)| < PATH_MAX && !(Components(fs, root) <= p)
  }

  /** The detour to the file fits the buffer behind the root. */
  predicate Near(fs: Fs, root: string, p: seq<Name>)
    requires CanonicalText(fs, root)
  {
    |root| + |Detour(Components(fs, root), p)| < PATH_MAX
  }

  /** They all are, exactly when every regular file with a path that fits is below the root. */
  lemma TargetsInsideIff(w: World)
    requires Configured(w) && Contained(w)
    ensures TargetsInside(w) <==> FilesInside(w.fs, w.root)
    ensures (forall p | FileOutside(w.fs, w.root, p) :: Near(w.fs, w.root, p)) ==>
              (DefinedTargetsInside(w) <==> FilesInside(w.fs, w.root))
  {
    hide WellFormed, CanonicalText, IsDirText, Inside, FileTarget, CStr, Unterminated, Near;
    if FilesInside(w.fs, w.root) {
      forall arg, o | FileTarget(w, arg, o).Some? ensures Inside(w.root, FileTarget(w, arg, o).value) {
        TargetInside(w, arg, o);
      }
    } else {
      var p :| IsFileAt(w.fs, p) && |Render(p)| < PATH_MAX && !(Components(w.fs, w.root) <= p);
      assert FileOutside(w.fs, w.root, p);
      var o := FillFinds(w, p);
      if Near(w.fs, w.root, p) {
        DetourTarget(w, p, o);
      }
    }
  }

  /** The detour finds the file, from every directory and with every oracle. */
  lemma DetourTarget(w: World, p: seq<Name>, o: Oracle)
    requires CanonicalDir(w.fs, w.root) && IsFileAt(w.fs, p) && Near(w.fs, w.root, p)
    ensures var arg := Detour(Components(w.fs, w.root), p);
            && !Unterminated(w.root, CStr(arg)) && FileTarget(w, arg, o) == Some(Render(p))
            && (!(Components(w.fs, w.root) <= p) ==> !Inside(w.root, Render(p)))
  {
    var r := Components(w.fs, w.root);
    DetourFinds(w.fs, w.root, r, p);
    InsideIsDescendant(r, p);
    DetourLeads(w.fs, r, p);
    hide CStr, WellFormed, CurrentDir, Detour, FileNode, IsFileText, RealPath, Inside;
    var arg := Detour(r, p);
    AbsoluteIgnoresCwd(w.fs, w.root, CurrentDir(w, o), arg, |arg|, o.tail);
    TargetMeaning(w.fs, w.root, w.root, arg, |arg|, o.tail);
  }

  lemma AbsoluteIgnoresCwd(fs: Fs, root: string, cwd: Option<string>, path: string, n: nat, tail: string)
    requires IsAbsolute(path)
    ensures ServerToReal(fs, root, cwd, path, n, tail) == ServerToReal(fs, root, Some(root), path, n, tail)
  {
  }

  /** So do the slashes that fill the buffer, if the memory behind it holds the detour. */
  lemma FillTarget(w: World, p: seq<Name>, o: Oracle)
    requires CanonicalDir(w.fs, w.root) && IsFileAt(w.fs, p) && |Render(p)| < PATH_MAX
    requires o.tail == Detour(Components(w.fs, w.root), p)
    ensures FileTarget(w, Fill(w.root), o) == Some(Render(p))
    ensures !(Components(w.fs, w.root) <= p) ==> !Inside(w.root, Render(p))
  {
    var r := Components(w.fs, w.root);
    SlashesResolve(w.fs, w.root, CurrentDir(w, o), o.tail);
    DetourLeads(w.fs, r, p);
    InsideIsDescendant(r, p);
    CanonicalResolves(w.fs, p);
    hide CStr, WellFormed, CurrentDir, Detour, Walk, Split, ServerToReal, Fill, Inside;
    assert IsFileText(w.fs, Render(p));
  }

  lemma FillFinds(w: World, p: seq<Name>) returns (o: Oracle)
    requires CanonicalDir(w.fs, w.root) && FileOutside(w.fs, w.root, p)
    ensures FileTarget(w, Fill(w.root), o).Some? && !Inside(w.root, FileTarget(w, Fill(w.root), o).value)
  {
    var r := Components(w.fs, w.root);
    DetourLeads(w.fs, r, p);
    o := Smooth(3, 4, 5, "", Detour(r, p), 0);
    hide WellFormed, RealPath, Inside, FileTarget, Fill, Detour;
    FillTarget(w, p, o);
  }

  // ---------- a transfer in a session ----------

  /** Reads and writes are never short, and none fails. */
  ghost predicate Plentiful(o: Oracle) {
    forall k: nat :: o.chunks(k) == 0 && o.writes(k) > CHUNK_MAX
  }

  lemma {:induction false} SendsAll(t: seq<Event>, sock: int, file: string, pos: nat, k: nat, o: Oracle)
    requires pos <= |file| && Plentiful(o)
    ensures SendLoop(t, sock, file, pos, |file| - pos, k, o).ok && !ShortWrite(file, pos, |file| - pos, k, o)
    decreases |file| - pos
  {
    var count := |file| - pos;
    assert o.chunks(k) == 0 && o.writes(k) > CHUNK_MAX;
    hide Plentiful;
    if count > 0 {
      var n := Got(file, pos, count, k, o);
      assert n == Asked(count) && WriteResult(o.writes(k), n) == n;
      SendsAll(t + [Data(sock, file[pos..pos + n])], sock, file, pos + n, k + 1, o);
    }
  }

  /** Everything RETR needs behind the path: a data connection, an announcement that fits, an open() that succeeds. */
  ghost predicate Unrefused(w: World, arg: string, o: Oracle) {
    && FileTarget(w, arg, o).Some? && Live(w, w.transferSock) && w.transferSock != -1
    && w.kernel.Fresh(o.accept) && w.kernel.Fresh(o.file) && o.file != o.accept && o.fileAccess
    && o.prelim && |Announcement(w.binary, arg)| + 2 < RESPONSE_MAX
    && o.fileStat && o.size == |Content(w.fs, FileTarget(w, arg, o).value)| && Plentiful(o)
  }

  lemma SendFileServes(w: World, path: string, file: string, o: Oracle)
    requires o.fileAccess && w.kernel.Fresh(o.file) && o.fileStat && o.size == |file| && Plentiful(o)
    ensures var (v, ok) := SendFile(w, path, file, o);
            ok && Fetches(path) in v.kernel.trace && Delivered(v) == Delivered(w) + file
  {
    var t := w.kernel.trace + [Fetches(path)];
    SendsAll(t, w.transferClientSock, file, 0, 0, o);
    SendLoopGrows(Promise(0, _ => true, _ => true, false), t, w.transferClientSock, file, 0, o.size, 0, o);
    hide SendLoop, ShortWrite, Delivered, Plentiful;
    assert t[|w.kernel.trace|] == Fetches(path);
    SendFileExact(w, path, file, o);
  }

  lemma RetrievalServes(w: World, path: string, file: string, arg: string, o: Oracle)
    requires Live(w, w.transferSock) && w.transferSock != -1
    requires w.kernel.Fresh(o.accept) && w.kernel.Fresh(o.file) && o.file != o.accept && o.fileAccess
    requires o.prelim && |Announcement(w.binary, arg)| + 2 < RESPONSE_MAX
    requires o.fileStat && o.size == |file| && Plentiful(o)
    ensures var (v, ok) := Retrieval(w, path, file, arg, o);
            ok && Fetches(path) in v.kernel.trace && Delivered(v) == Delivered(w) + file
  {
    hide Announcement, SendFile, Delivered, Plentiful, WellFormed;
    AcceptDelivers(w, o);
    var v := AcceptData(w, o).0;
    ReplyWritten(v, Announcement(v.binary, arg), o.prelim);
    ReplyDelivers(v, Announcement(v.binary, arg), o.prelim);
    SendFileServes(Reply(v, Announcement(v.binary, arg), o.prelim).0, path, file, o);
  }

  lemma RetrServes(w: World, arg: string, o: Oracle)
    requires Unrefused(w, arg, o)
    ensures var v := DoRetr(w, arg, o).0;
            var path := FileTarget(w, arg, o).value;
            Fetches(path) in v.kernel.trace && Delivered(v) == Delivered(w) + Content(w.fs, path)
  {
    hide FileTarget, Content, Announcement, Delivered, Plentiful, WellFormed, Retrieval, CloseData, Reply, Wording;
    var path := FileTarget(w, arg, o).value;
    var file := Content(w.fs, path);
    RetrievalServes(w, path, file, arg, o);
    var v := Retrieval(w, path, file, arg, o).0;
    CloseDataTrace(v, o);
    ClosingDeliversNothing(v, Wording(TransferComplete), o);
    ReplyKeepsTrace(CloseData(v, o), Wording(TransferComplete), o.final);
  }

  lemma ReplyKeepsTrace(w: World, text: string, sent: bool)
    ensures w.kernel.trace <= Reply(w, text, sent).0.kernel.trace
  {
  }

  lemma RetrLine(arg: string)
    ensures var line := "RETR " + arg; Find(TABLE, line) == Some(Retr) && Argument(Retr, line) == arg
  {
    var line := "RETR " + arg;
    assert line[..4] == "RETR";
    FindsTheName(TABLE, line, Retr);
    assert line[5..] == arg;
  }

  lemma RetrRequest(w: World, arg: string, o: Oracle)
    ensures var (v, ok) := DoRetr(w.Log(Command("RETR " + arg)), arg, o);
            Request(w, "RETR " + arg, o) == if ok then v else CloseData(v, o.Later())
  {
    RetrLine(arg);
    hide Find, DoRetr, CloseData, WellFormed;
    PerformIsExecute(w.Log(Command("RETR " + arg)), "RETR " + arg, o);
  }

  /** A RETR request sends the file it finds, whole, if nothing it needs is refused. */
  lemma RequestServes(w: World, arg: string, o: Oracle)
    requires Unrefused(w, arg, o)
    ensures var v := Request(w, "RETR " + arg, o);
            var path := FileTarget(w, arg, o).value;
            Fetches(path) in v.kernel.trace && Delivered(v) == Delivered(w) + Content(w.fs, path)
  {
    RetrRequest(w, arg, o);
    hide FileTarget, Content, Announcement, Plentiful, WellFormed, DoRetr, CloseData, Payload, Request;
    var e := Command("RETR " + arg);
    TargetLogged(w, e, arg, o);
    PayloadStep(w.kernel.trace, e);
    RetrServes(w.Log(e), arg, o);
    CloseDataTrace(DoRetr(w.Log(e), arg, o).0, o.Later());
  }

  /** PASV opens a listener, if nothing it needs is refused. */
  lemma RequestListens(w: World, o: Oracle)
    requires Between(w) && w.connected && w.kernel.Fresh(o.socket) && o.Setup() && o.final
    ensures var v := Request(w, "PASV", o);
            && Between(v) && v.created && v.connected && Live(v, v.transferSock) && v.transferSock != -1
            && v.fs == w.fs && v.root == w.root && v.cwd == w.cwd && v.binary == w.binary
  {
    var line := "PASV";
    FindsTheName(TABLE, line, Pasv);
    ReadyForPassive(w, o);
    PasvFields(w, o);
    hide Request, Find, WellFormed, Between, PassiveReady, Failed, Kernel.Fresh;
    RequestKeeps(w, line, o);
    RequestArms(w, line, o);
    ConnectedCreated(w);
    NotOpen(Request(w, line, o));
  }

  lemma ReadyForPassive(w: World, o: Oracle)
    requires Between(w) && w.kernel.Fresh(o.socket) && o.Setup()
    ensures PassiveReady(w, o)
  {
    hide CloseData, Watch, Owned, WellFormed;
    CloseDataKeeps(w, o);
  }

  lemma PasvFields(w: World, o: Oracle)
    ensures var v := Request(w, "PASV", o);
            v.fs == w.fs && v.root == w.root && v.cwd == w.cwd && v.binary == w.binary
            && v.created == w.created && v.connected == w.connected
  {
    FindsTheName(TABLE, "PASV", Pasv);
    hide Request, Find, WellFormed;
    RequestSteady(w, "PASV", o);
  }

  // ---------- runs ----------

  /** Some number is above the standard streams and all descriptors in use. */
  lemma {:induction false} Above(used: set<int>) returns (n: int)
    ensures n > 2
    ensures forall m | m in used :: m < n
    decreases |used|
  {
    n := 3;
    if x :| x in used {
      var m := Above(used - {x});
      assert forall k | k in used :: k == x || k in used - {x};
      n := if m > x then m else x + 1;
    }
  }

  /** The path can be announced, and with the tail behind its buffer it finds the file p from any directory. */
  ghost predicate Named(w: World, arg: string, tail: string, p: seq<Name>) {
    && |arg| < 249 && NulFree(tail) && IsFileAt(w.fs, p)
    && forall v: World, o: Oracle | v.fs == w.fs && v.root == w.root && o.tail == tail :: FileTarget(v, arg, o) == Some(Render(p))
  }

  /** Then a run sends it: start, accept, PASV, RETR. */
  lemma RunServes(w: World, arg: string, tail: string, p: seq<Name>) returns (os: seq<Oracle>, before: World, v: World)
    requires w == Initial(w.fs, w.root, w.ip, w.port) && Configured(w) && Named(w, arg, tail, p)
    ensures |os| == 4 && Reached(w, os[..3], before) && Reached(w, os, v)
    ensures Asks(os[3], "RETR " + arg) && Fetches(Render(p)) in v.kernel.trace
    ensures Delivered(v) == Delivered(before) + w.fs.nodes[p].content
  {
    hide Run, Request, WellFormed, Initial, Configured, Between, FileTarget, Delivered, Unrefused, Asks, Begins, Announcement;
    var first, second := Smooth(3, 4, 5, "", "", 0), Smooth(3, 4, 5, "", "", 0);
    assert Begins(first, second) by { BeginsSmooth(first, second); }
    SessionOpens(w, first, second);
    var u := Run(w, [first, second]).0;
    var n := Above(u.kernel.open);
    var third := Smooth(n, 4, 5, "PASV" + CRLF, "", 0);
    assert Asks(third, "PASV") by { AsksSmooth(third, "PASV"); }
    RequestListens(u, third);
    OneMoreRequest(w, [first, second], "PASV", third);
    before := Request(u, "PASV", third);
    var line := "RETR " + arg;
    var a := Above(before.kernel.open);
    var fourth := Smooth(n, a, a + 1, line + CRLF, tail, |w.fs.nodes[p].content|);
    assert Asks(fourth, line) by { AsksSmooth(fourth, line); }
    ServedFully(before, arg, p, fourth);
    OneMoreRequest(w, [first, second] + [third], line, fourth);
    RequestServes(before, arg, fourth);
    ContentAt(w.fs, p);
    os := [first, second] + [third] + [fourth];
    assert os[..3] == [first, second] + [third];
    v := Run(w, os).0;
  }

  lemma BeginsSmooth(first: Oracle, second: Oracle)
    requires first.socket == 3 && first.Setup() && second.accept == 4 && second.final
    ensures Begins(first, second)
  {
  }

  lemma AsksSmooth(o: Oracle, line: string)
    requires |line| > 0 && o.received.Some? && o.received.value == line + CRLF
    ensures Asks(o, line)
  {
  }

  lemma ServedFully(w: World, arg: string, p: seq<Name>, o: Oracle)
    requires |arg| < 249 && IsFileAt(w.fs, p) && FileTarget(w, arg, o) == Some(Render(p))
    requires Live(w, w.transferSock) && w.transferSock != -1
    requires w.kernel.Fresh(o.accept) && w.kernel.Fresh(o.file) && o.file != o.accept && o.fileAccess
    requires o.prelim && o.fileStat && o.size == |w.fs.nodes[p].content|
    requires forall k: nat :: o.chunks(k) == 0 && o.writes(k) > CHUNK_MAX
    ensures Unrefused(w, arg, o)
  {
    ContentAt(w.fs, p);
    assert |Announcement(w.binary, arg)| <= 36 + |arg| + 1;
    hide FileTarget, Content, Announcement, WellFormed;
  }

  lemma ContentAt(fs: Fs, p: seq<Name>)
    requires IsFileAt(fs, p)
    ensures IsFileText(fs, Render(p)) && Content(fs, Render(p)) == fs.nodes[p].content
  {
    CanonicalResolves(fs, p);
  }

  /** Every run sends files from inside the root only. */
  ghost predicate FetchesInside(w: World) {
    forall os, v, i: nat | Reached(w, os, v) && i < |v.kernel.trace| && v.kernel.trace[i].Fetches? ::
      Inside(w.root, v.kernel.trace[i].path)
  }

  /** The detour fits the buffer and the announcement of RETR, so that no run needs what lies behind a buffer. */
  predicate Sendable(fs: Fs, root: string, p: seq<Name>)
    requires CanonicalText(fs, root)
  {
    Near(fs, root, p) && |Detour(Components(fs, root), p)| < 249
  }

  /**
   * Every run does if all regular files with a path that fits are below the root. And only then: if the detours can be sent,
   * or the root has eight characters or more, so that the path that fills its buffer can be.
   */
  lemma FetchesInsideIff(w: World)
    requires w == Initial(w.fs, w.root, w.ip, w.port) && Configured(w)
    ensures FilesInside(w.fs, w.root) ==> FetchesInside(w)
    ensures |w.root| >= 8 || (forall p | FileOutside(w.fs, w.root, p) :: Sendable(w.fs, w.root, p)) ==>
              (FetchesInside(w) <==> FilesInside(w.fs, w.root))
  {
    hide WellFormed, CanonicalText, IsDirText, Inside, Reached, Sendable;
    if FilesInside(w.fs, w.root) {
      forall os, v, i: nat | Reached(w, os, v) && i < |v.kernel.trace| && v.kernel.trace[i].Fetches?
        ensures Inside(w.root, v.kernel.trace[i].path)
      {
        RunFetches(w, os, v, i);
      }
    } else {
      var p :| IsFileAt(w.fs, p) && |Render(p)| < PATH_MAX && !(Components(w.fs, w.root) <= p);
      assert FileOutside(w.fs, w.root, p);
      if |w.root| >= 8 || Sendable(w.fs, w.root, p) {
        var os, v, i := OutsideSent(w, p);
      }
    }
  }

  /** A run that sends a file from outside the root. */
  lemma OutsideSent(w: World, p: seq<Name>) returns (os: seq<Oracle>, v: World, i: nat)
    requires w == Initial(w.fs, w.root, w.ip, w.port) && Configured(w) && FileOutside(w.fs, w.root, p)
    requires |w.root| >= 8 || Sendable(w.fs, w.root, p)
    ensures Reached(w, os, v) && i < |v.kernel.trace| && v.kernel.trace[i] == Fetches(Render(p))
    ensures !Inside(w.root, Render(p))
  {
    var r := Components(w.fs, w.root);
    InsideIsDescendant(r, p);
    hide WellFormed, RealPath, Inside, Reached, Detour, Fill, Named, Sendable, Initial;
    var before;
    if Sendable(w.fs, w.root, p) {
      DetourNamed(w, p);
      os, before, v := RunServes(w, Detour(r, p), "", p);
    } else {
      FillNamed(w, p);
      os, before, v := RunServes(w, Fill(w.root), Detour(r, p), p);
    }
    i :| 0 <= i < |v.kernel.trace| && v.kernel.trace[i] == Fetches(Render(p));
  }

  lemma DetourNamed(w: World, p: seq<Name>)
    requires CanonicalDir(w.fs, w.root) && IsFileAt(w.fs, p) && Sendable(w.fs, w.root, p)
    ensures Named(w, Detour(Components(w.fs, w.root), p), "", p)
  {
    hide WellFormed, CanonicalText, IsDirText, FileTarget, Detour, RealPath, CStr, Near;
    var arg := Detour(Components(w.fs, w.root), p);
    forall v: World, o: Oracle | v.fs == w.fs && v.root == w.root && o.tail == ""
      ensures FileTarget(v, arg, o) == Some(Render(p))
    {
      DetourTarget(v, p, o);
    }
  }

  lemma FillNamed(w: World, p: seq<Name>)
    requires CanonicalDir(w.fs, w.root) && IsFileAt(w.fs, p) && |Render(p)| < PATH_MAX && |w.root| >= 8
    ensures Named(w, Fill(w.root), Detour(Components(w.fs, w.root), p), p)
  {
    DetourLeads(w.fs, Components(w.fs, w.root), p);
    hide WellFormed, CanonicalText, IsDirText, FileTarget, Detour, RealPath, Fill;
    var tail := Detour(Components(w.fs, w.root), p);
    forall v: World, o: Oracle | v.fs == w.fs && v.root == w.root && o.tail == tail
      ensures FileTarget(v, Fill(w.root), o) == Some(Render(p))
    {
      FillTarget(v, p, o);
    }
  }

  // ---------- a tree and a run ----------

  /** The tree with the directories /r and /e and the file /e/f. */
  function Outskirts(): Tree {
    Tree(map[[] := Dir, ["r"] := Dir, ["e"] := Dir, ["e", "f"] := File("x")], [])
  }

  /** A server for /r answers "RETR /../e/f" with the content of /e/f. */
  lemma OutskirtsSent(ip: string) returns (os: seq<Oracle>, before: World, v: World)
    requires ValidIp(ip)
    ensures WellFormed(Outskirts()) && !Inside("/r", "/e/f")
    ensures var w := Initial(Outskirts(), "/r", ip, 21);
            && |os| == 4 && Asks(os[3], "RETR " + "/../e/f") && Reached(w, os[..3], before) && Reached(w, os, v)
            && Fetches("/e/f") in v.kernel.trace && Delivered(v) == Delivered(before) + "x"
  {
    OutskirtsHold();
    OutskirtsPaths();
    var p: seq<Name> := ["e", "f"];
    var root, arg := "/r", "/../e/f";
    hide Outskirts, WellFormed, RealPath, Reached, Detour, Named, Render, Asks, Delivered, Sendable, Inside;
    var w := Initial(Outskirts(), root, ip, 21);
    DetourNamed(w, p);
    hide Initial;
    os, before, v := RunServes(w, arg, "", p);
  }

  lemma OutskirtsPaths()
    ensures Render(["e", "f"]) == "/e/f" && Detour(["r"], ["e", "f"]) == "/../e/f" && !Inside("/r", "/e/f")
    ensures Render(["r"]) == "/r"
  {
    var r, p: seq<Name> := ["r"], ["e", "f"];
    assert Slashed(r) == "/" + "r" + Slashed(r[1..]) == "/r";
    assert p[1..] == ["f"] && Slashed(["f"]) == "/" + "f" + Slashed(["f"][1..]) == "/f";
    assert Slashed(p) == "/" + "e" + Slashed(p[1..]) == "/e/f";
    assert Dots(1) == [".."] + Dots(0) == [".."];
    assert Slashed([".."]) == "/" + ".." + Slashed([".."][1..]) == "/..";
    hide Slashed;
    assert "/.." + "/e/f" == "/../e/f";
    assert "/r"[1] == 'r' && "/e/f"[1] == 'e';
  }

  lemma OutskirtsHold()
    ensures WellFormed(Outskirts()) && CanonicalDir(Outskirts(), "/r") && Components(Outskirts(), "/r") == ["r"]
    ensures IsFileAt(Outskirts(), ["e", "f"]) && Outskirts().nodes[["e", "f"]].content == "x"
    ensures Sendable(Outskirts(), "/r", ["e", "f"])
  {
    OutskirtsPaths();
    hide Render, Detour, Inside, Slashed;
    var r, e, p: seq<Name> := ["r"], ["e"], ["e", "f"];
    assert Parent(r) == [] && Parent(e) == [] && Parent(p) == e;
    CanonicalResolves(Outskirts(), r);
  }
}
