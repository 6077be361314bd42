/** Runs that stay inside the root, and runs that leave it for a directory beside it. */
module Escapes {
  import opened Text
  import opened Paths
  import opened Translation
  import opened HostPort
  import opened Dispatch
  import opened Machine
  import opened Protocol
  import opened Sessions
  import opened Frames
  import opened Runs
  import opened Refinement
  import opened Containment
  import opened Guarantees

  /** From the root, "CWD ../n" moves a session into the directory n beside it. */
  lemma SessionEscapes(w: World, n: Name, o: Oracle)
    requires Between(w) && w.connected && w.cwd == w.root && '%' !in w.root
    requires Sibling(w.fs, Components(w.fs, w.root), n) && |w.root| + 4 + |n| < PATH_MAX
    ensures var v := Request(w, "CWD " + ("../" + n), o);
            v.cwd == Render(Parent(Components(w.fs, w.root)) + [n]) && !Inside(w.root, v.cwd)
  {
    var path := "../" + n;
    BetweenConnected(w);
    CwdLine(path);
    StepAside(w.fs, w.root, n);
    SiblingOutside(w.fs, w.root, n);
    hide Request, Find, Between, WellFormed, RealPath, CStr, CwdNode, Render, Sibling, Inside, Unterminated;
    RequestMoves(w, "CWD " + path, o);
    assert Defined(w.root, w.cwd, "CWD " + path);
  }

  /** How a CWD request with a path is taken apart. */
  lemma CwdLine(path: string)
    ensures var line := "CWD " + path; Find(TABLE, line) == Some(Cwd) && Argument(Cwd, line) == path
  {
    var line := "CWD " + path;
    assert line[..3] == "CWD";
    FindsTheName(TABLE, line, Cwd);
    assert line[4..] == path;
  }

  // ---------- sessions in runs ----------

  /** Two steps in which nothing is refused open a session in the root. */
  predicate Begins(first: Oracle, second: Oracle) {
    && first.socket > 2 && first.Setup()
    && second.accept > 2 && second.accept != first.socket && second.final
  }

  lemma SessionOpens(w: World, first: Oracle, second: Oracle)
    requires w == Initial(w.fs, w.root, w.ip, w.port) && Configured(w) && Begins(first, second)
    ensures var (u, ok) := Run(w, [first, second]);
            && ok && Between(u) && u.created && u.connected && u.cwd == w.root && u.binary
            && u.fs == w.fs && u.root == w.root
  {
    SessionBegins(w, first, second);
    var u := Run(w, [first, second]).0;
    InitialBetween(w.fs, w.root, w.ip, w.port);
    RunFixes(w, [first, second]);
    AtRoot(u);
  }

  lemma AtRoot(w: World)
    requires Between(w)
    requires Alpha(w).Connected? && Alpha(w).cwd == RealPath(w.fs, w.root).GetOr([])
    ensures w.created && w.connected && w.cwd == w.root && Alpha(w).binary == w.binary
  {
    ConnectedCreated(w);
    if w.connected {
      BetweenConnected(w);
    }
  }

  predicate Asks(o: Oracle, line: string) {
    |line| > 0 && o.received.Some? && o.received.value == line + CRLF
  }

  lemma OneRequest(w: World, line: string, o: Oracle)
    requires w.created && w.connected && Asks(o, line)
    ensures Step(w, o) == (Request(w, line, o), true)
  {
    hide Request;
    assert (line + CRLF)[|line|..] == CRLF && (line + CRLF)[..|line|] == line;
  }

  /** One more request at the end of a schedule that leaves a session. */
  lemma OneMoreRequest(w: World, os: seq<Oracle>, line: string, o: Oracle)
    requires var (u, ok) := Run(w, os); ok && u.created && u.connected
    requires Asks(o, line)
    ensures Run(w, os + [o]) == (Request(Run(w, os).0, line, o), true)
  {
    hide Run, Request, Step, Asks;
    RunOneMore(w, os, o);
    OneRequest(Run(w, os).0, line, o);
  }

  // ---------- leaving the root ----------

  /** So a run of three steps leaves the root whenever such a directory is in reach. */
  lemma RunEscapes(w: World, n: Name, first: Oracle, second: Oracle, third: Oracle)
    requires w == Initial(w.fs, w.root, w.ip, w.port) && Configured(w) && '%' !in w.root
    requires Sibling(w.fs, Components(w.fs, w.root), n) && |w.root| + 4 + |n| < PATH_MAX
    requires Begins(first, second) && Asks(third, "CWD " + ("../" + n))
    ensures var v := Run(w, [first, second, third]).0;
            v.cwd == Render(Parent(Components(w.fs, w.root)) + [n]) && !Inside(w.root, v.cwd)
  {
    hide Run, Between, Request, WellFormed, RealPath, Sibling, Render, Inside, Initial, ValidIp, CanonicalDir, Asks;
    SessionOpens(w, first, second);
    SessionEscapes(Run(w, [first, second]).0, n, third);
    OneMoreRequest(w, [first, second], "CWD " + ("../" + n), third);
    assert [first, second] + [third] == [first, second, third];
  }

  /** By a path that leaves its buffer unterminated a session can enter any such directory, from wherever it is. */
  lemma SlashesMove(w: World, n: Name, o: Oracle)
    requires CanonicalDir(w.fs, w.root) && Sibling(w.fs, Components(w.fs, w.root), n) && o.tail == "../" + n
    ensures var v := Request(w, "CWD " + Fill(w.root), o);
            v.cwd == Render(Parent(Components(w.fs, w.root)) + [n]) && !Inside(w.root, v.cwd)
  {
    SlashesEnter(w.fs, w.root, CurrentDir(w, o), n);
    hide Request, WellFormed, Sibling, Inside, CStr, Fill, CwdTarget, CurrentDir, Render, RealPath;
    CwdMoves(w, Fill(w.root), o);
  }

  lemma CwdMoves(w: World, path: string, o: Oracle)
    ensures Request(w, "CWD " + path, o).cwd
         == CwdTarget(w.fs, w.root, CurrentDir(w, o), CStr(path), |path|, o.tail).GetOr(w.cwd)
  {
    CwdLine(path);
    hide Request, Find, WellFormed, CStr, CwdTarget, CurrentDir;
    RequestSteady(w, "CWD " + path, o);
  }

  /** Every run keeps the directory inside the root. */
  ghost predicate StaysInside(w: World) {
    forall os, v | Reached(w, os, v) && os != [] :: Inside(w.root, v.cwd)
  }

  /** Every run stays inside the root if and only if no directory beside the root extends the root's name. */
  lemma StaysInsideIff(w: World)
    requires w == Initial(w.fs, w.root, w.ip, w.port) && Configured(w)
    ensures StaysInside(w) <==> Alone(w.fs, w.root)
  {
    hide Reached, WellFormed, CanonicalText, IsDirText, Inside, Sibling;
    if Alone(w.fs, w.root) {
      AloneStays(w);
    } else {
      var n: Name :| Sibling(w.fs, Components(w.fs, w.root), n);
      var os, v := SomeRunEscapes(w, n);
    }
  }

  lemma AloneStays(w: World)
    requires CanonicalDir(w.fs, w.root) && Alone(w.fs, w.root)
    ensures StaysInside(w)
  {
    hide Reached, WellFormed, CanonicalText, IsDirText, Inside, Alone;
    forall os, v | Reached(w, os, v) && os != [] ensures Inside(w.root, v.cwd) {
      RunContained(w, os, v);
    }
  }

  lemma SomeRunEscapes(w: World, n: Name) returns (os: seq<Oracle>, v: World)
    requires w == Initial(w.fs, w.root, w.ip, w.port) && Configured(w)
    requires Sibling(w.fs, Components(w.fs, w.root), n)
    ensures Reached(w, os, v) && os != [] && !Inside(w.root, v.cwd)
  {
    hide Run, WellFormed, CanonicalText, IsDirText, Inside, Sibling, Initial, ValidIp, Request, Fill;
    var line := "CWD " + Fill(w.root);
    SiblingTail(n);
    var first, second := Smooth(3, 4, 5, "", "", 0), Smooth(3, 4, 5, "", "", 0);
    var third := Smooth(3, 4, 5, line + CRLF, "../" + n, 0);
    assert Begins(first, second) && Asks(third, line);
    hide Smooth, Asks, Begins;
    SessionOpens(w, first, second);
    SlashesMove(Run(w, [first, second]).0, n, third);
    OneMoreRequest(w, [first, second], line, third);
    os := [first, second] + [third];
    v := Run(w, os).0;
  }

  lemma SiblingTail(n: Name)
    ensures NulFree("../" + n)
  {
  }

  /** A step in which no call fails and none is short. */
  function Smooth(socket: int, accept: int, file: int, bytes: Packet, tail: CText, size: nat): (o: Oracle)
    ensures o.socket == socket && o.accept == accept && o.file == file && o.Setup() && o.prelim && o.final
    ensures o.received == Some(bytes) && o.tail == tail && o.fileAccess && o.fileStat && o.size == size
    ensures forall k: nat :: o.chunks(k) == 0 && o.writes(k) > CHUNK_MAX
  {
    Oracle(socket, true, true, true, true, accept, false, Some(bytes), _ => true, _ => true, true, true, None, tail, NUL,
           true, file, true, size, _ => 0, _ => CHUNK_MAX + 1, 6, ["."], _ => 1)
  }

  /** The tree with the directories /r and /rx. */
  function Twins(): Tree {
    Tree(map[[] := Dir, ["r"] := Dir, ["rx"] := Dir], [])
  }

  /** A server for /r follows "CWD ../rx" to /rx. */
  lemma TwinEntered(ip: string, first: Oracle, second: Oracle, third: Oracle)
    requires ValidIp(ip)
    requires Begins(first, second) && Asks(third, "CWD " + ("../" + "rx"))
    ensures WellFormed(Twins())
    ensures Run(Initial(Twins(), "/r", ip, 21), [first, second, third]).0.cwd == "/rx"
  {
    TwinsHold();
    var w := Initial(Twins(), "/r", ip, 21);
    hide Run, Twins, WellFormed, RealPath, Asks;
    RunEscapes(w, "rx", first, second, third);
  }

  lemma TwinsHold()
    ensures WellFormed(Twins()) && CanonicalDir(Twins(), "/r") && Components(Twins(), "/r") == ["r"]
    ensures Sibling(Twins(), ["r"], "rx") && Render(Parent(["r"]) + ["rx"]) == "/rx"
  {
    var r, x: seq<Name> := ["r"], ["rx"];
    assert Parent(r) == [] && Parent(x) == [];
    assert Slashed(r) == "/" + "r" + Slashed(r[1..]) == "/r";
    assert Slashed(x) == "/" + "rx" + Slashed(x[1..]) == "/rx";
    CanonicalResolves(Twins(), r);
    assert [] + x == x;
  }
}
