/** The run-level theorems, from a freshly initialised server and for every schedule. */
module Guarantees {
  import opened Text
  import opened Paths
  import opened Translation
  import opened Dispatch
  import opened HostPort
  import opened Machine
  import opened Protocol
  import opened Transfers
  import opened Sessions
  import opened Steps
  import opened Frames
  import opened Runs
  import opened Discipline
  import opened Refinement
  import opened Outcomes
  import opened Containment
  import opened Disclosure
  import opened Wire

  /** The world some schedule leads to from a successful Initialize. */
  ghost predicate Reached(w: World, os: seq<Oracle>, v: World) {
    w == Initial(w.fs, w.root, w.ip, w.port) && Configured(w) && v == Run(w, os).0
  }

  lemma ReachedKeeps(w: World, os: seq<Oracle>, v: World)
    requires Reached(w, os, v)
    ensures Failed(v) && (Run(w, os).1 ==> Between(v))
  {
    hide Run, Failed, Between, WellFormed;
    InitialBetween(w.fs, w.root, w.ip, w.port);
    RunKeeps(w, os);
    if Run(w, os).1 {
      ConnectedCreated(v);
    }
  }

  /**
   * At every moment of every run behind the first step the current directory is a canonical directory that has the
   * root as a byte prefix. It is inside the root if no directory beside the root extends the root's name.
   */
  lemma RunContained(w: World, os: seq<Oracle>, v: World)
    requires Reached(w, os, v)
    ensures v.fs == w.fs && v.root == w.root
    ensures os != [] ==>
              && CanonicalDir(w.fs, v.cwd) && NotAbove(w.root, v.cwd) && |v.cwd| < 256
              && (Alone(w.fs, w.root) ==> Inside(w.root, v.cwd))
  {
    hide Run, WellFormed, Watch, Owned, CanonicalText, IsDirText, Between;
    InitialBetween(w.fs, w.root, w.ip, w.port);
    ReachedKeeps(w, os, v);
    RunFixes(w, os);
    if os != [] && Alone(w.fs, w.root) {
      AdmittedInside(w.fs, w.root, v.cwd);
    }
  }

  /** In every run the open descriptors are exactly those the fields name and the lost ones, each named once. */
  lemma RunOwns(w: World, os: seq<Oracle>, v: World)
    requires Reached(w, os, v)
    ensures v.kernel.open == {v.serverSock, v.clientSock, v.transferSock, v.transferClientSock} * v.kernel.open + v.lost
    ensures {v.serverSock, v.clientSock, v.transferSock, v.transferClientSock} !! v.lost
    ensures Owns(v) && v.kernel.stray == []
    ensures AllCareful(os) ==> v.lost == {}
  {
    hide Run, Watch, WellFormed, Between, Within, Configured, Owned, EndsInBadStart;
    ReachedKeeps(w, os, v);
    InitialBetween(w.fs, w.root, w.ip, w.port);
    RunKeeps(w, os);
    OwnedExactly(v.kernel.open, v.lost, v.transferClientSock, v.transferSock, v.clientSock, v.serverSock);
    assert v.kernel.open == {v.serverSock, v.clientSock, v.transferSock, v.transferClientSock} * v.kernel.open + v.lost;
  }

  lemma OwnedExactly(open: set<int>, lost: set<int>, a: int, b: int, c: int, d: int)
    requires Owned(open, lost, a, b, c, d)
    ensures open == {d, c, b, a} * open + lost && {d, c, b, a} !! lost
  {
  }

  /**
   * In every run every greeting and every request is answered, before the next one, as section 5.4 of RFC 959 has it: one
   * final reply is handed to write(), at k, and the client gets it alone or behind one preliminary reply. That is also
   * what the client reads, as long as each reply reads as one.
   */
  lemma RunAnswers(w: World, os: seq<Oracle>, v: World, i: nat, j: nat) returns (k: nat)
    requires Reached(w, os, v)
    requires i < j <= |v.kernel.trace| && Boundary(v.kernel.trace[i])
    requires j < |v.kernel.trace| ==> Boundary(v.kernel.trace[j])
    requires forall m | i < m < j :: !Boundary(v.kernel.trace[m])
    ensures var t := v.kernel.trace;
            && i < k < j && t[k].Control? && !Preliminary(t[k].text) && Leads(Written(t[i + 1..k]), t[k].text)
            && Written(t[i + 1..j]) == Written(t[i + 1..k]) + (if t[k].ok then [t[k].text] else [])
            && (t[k].ok ==> Answered(Written(t[i + 1..j])))
    ensures var rs := Written(v.kernel.trace[i + 1..j]);
            (forall x | x in rs :: Whole(x)) ==> ReadReplies(Joined(rs)) == rs
  {
    hide Run, Watch, Written, Answered, Whole, Preliminary, Completes;
    ReachedKeeps(w, os, v);
    k := EveryCommandAnswered(v.kernel.trace, i, j);
    var rs := Written(v.kernel.trace[i + 1..j]);
    if forall x | x in rs :: Whole(x) {
      WholeTextsRead(rs);
    }
  }

  /**
   * Each reply does read as one, so that the client reads one final reply, or a preliminary and a final one, if no
   * directory it can be in has a '%' in its path or a CRLF in what PWD shows of it, and it asks for no file by a path with a
   * CRLF. If the final reply is not written it reads nothing or a preliminary reply.
   */
  lemma RunReadsAnswers(w: World, os: seq<Oracle>, v: World, i: nat, j: nat) returns (k: nat)
    requires Reached(w, os, v) && NoFormats(w.fs, w.root) && NoBreaks(w.fs, w.root) && AsksPlainly(os)
    requires i < j <= |v.kernel.trace| && Boundary(v.kernel.trace[i])
    requires j < |v.kernel.trace| ==> Boundary(v.kernel.trace[j])
    requires forall m | i < m < j :: !Boundary(v.kernel.trace[m])
    ensures var t := v.kernel.trace;
            var read := ReadReplies(Joined(Written(t[i + 1..j])));
            && i < k < j && t[k].Control? && !Preliminary(t[k].text)
            && if t[k].ok then Answered(read) && read[|read| - 1] == t[k].text
               else Leads(read, t[k].text)
  {
    hide Run, Watch, Written, Answered, Whole, WellFormed, NoFormats, NoBreaks, AsksPlainly, FilesInside, Preliminary, Completes;
    InitialBetween(w.fs, w.root, w.ip, w.port);
    var aims := Aims(false, false, true);
    RunGrows(w, os, aims);
    var b := v.kernel.trace[i + 1..j];
    forall x | x in Written(b) ensures Whole(x) {
      var c := WrittenAre(b, x);
      assert b[c] == v.kernel.trace[i + 1 + c];
      assert RunPromise(w.fs, w.root, w.port, aims).Holds(v.kernel.trace[i + 1 + c]);
    }
    k := RunAnswers(w, os, v, i, j);
  }

  lemma {:induction false} WrittenAre(t: seq<Event>, x: string) returns (k: nat)
    requires x in Written(t)
    ensures k < |t| && t[k].Control? && t[k].text == x
  {
    var f := t[..|t| - 1];
    if x in Written(f) {
      k := WrittenAre(f, x);
    } else {
      k := |t| - 1;
    }
  }

  /** In every run every 150 has, before it in its own session, the creation of a passive data socket to itself. */
  lemma RunPrepares(w: World, os: seq<Oracle>, v: World, i: nat) returns (s: nat, j: nat)
    requires Reached(w, os, v)
    requires i < |v.kernel.trace| && Marks(v.kernel.trace[i])
    ensures s < j < i && BeganAt(v.kernel.trace, s, i) && Prepares(v.kernel.trace, j, i)
    ensures MarksSince(v.kernel.trace) <= ListensSince(v.kernel.trace)
  {
    hide Run, Watch, MarksSince, ListensSince;
    ReachedKeeps(w, os, v);
    s, j := EveryMarkPrepared(v.kernel.trace, i);
    MarksWithinListens(v.kernel.trace);
  }

  /**
   * In every run data flows only on the connection accepted for the request that is being served, and only
   * between its 150, which was written, and the final reply.
   */
  lemma RunTransfers(w: World, os: seq<Oracle>, v: World, i: nat) returns (a: nat, m: nat)
    requires Reached(w, os, v) && i < |v.kernel.trace| && v.kernel.trace[i].Data?
    ensures var t := v.kernel.trace;
            && a < i && t[a] == Accepted(t[i].sock) && (forall k | a < k < i :: !Boundary(t[k]) && !t[k].Accepted?)
            && m < i && Marks(t[m]) && t[m].ok && (forall k | m < k < i :: !Boundary(t[k]) && !t[k].Control?)
  {
    hide Run, Watch;
    ReachedKeeps(w, os, v);
    a, m := EveryDataAnnounced(v.kernel.trace, i);
  }

  /**
   * In every run every directory opened for a listing passes the root check, if none that does has a '%' in its
   * path; and it is inside the root if no directory beside the root extends the root's name.
   */
  lemma RunLists(w: World, os: seq<Oracle>, v: World, i: nat)
    requires Reached(w, os, v) && NoFormats(w.fs, w.root)
    requires i < |v.kernel.trace| && v.kernel.trace[i].Opens?
    ensures var dir := v.kernel.trace[i].dir;
            && CanonicalDir(w.fs, dir) && NotAbove(w.root, dir)
            && (Alone(w.fs, w.root) ==> Inside(w.root, dir))
  {
    hide Run, WellFormed, NoFormats, CanonicalText, IsDirText, NoBreaks, FilesInside;
    InitialBetween(w.fs, w.root, w.ip, w.port);
    RunGrows(w, os, Aims(true, false, false));
    assert RunPromise(w.fs, w.root, w.port, Aims(true, false, false)).Holds(v.kernel.trace[i]);
    if Alone(w.fs, w.root) {
      AdmittedInside(w.fs, w.root, v.kernel.trace[i].dir);
    }
  }

  /**
   * Whatever the tree: a directory is only ever opened to answer an NLST. With an argument it passes the root check and is
   * the one CWD would enter with it, and without one it is the current directory, unless that has a '%' in its path.
   */
  lemma StepLists(w: World, os: seq<Oracle>, u: World, o: Oracle, i: nat)
    requires Reached(w, os, u) && Run(w, os).1
    ensures var t := Step(u, o).0.kernel.trace;
            var arg := Behind(LineOf(o), 4);
            |u.kernel.trace| <= i < |t| && t[i].Opens? ==>
              && u.connected && "NLST" <= LineOf(o) && CanonicalText(u.fs, u.root) && CanonicalText(u.fs, u.cwd)
              && (arg != "" ==> CanonicalDir(u.fs, t[i].dir) && NotAbove(u.root, t[i].dir))
              && ('%' !in u.cwd && arg == "" ==> t[i].dir == u.cwd)
              && ('%' !in u.cwd && arg != "" && !Unterminated(u.root, CStr(arg)) ==>
                    var q := CwdNode(u.fs, Components(u.fs, u.root), Components(u.fs, u.cwd), CStr(arg), |arg|);
                    q.Some? && t[i].dir == Render(q.value))
  {
    hide Run, Step, Find, WellFormed, RealPath, Watch, Owned, Unterminated, CStr, CwdNode, Render, NamedDirectory, Behind,
         NotAbove, ValidIp, Initial, Reached, Between;
    ReachedKeeps(w, os, u);
    BetweenRoots(u);
    StepOpens(u, o, i);
    if u.connected && NamedDirectory(u, LineOf(o), o).Some? {
      ListedDirectory(u, LineOf(o), o);
    }
  }

  lemma BetweenRoots(w: World)
    requires Between(w)
    ensures w.connected ==> CanonicalText(w.fs, w.root) && CanonicalText(w.fs, w.cwd) && Configured(w) && Contained(w)
  {
    hide Watch, Owned, RealPath, WellFormed;
  }

  lemma ListedDirectory(w: World, line: string, o: Oracle)
    requires Configured(w) && Contained(w) && NamedDirectory(w, line, o).Some?
    ensures var dir := NamedDirectory(w, line, o).value;
            var arg := Behind(line, 4);
            && "NLST" <= line
            && (arg != "" ==> CanonicalDir(w.fs, dir) && NotAbove(w.root, dir))
            && ('%' !in w.cwd && arg == "" ==> dir == w.cwd)
            && ('%' !in w.cwd && arg != "" && !Unterminated(w.root, CStr(arg)) ==>
                  var q := CwdNode(w.fs, Components(w.fs, w.root), Components(w.fs, w.cwd), CStr(arg), |arg|);
                  q.Some? && dir == Render(q.value))
  {
    hide Find, ListTarget, WellFormed, CanonicalText, IsDirText, Unterminated, CStr, CwdNode, Render, Behind, Argument;
    var arg := Behind(line, 4);
    NlstArgument(line);
    TargetWithin(w, arg, o);
    EmptyEnds(w.root, arg);
    if '%' !in w.cwd && !Unterminated(w.root, CStr(arg)) {
      ListMeaning(w, arg, o);
    }
  }

  lemma NlstArgument(line: string)
    ensures Find(TABLE, line) == Some(Nlst) ==> "NLST" <= line && Argument(Nlst, line) == Behind(line, 4)
  {
    hide Find;
  }

  lemma EmptyEnds(root: string, arg: string)
    ensures arg == "" ==> !Unterminated(root, CStr(arg))
  {
  }

  /** In every run the server listens for control connections on the configured port and for data on port 40000. */
  lemma RunListens(w: World, os: seq<Oracle>, v: World, i: nat)
    requires Reached(w, os, v) && i < |v.kernel.trace| && v.kernel.trace[i].Listen?
    ensures v.kernel.trace[i].port == if v.kernel.trace[i].data then 40000 else w.port
  {
    hide Run, WellFormed, CanonicalText, IsDirText, NoBreaks, NoFormats, FilesInside;
    InitialBetween(w.fs, w.root, w.ip, w.port);
    RunGrows(w, os, Aims(false, false, false));
    assert RunPromise(w.fs, w.root, w.port, Aims(false, false, false)).Holds(v.kernel.trace[i]);
  }

  /** In every run every file opened for sending is below the root, if all regular files with a path that fits are. */
  lemma RunFetches(w: World, os: seq<Oracle>, v: World, i: nat)
    requires Reached(w, os, v) && FilesInside(w.fs, w.root)
    requires i < |v.kernel.trace| && v.kernel.trace[i].Fetches?
    ensures Inside(w.root, v.kernel.trace[i].path)
  {
    hide Run, WellFormed, CanonicalText, IsDirText, NoBreaks, NoFormats, FilesInside, Inside;
    InitialBetween(w.fs, w.root, w.ip, w.port);
    RunGrows(w, os, Aims(false, true, false));
    assert RunPromise(w.fs, w.root, w.port, Aims(false, true, false)).Holds(v.kernel.trace[i]);
  }

  /** Between two steps of a session: one creation is left over while a listener is open. */
  lemma ListenerIsSpare(w: World)
    requires Between(w) && w.connected
    ensures MarksSince(w.kernel.trace) + (if Live(w, w.transferSock) then 1 else 0) <= ListensSince(w.kernel.trace)
  {
    hide Watch, MarksSince, ListensSince, WellFormed;
    MarksWithinListens(w.kernel.trace);
  }

  /**
   * No listener survives an NLST, a RETR, a failed or unknown command, or the end of a session: the field names no
   * live socket, and the socket it named is closed, or lost if its shutdown was refused.
   */
  lemma NoListenerSurvives(w: World, line: string, o: Oracle)
    requires Between(w) && w.connected
    ensures var c := Find(TABLE, line);
            var v := Request(w, line, o);
            c == None || c == Some(Nlst) || c == Some(Retr) || !o.final || !v.connected ==>
              && !Live(v, v.transferSock)
              && (Live(w, w.transferSock) && Live(v, w.transferSock) ==> w.transferSock in v.lost)
              && (Live(w, w.transferSock) && Careful(o) ==> !Live(v, w.transferSock))
    ensures var v := Disconnect(w, o);
            && v.transferSock == -1
            && (Live(w, w.transferSock) && Live(v, w.transferSock) ==> w.transferSock in v.lost)
            && (Live(w, w.transferSock) && Careful(o) ==> !Live(v, w.transferSock))
  {
    hide Request, Find, Between, WellFormed, Disconnect, PassiveReady, Careful, Serving;
    RequestArms(w, line, o);
    RequestMoves(w, line, o);
    RequestKeeps(w, line, o);
    RequestSockets(w, line, o);
    Steps.HangUp(w, o);
    DisconnectSteady(w, o);
    var v := Request(w, line, o);
    if Live(w, w.transferSock) {
      if !Live(v, v.transferSock) {
        ListenerGone(w, v);
      }
      NotOpen(Disconnect(w, o));
      ListenerGone(w, Disconnect(w, o));
    }
  }

  /** A listener that no field names any more is closed or lost. */
  lemma ListenerGone(w: World, v: World)
    requires Between(w) && w.connected && Live(w, w.transferSock)
    requires Between(v) && !Live(v, v.transferSock) && v.serverSock == w.serverSock
    requires v.clientSock == w.clientSock || v.clientSock == -1
    ensures Live(v, w.transferSock) ==> w.transferSock in v.lost
    ensures v.lost == w.lost ==> !Live(v, w.transferSock)
  {
    hide Watch, Within, WellFormed;
  }

  lemma RequestSockets(w: World, line: string, o: Oracle)
    ensures var v := Request(w, line, o);
            v.serverSock == w.serverSock && (v.clientSock == w.clientSock || v.clientSock == -1)
  {
    hide Request, Find, CwdTarget, CStr, CurrentDir, Selects, WellFormed;
    RequestSteady(w, line, o);
  }

  /** NLST whose first line cannot be sent leaves the directory open, and no field or variable names it any more. */
  lemma ListingLeaksHandle(w: World, o: Oracle)
    requires Between(w) && w.connected && Live(w, w.transferSock) && '%' !in w.cwd
    requires w.kernel.Fresh(o.accept) && w.kernel.Fresh(o.dir) && o.dir != o.accept && o.prelim
    requires |o.entries[0]| < PATH_MAX && o.sends(0) == -1
    ensures o.dir in Request(w, "NLST", o).kernel.open && o.dir in Request(w, "NLST", o).lost
  {
    NotOpen(w);
    NlstRequest(w, o);
    hide WellFormed, Watch, CloseData, Owned, DoNlst, Request, Within;
    var u := w.Log(Command("NLST"));
    NlstLoses(u, o);
    CloseDataLoses(DoNlst(u, "", o).0, o.Later());
    RequestKeeps(w, "NLST", o);
    LostAreOpen(Request(w, "NLST", o));
  }

  lemma NlstRequest(w: World, o: Oracle)
    ensures var (v, ok) := DoNlst(w.Log(Command("NLST")), "", o);
            Request(w, "NLST", o) == if ok then v else CloseData(v, o.Later())
  {
    FindsTheName(TABLE, "NLST", Nlst);
    hide Find, DoNlst, CloseData, WellFormed;
    PerformIsExecute(w.Log(Command("NLST")), "NLST", o);
  }

  lemma LostAreOpen(w: World)
    requires Between(w)
    ensures w.lost <= w.kernel.open
  {
    hide Watch, Within, WellFormed;
  }

  lemma NlstLoses(w: World, o: Oracle)
    requires Contained(w) && '%' !in w.cwd && w.transferSock != -1 && Live(w, w.transferSock)
    requires w.kernel.Fresh(o.accept) && w.kernel.Fresh(o.dir) && o.dir != o.accept && o.prelim
    requires |o.entries[0]| < PATH_MAX && o.sends(0) == -1
    ensures o.dir in DoNlst(w, "", o).0.lost
  {
    CwdReachable(w, o);
    CanonicalStarts(w.fs, w.cwd);
    assert ListTarget(w, "", o) == Some(w.cwd);
    hide ListTarget, Listing, CloseData, Reply, Wording, WellFormed, RealPath;
    ListingLoses(w, w.cwd, o);
    var (v, ok) := Listing(w, w.cwd, false, o);
    CloseDataLoses(v, o);
    ReplySteady(CloseData(v, o), if ok then Wording(ListingSent) else Wording(ListingDenied), o.final);
  }

  lemma ListingLoses(w: World, dir: string, o: Oracle)
    requires dir != "" && w.transferSock != -1 && Live(w, w.transferSock)
    requires w.kernel.Fresh(o.accept) && w.kernel.Fresh(o.dir) && o.dir != o.accept && o.prelim
    requires |o.entries[0]| < PATH_MAX && o.sends(0) == -1
    ensures o.dir in Listing(w, dir, false, o).0.lost
  {
    WordingFits(ListingComes);
    hide Wording, ListDir, WellFormed;
    var v := AcceptData(w, o).0;
    ReplyWritten(v, Wording(ListingComes), o.prelim);
    ListDirLoses(Reply(v, Wording(ListingComes), o.prelim).0, dir, o);
  }

  lemma ListDirLoses(w: World, dir: string, o: Oracle)
    requires dir != "" && w.kernel.Fresh(o.dir) && |o.entries[0]| < PATH_MAX && o.sends(0) == -1
    ensures o.dir in ListDir(w, dir, false, o).0.lost
  {
    assert o.entries[0] != "";
    hide WellFormed;
  }

  lemma CloseDataLoses(w: World, o: Oracle)
    ensures w.lost <= CloseData(w, o).lost
  {
  }

  /** A start and an accept with nothing refused open a session in the root: the invariant is not empty. */
  lemma SessionBegins(w: World, first: Oracle, second: Oracle)
    requires w == Initial(w.fs, w.root, w.ip, w.port) && Configured(w)
    requires first.socket > 2 && first.Setup()
    requires second.accept > 2 && second.accept != first.socket && second.final
    ensures var (v, ok) := Run(w, [first, second]);
            ok && Between(v) && Alpha(v) == Connected(Components(w.fs, w.root), true, false)
  {
    InitialBetween(w.fs, w.root, w.ip, w.port);
    StartKeeps(w, first);
    StartTable(w, first);
    var u := Start(w, first).0;
    WaitKeeps(u, second);
    WaitConnects(u, second);
    WaitRefines(u, second);
    TwoSteps(w, first, second);
    hide Run, Between, Start, WaitForConnection, RealPath, Configured;
  }

  lemma StartTable(w: World, o: Oracle)
    requires w.kernel.open == {} && !w.created && Start(w, o).1
    ensures var v := Start(w, o).0;
            v.kernel.open == {o.socket} && v.serverSock == o.socket && v.fs == w.fs && v.root == w.root
  {
    hide ChangeDir, WellFormed;
    ChangeKeepsKernel(w.(transferSock := -1, serverSock := -1, clientSock := -1), o);
  }

  lemma ChangeKeepsKernel(w: World, o: Oracle)
    ensures var v := ChangeDir(w, w.root, |w.root|, o).0;
            v == w.(cwd := v.cwd)
  {
  }

  lemma WaitConnects(w: World, o: Oracle)
    requires Configured(w) && w.created && !w.connected
    requires w.serverSock in w.kernel.open && w.kernel.Fresh(o.accept) && o.final
    ensures WaitForConnection(w, o).1 && WaitForConnection(w, o).0.connected && WaitForConnection(w, o).0.created
  {
    var u := w.(clientSock := o.accept, kernel := w.kernel.Opened(o.accept).Logged(Session(o.accept)));
    RootCwd(u, o);
    WordingFits(Ready);
    hide Wording, ChangeDir, WellFormed, CanonicalDir;
  }

  lemma TwoSteps(w: World, first: Oracle, second: Oracle)
    requires !w.created && Start(w, first).1
    requires var u := Start(w, first).0; u.created && !u.connected
    ensures Run(w, [first, second]) == WaitForConnection(Start(w, first).0, second)
  {
    hide Start, WaitForConnection, HandleConnection;
    var u := Start(w, first).0;
    assert [first, second][1..] == [second];
    assert [second][1..] == [];
    var (x, ok) := Step(u, second);
    assert Run(x, []) == (x, true);
    assert Run(u, [second]) == (x, ok);
  }
}
