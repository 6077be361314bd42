/** Whole runs: the handler step keeps the invariant, for every schedule of oracles. */
module Runs {
  import opened Text
  import opened Paths
  import opened Translation
  import opened Dispatch
  import opened Machine
  import opened Protocol
  import opened Transfers
  import opened Sessions
  import opened Steps
  import opened Frames

  /** The static data of the process after a successful Initialize: all zero but the configuration. */
  function Initial(fs: Fs, root: string, ip: string, port: nat): World {
    World(fs, root, ip, port, "", 0, 0, 0, 0, false, false, false, {}, Kernel({}, [], []))
  }

  lemma InitialBetween(fs: Fs, root: string, ip: string, port: nat)
    requires Configured(Initial(fs, root, ip, port))
    ensures Between(Initial(fs, root, ip, port))
  {
    hide CanonicalDir, WellFormed;
  }

  /** Setting the directory to the configured root always succeeds, whatever the cwd was. */
  lemma RootCwd(w: World, o: Oracle)
    requires Configured(w)
    ensures ChangeDir(w, w.root, |w.root|, o) == (w.(cwd := w.root), true)
    ensures Within(w.fs, w.root, w.root)
  {
    hide CurrentDir, SetTarget, WellFormed;
    SetCanonical(w.fs, w.root, CurrentDir(w, o), w.root);
    CanonicalStarts(w.fs, w.root);
  }

  /** Start fails after socket() gave out a descriptor: the dead number stays in serverSock. */
  predicate BadStart(w: World, o: Oracle) {
    !w.created && w.kernel.Fresh(o.socket) && !o.Setup()
  }

  lemma StartKeeps(w: World, o: Oracle)
    requires Between(w) && !w.created
    ensures var (v, ok) := Start(w, o);
            && (ok <==> w.kernel.Fresh(o.socket) && o.Setup())
            && (if ok then Between(v) && v.created && !v.connected else Failed(v))
            && v.lost == w.lost && v.cwd == w.root && v.binary
            && (v.serverSock == -1 || Live(v, v.serverSock) <==> !BadStart(w, o))
  {
    hide Watch, Within, ChangeDir, Owned, WellFormed;
    var u := w.(transferSock := -1, serverSock := -1, clientSock := -1);
    RootCwd(u, o);
    NoneLive(w.kernel.open, w.lost, w.transferClientSock, w.transferSock, w.clientSock, w.serverSock, o.socket);
    WatchStep(w.kernel.trace, Listen(w.port, false));
  }

  /** A server that starts listens on the configured port, for control connections; one that fails does not listen. */
  lemma StartListens(w: World, o: Oracle)
    requires Configured(w)
    ensures Start(w, o).0.kernel.trace
         == w.kernel.trace + (if Start(w, o).1 then [Listen(w.port, false)] else [])
  {
    hide ChangeDir, WellFormed, CanonicalDir;
    RootCwd(w.(transferSock := -1, serverSock := -1, clientSock := -1), o);
  }

  lemma NoneLive(open: set<int>, lost: set<int>, a: int, b: int, c: int, d: int, n: int)
    requires Owned(open, lost, a, b, c, d) && a <= 0 && b !in open && c !in open && d !in open
    ensures -1 !in open && Owned(open, lost, a, -1, -1, -1)
    ensures n > 2 && n !in open ==>
              && Owned(open + {n}, lost, a, -1, -1, n) && Owned(open, lost, a, -1, -1, n)
              && open + {n} - {n} == open
  {
  }

  /** Accepting a control connection; on success the session starts at the root. */
  lemma WaitKeeps(w: World, o: Oracle)
    requires Between(w) && w.created && !w.connected
    ensures var (v, ok) := WaitForConnection(w, o);
            && (if ok then Between(v) else Failed(v))
            && (v.serverSock == -1 || Live(v, v.serverSock))
            && (v.connected ==> v.cwd == v.root && v.binary == w.binary && !Live(v, v.transferSock))
            && (!v.connected && v.created ==> v.cwd == w.cwd || v.cwd == v.root)
            && (Careful(o) ==> v.lost == w.lost)
  {
    hide Watch, Within, ChangeDir, Owned, Reply, Wording, Stop, Final, Completes, WellFormed;
    if Live(w, w.serverSock) && w.kernel.Fresh(o.accept) {
      var u := w.(clientSock := o.accept, kernel := w.kernel.Opened(o.accept).Logged(Session(o.accept)));
      AcceptOwned(w.kernel.open, w.lost, w.transferClientSock, w.transferSock, w.clientSock, w.serverSock, o.accept);
      WatchStep(w.kernel.trace, Session(o.accept));
      RootCwd(u, o);
      Greeting(u.(cwd := u.root), o.final);
    } else {
      var u := w.(clientSock := -1);
      AcceptOwned(w.kernel.open, w.lost, w.transferClientSock, w.transferSock, w.clientSock, w.serverSock, o.accept);
      StopKeeps(u, o);
    }
  }

  lemma AcceptOwned(open: set<int>, lost: set<int>, a: int, b: int, c: int, d: int, n: int)
    requires Owned(open, lost, a, b, c, d) && a <= 0 && b !in open && c !in open && d in open
    ensures -1 !in open && Owned(open, lost, a, b, -1, d)
    ensures n > 2 && n !in open && b <= 0 ==> Owned(open + {n}, lost, a, b, n, d)
  {
  }

  lemma Greeting(w: World, sent: bool)
    requires Watch(w.kernel.trace).phase == Owed && Watch(w.kernel.trace).control == Some(w.clientSock)
    ensures var (v, ok) := Reply(w, Wording(Ready), sent);
            && ok == sent && v == w.Log(Control(w.clientSock, Wording(Ready) + CRLF, sent))
            && Watch(v.kernel.trace) == Watch(w.kernel.trace).(phase := Quiet)
  {
    hide Watch, Wording, Completes, Preliminary, WellFormed;
    NoticesAreFinal(Ready);
    FinalWatched(w.kernel.trace, w.clientSock, Wording(Ready), sent);
  }

  lemma StopBetween(w: World, o: Oracle)
    requires Between(w) && w.created
    ensures var v := Stop(w, o);
            && Between(v) && v.serverSock == -1 && (Careful(o) ==> v.lost == w.lost)
  {
    hide Watch, Within, Owned, Stop, WellFormed;
    StopKeeps(w, o);
  }

  lemma HandleKeeps(w: World, o: Oracle)
    requires Between(w) && w.connected
    ensures var (v, ok) := HandleConnection(w, o);
            && Between(v) && (v.created || v.serverSock == -1)
            && (Careful(o) ==> v.lost == w.lost)
  {
    hide Between, Stop, Request, Disconnect, Careful, WellFormed;
    ConnectedCreated(w);
    StopBetween(w, o);
    HangUp(w, o);
    DisconnectSteady(w, o);
    if o.received.Some? && IsRequest(o.received.value) {
      var line := o.received.value[..|o.received.value| - 2];
      RequestKeeps(w, line, o);
      RequestKeepsServer(w, line, o);
    }
  }

  lemma ConnectedCreated(w: World)
    requires Between(w)
    ensures w.connected ==> w.created
    ensures w.created ==> Live(w, w.serverSock)
    ensures Failed(w)
  {
  }

  /** Any step keeps the invariant; a step that fails leaves descriptors owned and no reply owed. */
  lemma StepKeeps(w: World, o: Oracle)
    requires Between(w)
    ensures var (v, ok) := Step(w, o);
            && (if ok then Between(v) else Failed(v))
            && (Careful(o) ==> v.lost == w.lost)
            && (v.serverSock == -1 || Live(v, v.serverSock) <==> !BadStart(w, o))
  {
    hide Between, Failed, Start, WaitForConnection, HandleConnection, BadStart, Careful, WellFormed;
    ConnectedCreated(w);
    if !w.created {
      StartKeeps(w, o);
    } else if !w.connected {
      WaitKeeps(w, o);
      NotBadStart(w, o);
    } else {
      HandleKeeps(w, o);
      NotBadStart(w, o);
      ConnectedCreated(HandleConnection(w, o).0);
    }
  }

  lemma NotBadStart(w: World, o: Oracle)
    requires w.created
    ensures !BadStart(w, o)
  {
  }

  /** The configuration stays as it is, the first step sets the directory, and a set directory stays set. */
  lemma StepFixes(w: World, o: Oracle)
    requires Configured(w)
    ensures var v := Step(w, o).0;
            && v.fs == w.fs && v.root == w.root && v.ip == w.ip && v.port == w.port
            && (!w.created || w.cwd != "" ==> v.cwd != "")
  {
    hide Start, WaitForConnection, HandleConnection, WellFormed;
    StartFixes(w, o);
    WaitFixes(w, o);
    HandleFixes(w, o);
  }

  lemma StartFixes(w: World, o: Oracle)
    requires Configured(w)
    ensures var v := Start(w, o).0;
            v.fs == w.fs && v.root == w.root && v.ip == w.ip && v.port == w.port && v.cwd != ""
  {
    hide ChangeDir, CreatePassive, WellFormed, CanonicalDir;
    RootCwd(w.(transferSock := -1, serverSock := -1, clientSock := -1), o);
  }

  lemma WaitFixes(w: World, o: Oracle)
    requires Configured(w)
    ensures var v := WaitForConnection(w, o).0;
            && v.fs == w.fs && v.root == w.root && v.ip == w.ip && v.port == w.port
            && (w.cwd != "" ==> v.cwd != "")
  {
    hide ChangeDir, Reply, Stop, Wording, WellFormed, CanonicalDir;
    var u := w.(clientSock := o.accept, kernel := w.kernel.Opened(o.accept).Logged(Session(o.accept)));
    RootCwd(u, o);
    ReplySteady(u.(cwd := u.root), Wording(Ready), o.final);
    StopFields(w.(clientSock := -1), o);
  }

  lemma HandleFixes(w: World, o: Oracle)
    ensures var v := HandleConnection(w, o).0;
            && v.fs == w.fs && v.root == w.root && v.ip == w.ip && v.port == w.port
            && (w.cwd != "" ==> v.cwd != "")
  {
    hide Request, Stop, Disconnect, Find, WellFormed;
    StopFields(w, o);
    DisconnectSteady(w, o);
    RequestFixes(w, LineOf(o), o);
  }

  lemma RequestFixes(w: World, line: string, o: Oracle)
    ensures var v := Request(w, line, o);
            && v.fs == w.fs && v.root == w.root && v.ip == w.ip && v.port == w.port
            && (w.cwd != "" ==> v.cwd != "")
  {
    hide Request, Find, CwdTarget, CurrentDir, CStr, Selects, WellFormed, CanonicalDir;
    RequestSteady(w, line, o);
  }

  /** The run ends in a Start that failed after socket(). */
  predicate EndsInBadStart(w: World, os: seq<Oracle>)
    decreases |os|
  {
    os != [] &&
    var (v, ok) := Step(w, os[0]);
    if ok then EndsInBadStart(v, os[1..]) else BadStart(w, os[0])
  }

  ghost predicate AllCareful(os: seq<Oracle>) {
    forall i | 0 <= i < |os| :: Careful(os[i])
  }

  lemma {:induction false} RunKeeps(w: World, os: seq<Oracle>)
    requires Between(w)
    ensures var (v, ok) := Run(w, os);
            && (if ok then Between(v) else Failed(v))
            && (AllCareful(os) ==> v.lost == w.lost)
            && (os != [] ==> (v.serverSock == -1 || Live(v, v.serverSock) <==> !EndsInBadStart(w, os)))
    decreases |os|
  {
    hide Between, Failed, Step, BadStart, Careful, WellFormed;
    if os != [] {
      var (v, ok) := Step(w, os[0]);
      StepKeeps(w, os[0]);
      if ok {
        BadStartFails(w, os[0]);
        RunKeeps(v, os[1..]);
      }
    }
  }

  lemma BadStartFails(w: World, o: Oracle)
    requires Between(w)
    ensures BadStart(w, o) ==> !Step(w, o).1
  {
    hide WaitForConnection, HandleConnection, Start, Between, WellFormed;
    if !w.created {
      StartKeeps(w, o);
    }
  }

  lemma {:induction false} RunFixes(w: World, os: seq<Oracle>)
    requires Between(w)
    ensures var v := Run(w, os).0;
            && v.fs == w.fs && v.root == w.root
            && (w.cwd != "" || (os != [] && !w.created) ==> v.cwd != "")
    decreases |os|
  {
    hide Between, Failed, Step, BadStart, WellFormed;
    if os != [] {
      var (v, ok) := Step(w, os[0]);
      ConnectedCreated(w);
      StepFixes(w, os[0]);
      StepKeeps(w, os[0]);
      if ok {
        RunFixes(v, os[1..]);
      }
    }
  }

  /** One more step at the end of a schedule. */
  lemma {:induction false} RunOneMore(w: World, os: seq<Oracle>, o: Oracle)
    requires Run(w, os).1
    ensures Run(w, os + [o]) == Step(Run(w, os).0, o)
    decreases |os|
  {
    hide Step;
    if os == [] {
      assert os + [o] == [o];
      assert [o][1..] == [];
      var (v, ok) := Step(w, o);
      assert Run(v, []) == (v, true);
    } else {
      assert (os + [o])[1..] == os[1..] + [o];
      RunOneMore(Step(w, os[0]).0, os[1..], o);
    }
  }

  /**
   * main stops the server when a run is over. No field then names a descriptor and the only open ones are the
   * lost ones: none if every shutdown and every directory line was accepted. close() never met a number that
   * was not open, except once after a Start that failed behind socket().
   */
  lemma RunThenStop(w: World, os: seq<Oracle>, o: Oracle)
    requires Between(w) && os != []
    ensures var v := Stop(Run(w, os).0, o);
            && v.kernel.open == v.lost
            && (AllCareful(os) && Careful(o) ==> v.lost == w.lost)
            && (v.kernel.stray == [] <==> !EndsInBadStart(w, os))
            && |v.kernel.stray| <= 1
            && Watch(v.kernel.trace).phase == Quiet && Watch(v.kernel.trace).matched
  {
    hide Watch, Run, Stop, EndsInBadStart, Owned, WellFormed;
    RunKeeps(w, os);
    StopKeeps(Run(w, os).0, o);
  }

  /** A first start that fails behind socket(): the number is closed at once, and the final stop closes it again. */
  lemma DeadNumberClosedAgain(w: World, o: Oracle, last: Oracle)
    requires w == Initial(w.fs, w.root, w.ip, w.port) && Configured(w)
    requires o.socket == 3 && !o.bind
    ensures Run(w, [o]).1 == false && Stop(Run(w, [o]).0, last).kernel == Kernel({}, [3], [])
  {
    hide Start, WaitForConnection, HandleConnection, Run, Stop, WellFormed, CanonicalDir;
    DeadNumberLeft(w, o);
    assert Run(w, []) == (w, true) by { RunNothing(w); }
    assert [] + [o] == [o];
    RunOneMore(w, [], o);
    StopDead(Start(w, o).0, last);
  }

  lemma RunNothing(w: World)
    ensures Run(w, []) == (w, true)
  {
    hide Step;
  }

  lemma StopDead(w: World, o: Oracle)
    requires w.kernel == Kernel({}, [], []) && w.serverSock == 3
    ensures Stop(w, o).kernel == Kernel({}, [3], [])
  {
  }

  lemma DeadNumberLeft(w: World, o: Oracle)
    requires w == Initial(w.fs, w.root, w.ip, w.port) && Configured(w)
    requires o.socket == 3 && !o.bind
    ensures var (v, ok) := Start(w, o);
            && !ok && v.kernel == Kernel({}, [], [])
            && v.serverSock == 3 && v.transferSock == -1 && v.clientSock == -1 && v.transferClientSock == 0
  {
    RootCwd(w.(transferSock := -1, serverSock := -1, clientSock := -1), o);
    hide ChangeDir, WellFormed, CanonicalDir;
    assert {3} - {3} == {};
  }
}
