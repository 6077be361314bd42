/**
 * The abstract session machine: no sockets, no text, no buffers. The server refines it step by
 * step, and within a session the directory is the fold of the CWD requests over the tree.
 */
module Refinement {
  import opened Text
  import opened Paths
  import opened Translation
  import opened Dispatch
  import opened Machine
  import opened Protocol
  import opened Sessions
  import opened Steps
  import opened Frames
  import opened Runs

  datatype Abstract =
    | Stopped
    | Listening(binary: bool)
    | Connected(cwd: seq<Name>, binary: bool, armed: bool)

  /** The abstract state a world stands for. The mode outlives a session: only a start resets it. */
  function Alpha(w: World): Abstract {
    if !w.created then Stopped
    else if !w.connected then Listening(w.binary)
    else Connected(RealPath(w.fs, w.cwd).GetOr([]), w.binary, w.transferSock in w.kernel.open)
  }

  datatype Label =
    | Stutter
    | Begin
    | Greet
    | Serve(c: Option<Command>)
    | HangUp
    | Halt

  /** Only CWD moves, and only to a directory the root admits; only TYPE switches; only PASV arms. */
  predicate Served(fs: Fs, root: seq<Name>, a: Abstract, c: Option<Command>, b: Abstract) {
    && a.Connected? && (b == Listening(a.binary) ==> c == Some(User))
    && (b != Listening(a.binary) ==>
          && b.Connected?
          && (b.cwd != a.cwd ==> c == Some(Cwd) && IsDirAt(fs, b.cwd) && RootAdmits(root, b.cwd))
          && (b.binary != a.binary ==> c == Some(Type))
          && (b.armed ==> c == Some(Pasv) || (a.armed && c.Some? && c.value != Nlst && c.value != Retr)))
  }

  predicate Next(fs: Fs, root: seq<Name>, a: Abstract, l: Label, b: Abstract) {
    match l
    case Stutter => b == a
    case Begin => a == Stopped && b == Listening(true)
    case Greet => a.Listening? && b == Connected(root, a.binary, false)
    case Serve(c) => Served(fs, root, a, c, b)
    case HangUp => a.Connected? && b == Listening(a.binary)
    case Halt => !a.Stopped? && b == Stopped
  }

  function LabelOf(w: World, o: Oracle): Label {
    var (v, ok) := Step(w, o);
    if !w.created then (if v.created then Begin else Stutter)
    else if !v.created then Halt
    else if !w.connected then (if v.connected then Greet else Stutter)
    else if o.received.None? then Stutter
    else if IsRequest(o.received.value) then
      Serve(Find(TABLE, o.received.value[..|o.received.value| - 2]))
    else if o.received.value == "" then HangUp
    else Stutter
  }

  // ---------- what a request does to the abstract state ----------

  /** The request's outcome that the machine cannot know: is the reply written, is a passive socket ready. */
  function ServeFun(fs: Fs, root: seq<Name>, a: Abstract, line: string, sent: bool, ready: bool): Abstract
    requires a.Connected? && root in fs.nodes && a.cwd in fs.nodes
  {
    var c := Find(TABLE, line);
    if c.None? then a.(armed := false)
    else
      var arg := Argument(c.value, line);
      match c.value
      case User => if arg == "anonymous" then a.(armed := a.armed && sent) else Listening(a.binary)
      case Cwd =>
        a.(cwd := CwdNode(fs, root, a.cwd, CStr(arg), |arg|).GetOr(a.cwd), armed := a.armed && sent)
      case Type =>
        var mode := if Selects(arg, 'I', 'i') then true else if Selects(arg, 'A', 'a') then false else a.binary;
        a.(binary := if sent then mode else a.binary, armed := a.armed && sent)
      case Pasv => a.(armed := ready && sent)
      case Nlst => a.(armed := false)
      case Retr => a.(armed := false)
      case _ => a.(armed := a.armed && sent)
  }

  /** Not a CWD whose outcome C leaves open: from a directory with a '%' in its path, or by an unterminated path. */
  predicate Defined(root: string, cwd: string, line: string) {
    Find(TABLE, line) == Some(Cwd) ==> '%' !in cwd && !Unterminated(root, CStr(Argument(Cwd, line)))
  }

  /** Whether PASV gets its passive socket: decided after the old data sockets are closed. */
  predicate PassiveReady(w: World, o: Oracle) {
    CloseData(w, o).kernel.Fresh(o.socket) && o.Setup()
  }

  /** Commands that leave the sockets alone. */
  predicate LeavesSockets(c: Command, arg: string) {
    c != Pasv && c != Nlst && c != Retr && (c == User ==> arg == "anonymous")
  }

  lemma ReplyLeavesSockets(w: World, text: string, sent: bool)
    ensures var v := Reply(w, text, sent).0;
            v.kernel.open == w.kernel.open && v.transferSock == w.transferSock
  {
  }

  lemma LeavesOpen(w: World, c: Command, arg: string, o: Oracle)
    requires LeavesSockets(c, arg)
    ensures var v := Execute(w, c, arg, o).0;
            v.kernel.open == w.kernel.open && v.transferSock == w.transferSock
  {
    hide Reply, Wording, ServerPath, CurrentDir, CwdTarget, FileTarget, Content, Dec, Selects, CStr, HelpText, WellFormed;
    forall u: World, text: string, sent: bool
      ensures var v := Reply(u, text, sent).0;
              v.kernel.open == u.kernel.open && v.transferSock == u.transferSock
    {
      ReplyLeavesSockets(u, text, sent);
    }
  }

  /** Is the data listener open after the command (before a failure closes it). */
  lemma ArmedAfter(w: World, c: Command, arg: string, o: Oracle)
    requires InCommand(w)
    ensures var v := Execute(w, c, arg, o).0;
            Live(v, v.transferSock) <==>
              if c == Pasv then PassiveReady(w, o)
              else LeavesSockets(c, arg) && Live(w, w.transferSock)
  {
    hide Reply, Wording, Execute, CloseData, CreateTransfer, DoNlst, DoRetr, DoUser, InCommand, Between, PassiveReply, WellFormed;
    ExecuteKeeps(w, c, arg, o);
    NotOpen(Execute(w, c, arg, o).0);
    if LeavesSockets(c, arg) {
      LeavesOpen(w, c, arg, o);
    } else {
      ClosesData(w, c, arg, o);
    }
  }

  lemma NotOpen(w: World)
    requires Between(w)
    ensures !Live(w, -1)
  {
    hide Watch, Within, WellFormed;
  }

  lemma ClosesData(w: World, c: Command, arg: string, o: Oracle)
    requires InCommand(w) && !LeavesSockets(c, arg)
    ensures var v := Execute(w, c, arg, o).0;
            if c == Pasv then Live(v, v.transferSock) <==> PassiveReady(w, o) else v.transferSock == -1
  {
    hide Reply, Wording, CloseData, DoNlst, DoRetr, PassiveReply, Disconnect, Watch, Owned, Within, WellFormed;
    match c {
      case Nlst => NlstSteady(w, arg, o);
      case Retr => RetrSteady(w, arg, o);
      case User => DisconnectSteady(Reply(w, Wording(LoginIncorrect), o.final).0, o);
      case Pasv =>
        CloseDataKeeps(w, o);
        var (v, ok) := CreateTransfer(CloseData(w, o), PASV_PORT, o);
        ReplyLeavesSockets(v, PassiveReply(v.ip, PASV_PORT), o.final);
        ReplyLeavesSockets(v, Wording(NoDataConnection), o.final);
    }
  }

  /** The listener behind a whole request: a command that failed takes it along. */
  lemma RequestArms(w: World, line: string, o: Oracle)
    requires Between(w) && w.connected
    ensures var c := Find(TABLE, line);
            var v := Request(w, line, o);
            Live(v, v.transferSock) <==>
              && c.Some? && o.final
              && if c.value == Pasv then PassiveReady(w, o)
                 else LeavesSockets(c.value, Argument(c.value, line)) && Live(w, w.transferSock)
  {
    hide Watch, Perform, CloseData, Owned, Within, Find, PassiveReady, LeavesSockets, WellFormed, CanonicalDir;
    var u := w.Log(Command(line));
    WatchStep(w.kernel.trace, Command(line));
    assert InCommand(u);
    hide InCommand, Between, Serving, WellFormed;
    PerformKeeps(u, line, o);
    DropData(Perform(u, line, o).0, o.Later());
    NotOpen(CloseData(Perform(u, line, o).0, o.Later()));
    CloseDataSteady(Perform(u, line, o).0, o.Later());
    PassiveReadyLogged(w, Command(line), o);
    var c := Find(TABLE, line);
    if c.Some? && o.final {
      ArmedAfter(u, c.value, Argument(c.value, line), o);
      PerformIsExecute(u, line, o);
    }
  }

  lemma PerformIsExecute(w: World, line: string, o: Oracle)
    ensures var c := Find(TABLE, line);
            c.Some? ==> Perform(w, line, o) == Execute(w, c.value, Argument(c.value, line), o)
  {
    hide Execute, Find, WellFormed;
  }

  lemma ReleaseLogged(w: World, e: Event, fd: int, o: Oracle)
    ensures Release(w.Log(e), fd, o) == Release(w, fd, o).Log(e)
  {
  }

  lemma PassiveReadyLogged(w: World, e: Event, o: Oracle)
    ensures PassiveReady(w.Log(e), o) == PassiveReady(w, o)
  {
    hide Release, WellFormed;
    ReleaseLogged(w, e, w.transferClientSock, o);
    var u := CloseTransferClient(w, o);
    ReleaseLogged(u, e, u.transferSock, o);
  }

  /** The directory a request leaves, on components. */
  lemma RequestMoves(w: World, line: string, o: Oracle)
    requires Between(w) && w.connected
    ensures var v := Request(w, line, o);
            var rc, cc := Components(w.fs, w.root), Components(w.fs, w.cwd);
            && v.fs == w.fs && v.root == w.root && v.created
            && (v.connected <==> !(Find(TABLE, line) == Some(User) && Argument(User, line) != "anonymous"))
            && v.binary == RequestEffect(w, line, o).binary
            && CanonicalText(w.fs, v.cwd)
            && (Components(w.fs, v.cwd) != cc ==>
                  Find(TABLE, line) == Some(Cwd) && IsDirAt(w.fs, Components(w.fs, v.cwd))
                  && RootAdmits(rc, Components(w.fs, v.cwd)))
            && (Find(TABLE, line) == Some(Cwd) && Defined(w.root, w.cwd, line) ==>
                  var arg := Argument(Cwd, line);
                  Components(w.fs, v.cwd) == CwdNode(w.fs, rc, cc, CStr(arg), |arg|).GetOr(cc))
  {
    hide Request, Find, Watch, Owned, CwdTarget, CurrentDir, WellFormed, CStr, CwdNode, RealPath, Selects, Unterminated;
    RequestSteady(w, line, o);
    var c := Find(TABLE, line);
    if c == Some(Cwd) {
      var arg := Argument(Cwd, line);
      MoveMeaning(w, arg, o);
    }
  }

  lemma MoveMeaning(w: World, arg: string, o: Oracle)
    requires Configured(w) && Contained(w)
    ensures var rc, cc := Components(w.fs, w.root), Components(w.fs, w.cwd);
            var t := CwdTarget(w.fs, w.root, CurrentDir(w, o), CStr(arg), |arg|, o.tail);
            && (t.Some? ==>
                  CanonicalText(w.fs, t.value) && IsDirAt(w.fs, Components(w.fs, t.value))
                  && RootAdmits(rc, Components(w.fs, t.value)))
            && ('%' !in w.cwd && !Unterminated(w.root, CStr(arg)) ==>
                  var q := CwdNode(w.fs, rc, cc, CStr(arg), |arg|);
                  (t.Some? <==> q.Some?) && (q.Some? ==> Components(w.fs, t.value) == q.value))
  {
    var rc, cc := Components(w.fs, w.root), Components(w.fs, w.cwd);
    var t := CwdTarget(w.fs, w.root, CurrentDir(w, o), CStr(arg), |arg|, o.tail);
    if t.Some? {
      RootCheckMeaning(rc, Components(w.fs, t.value));
    }
    if '%' !in w.cwd && !Unterminated(w.root, CStr(arg)) {
      CwdReachable(w, o);
      hide CurrentDir, WellFormed, CStr;
      CwdMeaning(w.fs, w.root, w.cwd, CStr(arg), |arg|, o.tail);
      var q := CwdNode(w.fs, rc, cc, CStr(arg), |arg|);
      if q.Some? {
        CanonicalResolves(w.fs, q.value);
      }
    }
  }

  lemma CwdReachable(w: World, o: Oracle)
    requires Contained(w) && '%' !in w.cwd
    ensures CurrentDir(w, o) == Some(w.cwd)
  {
    CanonicalStarts(w.fs, w.cwd);
  }

  /** A request does to the server exactly what the abstract machine says, for every line C gives a meaning to. */
  lemma RequestRefines(w: World, line: string, o: Oracle)
    requires Between(w) && w.connected && Defined(w.root, w.cwd, line)
    ensures Alpha(Request(w, line, o))
         == ServeFun(w.fs, Components(w.fs, w.root), Alpha(w), line, o.final, PassiveReady(w, o))
  {
    hide Request, Find, Watch, Owned, CwdTarget, CurrentDir, WellFormed, CStr, CwdNode, Selects, PassiveReady, RealPath;
    ConnectedCreated(w);
    RequestMoves(w, line, o);
    RequestArms(w, line, o);
    var c := Find(TABLE, line);
    var a, b := Alpha(w), Alpha(Request(w, line, o));
    assert a == Connected(Components(w.fs, w.cwd), w.binary, Live(w, w.transferSock));
    if c.Some? {
      var arg := Argument(c.value, line);
      assert LeavesSockets(c.value, arg) <==>
             c.value != Pasv && c.value != Nlst && c.value != Retr && (c.value == User ==> arg == "anonymous");
      hide LeavesSockets, WellFormed;
    }
  }

  lemma ServeLabel(w: World, line: string, o: Oracle)
    requires Between(w) && w.connected
    ensures Served(w.fs, Components(w.fs, w.root), Alpha(w), Find(TABLE, line), Alpha(Request(w, line, o)))
  {
    hide Request, Find, Watch, Owned, CwdTarget, CurrentDir, WellFormed, CStr, CwdNode, Selects, PassiveReady, RealPath;
    ConnectedCreated(w);
    RequestMoves(w, line, o);
    RequestArms(w, line, o);
  }

  /** Every step of the server, also one that fails, is a step or a stutter of the abstract machine. */
  lemma StepRefines(w: World, o: Oracle)
    requires Between(w)
    ensures Next(w.fs, Components(w.fs, w.root), Alpha(w), LabelOf(w, o), Alpha(Step(w, o).0))
  {
    hide Start, WaitForConnection, Request, Disconnect, Stop, Between, Find, Served, WellFormed, BadStart;
    ConnectedCreated(w);
    if !w.created {
      StartRefines(w, o);
    } else if !w.connected {
      WaitRefines(w, o);
    } else {
      StopBetween(w, o);
      DisconnectSteady(w, o);
      StopState(w, o);
      if o.received.Some? && IsRequest(o.received.value) {
        var line := o.received.value[..|o.received.value| - 2];
        ServeLabel(w, line, o);
        RequestKeepsServer(w, line, o);
        AlphaConnected(w);
      }
    }
  }

  lemma AlphaConnected(w: World)
    requires w.created && w.connected
    ensures Alpha(w).Connected?
  {
  }

  lemma StopState(w: World, o: Oracle)
    ensures !Stop(w, o).created && !Stop(w, o).connected
  {
    hide CloseData, CloseClient, WellFormed;
  }

  lemma StartRefines(w: World, o: Oracle)
    requires Between(w) && !w.created
    ensures var (v, ok) := Start(w, o);
            (v.created <==> ok) && Alpha(w) == Stopped && Alpha(v) == (if ok then Listening(true) else Stopped)
  {
    hide Start, Between, Failed, BadStart, WellFormed;
    StartKeeps(w, o);
    StartCreates(w, o);
  }

  lemma StartCreates(w: World, o: Oracle)
    requires !w.created
    ensures Start(w, o).0.created <==> Start(w, o).1
  {
    hide SetTarget, CurrentDir, WellFormed;
  }

  lemma WaitRefines(w: World, o: Oracle)
    requires Between(w) && w.created && !w.connected
    ensures var v := WaitForConnection(w, o).0;
            && v.fs == w.fs && v.root == w.root
            && (if !v.created then Alpha(v) == Stopped
                else if v.connected then Alpha(v) == Connected(Components(w.fs, w.root), w.binary, false)
                else Alpha(v) == Alpha(w) == Listening(w.binary))
  {
    WaitKeeps(w, o);
    WaitFields(w, o);
    hide WaitForConnection, Between, Failed, WellFormed;
  }

  lemma WaitFields(w: World, o: Oracle)
    requires Configured(w) && w.created && !w.connected
    ensures var v := WaitForConnection(w, o).0;
            && v.fs == w.fs && v.root == w.root && (v.created ==> v.binary == w.binary)
            && (!WaitForConnection(w, o).1 ==> v.created && !v.connected)
  {
    hide Reply, Stop, ChangeDir, Wording, WellFormed;
    var u := w.(clientSock := o.accept, kernel := w.kernel.Opened(o.accept).Logged(Session(o.accept)));
    RootCwd(u, o);
    ReplySteady(u.(cwd := u.root), Wording(Ready), o.final);
    StopFields(w.(clientSock := -1), o);
  }

  // ---------- a session ----------

  /** The read does not end the session: a request other than a rejected USER, or bytes that are none while errno says "again". */
  predicate Stays(o: Oracle) {
    && o.received.Some? && o.received.value != ""
    && if IsRequest(o.received.value) then !Rejects(LineOf(o)) else o.again
  }

  predicate Rejects(line: string) {
    Find(TABLE, line) == Some(User) && Argument(User, line) != "anonymous"
  }

  /** Stays decides whether the client is still served behind the step. */
  lemma StaysConnected(w: World, o: Oracle)
    requires Between(w) && w.connected
    ensures Step(w, o).1 && Step(w, o).0.connected <==> Stays(o)
  {
    hide Request, Stop, Disconnect, Between, Find, WellFormed, CStr, CwdNode, RealPath;
    ConnectedCreated(w);
    StopFields(w, o);
    DisconnectSteady(w, o);
    if o.received.Some? && IsRequest(o.received.value) {
      RequestMoves(w, LineOf(o), o);
    }
  }

  /** The directory after one read: only a CWD request moves it. */
  function Moved(fs: Fs, root: seq<Name>, cwd: seq<Name>, o: Oracle): (to: seq<Name>)
    requires root in fs.nodes && cwd in fs.nodes
    ensures to in fs.nodes
  {
    if Find(TABLE, LineOf(o)) == Some(Cwd) then
      var arg := Argument(Cwd, LineOf(o));
      CwdNode(fs, root, cwd, CStr(arg), |arg|).GetOr(cwd)
    else cwd
  }

  /** The directory after a schedule of reads, from cwd: the tree and the requests alone decide it. */
  function FoldCwd(fs: Fs, root: seq<Name>, cwd: seq<Name>, os: seq<Oracle>): (to: seq<Name>)
    requires root in fs.nodes && cwd in fs.nodes
    ensures to in fs.nodes
    decreases |os|
  {
    if os == [] then cwd else FoldCwd(fs, root, Moved(fs, root, cwd, os[0]), os[1..])
  }

  /** None of the reads ends the session, and C gives each CWD a meaning in the directory the fold has reached. */
  predicate Plain(fs: Fs, root: seq<Name>, cwd: seq<Name>, os: seq<Oracle>)
    requires root in fs.nodes && cwd in fs.nodes
    decreases |os|
  {
    os != [] ==>
      && Stays(os[0]) && Defined(Render(root), Render(cwd), LineOf(os[0]))
      && Plain(fs, root, Moved(fs, root, cwd, os[0]), os[1..])
  }

  /** Within a session the current directory is the fold of the CWD requests: nothing else moves it. */
  lemma {:induction false} SessionFolds(w: World, os: seq<Oracle>)
    requires Between(w) && w.connected
    ensures Plain(w.fs, Components(w.fs, w.root), Components(w.fs, w.cwd), os) ==>
              var (v, ok) := Run(w, os);
              && ok && Between(v) && v.connected && v.fs == w.fs
              && Components(w.fs, v.cwd) == FoldCwd(w.fs, Components(w.fs, w.root), Components(w.fs, w.cwd), os)
    decreases |os|
  {
    hide Step, WellFormed, RealPath, Between, Stays, Defined, Moved;
    BetweenConnected(w);
    if os != [] && Plain(w.fs, Components(w.fs, w.root), Components(w.fs, w.cwd), os) {
      StepKeeps(w, os[0]);
      StaysConnected(w, os[0]);
      SessionStep(w, os[0]);
      SessionFolds(Step(w, os[0]).0, os[1..]);
    }
  }

  lemma BetweenConnected(w: World)
    requires Between(w) && w.connected
    ensures w.created && CanonicalText(w.fs, w.cwd) && CanonicalText(w.fs, w.root)
  {
  }

  lemma SessionStep(w: World, o: Oracle)
    requires Between(w) && w.connected && Stays(o) && Defined(w.root, w.cwd, LineOf(o))
    ensures var v := Step(w, o).0;
            && v.fs == w.fs && v.root == w.root
            && CanonicalText(w.fs, v.cwd) && CanonicalText(w.fs, w.cwd) && CanonicalText(w.fs, w.root)
            && Components(w.fs, v.cwd) == Moved(w.fs, Components(w.fs, w.root), Components(w.fs, w.cwd), o)
  {
    hide Request, Find, CwdTarget, CurrentDir, WellFormed, CStr, CwdNode, RealPath, Stop, Disconnect, Unterminated;
    BetweenConnected(w);
    ConnectedCreated(w);
    if IsRequest(o.received.value) {
      RequestMoves(w, LineOf(o), o);
    } else {
      NoLine(o);
    }
  }

  lemma NoLine(o: Oracle)
    ensures o.received.Some? && !IsRequest(o.received.value) ==> Find(TABLE, LineOf(o)) == None
  {
  }

  /** From the accept on, the directory of a session is the fold of its CWD requests over the tree, from the root. */
  lemma SessionIsFold(w: World, first: Oracle, os: seq<Oracle>)
    requires Between(w) && w.created && !w.connected && WaitForConnection(w, first).0.connected
    requires var r := Components(w.fs, w.root); Plain(w.fs, r, r, os)
    ensures var (v, ok) := Run(w, [first] + os);
            var r := Components(w.fs, w.root);
            && ok && v.connected && CanonicalText(w.fs, v.cwd)
            && Components(w.fs, v.cwd) == FoldCwd(w.fs, r, r, os)
  {
    hide WaitForConnection, WellFormed, RealPath, Between, Plain;
    ConnectedCreated(w);
    WaitKeeps(w, first);
    WaitFields(w, first);
    var u := WaitForConnection(w, first).0;
    SessionFolds(u, os);
    assert ([first] + os)[1..] == os;
    BetweenConnected(Run(u, os).0);
  }
}
