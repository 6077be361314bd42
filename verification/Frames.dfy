/** Which fields a command can change: the directory only by CWD, the mode only by TYPE. */
module Frames {
  import opened Text
  import opened Paths
  import opened Translation
  import opened Dispatch
  import opened Machine
  import opened Protocol
  import opened Transfers
  import opened Steps

  /** v differs from w at most in the data sockets, the lost descriptors and the kernel. */
  predicate Steady(w: World, v: World) {
    v.(transferSock := w.transferSock, transferClientSock := w.transferClientSock,
       lost := w.lost, kernel := w.kernel) == w
  }

  lemma ReleaseSteady(w: World, fd: int, o: Oracle)
    ensures var v := Release(w, fd, o);
            v.(lost := w.lost, kernel := w.kernel) == w
  {
  }

  lemma CloseDataSteady(w: World, o: Oracle)
    ensures Steady(w, CloseData(w, o))
    ensures CloseData(w, o).transferSock == -1 && CloseData(w, o).transferClientSock == -1
  {
    hide Release, WellFormed;
    ReleaseSteady(w, w.transferClientSock, o);
    var u := CloseTransferClient(w, o);
    ReleaseSteady(u, u.transferSock, o);
  }

  lemma CloseClientSteady(w: World, o: Oracle)
    ensures Steady(w.(clientSock := -1), CloseClient(w, o))
    ensures CloseClient(w, o).transferSock == w.transferSock
  {
    hide Release, WellFormed;
    ReleaseSteady(w, w.clientSock, o);
  }

  lemma ReplySteady(w: World, text: string, sent: bool)
    ensures Steady(w, Reply(w, text, sent).0)
    ensures Reply(w, text, sent).0.transferSock == w.transferSock && Reply(w, text, sent).0.lost == w.lost
  {
  }

  lemma AcceptSteady(w: World, o: Oracle)
    ensures Steady(w, AcceptData(w, o).0)
  {
  }

  lemma RetrievalSteady(w: World, path: string, file: string, arg: string, o: Oracle)
    ensures Steady(w, Retrieval(w, path, file, arg, o).0)
  {
    hide AcceptData, Reply, SendFile, Announcement, WellFormed;
    AcceptSteady(w, o);
    var v := AcceptData(w, o).0;
    ReplySteady(v, Announcement(v.binary, arg), o.prelim);
    SendFileFrame(Reply(v, Announcement(v.binary, arg), o.prelim).0, path, file, o);
  }

  lemma ListDirSteady(w: World, dir: string, withPath: bool, o: Oracle)
    ensures Steady(w, ListDir(w, dir, withPath, o).0)
  {
    hide ListLoop, WellFormed;
  }

  lemma ListingSteady(w: World, dir: string, withPath: bool, o: Oracle)
    ensures Steady(w, Listing(w, dir, withPath, o).0)
  {
    hide AcceptData, Reply, ListDir, Wording, WellFormed;
    AcceptSteady(w, o);
    var v := AcceptData(w, o).0;
    ReplySteady(v, Wording(ListingComes), o.prelim);
    ListDirSteady(Reply(v, Wording(ListingComes), o.prelim).0, dir, withPath, o);
  }

  /** After RETR no data socket is named any more. */
  lemma RetrSteady(w: World, arg: string, o: Oracle)
    ensures var v := DoRetr(w, arg, o).0;
            Steady(w, v) && v.transferSock == -1
  {
    hide Retrieval, Reply, CloseData, FileTarget, Content, Wording, WellFormed;
    var t := FileTarget(w, arg, o);
    if t.Some? {
      RetrievalSteady(w, t.value, Content(w.fs, t.value), arg, o);
    }
    var (v, ok) := if t.Some? then Retrieval(w, t.value, Content(w.fs, t.value), arg, o) else (w, false);
    CloseDataSteady(v, o);
    ReplySteady(CloseData(v, o), if ok then Wording(TransferComplete)
                                 else if |arg| > 0 && t.None? then Wording(NoFileToSend)
                                 else Wording(LocalError), o.final);
  }

  /** After NLST no data socket is named any more. */
  lemma NlstSteady(w: World, arg: string, o: Oracle)
    ensures var v := DoNlst(w, arg, o).0;
            Steady(w, v) && v.transferSock == -1
  {
    hide Listing, Reply, CloseData, ListTarget, Wording, WellFormed;
    var t := ListTarget(w, arg, o);
    if t.Some? {
      ListingSteady(w, t.value, |arg| != 0, o);
    }
    var (v, ok) := if t.Some? then Listing(w, t.value, |arg| != 0, o) else (w, false);
    CloseDataSteady(v, o);
    ReplySteady(CloseData(v, o), if ok then Wording(ListingSent) else Wording(ListingDenied), o.final);
  }

  lemma PasvSteady(w: World, o: Oracle)
    ensures Steady(w, DoPasv(w, o).0)
  {
    hide CloseData, Reply, PassiveReply, Wording, WellFormed;
    CloseDataSteady(w, o);
    var (v, ok) := CreateTransfer(CloseData(w, o), PASV_PORT, o);
    ReplySteady(v, if ok then PassiveReply(v.ip, PASV_PORT) else Wording(NoDataConnection), o.final);
  }

  lemma DisconnectSteady(w: World, o: Oracle)
    ensures Steady(w.(clientSock := -1, connected := false), Disconnect(w, o))
    ensures Disconnect(w, o).transferSock == -1
  {
    hide CloseData, WellFormed;
    CloseDataSteady(w, o);
    CloseClientSteady(CloseData(w, o), o);
  }

  // ---------- closing logs nothing ----------

  lemma ReleaseTrace(w: World, fd: int, o: Oracle)
    ensures Release(w, fd, o).kernel.trace == w.kernel.trace
  {
  }

  lemma CloseDataTrace(w: World, o: Oracle)
    ensures CloseData(w, o).kernel.trace == w.kernel.trace
  {
    hide Release, WellFormed;
    ReleaseTrace(w, w.transferClientSock, o);
    ReleaseTrace(CloseTransferClient(w, o), CloseTransferClient(w, o).transferSock, o);
  }

  lemma CloseClientTrace(w: World, o: Oracle)
    ensures CloseClient(w, o).kernel.trace == w.kernel.trace
  {
    ReleaseTrace(w, w.clientSock, o);
  }

  lemma DisconnectTrace(w: World, o: Oracle)
    ensures Disconnect(w, o).kernel.trace == w.kernel.trace
  {
    hide CloseData, CloseClient, WellFormed;
    CloseDataTrace(w, o);
    CloseClientTrace(CloseData(w, o), o);
  }

  lemma StopTrace(w: World, o: Oracle)
    ensures Stop(w, o).kernel.trace == w.kernel.trace
  {
    hide CloseData, CloseClient, WellFormed;
    CloseDataTrace(w, o);
    CloseClientTrace(CloseData(w, o), o);
  }

  lemma StopFields(w: World, o: Oracle)
    ensures var v := Stop(w, o);
            && v.fs == w.fs && v.root == w.root && v.ip == w.ip && v.port == w.port && v.cwd == w.cwd
            && v.binary == w.binary && !v.created && !v.connected
  {
    hide CloseData, CloseClient, WellFormed;
    CloseDataSteady(w, o);
    CloseClientSteady(CloseData(w, o), o);
  }

  // ---------- whole commands ----------

  /** What a command makes of the fields that outlive it. */
  function Effect(w: World, c: Command, arg: string, o: Oracle): World {
    match c
    case User => if arg == "anonymous" then w else w.(clientSock := -1, connected := false)
    case Cwd => w.(cwd := CwdTarget(w.fs, w.root, CurrentDir(w, o), CStr(arg), |arg|, o.tail).GetOr(w.cwd))
    case Type =>
      if !o.final then w
      else if Selects(arg, 'I', 'i') then w.(binary := true)
      else if Selects(arg, 'A', 'a') then w.(binary := false)
      else w
    case _ => w
  }

  lemma ExecuteSteady(w: World, c: Command, arg: string, o: Oracle)
    ensures Steady(Effect(w, c, arg, o), Execute(w, c, arg, o).0)
  {
    hide Reply, DoUser, DoPasv, DoNlst, DoPwd, DoCwd, DoRetr, DoSize, DoType, Effect, Wording, HelpText, Steady, WellFormed;
    EffectOnly(w, c, arg, o);
    match c {
      case User => UserSteady(w, arg, o);
      case Pasv => PasvSteady(w, o);
      case Nlst => NlstSteady(w, arg, o);
      case Retr => RetrSteady(w, arg, o);
      case Syst => ReplySteady(w, Wording(SystemType), o.final);
      case Pwd => PwdSteady(w, o);
      case Cwd => CwdSteady(w, arg, o);
      case Size => SizeSteady(w, arg, o);
      case Type => TypeSteady(w, arg, o);
      case Help => HelpSteady(w, o);
      case Quit => ReplySteady(w, Wording(Bye), o.final);
    }
  }

  lemma EffectOnly(w: World, c: Command, arg: string, o: Oracle)
    ensures c != User && c != Cwd && c != Type ==> Effect(w, c, arg, o) == w
  {
  }

  lemma HelpSteady(w: World, o: Oracle)
    ensures Steady(w, DoHelp(w, o).0)
  {
    hide HelpText, WellFormed;
  }

  lemma UserSteady(w: World, arg: string, o: Oracle)
    ensures Steady(Effect(w, User, arg, o), DoUser(w, arg, o).0)
  {
    hide Reply, Disconnect, Wording, WellFormed;
    ReplySteady(w, Wording(LoggedIn), o.final);
    ReplySteady(w, Wording(LoginIncorrect), o.final);
    DisconnectSteady(Reply(w, Wording(LoginIncorrect), o.final).0, o);
  }

  lemma PwdSteady(w: World, o: Oracle)
    ensures Steady(w, DoPwd(w, o).0)
  {
    hide Reply, CurrentDir, ServerPath, Wording, WellFormed;
    var cwd := CurrentDir(w, o);
    ReplySteady(w, Wording(NoDirectory), o.final);
    if cwd.Some? {
      ReplySteady(w, "257 \"" + ServerPath(cwd.value, w.root) + "\"", o.final);
    }
  }

  lemma CwdSteady(w: World, arg: string, o: Oracle)
    ensures Steady(Effect(w, Cwd, arg, o), DoCwd(w, arg, o).0)
  {
    hide Reply, CurrentDir, CwdTarget, CStr, Wording, WellFormed;
    ReplySteady(Effect(w, Cwd, arg, o), Wording(DirectoryChanged), o.final);
    ReplySteady(w, Wording(DirectoryKept), o.final);
    assert w.(cwd := w.cwd) == w;
  }

  lemma SizeSteady(w: World, arg: string, o: Oracle)
    ensures Steady(w, DoSize(w, arg, o).0)
  {
    hide FileTarget, Content, Dec, Wording, WellFormed;
  }

  lemma TypeSteady(w: World, arg: string, o: Oracle)
    ensures Steady(Effect(w, Type, arg, o), DoType(w, arg, o).0)
  {
    hide Selects, Wording, Reply, WellFormed;
    NoticeSent(w, BinaryMode, o.final);
    NoticeSent(w, AsciiMode, o.final);
    NoticeSent(w, BadParameter, o.final);
  }

  lemma NoticeSent(w: World, n: Notice, sent: bool)
    ensures Steady(w, Reply(w, Wording(n), sent).0) && Reply(w, Wording(n), sent).1 == sent
  {
    hide Message, Code, WellFormed;
    MessagesFit(n);
  }

  function RequestEffect(w: World, line: string, o: Oracle): World {
    var c := Find(TABLE, line);
    if c.Some? then Effect(w, c.value, Argument(c.value, line), o) else w
  }

  lemma SteadyTransitive(u: World, v: World, w: World)
    requires Steady(u, v) && Steady(v, w)
    ensures Steady(u, w)
  {
    hide WellFormed;
  }

  lemma EffectLogged(w: World, e: Event, c: Command, arg: string, o: Oracle)
    ensures Steady(Effect(w, c, arg, o), Effect(w.Log(e), c, arg, o))
  {
    hide WellFormed, CwdTarget, CStr, Selects;
    assert CurrentDir(w, o) == CurrentDir(w.Log(e), o);
  }

  lemma PerformSteady(w: World, line: string, o: Oracle)
    ensures Steady(RequestEffect(w, line, o), Perform(w.Log(Command(line)), line, o).0)
  {
    hide Execute, Effect, Reply, Find, Wording, Steady, WellFormed;
    var e := Command(line);
    var c := Find(TABLE, line);
    if c.Some? {
      var arg := Argument(c.value, line);
      EffectLogged(w, e, c.value, arg, o);
      ExecuteSteady(w.Log(e), c.value, arg, o);
      SteadyTransitive(Effect(w, c.value, arg, o), Effect(w.Log(e), c.value, arg, o),
                       Execute(w.Log(e), c.value, arg, o).0);
    } else {
      LogSteady(w, e);
      ReplySteady(w.Log(e), Wording(UnknownCommand), o.final);
      SteadyTransitive(w, w.Log(e), Reply(w.Log(e), Wording(UnknownCommand), o.final).0);
    }
  }

  lemma LogSteady(w: World, e: Event)
    ensures Steady(w, w.Log(e))
  {
  }

  lemma RequestSteady(w: World, line: string, o: Oracle)
    ensures Steady(RequestEffect(w, line, o), Request(w, line, o))
  {
    hide Perform, RequestEffect, CloseData, Steady, WellFormed;
    PerformSteady(w, line, o);
    var v := Perform(w.Log(Command(line)), line, o).0;
    CloseDataSteady(v, o.Later());
    SteadyTransitive(RequestEffect(w, line, o), v, CloseData(v, o.Later()));
  }

  lemma RequestKeepsServer(w: World, line: string, o: Oracle)
    ensures var v := Request(w, line, o);
            v.created == w.created && v.serverSock == w.serverSock && v.fs == w.fs && v.root == w.root
  {
    hide Request, Find, CwdTarget, CStr, CurrentDir, Selects, WellFormed;
    RequestSteady(w, line, o);
  }
}
