/** Every command, and every step of the handler, keeps the invariant of Sessions. */
module Steps {
  import opened Text
  import opened Paths
  import opened Translation
  import opened HostPort
  import opened Dispatch
  import opened Machine
  import opened Protocol
  import opened Transfers
  import opened Sessions

  // ---------- replies ----------

  /** A final reply of RFC 959 that fits the response buffer. */
  predicate Final(text: string) {
    3 <= |text| < RESPONSE_MAX - 2 && !Preliminary(text)
  }

  lemma CodeDecides(code: string, rest: string)
    requires |code| == 3 && 3 + |rest| < RESPONSE_MAX - 2
    ensures code[0] != '1' ==> Final(code + rest)
    ensures Completes(code + rest) <==> code == "226"
    ensures Preliminary(code + rest) <==> code[0] == '1'
  {
    assert (code + rest)[..3] == code;
    assert Completes(code + rest) <==> code == "226";
  }

  lemma MessagesFit(n: Notice)
    ensures |Message(n)| < 60
  {
  }

  lemma NoticesAreFinal(n: Notice)
    requires n != ListingComes
    ensures Final(Wording(n))
    ensures Completes(Wording(n)) <==> n == ListingSent || n == TransferComplete
  {
    MessagesFit(n);
    hide Message, Final, Completes, WellFormed;
    CodeDecides(Code(n), " " + Message(n));
    assert Code(n) + (" " + Message(n)) == Wording(n);
    assert Code(n)[0] != '1';
    assert Code(n) == "226" <==> n == ListingSent || n == TransferComplete by {
      assert "226"[0] == '2' && "226"[1] == '2' && "226"[2] == '6';
    }
  }

  /** A final reply in the current phase: 226 only after a preliminary reply. */
  predicate Due(w: World, text: string) {
    Watch(w.kernel.trace).phase == Marked || (Watch(w.kernel.trace).phase == Owed && !Completes(text))
  }

  lemma FinalWatched(t: seq<Event>, sock: int, text: string, sent: bool)
    requires Final(text) && Watch(t).control == Some(sock)
    requires Watch(t).phase == Marked || (Watch(t).phase == Owed && !Completes(text))
    ensures Watch(t + [Control(sock, text + CRLF, sent)]) == Watch(t).(phase := Quiet)
  {
    hide Watch, WellFormed;
    assert (text + CRLF)[0] == text[0];
    assert (text + CRLF)[..3] == text[..3];
    WatchStep(t, Control(sock, text + CRLF, sent));
  }

  lemma MarkWatched(t: seq<Event>, sock: int, text: string, sent: bool)
    requires "150 " <= text && Watch(t).phase == Owed && Watch(t).control == Some(sock)
    ensures Watch(t + [Control(sock, text + CRLF, sent)])
         == Watch(t).(phase := if sent then Marked else Owed, armed := false, matched := Watch(t).matched && Watch(t).armed)
  {
    hide Watch, WellFormed;
    assert (text + CRLF)[0] == text[0] == '1';
    WatchStep(t, Control(sock, text + CRLF, sent));
  }

  /** A command is being served: its final reply is owed. */
  ghost predicate InCommand(w: World) {
    Serving(w) && Watch(w.kernel.trace).phase == Owed
  }

  lemma Answer(w: World, text: string, sent: bool)
    requires Serving(w) && Final(text) && Due(w, text)
    ensures Between(Reply(w, text, sent).0) && Serving(Reply(w, text, sent).0) && Reply(w, text, sent).0.lost == w.lost
    ensures Reply(w, text, sent).1 == sent
  {
    hide Watch, Owned, Within, Preliminary, Completes, WellFormed;
    FinalWatched(w.kernel.trace, w.clientSock, text, sent);
  }

  lemma AnswerInCommand(w: World, text: string, sent: bool)
    requires InCommand(w) && Final(text) && !Completes(text)
    ensures Between(Reply(w, text, sent).0) && Serving(Reply(w, text, sent).0) && Reply(w, text, sent).0.lost == w.lost
    ensures Reply(w, text, sent).1 == sent
  {
    hide Reply, Watch, Final, Completes, Serving, Between, WellFormed;
    Answer(w, text, sent);
  }

  lemma AnswerNotice(w: World, n: Notice, sent: bool)
    requires InCommand(w) && n != ListingComes && n != ListingSent && n != TransferComplete
    ensures var (v, ok) := Reply(w, Wording(n), sent);
            Between(v) && Serving(v) && v.lost == w.lost && ok == sent
  {
    hide Wording, Reply, Watch, Final, Completes, Serving, Between, WellFormed;
    NoticesAreFinal(n);
    Answer(w, Wording(n), sent);
  }

  lemma HangUp(w: World, o: Oracle)
    requires Between(w) && w.connected
    ensures Between(Disconnect(w, o))
    ensures Careful(o) ==> Disconnect(w, o).lost == w.lost
  {
    hide Watch, Disconnect, Owned, WellFormed;
    DisconnectKeeps(w, o);
  }

  lemma DropData(w: World, o: Oracle)
    requires Between(w)
    ensures Between(CloseData(w, o))
    ensures Careful(o) ==> CloseData(w, o).lost == w.lost
  {
    hide Watch, CloseData, WellFormed;
    CloseDataKeeps(w, o);
  }

  // ---------- the two data phases ----------

  /** A data phase has ended: only the data sockets remain to be closed, and a final reply is owed. */
  ghost predicate DataOver(w: World, ok: bool) {
    && Configured(w) && Owns(w) && w.kernel.stray == [] && w.created && w.connected && Contained(w)
    && Live(w, w.serverSock) && Live(w, w.clientSock) && Watch(w.kernel.trace).matched
    && Watch(w.kernel.trace).control == Some(w.clientSock) && (ok ==> Watch(w.kernel.trace).data == Some(w.transferClientSock))
    && (Watch(w.kernel.trace).phase == Marked || (!ok && Watch(w.kernel.trace).phase == Owed))
  }

  lemma DataClosed(w: World, ok: bool, o: Oracle)
    requires DataOver(w, ok)
    ensures Serving(CloseData(w, o)) && CloseData(w, o).kernel.trace == w.kernel.trace
    ensures Careful(o) ==> CloseData(w, o).lost == w.lost
  {
    hide Watch, CloseData, Owned, Within, WellFormed;
    CloseDataKeeps(w, o);
  }

  lemma EndData(w: World, ok: bool, o: Oracle, n: Notice, sent: bool)
    requires DataOver(w, ok)
    requires n != ListingComes && (n == ListingSent || n == TransferComplete ==> ok)
    ensures Between(Reply(CloseData(w, o), Wording(n), sent).0) && Reply(CloseData(w, o), Wording(n), sent).1 == sent
    ensures Careful(o) ==> Reply(CloseData(w, o), Wording(n), sent).0.lost == w.lost
  {
    hide Watch, Reply, CloseData, Wording, Final, Completes, Owned, Serving, Between, WellFormed;
    DataClosed(w, ok, o);
    NoticesAreFinal(n);
    Answer(CloseData(w, o), Wording(n), sent);
  }

  /** Giving a fresh descriptor to a field that holds no live one. */
  lemma Adopt(open: set<int>, lost: set<int>, a: int, b: int, c: int, d: int, n: int)
    requires Owned(open, lost, a, b, c, d) && a !in open
    requires n > 2 && n !in open && n != b && n != c && n != d
    ensures Owned(open + {n}, lost, n, b, c, d)
  {
  }

  /** After a successful accept the announcement marks the transfer, or is not written at all. */
  lemma Announce(w: World, text: string, o: Oracle)
    requires InCommand(w) && AcceptData(w, o).1 && "150 " <= text
    ensures var v := AcceptData(w, o).0;
            var (u, ok) := Reply(v, text, o.prelim);
            && DataOver(u, ok) && Live(u, u.transferSock) && Live(u, u.transferClientSock)
            && u.lost == w.lost
  {
    hide Watch, Owned, Within, Preliminary, Completes, Reply, WellFormed;
    AcceptWatched(w, o);
    var v := AcceptData(w, o).0;
    hide AcceptData, WellFormed;
    AnnounceReply(v, text, o.prelim);
  }

  /** Between the accept of a data connection and its announcement. */
  ghost predicate DataOpen(w: World) {
    && Configured(w) && Owns(w) && w.kernel.stray == [] && w.created && w.connected && Contained(w)
    && Live(w, w.serverSock) && Live(w, w.clientSock) && Live(w, w.transferSock) && Live(w, w.transferClientSock)
    && var m := Watch(w.kernel.trace);
       m.matched && m.armed && m.control == Some(w.clientSock) && m.data == Some(w.transferClientSock) && m.phase == Owed
  }

  lemma AcceptWatched(w: World, o: Oracle)
    requires InCommand(w) && AcceptData(w, o).1
    ensures var v := AcceptData(w, o).0;
            DataOpen(v) && v.lost == w.lost
  {
    hide Watch, Owned, Within, WellFormed;
    Adopt(w.kernel.open, w.lost, w.transferClientSock, w.transferSock, w.clientSock, w.serverSock, o.accept);
    WatchStep(w.kernel.trace, Accepted(o.accept));
  }

  lemma AnnounceReply(w: World, text: string, sent: bool)
    requires DataOpen(w) && "150 " <= text
    ensures var (u, ok) := Reply(w, text, sent);
            && DataOver(u, ok) && Live(u, u.transferSock) && Live(u, u.transferClientSock)
            && u.lost == w.lost
  {
    hide Watch, Owned, Within, WellFormed;
    MarkWatched(w.kernel.trace, w.clientSock, text, sent);
  }

  lemma RetrievalKeeps(w: World, path: string, file: string, arg: string, o: Oracle)
    requires InCommand(w)
    ensures var (v, ok) := Retrieval(w, path, file, arg, o);
            DataOver(v, ok) && v.lost == w.lost
  {
    hide Watch, AcceptData, Reply, SendFile, CStr, Owned, Within, WellFormed;
    var (v, accepted) := AcceptData(w, o);
    NotAccepted(w, o);
    if accepted {
      var text := Announcement(v.binary, arg);
      assert "150 " <= text;
      hide Announcement, WellFormed;
      Announce(w, text, o);
      var (u, ok) := Reply(v, text, o.prelim);
      if ok {
        SendFileKeeps(u, path, file, o);
      }
    }
  }

  lemma NotAccepted(w: World, o: Oracle)
    ensures !AcceptData(w, o).1 ==> AcceptData(w, o).0 == w
    ensures AcceptData(w, o).0.binary == w.binary
  {
  }

  lemma SendFileKeeps(w: World, path: string, file: string, o: Oracle)
    requires DataOver(w, true)
    ensures var (v, ok) := SendFile(w, path, file, o);
            DataOver(v, ok) && v.lost == w.lost
  {
    hide Watch, SendLoop, Owned, Within, WellFormed;
    SendFileFrame(w, path, file, o);
    WatchStep(w.kernel.trace, Fetches(path));
    SendLoopKeepsWatch(w.kernel.trace + [Fetches(path)], w.transferClientSock, file, 0, o.size, 0, o);
  }

  lemma ListingComesMarks()
    ensures "150 " <= Wording(ListingComes)
  {
  }

  lemma ListingKeeps(w: World, dir: string, withPath: bool, o: Oracle)
    requires InCommand(w)
    ensures var (v, ok) := Listing(w, dir, withPath, o);
            DataOver(v, ok) && (Careful(o) ==> v.lost == w.lost)
  {
    hide Watch, AcceptData, Reply, ListDir, Wording, Owned, Within, WellFormed;
    var (v, accepted) := AcceptData(w, o);
    NotAccepted(w, o);
    if accepted {
      ListingComesMarks();
      Announce(w, Wording(ListingComes), o);
      var (u, ok) := Reply(v, Wording(ListingComes), o.prelim);
      if ok {
        ListDirKeeps(u, dir, withPath, o);
      }
    }
  }

  lemma LoseFresh(open: set<int>, lost: set<int>, a: int, b: int, c: int, d: int, n: int)
    requires Owned(open, lost, a, b, c, d) && a in open && b in open && c in open && d in open
    requires n > 2 && n !in open
    ensures Owned(open + {n}, lost + {n}, a, b, c, d)
  {
  }

  lemma ListDirKeeps(w: World, dir: string, withPath: bool, o: Oracle)
    requires DataOver(w, true) && Live(w, w.transferSock) && Live(w, w.transferClientSock)
    ensures var (v, ok) := ListDir(w, dir, withPath, o);
            DataOver(v, ok) && (Careful(o) ==> v.lost == w.lost)
  {
    hide Watch, ListLoop, Owned, Within, WellFormed;
    assert Careful(o) ==> !FailsMidway(dir, withPath, 0, o);
    hide FailsMidway, Careful, WellFormed;
    if dir != "" && w.kernel.Fresh(o.dir) {
      LoseFresh(w.kernel.open, w.lost, w.transferClientSock, w.transferSock, w.clientSock, w.serverSock, o.dir);
      ListDirFrame(w, dir, withPath, o);
      WatchStep(w.kernel.trace, Opens(dir));
      ListLoopKeepsWatch(w.kernel.trace + [Opens(dir)], w.transferClientSock, w.root, dir, withPath, 0, "", o);
    }
  }

  // ---------- the commands ----------

  lemma RetrKeeps(w: World, arg: string, o: Oracle)
    requires InCommand(w)
    ensures Between(DoRetr(w, arg, o).0) && DoRetr(w, arg, o).1 == o.final
    ensures Careful(o) ==> DoRetr(w, arg, o).0.lost == w.lost
  {
    hide Watch, Retrieval, Reply, CloseData, FileTarget, Content, Wording, Owned, Within, WellFormed;
    var t := FileTarget(w, arg, o);
    if t.Some? {
      RetrievalKeeps(w, t.value, Content(w.fs, t.value), arg, o);
    }
    var (v, ok) := if t.Some? then Retrieval(w, t.value, Content(w.fs, t.value), arg, o) else (w, false);
    EndData(v, ok, o, if ok then TransferComplete
                      else if |arg| > 0 && t.None? then NoFileToSend
                      else LocalError, o.final);
  }

  lemma NlstKeeps(w: World, arg: string, o: Oracle)
    requires InCommand(w)
    ensures Between(DoNlst(w, arg, o).0) && DoNlst(w, arg, o).1 == o.final
    ensures Careful(o) ==> DoNlst(w, arg, o).0.lost == w.lost
  {
    hide Watch, Listing, Reply, CloseData, ListTarget, Wording, Owned, Within, WellFormed;
    var t := ListTarget(w, arg, o);
    if t.Some? {
      ListingKeeps(w, t.value, |arg| != 0, o);
    }
    var (v, ok) := if t.Some? then Listing(w, t.value, |arg| != 0, o) else (w, false);
    EndData(v, ok, o, if ok then ListingSent else ListingDenied, o.final);
  }

  lemma PassiveReplyFits(ip: string)
    requires ValidIp(ip)
    ensures Final(PassiveReply(ip, PASV_PORT)) && !Completes(PassiveReply(ip, PASV_PORT))
  {
    var a :| ip == Quad(a);
    QuadFits(a);
    assert Pow10(3) == 1000 by { assert Pow10(1) == 10 && Pow10(2) == 100; }
    DecLength(PASV_PORT / 256, 3);
    DecLength(PASV_PORT % 256, 3);
    hide Quad, Dec, WellFormed;
    assert |HostPortText(ip, PASV_PORT)| < 30;
    hide HostPortText, WellFormed;
    var t := PassiveReply(ip, PASV_PORT);
    assert t[0] == '2' && t[1] == '2' && t[2] == '7';
  }

  lemma PasvKeeps(w: World, o: Oracle)
    requires InCommand(w)
    ensures Between(DoPasv(w, o).0) && DoPasv(w, o).1 == o.final
    ensures Careful(o) ==> DoPasv(w, o).0.lost == w.lost
  {
    hide Watch, CloseData, CreateTransfer, Reply, PassiveReply, Wording, Final, Completes, Owned, Within, WellFormed;
    CloseDataKeeps(w, o);
    var u := CloseData(w, o);
    CreateTransferKeeps(u, o);
    var (v, ok) := CreateTransfer(u, PASV_PORT, o);
    if ok {
      PassiveReplyFits(v.ip);
      Answer(v, PassiveReply(v.ip, PASV_PORT), o.final);
    } else {
      AnswerNotice(v, NoDataConnection, o.final);
    }
  }

  lemma CreateTransferKeeps(w: World, o: Oracle)
    requires InCommand(w) && w.transferSock == -1 && w.transferClientSock == -1
    ensures var (v, ok) := CreateTransfer(w, PASV_PORT, o);
            && InCommand(v) && v.lost == w.lost
            && (ok <==> Live(v, v.transferSock))
  {
    hide Watch, Within, Owned, WellFormed;
    WatchStep(w.kernel.trace, Listen(PASV_PORT, true));
    ListenerOwned(w.kernel.open, w.lost, w.clientSock, w.serverSock, o.socket);
  }

  lemma ListenerOwned(open: set<int>, lost: set<int>, c: int, d: int, n: int)
    requires Owned(open, lost, -1, -1, c, d) && c in open && d in open
    ensures -1 !in open
    ensures n > 2 && n !in open ==>
              && Owned(open + {n}, lost, -1, n, c, d) && Owned(open, lost, -1, n, c, d)
              && open + {n} - {n} == open
  {
  }

  lemma UserKeeps(w: World, arg: string, o: Oracle)
    requires InCommand(w)
    ensures Between(DoUser(w, arg, o).0) && DoUser(w, arg, o).1 == o.final
    ensures Careful(o) ==> DoUser(w, arg, o).0.lost == w.lost
  {
    hide Watch, Reply, Disconnect, Wording, Owned, Within, WellFormed;
    AnswerNotice(w, LoggedIn, o.final);
    AnswerNotice(w, LoginIncorrect, o.final);
    HangUp(Reply(w, Wording(LoginIncorrect), o.final).0, o);
  }

  /** A text whose first characters are a final code other than 226. */
  lemma StartsFinal(head: string, s: string)
    requires 3 <= |head| && head[0] != '1' && (head[1] != '2' || head[2] != '6')
    ensures !Preliminary(head + s) && !Completes(head + s)
    ensures |head| + |s| < RESPONSE_MAX - 2 ==> Final(head + s)
  {
    var t := head + s;
    assert t[0] == head[0] && t[1] == head[1] && t[2] == head[2];
    var c := "226";
    assert c[1] == '2' && c[2] == '6' && (t[1] != c[1] || t[2] != c[2]);
  }

  lemma PwdKeeps(w: World, o: Oracle)
    requires InCommand(w)
    ensures Between(DoPwd(w, o).0) && DoPwd(w, o).1 == o.final
    ensures Careful(o) ==> DoPwd(w, o).0.lost == w.lost
  {
    hide Watch, Reply, CurrentDir, Wording, Owned, Within, WellFormed;
    var cwd := CurrentDir(w, o);
    if cwd.Some? && cwd.value != "" {
      var s := ServerPath(cwd.value, w.root);
      assert |s| < PATH_MAX;
      hide ServerPath, WellFormed;
      var head := "257 \"";
      StartsFinal(head, s + "\"");
      assert head + (s + "\"") == head + s + "\"";
      hide Final, Completes, InCommand, Between, WellFormed;
      AnswerInCommand(w, head + s + "\"", o.final);
    } else {
      AnswerNotice(w, NoDirectory, o.final);
    }
  }

  lemma CwdKeeps(w: World, arg: string, o: Oracle)
    requires InCommand(w)
    ensures Between(DoCwd(w, arg, o).0) && DoCwd(w, arg, o).1 == o.final
    ensures Careful(o) ==> DoCwd(w, arg, o).0.lost == w.lost
  {
    hide Watch, Reply, CurrentDir, CwdTarget, CStr, Wording, Owned, WellFormed;
    var t := CwdTarget(w.fs, w.root, CurrentDir(w, o), CStr(arg), |arg|, o.tail);
    if t.Some? {
      AnswerNotice(w.(cwd := t.value), DirectoryChanged, o.final);
    } else {
      AnswerNotice(w, DirectoryKept, o.final);
    }
  }

  lemma TenPowers()
    ensures OFFSET_LIMIT < Pow10(19)
  {
    assert Pow10(4) == 10000;
    assert Pow10(8) == 10000_0000;
    assert Pow10(12) == 10000_0000_0000;
    assert Pow10(16) == 10000_0000_0000_0000;
  }

  lemma ContentFits(fs: Fs, path: string)
    requires IsFileText(fs, path)
    ensures |Dec(|Content(fs, path)|)| <= 19
  {
    TenPowers();
    hide Dec, Pow10;
    DecLength(|Content(fs, path)|, 19);
  }

  lemma SizeKeeps(w: World, arg: string, o: Oracle)
    requires InCommand(w)
    ensures Between(DoSize(w, arg, o).0) && DoSize(w, arg, o).1 == o.final
    ensures Careful(o) ==> DoSize(w, arg, o).0.lost == w.lost
  {
    hide Reply, FileTarget, Content, Dec, Wording, Final, Completes, InCommand, Between, Serving, WellFormed;
    var t := FileTarget(w, arg, o);
    if t.Some? {
      ContentFits(w.fs, t.value);
      var head := "213 ";
      StartsFinal(head, Dec(|Content(w.fs, t.value)|));
      AnswerInCommand(w, head + Dec(|Content(w.fs, t.value)|), o.final);
    } else {
      AnswerNotice(w, if |arg| > 0 then NoFileToSize else LocalError, o.final);
    }
  }

  lemma TypeKeeps(w: World, arg: string, o: Oracle)
    requires InCommand(w)
    ensures Between(DoType(w, arg, o).0) && DoType(w, arg, o).1 == o.final
    ensures Careful(o) ==> DoType(w, arg, o).0.lost == w.lost
  {
    hide Reply, Wording, InCommand, Between, Serving, Selects, WellFormed, Watch, Code, Message, Quad, Final;
    AnswerNotice(w, BinaryMode, o.final);
    AnswerNotice(w, AsciiMode, o.final);
    AnswerNotice(w, BadParameter, o.final);
    SwitchKeeps(Reply(w, Wording(BinaryMode), o.final).0, true);
    SwitchKeeps(Reply(w, Wording(AsciiMode), o.final).0, false);
  }

  lemma SwitchKeeps(w: World, binary: bool)
    requires Between(w)
    ensures Between(w.(binary := binary))
  {
    hide Watch, Owned, Within, WellFormed;
  }

  lemma HelpIsFinal()
    ensures !Preliminary(HelpText() + CRLF) && !Completes(HelpText() + CRLF)
  {
    hide Names, WellFormed;
    StartsFinal(HelpHead(), Names(TABLE) + HelpTail() + CRLF);
    assert HelpText() + CRLF == HelpHead() + (Names(TABLE) + HelpTail() + CRLF);
  }

  lemma HelpKeeps(w: World, o: Oracle)
    requires InCommand(w)
    ensures Between(DoHelp(w, o).0) && DoHelp(w, o).1 == o.final
    ensures Careful(o) ==> DoHelp(w, o).0.lost == w.lost
  {
    hide Watch, HelpText, Owned, Within, Preliminary, Completes, WellFormed;
    HelpIsFinal();
    WatchStep(w.kernel.trace, Control(w.clientSock, HelpText() + CRLF, o.final));
  }

  lemma ExecuteKeeps(w: World, c: Command, arg: string, o: Oracle)
    requires InCommand(w)
    ensures Between(Execute(w, c, arg, o).0) && Execute(w, c, arg, o).1 == o.final
    ensures Careful(o) ==> Execute(w, c, arg, o).0.lost == w.lost
  {
    hide InCommand, Between, Reply, DoUser, DoPasv, DoNlst, DoPwd, DoCwd, DoRetr, DoSize, DoType, DoHelp, Wording, WellFormed;
    match c {
      case User => UserKeeps(w, arg, o);
      case Syst => AnswerNotice(w, SystemType, o.final);
      case Pasv => PasvKeeps(w, o);
      case Nlst => NlstKeeps(w, arg, o);
      case Pwd => PwdKeeps(w, o);
      case Cwd => CwdKeeps(w, arg, o);
      case Retr => RetrKeeps(w, arg, o);
      case Size => SizeKeeps(w, arg, o);
      case Type => TypeKeeps(w, arg, o);
      case Help => HelpKeeps(w, o);
      case Quit => AnswerNotice(w, Bye, o.final);
    }
  }

  lemma PerformKeeps(w: World, line: string, o: Oracle)
    requires InCommand(w)
    ensures Between(Perform(w, line, o).0)
    ensures Perform(w, line, o).1 <==> Find(TABLE, line).Some? && o.final
    ensures Careful(o) ==> Perform(w, line, o).0.lost == w.lost
  {
    hide InCommand, Between, Reply, Execute, Find, Wording, WellFormed;
    var c := Find(TABLE, line);
    if c.Some? {
      ExecuteKeeps(w, c.value, Argument(c.value, line), o);
    } else {
      AnswerNotice(w, UnknownCommand, o.final);
    }
  }

  lemma RequestKeeps(w: World, line: string, o: Oracle)
    requires Between(w) && w.connected
    ensures Between(Request(w, line, o))
    ensures Careful(o) ==> Request(w, line, o).lost == w.lost
  {
    hide Watch, Perform, CloseData, Owned, Within, WellFormed;
    var u := w.Log(Command(line));
    WatchStep(w.kernel.trace, Command(line));
    PerformKeeps(u, line, o);
    assert Careful(o) ==> Careful(o.Later());
    DropData(Perform(u, line, o).0, o.Later());
  }
}
