/**
 * What each request line is answered and does, in the client's own terms: the word the line starts with, the
 * code of the reply, and the node of the tree, number or mode it is about.
 */
module Answers {
  import opened Text
  import opened Paths
  import opened Translation
  import opened HostPort
  import opened Dispatch
  import opened Machine
  import opened Protocol
  import opened Transfers
  import opened Sessions
  import opened Steps
  import opened Frames
  import opened Runs
  import opened Refinement
  import opened Outcomes
  import opened Disclosure

  const LOCAL_ERROR := "451 " + ("Requested action aborted:" + " Local error in processing.")

  /** The request adds itself and this one reply to the trace, and nothing else. */
  predicate AnswersWith(w: World, line: string, v: World, text: string, sent: bool) {
    v.kernel.trace == w.kernel.trace + [Command(line)] + [Control(w.clientSock, text + CRLF, sent)]
  }

  /** The last thing the request does on the wire is this reply. */
  predicate EndsIn(w: World, v: World, text: string, sent: bool) {
    var t := v.kernel.trace;
    t != [] && t[|t| - 1] == Control(w.clientSock, text + CRLF, sent)
  }

  /** The session goes on in its directory and its mode. */
  predicate Kept(w: World, v: World) {
    v.cwd == w.cwd && v.binary == w.binary && v.connected == w.connected
  }

  // ---------- what the replies say ----------

  lemma OtherTexts()
    ensures Wording(UnknownCommand) == "502 " + "Command not implemented."
    ensures Wording(SystemType) == "215 " + "UNIX Type: L8"
    ensures Wording(Bye) == "221 " + "Bye."
  {
  }

  lemma LoginTexts()
    ensures Wording(Ready) == "220 " + "Service ready for new user."
    ensures Wording(LoggedIn) == "230 " + "User logged in, proceed."
    ensures Wording(LoginIncorrect) == "530 " + "Login incorrect."
  {
  }

  lemma FileTexts()
    ensures Wording(NoFileToSend) == "551 " + "File not found."
    ensures Wording(NoFileToSize) == "550 " + "File not found."
    ensures Wording(LocalError) == LOCAL_ERROR
    ensures Wording(TransferComplete) == "226 " + "Transfer Complete."
  {
  }

  lemma DirectoryTexts()
    ensures Wording(DirectoryChanged) == "250 " + "Directory successfully changed."
    ensures Wording(DirectoryKept) == "550 " + "Failed to change directory."
    ensures Wording(NoDirectory) == "550 " + "Failed to get directory."
  {
  }

  lemma DataTexts()
    ensures Wording(ListingSent) == "226 " + "Directory send OK."
    ensures Wording(ListingDenied) == "550 " + "Permission Denied."
    ensures Wording(NoDataConnection) == "425 " + "Cannot open data connection."
    ensures Wording(ListingComes) == "150 " + "Here comes the directory listing."
  {
  }

  lemma ModeTexts()
    ensures Wording(BinaryMode) == "200 " + "Switching to Binary mode."
    ensures Wording(AsciiMode) == "200 " + "Switching to ASCII mode."
    ensures Wording(BadParameter) == "504 " + ("Command not implemented" + " for that parameter.")
  {
  }

  // ---------- the trace of a request ----------

  lemma RequestTrace(w: World, line: string, o: Oracle)
    ensures Request(w, line, o).kernel.trace == Perform(w.Log(Command(line)), line, o).0.kernel.trace
  {
    hide Perform, CloseData;
    CloseDataTrace(Perform(w.Log(Command(line)), line, o).0, o.Later());
  }

  /** A handler that does nothing but reply, from a world x that differs from w in its fields only. */
  lemma RepliesWith(w: World, line: string, x: World, text: string, o: Oracle)
    requires x.kernel.trace == w.kernel.trace + [Command(line)] && x.clientSock == w.clientSock
    requires |text| + 2 < RESPONSE_MAX
    requires Perform(w.Log(Command(line)), line, o).0.kernel.trace == Reply(x, text, o.final).0.kernel.trace
    ensures AnswersWith(w, line, Request(w, line, o), text, o.final)
  {
    hide Perform, Request;
    RequestTrace(w, line, o);
  }

  lemma RepliesNotice(w: World, line: string, x: World, n: Notice, o: Oracle)
    requires x.kernel.trace == w.kernel.trace + [Command(line)] && x.clientSock == w.clientSock
    requires Perform(w.Log(Command(line)), line, o).0.kernel.trace == Reply(x, Wording(n), o.final).0.kernel.trace
    ensures AnswersWith(w, line, Request(w, line, o), Wording(n), o.final)
  {
    hide Perform, Request, Wording, Reply;
    WordingFits(n);
    RepliesWith(w, line, x, Wording(n), o);
  }

  /** Only USER, CWD and TYPE change the fields that a client can see. */
  lemma KeepsFields(w: World, line: string, o: Oracle)
    requires var c := Find(TABLE, line); c != Some(User) && c != Some(Cwd) && c != Some(Type)
    ensures Kept(w, Request(w, line, o))
  {
    hide Find, Request, Effect, WellFormed;
    var c := Find(TABLE, line);
    RequestSteady(w, line, o);
    if c.Some? {
      EffectOnly(w, c.value, Argument(c.value, line), o);
    }
  }

  // ---------- which handler a word runs ----------

  lemma RunsSyst(w: World, line: string, o: Oracle)
    requires "SYST" <= line
    ensures Find(TABLE, line) == Some(Syst)
    ensures Perform(w, line, o) == Reply(w, Wording(SystemType), o.final)
  {
    Words(line);
    hide Find, Perform, Reply, Wording;
    PerformIsExecute(w, line, o);
  }

  lemma RunsQuit(w: World, line: string, o: Oracle)
    requires "QUIT" <= line
    ensures Find(TABLE, line) == Some(Quit)
    ensures Perform(w, line, o) == Reply(w, Wording(Bye), o.final)
  {
    Words(line);
    hide Find, Perform, Reply, Wording;
    PerformIsExecute(w, line, o);
  }

  lemma RunsUser(w: World, line: string, o: Oracle)
    requires "USER" <= line
    ensures Find(TABLE, line) == Some(User)
    ensures Perform(w, line, o) == DoUser(w, Behind(line, 4), o) && Argument(User, line) == Behind(line, 4)
  {
    Words(line);
    hide Find, Perform, DoUser;
    PerformIsExecute(w, line, o);
    assert Argument(User, line) == Behind(line, 4);
  }

  lemma RunsPasv(w: World, line: string, o: Oracle)
    requires "PASV" <= line
    ensures Find(TABLE, line) == Some(Pasv)
    ensures Perform(w, line, o) == DoPasv(w, o)
  {
    Words(line);
    hide Find, Perform, DoPasv;
    PerformIsExecute(w, line, o);
  }

  lemma RunsNlst(w: World, line: string, o: Oracle)
    requires "NLST" <= line
    ensures Find(TABLE, line) == Some(Nlst)
    ensures Perform(w, line, o) == DoNlst(w, Behind(line, 4), o) && Argument(Nlst, line) == Behind(line, 4)
  {
    Words(line);
    hide Find, Perform, DoNlst;
    PerformIsExecute(w, line, o);
    assert Argument(Nlst, line) == Behind(line, 4);
  }

  lemma RunsPwd(w: World, line: string, o: Oracle)
    requires "PWD" <= line
    ensures Find(TABLE, line) == Some(Pwd)
    ensures Perform(w, line, o) == DoPwd(w, o)
  {
    Words(line);
    hide Find, Perform, DoPwd;
    PerformIsExecute(w, line, o);
  }

  lemma RunsCwd(w: World, line: string, o: Oracle)
    requires "CWD" <= line
    ensures Find(TABLE, line) == Some(Cwd)
    ensures Perform(w, line, o) == DoCwd(w, Behind(line, 3), o) && Argument(Cwd, line) == Behind(line, 3)
  {
    Words(line);
    hide Find, Perform, DoCwd;
    PerformIsExecute(w, line, o);
    assert Argument(Cwd, line) == Behind(line, 3);
  }

  lemma RunsRetr(w: World, line: string, o: Oracle)
    requires "RETR" <= line
    ensures Find(TABLE, line) == Some(Retr)
    ensures Perform(w, line, o) == DoRetr(w, Behind(line, 4), o) && Argument(Retr, line) == Behind(line, 4)
  {
    Words(line);
    hide Find, Perform, DoRetr;
    PerformIsExecute(w, line, o);
    assert Argument(Retr, line) == Behind(line, 4);
  }

  lemma RunsSize(w: World, line: string, o: Oracle)
    requires "SIZE" <= line
    ensures Find(TABLE, line) == Some(Size)
    ensures Perform(w, line, o) == DoSize(w, Behind(line, 4), o) && Argument(Size, line) == Behind(line, 4)
  {
    Words(line);
    hide Find, Perform, DoSize;
    PerformIsExecute(w, line, o);
    assert Argument(Size, line) == Behind(line, 4);
  }

  lemma RunsType(w: World, line: string, o: Oracle)
    requires "TYPE" <= line
    ensures Find(TABLE, line) == Some(Type)
    ensures Perform(w, line, o) == DoType(w, Behind(line, 4), o) && Argument(Type, line) == Behind(line, 4)
  {
    Words(line);
    hide Find, Perform, DoType;
    PerformIsExecute(w, line, o);
    assert Argument(Type, line) == Behind(line, 4);
  }

  lemma RunsHelp(w: World, line: string, o: Oracle)
    requires "HELP" <= line
    ensures Find(TABLE, line) == Some(Help)
    ensures Perform(w, line, o) == DoHelp(w, o)
  {
    Words(line);
    hide Find, Perform, DoHelp;
    PerformIsExecute(w, line, o);
  }

  // ---------- requests that only reply ----------

  lemma UnknownAnswered(w: World, line: string, o: Oracle)
    requires !("USER" <= line) && !("SYST" <= line) && !("PASV" <= line) && !("NLST" <= line) && !("PWD" <= line)
    requires !("CWD" <= line) && !("RETR" <= line) && !("SIZE" <= line) && !("TYPE" <= line) && !("HELP" <= line)
    requires !("QUIT" <= line)
    ensures AnswersWith(w, line, Request(w, line, o), "502 " + "Command not implemented.", o.final)
    ensures Kept(w, Request(w, line, o))
  {
    hide Find, Request, Wording, Reply, AnswersWith, Code, Kept;
    Words(line);
    RepliesNotice(w, line, w.Log(Command(line)), UnknownCommand, o);
    OtherTexts();
    KeepsFields(w, line, o);
  }

  lemma SystAnswered(w: World, line: string, o: Oracle)
    requires "SYST" <= line
    ensures AnswersWith(w, line, Request(w, line, o), "215 " + "UNIX Type: L8", o.final) && Kept(w, Request(w, line, o))
  {
    hide Find, Perform, Request, Wording, Reply, AnswersWith, Code, Kept;
    RunsSyst(w, line, o);
    RunsSyst(w.Log(Command(line)), line, o);
    RepliesNotice(w, line, w.Log(Command(line)), SystemType, o);
    OtherTexts();
    KeepsFields(w, line, o);
  }

  /** QUIT is answered, and the session goes on: the client has to hang up. */
  lemma QuitAnswered(w: World, line: string, o: Oracle)
    requires "QUIT" <= line
    ensures AnswersWith(w, line, Request(w, line, o), "221 " + "Bye.", o.final) && Kept(w, Request(w, line, o))
  {
    hide Find, Perform, Request, Wording, Reply, AnswersWith, Code, Kept;
    RunsQuit(w, line, o);
    RunsQuit(w.Log(Command(line)), line, o);
    RepliesNotice(w, line, w.Log(Command(line)), Bye, o);
    OtherTexts();
    KeepsFields(w, line, o);
  }

  /** The user "anonymous" is told 230 and stays connected; any other is told 530 and disconnected. */
  lemma UserAnswered(w: World, line: string, o: Oracle)
    requires "USER" <= line
    ensures var v := Request(w, line, o);
            if Behind(line, 4) == "anonymous" then
              AnswersWith(w, line, v, "230 " + "User logged in, proceed.", o.final) && Kept(w, v)
            else AnswersWith(w, line, v, "530 " + "Login incorrect.", o.final) && !v.connected && v.clientSock == -1
  {
    hide Find, Perform, Request, Wording, Reply, AnswersWith, Disconnect, Argument, Behind, Code;
    var u := w.Log(Command(line));
    RunsUser(w, line, o);
    RunsUser(u, line, o);
    LoginTexts();
    if Behind(line, 4) == "anonymous" {
      RepliesNotice(w, line, u, LoggedIn, o);
    } else {
      DisconnectTrace(Reply(u, Wording(LoginIncorrect), o.final).0, o);
      RepliesNotice(w, line, u, LoginIncorrect, o);
    }
    RequestSteady(w, line, o);
  }

  /** TYPE I and TYPE A, in either case, are told 200 and set the mode if that was written; any other is told 504. */
  lemma TypeAnswered(w: World, line: string, o: Oracle)
    requires "TYPE" <= line
    ensures var v := Request(w, line, o);
            var arg := Behind(line, 4);
            && v.cwd == w.cwd && v.connected == w.connected
            && (arg == "I" || arg == "i" ==>
                  && AnswersWith(w, line, v, "200 " + "Switching to Binary mode.", o.final)
                  && v.binary == (o.final || w.binary))
            && (arg == "A" || arg == "a" ==>
                  && AnswersWith(w, line, v, "200 " + "Switching to ASCII mode.", o.final)
                  && v.binary == (!o.final && w.binary))
            && (arg != "I" && arg != "i" && arg != "A" && arg != "a" ==>
                  && AnswersWith(w, line, v, "504 " + ("Command not implemented" + " for that parameter."), o.final)
                  && v.binary == w.binary)
  {
    var arg := Behind(line, 4);
    hide Request, AnswersWith;
    ModeTexts();
    Selected(arg, 'I', 'i', "I", "i");
    Selected(arg, 'A', 'a', "A", "a");
    TypeReplies(w, line, o);
    TypeSets(w, line, o);
    hide Selects;
    var i, a := "I", "A";
    assert i[0] != a[0] && i != "a" && a != "i" && "i" != "a";
  }

  function TypeNotice(arg: string): Notice {
    if Selects(arg, 'I', 'i') then BinaryMode else if Selects(arg, 'A', 'a') then AsciiMode else BadParameter
  }

  lemma TypeEffect(w: World, line: string, o: Oracle)
    requires Find(TABLE, line) == Some(Type)
    ensures var v := Request(w, line, o);
            var arg := Argument(Type, line);
            && v.cwd == w.cwd && v.connected == w.connected
            && v.binary == if !o.final then w.binary
                           else if Selects(arg, 'I', 'i') then true else if Selects(arg, 'A', 'a') then false else w.binary
  {
    hide Find, Request, Selects, WellFormed, Argument;
    RequestSteady(w, line, o);
  }

  lemma DoTypeReplies(w: World, arg: string, o: Oracle)
    ensures DoType(w, arg, o).0.kernel == Reply(w, Wording(TypeNotice(arg)), o.final).0.kernel
  {
    hide Reply, Wording, Selects;
  }

  lemma TypeReplies(w: World, line: string, o: Oracle)
    requires "TYPE" <= line
    ensures var arg := Behind(line, 4);
            AnswersWith(w, line, Request(w, line, o), Wording(TypeNotice(arg)), o.final)
  {
    hide Find, Request, Perform, Wording, Reply, AnswersWith, Selects, DoType, TypeNotice, Code, Behind;
    var u := w.Log(Command(line));
    var arg := Behind(line, 4);
    RunsType(u, line, o);
    DoTypeReplies(u, arg, o);
    RepliesNotice(w, line, u, TypeNotice(arg), o);
  }

  lemma TypeSets(w: World, line: string, o: Oracle)
    requires "TYPE" <= line
    ensures var v := Request(w, line, o);
            var arg := Behind(line, 4);
            && v.cwd == w.cwd && v.connected == w.connected
            && v.binary == if !o.final then w.binary
                           else if Selects(arg, 'I', 'i') then true else if Selects(arg, 'A', 'a') then false else w.binary
  {
    hide Find, Perform, Request, Selects, Behind, Argument, DoType;
    RunsType(w, line, o);
    TypeEffect(w, line, o);
  }

  lemma Selected(arg: string, upper: char, lower: char, a: string, b: string)
    requires a == [upper] && b == [lower]
    ensures Selects(arg, upper, lower) <==> arg == a || arg == b
  {
  }

  /** PWD is told 257 with the path PwdReports describes. */
  lemma PwdAnswered(w: World, line: string, o: Oracle)
    requires "PWD" <= line && Configured(w) && Contained(w) && '%' !in w.cwd
    ensures var v := Request(w, line, o);
            AnswersWith(w, line, v, "257 \"" + ServerPath(w.cwd, w.root) + "\"", o.final) && Kept(w, v)
  {
    var u := w.Log(Command(line));
    RunsPwd(u, line, o);
    hide Find, Perform, Request, ServerPath, CanonicalDir, WellFormed, DoPwd;
    PwdReports(u, o);
    RequestTrace(w, line, o);
    KeepsFields(w, line, o);
  }

  /** Without a directory to show, PWD is told 550. */
  lemma PwdRefused(w: World, line: string, o: Oracle)
    requires "PWD" <= line && CurrentDir(w, o).None?
    ensures AnswersWith(w, line, Request(w, line, o), "550 " + "Failed to get directory.", o.final)
  {
    hide Find, Perform, Request, Wording, Reply, AnswersWith, DoPwd, CurrentDir, Kept;
    var u := w.Log(Command(line));
    RunsPwd(u, line, o);
    DoPwdRefuses(w, Command(line), o);
    RepliesNotice(w, line, u, NoDirectory, o);
    DirectoryTexts();
  }

  lemma DoPwdRefuses(w: World, e: Event, o: Oracle)
    requires CurrentDir(w, o).None?
    ensures DoPwd(w.Log(e), o) == Reply(w.Log(e), Wording(NoDirectory), o.final)
  {
    hide Reply, Wording;
    assert CurrentDir(w.Log(e), o) == CurrentDir(w, o);
  }

  /**
   * SIZE is told the decimal size of the file its path leads to, 550 if that is no regular file, and 451 without a
   * path.
   */
  lemma SizeAnswered(w: World, line: string, o: Oracle) returns (s: string)
    requires "SIZE" <= line && Configured(w) && Contained(w) && '%' !in w.cwd
    requires !Unterminated(w.root, CStr(Behind(line, 4)))
    ensures var v := Request(w, line, o);
            var arg := Behind(line, 4);
            var q := FileNode(w.fs, Components(w.fs, w.root), Components(w.fs, w.cwd), CStr(arg), |arg|);
            && Kept(w, v)
            && (q.Some? ==>
                  && AnswersWith(w, line, v, "213 " + s, o.final)
                  && AllDigits(s) && Value(s) == |w.fs.nodes[q.value].content|)
            && (q.None? && arg != "" ==> AnswersWith(w, line, v, "550 " + "File not found.", o.final))
            && (arg == "" ==> AnswersWith(w, line, v, LOCAL_ERROR, o.final))
  {
    var arg := Behind(line, 4);
    RunsSize(w, line, o);
    FileMeaning(w, arg, o);
    var q := FileNode(w.fs, Components(w.fs, w.root), Components(w.fs, w.cwd), CStr(arg), |arg|);
    NoPathNoFile(w.fs, Components(w.fs, w.root), Components(w.fs, w.cwd), CStr(arg), |arg|);
    hide Find, Perform, Request, AnswersWith, FileTarget, Content, WellFormed, RealPath, CStr, FileNode, Unterminated,
         CanonicalDir, Value;
    FileTexts();
    SizeReplies(w, line, o);
    KeepsFields(w, line, o);
    s := "";
    if q.Some? {
      ContentIs(w.fs, q.value);
      var n := |Content(w.fs, Render(q.value))|;
      s := Dec(n);
      DecValue(n);
    }
  }

  lemma DoSizeReplies(w: World, arg: string, o: Oracle)
    ensures var t := FileTarget(w, arg, o);
            DoSize(w, arg, o)
            == if t.Some? then Reply(w, "213 " + Dec(|Content(w.fs, t.value)|), o.final)
               else Reply(w, Wording(if arg == "" then LocalError else NoFileToSize), o.final)
  {
    hide Reply, Wording, FileTarget, Content, Dec;
  }

  lemma SizeFound(w: World, line: string, o: Oracle)
    requires "SIZE" <= line && FileTarget(w, Behind(line, 4), o).Some?
    ensures var t := FileTarget(w, Behind(line, 4), o).value;
            AnswersWith(w, line, Request(w, line, o), "213 " + Dec(|Content(w.fs, t)|), o.final)
  {
    hide Find, Perform, Request, Wording, Reply, AnswersWith, FileTarget, Content, WellFormed, Dec, DoSize, Behind;
    var u := w.Log(Command(line));
    var arg := Behind(line, 4);
    RunsSize(u, line, o);
    DoSizeReplies(u, arg, o);
    TargetLogged(w, Command(line), arg, o);
    var t := FileTarget(w, arg, o).value;
    ContentFits(w.fs, t);
    RepliesWith(w, line, u, "213 " + Dec(|Content(w.fs, t)|), o);
  }

  lemma SizeNotFound(w: World, line: string, o: Oracle)
    requires "SIZE" <= line && FileTarget(w, Behind(line, 4), o).None?
    ensures AnswersWith(w, line, Request(w, line, o), Wording(if Behind(line, 4) == "" then LocalError else NoFileToSize),
                        o.final)
  {
    hide Find, Perform, Request, Wording, Reply, AnswersWith, FileTarget, WellFormed, DoSize, Behind, Code;
    var u := w.Log(Command(line));
    var arg := Behind(line, 4);
    RunsSize(u, line, o);
    DoSizeReplies(u, arg, o);
    TargetLogged(w, Command(line), arg, o);
    RepliesNotice(w, line, u, if arg == "" then LocalError else NoFileToSize, o);
    FileTexts();
  }

  lemma SizeReplies(w: World, line: string, o: Oracle)
    requires "SIZE" <= line
    ensures var v := Request(w, line, o);
            var t := FileTarget(w, Behind(line, 4), o);
            if t.Some? then AnswersWith(w, line, v, "213 " + Dec(|Content(w.fs, t.value)|), o.final)
            else AnswersWith(w, line, v, Wording(if Behind(line, 4) == "" then LocalError else NoFileToSize), o.final)
  {
    hide Find, Request, AnswersWith, FileTarget, Content, Dec, Behind, WellFormed;
    if FileTarget(w, Behind(line, 4), o).Some? {
      SizeFound(w, line, o);
    } else {
      SizeNotFound(w, line, o);
    }
  }

  lemma NoPathNoFile(fs: Fs, root: seq<Name>, cwd: seq<Name>, path: string, n: nat)
    requires root in fs.nodes && cwd in fs.nodes
    ensures n == 0 ==> FileNode(fs, root, cwd, path, n) == None
  {
  }

  lemma ContentIs(fs: Fs, p: seq<Name>)
    requires p in fs.nodes && fs.nodes[p].File?
    ensures IsFileText(fs, Render(p)) && Content(fs, Render(p)) == fs.nodes[p].content
  {
    CanonicalResolves(fs, p);
  }

  lemma NameAt(i: nat, word: string)
    requires i < |TABLE| && word == " " + TABLE[i].Name()
    ensures Names(TABLE[..i + 1]) == Names(TABLE[..i]) + word
  {
    assert TABLE[..i + 1][..i] == TABLE[..i];
  }

  lemma FirstNames()
    ensures Names(TABLE[..3]) == " USER SYST PASV"
  {
    assert Names(TABLE[..0]) == "";
    hide Names;
    NameAt(0, " USER");
    NameAt(1, " SYST");
    NameAt(2, " PASV");
  }

  lemma MiddleNames()
    ensures Names(TABLE[..6]) == Names(TABLE[..3]) + " NLST PWD CWD"
  {
    hide Names;
    NameAt(3, " NLST");
    NameAt(4, " PWD");
    NameAt(5, " CWD");
  }

  lemma LaterNames()
    ensures Names(TABLE[..9]) == Names(TABLE[..6]) + " RETR SIZE TYPE"
  {
    hide Names;
    NameAt(6, " RETR");
    NameAt(7, " SIZE");
    NameAt(8, " TYPE");
  }

  lemma LastNames()
    ensures Names(TABLE) == Names(TABLE[..9]) + " HELP QUIT"
  {
    assert TABLE[..11] == TABLE;
    hide Names;
    NameAt(9, " HELP");
    NameAt(10, " QUIT");
  }

  lemma HelpIs()
    ensures HelpText() == "214-The following commands" + " are recognized." + CRLF
      + (" USER SYST PASV" + " NLST PWD CWD" + " RETR SIZE TYPE" + " HELP QUIT") + CRLF + "214 Help OK."
  {
    FirstNames();
    MiddleNames();
    LaterNames();
    LastNames();
    hide Names;
    assert HelpTail() == CRLF + "214 Help OK.";
  }

  /** HELP names every command, in one reply of three lines. */
  lemma HelpAnswered(w: World, line: string, o: Oracle)
    requires "HELP" <= line
    ensures var v := Request(w, line, o);
            var names := " USER SYST PASV" + " NLST PWD CWD" + " RETR SIZE TYPE" + " HELP QUIT";
            && AnswersWith(w, line, v, "214-The following commands" + " are recognized." + CRLF + names + CRLF
                                       + "214 Help OK.", o.final)
            && Kept(w, v)
  {
    HelpIs();
    RunsHelp(w.Log(Command(line)), line, o);
    hide Find, Perform, Request, HelpText;
    RequestTrace(w, line, o);
    KeepsFields(w, line, o);
  }

  // ---------- CWD ----------

  lemma DoCwdReplies(w: World, arg: string, o: Oracle)
    ensures var t := CwdTarget(w.fs, w.root, CurrentDir(w, o), CStr(arg), |arg|, o.tail);
            DoCwd(w, arg, o)
            == if t.Some? then Reply(w.(cwd := t.value), Wording(DirectoryChanged), o.final)
               else Reply(w, Wording(DirectoryKept), o.final)
  {
    hide Reply, Wording, CwdTarget, CurrentDir, CStr;
  }

  lemma CwdEffect(w: World, line: string, o: Oracle)
    ensures Find(TABLE, line) == Some(Cwd) ==>
              var v := Request(w, line, o);
              var arg := Argument(Cwd, line);
              && v.cwd == CwdTarget(w.fs, w.root, CurrentDir(w, o), CStr(arg), |arg|, o.tail).GetOr(w.cwd)
              && v.binary == w.binary && v.connected == w.connected
  {
    hide Find, Request, WellFormed, Argument, CwdTarget, CurrentDir, CStr;
    RequestSteady(w, line, o);
  }

  lemma TargetSame(w: World, e: Event, arg: string, o: Oracle)
    ensures CwdTarget(w.fs, w.root, CurrentDir(w.Log(e), o), CStr(arg), |arg|, o.tail)
         == CwdTarget(w.fs, w.root, CurrentDir(w, o), CStr(arg), |arg|, o.tail)
  {
    hide CwdTarget, CStr;
    assert CurrentDir(w.Log(e), o) == CurrentDir(w, o);
  }

  /** The reply to CWD goes with where it leads, whatever the argument. */
  lemma CwdReplies(w: World, line: string, o: Oracle)
    requires "CWD" <= line
    ensures var arg := Behind(line, 3);
            var t := CwdTarget(w.fs, w.root, CurrentDir(w, o), CStr(arg), |arg|, o.tail);
            AnswersWith(w, line, Request(w, line, o), Wording(if t.Some? then DirectoryChanged else DirectoryKept), o.final)
  {
    hide Find, Perform, Request, Wording, Reply, AnswersWith, DoCwd, CwdTarget, CurrentDir, CStr, Behind, Code, WellFormed;
    var u := w.Log(Command(line));
    var arg := Behind(line, 3);
    RunsCwd(u, line, o);
    DoCwdReplies(u, arg, o);
    TargetSame(w, Command(line), arg, o);
    DirectoryTexts();
    var t := CwdTarget(w.fs, w.root, CurrentDir(w, o), CStr(arg), |arg|, o.tail);
    if t.Some? {
      RepliesNotice(w, line, u.(cwd := t.value), DirectoryChanged, o);
    } else {
      RepliesNotice(w, line, u, DirectoryKept, o);
    }
  }

  /**
   * CWD is told 250 and moves exactly when its path leads to a directory the root admits and fits the buffers, and is
   * told 550 and stays otherwise: for every argument C gives a meaning to.
   */
  lemma CwdAnswered(w: World, line: string, o: Oracle)
    requires "CWD" <= line && Configured(w) && Contained(w) && '%' !in w.cwd
    requires !Unterminated(w.root, CStr(Behind(line, 3)))
    ensures var v := Request(w, line, o);
            var arg := Behind(line, 3);
            var q := CwdNode(w.fs, Components(w.fs, w.root), Components(w.fs, w.cwd), CStr(arg), |arg|);
            && (q.Some? ==> AnswersWith(w, line, v, "250 " + "Directory successfully changed.", o.final))
            && (q.None? ==> AnswersWith(w, line, v, "550 " + "Failed to change directory.", o.final))
            && v.cwd == (if q.Some? then Render(q.value) else w.cwd)
            && v.binary == w.binary && v.connected == w.connected
  {
    hide Find, Perform, Request, AnswersWith, DoCwd, CwdTarget, CurrentDir, CStr, Behind, WellFormed, CwdNode, Argument,
         Unterminated, Render, CanonicalText, IsDirText;
    var arg := Behind(line, 3);
    DirectoryTexts();
    RunsCwd(w, line, o);
    CwdReplies(w, line, o);
    CwdEffect(w, line, o);
    CwdReachable(w, o);
    CwdMeaning(w.fs, w.root, w.cwd, CStr(arg), |arg|, o.tail);
  }

  // ---------- requests with a data connection ----------

  /** The last event of a handler that ends with this reply. */
  lemma EndsNotice(w: World, line: string, x: World, n: Notice, o: Oracle)
    requires x.clientSock == w.clientSock
    requires Perform(w.Log(Command(line)), line, o).0.kernel.trace == Reply(x, Wording(n), o.final).0.kernel.trace
    ensures EndsIn(w, Request(w, line, o), Wording(n), o.final)
  {
    hide Perform, Request, Wording;
    RequestTrace(w, line, o);
    WordingFits(n);
  }

  /**
   * PASV with a socket is told 227 with the server's address and port 40000, on which the server then listens; without
   * one it is told 425.
   */
  lemma PasvAnswered(w: World, line: string, a: Address, o: Oracle)
    requires "PASV" <= line && w.ip == Quad(a)
    ensures var v := Request(w, line, o);
            var text := HostPortText(w.ip, 40000);
            && Kept(w, v) && Decode(text) == Some((a, 40000))
            && (PassiveReady(w, o) ==>
                  v.kernel.trace == w.kernel.trace + [Command(line)] + ([Listen(40000, true)]
                    + [Control(w.clientSock, "227 Entering Passive Mode (" + text + ")." + CRLF, o.final)]))
            && (!PassiveReady(w, o) ==> AnswersWith(w, line, v, "425 " + "Cannot open data connection.", o.final))
  {
    hide Find, Perform, Request, DoPasv, HostPortText, Decode, Quad, PassiveReady, Kept, WellFormed, Code, Wording;
    var u := w.Log(Command(line));
    RunsPasv(w, line, o);
    RunsPasv(u, line, o);
    PasvAnnounces(u, a, o);
    PassiveReadyLogged(w, Command(line), o);
    RequestTrace(w, line, o);
    KeepsFields(w, line, o);
    DataTexts();
  }

  lemma DoNlstReplies(w: World, arg: string, o: Oracle)
    ensures var dir := ListTarget(w, arg, o);
            var (v, ok) := if dir.Some? then Listing(w, dir.value, |arg| != 0, o) else (w, false);
            DoNlst(w, arg, o) == Reply(CloseData(v, o), Wording(if ok then ListingSent else ListingDenied), o.final)
  {
    hide ListTarget, Listing, Reply, CloseData, Wording;
  }

  lemma ClosedClient(w: World, o: Oracle)
    ensures CloseData(w, o).clientSock == w.clientSock && CloseData(w, o).kernel.trace == w.kernel.trace
  {
    hide CloseData;
    CloseDataSteady(w, o);
    CloseDataTrace(w, o);
  }

  /** An NLST that finds no directory opens nothing, sends nothing and is told 550. */
  lemma NlstRefused(w: World, line: string, o: Oracle)
    requires "NLST" <= line && ListTarget(w, Behind(line, 4), o).None?
    ensures AnswersWith(w, line, Request(w, line, o), Wording(ListingDenied), o.final)
  {
    hide Find, Perform, Request, ListTarget, Listing, Reply, CloseData, Wording, DoNlst, Behind, Code, AnswersWith, WellFormed;
    var u := w.Log(Command(line));
    RunsNlst(u, line, o);
    DoNlstReplies(u, Behind(line, 4), o);
    TargetLogged(w, Command(line), Behind(line, 4), o);
    ClosedClient(u, o);
    RepliesNotice(w, line, CloseData(u, o), ListingDenied, o);
    DataTexts();
  }

  /** Otherwise it ends in 226 or 550, as its listing succeeds. */
  lemma NlstListed(w: World, line: string, o: Oracle)
    requires "NLST" <= line && ListTarget(w, Behind(line, 4), o).Some?
    ensures var dir := ListTarget(w, Behind(line, 4), o).value;
            var (x, ok) := Listing(w.Log(Command(line)), dir, Behind(line, 4) != "", o);
            && EndsIn(w, Request(w, line, o), Wording(if ok then ListingSent else ListingDenied), o.final)
            && (ok ==> exists i: nat | |w.kernel.trace| <= i < |x.kernel.trace| :: x.kernel.trace[i] == Opens(dir))
            && x.kernel.trace <= Request(w, line, o).kernel.trace
  {
    hide Find, Perform, Request, ListTarget, Listing, Reply, CloseData, Wording, DoNlst, Behind, Code, EndsIn, WellFormed;
    var u := w.Log(Command(line));
    var arg := Behind(line, 4);
    RunsNlst(u, line, o);
    DoNlstReplies(u, arg, o);
    TargetLogged(w, Command(line), arg, o);
    var dir := ListTarget(w, arg, o).value;
    var (x, ok) := Listing(u, dir, |arg| != 0, o);
    ListingSteady(u, dir, |arg| != 0, o);
    ClosedClient(x, o);
    EndsNotice(w, line, CloseData(x, o), if ok then ListingSent else ListingDenied, o);
    DataTexts();
    RequestTrace(w, line, o);
    ReplyExtends(CloseData(x, o), Wording(if ok then ListingSent else ListingDenied), o.final);
    if ok {
      var i := ListingOpens(u, dir, |arg| != 0, o);
    }
  }

  lemma ReplyExtends(w: World, text: string, sent: bool)
    ensures w.kernel.trace <= Reply(w, text, sent).0.kernel.trace
  {
  }

  lemma ListingOpens(w: World, dir: string, withPath: bool, o: Oracle) returns (i: nat)
    requires Listing(w, dir, withPath, o).1
    ensures var t := Listing(w, dir, withPath, o).0.kernel.trace;
            |w.kernel.trace| <= i < |t| && t[i] == Opens(dir)
  {
    hide ListLoop, Wording, WellFormed;
    var v := AcceptData(w, o).0;
    var u := Reply(v, Wording(ListingComes), o.prelim).0;
    var t := u.kernel.trace + [Opens(dir)];
    i := |u.kernel.trace|;
    ListLoopGrows(Promise(0, _ => true, _ => true, false), t, u.transferClientSock, u.root, dir, withPath, 0, "", o);
    assert t[i] == Opens(dir);
  }

  /**
   * NLST lists the directory CWD would enter with its argument, and the current one without: it opens no other, 226
   * only comes behind its opening, and if there is none it is told 550 and nothing is opened or sent.
   */
  lemma NlstAnswered(w: World, line: string, o: Oracle)
    requires "NLST" <= line && Configured(w) && Contained(w) && '%' !in w.cwd
    requires !Unterminated(w.root, CStr(Behind(line, 4)))
    ensures var t := Request(w, line, o).kernel.trace;
            var arg := Behind(line, 4);
            var q := CwdNode(w.fs, Components(w.fs, w.root), Components(w.fs, w.cwd), CStr(arg), |arg|);
            && Kept(w, Request(w, line, o))
            && (arg != "" && q.None? ==> AnswersWith(w, line, Request(w, line, o), "550 " + "Permission Denied.", o.final))
            && (arg == "" || q.Some? ==>
                  var dir := if arg == "" then w.cwd else Render(q.value);
                  && (forall i | |w.kernel.trace| <= i < |t| && t[i].Opens? :: t[i].dir == dir)
                  && (EndsIn(w, Request(w, line, o), "550 " + "Permission Denied.", o.final)
                      || (EndsIn(w, Request(w, line, o), "226 " + "Directory send OK.", o.final)
                          && exists i | |w.kernel.trace| <= i < |t| :: t[i] == Opens(dir))))
  {
    hide Find, Perform, Request, ListTarget, Listing, DoNlst, Behind, AnswersWith, EndsIn, WellFormed, CStr, CwdNode, Kept,
         Unterminated, CanonicalText, IsDirText, Render;
    var arg := Behind(line, 4);
    DataTexts();
    RunsNlst(w, line, o);
    KeepsFields(w, line, o);
    ListMeaning(w, arg, o);
    if ListTarget(w, arg, o).None? {
      NlstRefused(w, line, o);
    } else {
      NlstListed(w, line, o);
      NlstOpensOnly(w, line, o);
    }
  }

  lemma NlstOpensOnly(w: World, line: string, o: Oracle)
    requires "NLST" <= line && Contained(w) && ValidIp(w.ip) && ListTarget(w, Behind(line, 4), o).Some?
    ensures var t := Request(w, line, o).kernel.trace;
            forall i | |w.kernel.trace| <= i < |t| && t[i].Opens? :: t[i].dir == ListTarget(w, Behind(line, 4), o).value
  {
    hide Find, Perform, Request, ListTarget, DoNlst, Behind, Argument, WellFormed, Within, ValidIp;
    RunsNlst(w, line, o);
    var dir := ListTarget(w, Behind(line, 4), o).value;
    var p := Promise(0, d => d == dir, _ => true, false);
    RequestGrows(p, w, line, o);
    var t := Request(w, line, o).kernel.trace;
    forall i | |w.kernel.trace| <= i < |t| && t[i].Opens? ensures t[i].dir == dir {
      assert p.Holds(t[i]);
    }
  }

  /** What NLST says before it lists. */
  lemma NlstAnnounces(w: World, line: string, o: Oracle)
    requires "NLST" <= line && ListTarget(w, Behind(line, 4), o).Some? && AcceptData(w, o).1
    ensures var text := "150 " + "Here comes the directory listing." + CRLF;
            w.kernel.trace + [Command(line)] + [Accepted(o.accept)] + [Control(w.clientSock, text, o.prelim)]
            <= Request(w, line, o).kernel.trace
  {
    hide Find, Perform, Request, ListTarget, Behind, Listing, AcceptData, WellFormed, EndsIn, Wording;
    NlstListed(w, line, o);
    var dir := ListTarget(w, Behind(line, 4), o).value;
    ListingAnnounces(w, Command(line), dir, Behind(line, 4) != "", o);
    DataTexts();
  }

  lemma ListingAnnounces(w: World, e: Event, dir: string, withPath: bool, o: Oracle)
    requires AcceptData(w, o).1
    ensures w.kernel.trace + [e] + [Accepted(o.accept)] + [Control(w.clientSock, Wording(ListingComes) + CRLF, o.prelim)]
         <= Listing(w.Log(e), dir, withPath, o).0.kernel.trace
  {
    WordingFits(ListingComes);
    hide Wording, ListDir, WellFormed;
    var v := AcceptData(w.Log(e), o).0;
    ListDirGrows(Promise(0, _ => true, _ => true, false), Reply(v, Wording(ListingComes), o.prelim).0, dir, withPath, o);
  }

  lemma DoRetrReplies(w: World, arg: string, o: Oracle)
    ensures var t := FileTarget(w, arg, o);
            var (v, ok) := if t.Some? then Retrieval(w, t.value, Content(w.fs, t.value), arg, o) else (w, false);
            DoRetr(w, arg, o)
            == Reply(CloseData(v, o), Wording(if ok then TransferComplete
                                              else if arg != "" && t.None? then NoFileToSend else LocalError), o.final)
  {
    hide FileTarget, Content, Retrieval, Reply, CloseData, Wording;
  }

  /** A RETR that finds no file opens nothing, sends nothing, and is told 551, or 451 without a path. */
  lemma RetrRefused(w: World, line: string, o: Oracle)
    requires "RETR" <= line && FileTarget(w, Behind(line, 4), o).None?
    ensures AnswersWith(w, line, Request(w, line, o), Wording(if Behind(line, 4) == "" then LocalError else NoFileToSend),
                        o.final)
  {
    hide Find, Perform, Request, FileTarget, Content, Retrieval, Reply, CloseData, Wording, DoRetr, Behind, Code,
         AnswersWith, WellFormed;
    var u := w.Log(Command(line));
    var arg := Behind(line, 4);
    RunsRetr(u, line, o);
    DoRetrReplies(u, arg, o);
    TargetLogged(w, Command(line), arg, o);
    ClosedClient(u, o);
    RepliesNotice(w, line, CloseData(u, o), if arg != "" then NoFileToSend else LocalError, o);
    FileTexts();
  }

  /** Otherwise it ends in 226 or 451, as its transfer succeeds. */
  lemma RetrServed(w: World, line: string, o: Oracle)
    requires "RETR" <= line && FileTarget(w, Behind(line, 4), o).Some?
    ensures var arg := Behind(line, 4);
            var path := FileTarget(w, arg, o).value;
            var (x, ok) := Retrieval(w.Log(Command(line)), path, Content(w.fs, path), arg, o);
            && EndsIn(w, Request(w, line, o), Wording(if ok then TransferComplete else LocalError), o.final)
            && (ok ==>
                  && o.prelim && o.fileAccess && o.fileStat
                  && exists i: nat | |w.kernel.trace| <= i < |x.kernel.trace| :: x.kernel.trace[i] == Fetches(path))
            && x.kernel.trace <= Request(w, line, o).kernel.trace
  {
    hide Find, Perform, Request, FileTarget, Content, Retrieval, Reply, CloseData, Wording, DoRetr, Behind, Code, EndsIn,
         WellFormed;
    var u := w.Log(Command(line));
    var arg := Behind(line, 4);
    RunsRetr(u, line, o);
    DoRetrReplies(u, arg, o);
    TargetLogged(w, Command(line), arg, o);
    var path := FileTarget(w, arg, o).value;
    var (x, ok) := Retrieval(u, path, Content(w.fs, path), arg, o);
    RetrievalSteady(u, path, Content(w.fs, path), arg, o);
    ClosedClient(x, o);
    EndsNotice(w, line, CloseData(x, o), if ok then TransferComplete else LocalError, o);
    FileTexts();
    RequestTrace(w, line, o);
    ReplyExtends(CloseData(x, o), Wording(if ok then TransferComplete else LocalError), o.final);
    if ok {
      var i := RetrievalFetches(u, path, Content(w.fs, path), arg, o);
    }
  }

  lemma RetrievalFetches(w: World, path: string, file: string, arg: string, o: Oracle) returns (i: nat)
    requires Retrieval(w, path, file, arg, o).1
    ensures var t := Retrieval(w, path, file, arg, o).0.kernel.trace;
            |w.kernel.trace| <= i < |t| && t[i] == Fetches(path) && o.prelim && o.fileAccess && o.fileStat
  {
    hide SendLoop, Announcement, WellFormed;
    var v := AcceptData(w, o).0;
    var u := Reply(v, Announcement(v.binary, arg), o.prelim).0;
    var t := u.kernel.trace + [Fetches(path)];
    i := |u.kernel.trace|;
    SendLoopGrows(Promise(0, _ => true, _ => true, false), t, u.transferClientSock, file, 0, o.size, 0, o);
    assert t[i] == Fetches(path);
  }

  /**
   * RETR sends the file its path leads to: it opens no other, 226 only comes behind its opening when none of access(),
   * open(), fstat() and the 150 failed, and otherwise it is told 451. If the path leads to no regular file it is told 551,
   * and without a path 451, and nothing is opened or sent.
   */
  lemma RetrAnswered(w: World, line: string, o: Oracle)
    requires "RETR" <= line && Configured(w) && Contained(w) && '%' !in w.cwd
    requires !Unterminated(w.root, CStr(Behind(line, 4)))
    ensures var t := Request(w, line, o).kernel.trace;
            var arg := Behind(line, 4);
            var q := FileNode(w.fs, Components(w.fs, w.root), Components(w.fs, w.cwd), CStr(arg), |arg|);
            && Kept(w, Request(w, line, o))
            && (arg == "" ==> AnswersWith(w, line, Request(w, line, o), LOCAL_ERROR, o.final))
            && (arg != "" && q.None? ==> AnswersWith(w, line, Request(w, line, o), "551 " + "File not found.", o.final))
            && (q.Some? ==>
                  && (forall i | |w.kernel.trace| <= i < |t| && t[i].Fetches? :: t[i].path == Render(q.value))
                  && (EndsIn(w, Request(w, line, o), LOCAL_ERROR, o.final)
                      || (EndsIn(w, Request(w, line, o), "226 " + "Transfer Complete.", o.final)
                          && o.prelim && o.fileAccess && o.fileStat
                          && exists i | |w.kernel.trace| <= i < |t| :: t[i] == Fetches(Render(q.value)))))
  {
    var arg := Behind(line, 4);
    NoPathNoFile(w.fs, Components(w.fs, w.root), Components(w.fs, w.cwd), CStr(arg), |arg|);
    hide Find, Perform, Request, FileTarget, Content, Retrieval, DoRetr, Behind, AnswersWith, EndsIn, WellFormed, CStr, FileNode,
         Kept, Unterminated, CanonicalText, IsDirText, Render;
    FileTexts();
    RunsRetr(w, line, o);
    KeepsFields(w, line, o);
    FileMeaning(w, arg, o);
    if FileTarget(w, arg, o).None? {
      RetrRefused(w, line, o);
    } else {
      RetrServed(w, line, o);
      RetrFetchesOnly(w, line, o);
    }
  }

  lemma RetrFetchesOnly(w: World, line: string, o: Oracle)
    requires "RETR" <= line && Contained(w) && ValidIp(w.ip) && FileTarget(w, Behind(line, 4), o).Some?
    ensures var t := Request(w, line, o).kernel.trace;
            forall i | |w.kernel.trace| <= i < |t| && t[i].Fetches? :: t[i].path == FileTarget(w, Behind(line, 4), o).value
  {
    hide Find, Perform, Request, FileTarget, DoRetr, Behind, Argument, WellFormed, Within, ValidIp;
    RunsRetr(w, line, o);
    var path := FileTarget(w, Behind(line, 4), o).value;
    var p := Promise(0, _ => true, f => f == path, false);
    RequestGrows(p, w, line, o);
    var t := Request(w, line, o).kernel.trace;
    forall i | |w.kernel.trace| <= i < |t| && t[i].Fetches? ensures t[i].path == path {
      assert p.Holds(t[i]);
    }
  }

  /** What RETR says before it sends, in either mode. */
  lemma RetrAnnounces(w: World, line: string, o: Oracle)
    requires "RETR" <= line && FileTarget(w, Behind(line, 4), o).Some? && AcceptData(w, o).1
    requires |Announcement(w.binary, Behind(line, 4))| + 2 < RESPONSE_MAX
    ensures var mode := if w.binary then "BINARY" else "ASCII";
            var text := "150 " + mode + " mode data connection for " + CStr(Behind(line, 4)) + "." + CRLF;
            w.kernel.trace + [Command(line)] + [Accepted(o.accept)] + [Control(w.clientSock, text, o.prelim)]
            <= Request(w, line, o).kernel.trace
  {
    hide Find, Perform, Request, FileTarget, Content, Behind, CStr, Retrieval, Announcement, AcceptData, WellFormed, EndsIn;
    RetrServed(w, line, o);
    var path := FileTarget(w, Behind(line, 4), o).value;
    RetrievalAnnounces(w, Command(line), path, Content(w.fs, path), Behind(line, 4), o);
    AnnouncementIs(w.binary, Behind(line, 4));
  }

  lemma AnnouncementIs(binary: bool, arg: string)
    ensures Announcement(binary, arg)
         == "150 " + (if binary then "BINARY" else "ASCII") + " mode data connection for " + CStr(arg) + "."
  {
  }

  lemma RetrievalAnnounces(w: World, e: Event, path: string, file: string, arg: string, o: Oracle)
    requires AcceptData(w, o).1 && |Announcement(w.binary, arg)| + 2 < RESPONSE_MAX
    ensures w.kernel.trace + [e] + [Accepted(o.accept)]
            + [Control(w.clientSock, Announcement(w.binary, arg) + CRLF, o.prelim)]
            <= Retrieval(w.Log(e), path, file, arg, o).0.kernel.trace
  {
    hide Announcement, SendFile, WellFormed;
    var v := AcceptData(w.Log(e), o).0;
    SendFileGrows(Promise(0, _ => true, _ => true, false), Reply(v, Announcement(v.binary, arg), o.prelim).0, path, file, o);
  }

  // ---------- the greeting ----------

  /** A client that connects is told 220. */
  lemma Greeted(w: World, o: Oracle)
    requires Configured(w) && Live(w, w.serverSock) && w.kernel.Fresh(o.accept)
    ensures var v := WaitForConnection(w, o).0;
            var t, n := v.kernel.trace, |w.kernel.trace|;
            && |t| == n + 2 && t[..n] == w.kernel.trace && t[n] == Session(o.accept)
            && t[n + 1].Control? && t[n + 1].sock == o.accept && t[n + 1].ok == o.final
            && t[n + 1].text == "220 " + "Service ready for new user." + CRLF
            && v.connected == (o.final || w.connected) && v.cwd == w.root && WaitForConnection(w, o).1 == o.final
  {
    hide ChangeDir, Wording, Code, WellFormed, CanonicalDir;
    var u := w.(clientSock := o.accept, kernel := w.kernel.Opened(o.accept).Logged(Session(o.accept)));
    RootCwd(u, o);
    LoginTexts();
    WordingFits(Ready);
    ReplyWritten(u.(cwd := u.root), Wording(Ready), o.final);
  }

  // ---------- reads that are no request ----------

  /** A request is a line of at least one character with CRLF behind it. */
  lemma RequestsAreLines(bytes: string)
    ensures IsRequest(bytes) <==> exists line: string :: line != "" && bytes == line + CRLF
  {
    if IsRequest(bytes) {
      var line := bytes[..|bytes| - 2];
      assert line != "" && bytes == line + CRLF;
    } else if line: string :| line != "" && bytes == line + CRLF {
      assert bytes[|line|..] == CRLF;
    }
  }

  /**
   * The end of the connection ends the session and not the server; bytes that are no request, or a failing read, are
   * passed over while errno says "again" and stop the server otherwise. A failing read also ends main's loop.
   */
  lemma OtherReads(w: World, o: Oracle)
    requires Between(w) && w.connected && (o.received.Some? ==> !IsRequest(o.received.value))
    ensures var (v, ok) := Step(w, o);
            && v.kernel.trace == w.kernel.trace && v.cwd == w.cwd && v.binary == w.binary
            && (ok <==> o.received.Some?)
            && (o.received == Some("") ==>
                  v.created && !v.connected && v.serverSock == w.serverSock && Live(v, v.serverSock) && v.clientSock == -1)
            && (o.received != Some("") ==>
                  if o.again then v == w else !v.created && !v.connected && v.kernel.open == v.lost)
  {
    hide Request, Stop, Disconnect, Watch, Owned, WellFormed, IsRequest;
    StopTrace(w, o);
    StopFields(w, o);
    DisconnectTrace(w, o);
    DisconnectSteady(w, o);
    StopKeeps(w, o);
    DisconnectKeeps(w, o);
  }

  /** Without a client the server goes on listening while errno says "again", and stops otherwise; the loop goes on. */
  lemma NobodyConnects(w: World, o: Oracle)
    requires Between(w) && w.created && !w.connected && !w.kernel.Fresh(o.accept)
    ensures var (v, ok) := Step(w, o);
            && ok && v.kernel.trace == w.kernel.trace && !v.connected
            && (if o.again then v == w.(clientSock := -1) else !v.created && v.kernel.open == v.lost)
  {
    hide Stop, Watch, Owned, WellFormed;
    var u := w.(clientSock := -1);
    AcceptOwned(w.kernel.open, w.lost, w.transferClientSock, w.transferSock, w.clientSock, w.serverSock, o.accept);
    StopTrace(u, o);
    StopFields(u, o);
    StopKeeps(u, o);
  }

  /** A reply of up to 285 characters is written, a longer one is not. */
  lemma ReplyLimit(w: World, text: string, sent: bool)
    ensures Reply(w, text, sent)
         == if |text| <= 285 then (w.Log(Control(w.clientSock, text + CRLF, sent)), sent) else (w, false)
  {
  }
}
