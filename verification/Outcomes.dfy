/** What the client gets out of PWD and CWD, PASV, NLST and RETR. */
module Outcomes {
  import opened Text
  import opened Paths
  import opened Translation
  import opened HostPort
  import opened Dispatch
  import opened Machine
  import opened Protocol
  import opened Transfers
  import opened Sessions
  import opened Steps
  import opened Frames
  import opened Refinement
  import opened Discipline
  import opened Wire

  lemma CanonicalNulFree(fs: Fs, t: string)
    requires CanonicalText(fs, t)
    ensures NulFree(t) && CStr(t) == t
  {
    SlashedNulFree(Components(fs, t));
    CStrUnique(t, t);
  }

  /**
   * PWD answers 257 with what lies below the root on the way to the current directory: its components behind the
   * root's, with a slash in front unless the root is "/". In the root it answers "/".
   */
  lemma PwdReports(w: World, o: Oracle)
    requires Configured(w) && Contained(w) && '%' !in w.cwd
    ensures var path := ServerPath(w.cwd, w.root);
            DoPwd(w, o) == (w.Log(Control(w.clientSock, "257 \"" + path + "\"" + CRLF, o.final)), o.final)
    ensures var r, c := Components(w.fs, w.root), Components(w.fs, w.cwd);
            r <= c ==> ServerPath(w.cwd, w.root) == if r == [] && c != [] then Render(c)[1..] else Render(c[|r|..])
  {
    CwdReachable(w, o);
    var r, c := Components(w.fs, w.root), Components(w.fs, w.cwd);
    var path := ServerPath(w.cwd, w.root);
    assert |path| < PATH_MAX;
    if r <= c {
      BelowRoot(r, c);
    }
    hide ServerPath, Contained, WellFormed, CanonicalDir, RealPath;
    var head := "257 \"";
    ReplyWritten(w, head + path + "\"", o.final);
  }

  lemma BelowRoot(r: seq<Name>, c: seq<Name>)
    requires r <= c
    ensures ServerPath(Render(c), Render(r)) == if r == [] && c != [] then Render(c)[1..] else Render(c[|r|..])
  {
    if r != c {
      InsideIsDescendant(r, c);
      assert c == r + c[|r|..];
      SlashedAppend(r, c[|r|..]);
      hide Slashed;
      ServerPathBelow(Render(c), Render(r));
    }
  }

  /**
   * Sending CWD with the path PWD reported succeeds and leaves the directory as it was exactly when PwdReturns:
   * always inside a root other than "/".
   */
  lemma PwdThenCwdCommand(w: World, o: Oracle)
    requires Configured(w) && Contained(w) && '%' !in w.cwd && |w.root| + 1 < PATH_MAX
    ensures var path := ServerPath(w.cwd, w.root);
            DoCwd(w, path, o) == Reply(w, Wording(DirectoryChanged), o.final) || !PwdReturns(w.root, w.cwd)
    ensures var path := ServerPath(w.cwd, w.root);
            CwdTarget(w.fs, w.root, CurrentDir(w, o), CStr(path), |path|, o.tail) == Some(w.cwd)
            <==> PwdReturns(w.root, w.cwd)
    ensures w.root != "/" && Inside(w.root, w.cwd) ==> PwdReturns(w.root, w.cwd)
  {
    var path := ServerPath(w.cwd, w.root);
    CanonicalNulFree(w.fs, w.cwd);
    assert NulFree(path);
    CStrUnique(path, path);
    CwdReachable(w, o);
    PwdThenCwd(w.fs, w.root, w.cwd, o.tail);
    assert w.(cwd := w.cwd) == w;
  }

  lemma ReplyWritten(w: World, text: string, sent: bool)
    requires |text| + 2 < RESPONSE_MAX
    ensures Reply(w, text, sent) == (w.Log(Control(w.clientSock, text + CRLF, sent)), sent)
  {
  }

  lemma CreateTransferTrace(w: World, o: Oracle)
    requires w.transferSock == -1
    ensures var (v, ok) := CreateTransfer(w, PASV_PORT, o);
            && Steady(w, v) && (ok <==> w.kernel.Fresh(o.socket) && o.Setup())
            && v.kernel.trace == if ok then w.kernel.trace + [Listen(PASV_PORT, true)] else w.kernel.trace
  {
  }

  /**
   * PASV with a socket announces an address that decodes to the server's and the port the passive
   * socket is bound to; without one it says so.
   */
  lemma PasvAnnounces(w: World, a: Address, o: Oracle)
    requires w.ip == Quad(a)
    ensures var text := HostPortText(w.ip, PASV_PORT);
            && Decode(text) == Some((a, PASV_PORT))
            && DoPasv(w, o).0.kernel.trace == w.kernel.trace
               + (if PassiveReady(w, o)
                  then [Listen(PASV_PORT, true)]
                       + [Control(w.clientSock, "227 Entering Passive Mode (" + text + ")." + CRLF, o.final)]
                  else [Control(w.clientSock, Wording(NoDataConnection) + CRLF, o.final)])
  {
    HostPortDecodes(a, PASV_PORT);
    assert ValidIp(w.ip);
    PassiveReplyFits(w.ip);
    NoticesAreFinal(NoDataConnection);
    hide HostPortText, Decode, Wording, Quad, Completes, CloseData, CreateTransfer, Reply, WellFormed;
    CloseDataTrace(w, o);
    CloseDataSteady(w, o);
    var u := CloseData(w, o);
    CreateTransferTrace(u, o);
    var (v, ok) := CreateTransfer(u, PASV_PORT, o);
    ReplyWritten(v, if ok then PassiveReply(v.ip, PASV_PORT) else Wording(NoDataConnection), o.final);
    assert PassiveReply(w.ip, PASV_PORT) == "227 Entering Passive Mode (" + HostPortText(w.ip, PASV_PORT) + ").";
    hide PassiveReply, WellFormed;
    ConcatAssociates(w.kernel.trace, [Listen(PASV_PORT, true)], [Control(w.clientSock, PassiveReply(w.ip, PASV_PORT) + CRLF, o.final)]);
  }

  /**
   * Each line that NLST with an argument sends: it is an absolute server path exactly when the directory is the root,
   * or the root is not "/" and the directory is inside it, and then it reads back as what the entry names. So the line of
   * an entry that exists leads to that entry, the one of "." to the directory, and the one of ".." to its parent.
   */
  lemma ListedLinesResolve(w: World, arg: string, o: Oracle, e: CText, later: Oracle)
    requires Configured(w) && arg != "" && ListTarget(w, arg, o).Some? && e in o.entries
    requires var dir := ListTarget(w, arg, o).value; |Line(dir, true, e)| < PATH_MAX
    ensures var dir := ListTarget(w, arg, o).value;
            var c := Components(w.fs, dir);
            var s := Shown(w.root, true, Line(dir, true, e));
            && (IsAbsolute(s) <==> dir == w.root || (w.root != "/" && Inside(w.root, dir)))
            && (IsAbsolute(s) ==>
                  var back := ServerToReal(w.fs, w.root, CurrentDir(w, later), s, |s|, later.tail);
                  && back == Resolved(w.fs, dir, e)
                  && (e == "." ==> back == Some(dir))
                  && (e == ".." ==> back == Some(Render(Parent(c))))
                  && (IsName(e) ==> back == if c + [e] in w.fs.nodes then Some(Render(c + [e])) else None))
  {
    var dir := ListTarget(w, arg, o).value;
    hide ListTarget, ServerToReal, RealPath, Resolved, CommonLength, WellFormed, CurrentDir;
    assert CanonicalDir(w.fs, dir) && w.root <= dir by { TargetChecked(w, arg, o); }
    ListedResolvesBack(w.fs, w.root, dir, e, CurrentDir(w, later), later.tail);
    EntryResolves(w.fs, dir, e);
    assert Line(dir, true, e) == dir + "/" + e;
    assert !(dir + "/" + e <= w.root);
  }

  lemma TargetChecked(w: World, arg: string, o: Oracle)
    requires arg != "" && ListTarget(w, arg, o).Some?
    ensures Within(w.fs, w.root, ListTarget(w, arg, o).value)
  {
  }

  /**
   * The directory NLST lists: for an argument C gives a meaning to, the one CWD would enter with it, and without one
   * the current one.
   */
  lemma ListMeaning(w: World, arg: string, o: Oracle)
    requires Configured(w) && Contained(w) && '%' !in w.cwd && !Unterminated(w.root, CStr(arg))
    ensures var q := CwdNode(w.fs, Components(w.fs, w.root), Components(w.fs, w.cwd), CStr(arg), |arg|);
            ListTarget(w, arg, o) == if arg == "" then Some(w.cwd) else if q.Some? then Some(Render(q.value)) else None
  {
    hide CStr, WellFormed, CurrentDir, Unterminated, ServerToReal, CwdNode, IsDirText, RealPath, NotAbove, ListTarget;
    CwdReachable(w, o);
    ChosenTarget(w, arg, o);
    DirMeaning(w.fs, w.root, w.cwd, CStr(arg), |arg|, o.tail);
  }

  lemma ChosenTarget(w: World, arg: string, o: Oracle)
    requires CurrentDir(w, o) == Some(w.cwd)
    ensures arg == "" ==> ListTarget(w, arg, o) == Some(w.cwd)
    ensures arg != "" ==>
              var t := ServerToReal(w.fs, w.root, Some(w.cwd), CStr(arg), |arg|, o.tail);
              ListTarget(w, arg, o)
              == if t.Some? && IsDirText(w.fs, t.value) && NotAbove(w.root, t.value) then t else None
  {
    hide CStr, WellFormed, CurrentDir, ServerToReal, IsDirText, NotAbove;
  }

  /** The file RETR and SIZE find is the one the path leads to, for every argument C gives a meaning to. */
  lemma FileMeaning(w: World, arg: string, o: Oracle)
    requires Configured(w) && Contained(w) && '%' !in w.cwd && !Unterminated(w.root, CStr(arg))
    ensures var q := FileNode(w.fs, Components(w.fs, w.root), Components(w.fs, w.cwd), CStr(arg), |arg|);
            FileTarget(w, arg, o) == if q.Some? then Some(Render(q.value)) else None
  {
    CwdReachable(w, o);
    hide CStr, WellFormed, CurrentDir, Unterminated, ServerToReal, FileNode, IsFileText, RealPath;
    TargetMeaning(w.fs, w.root, w.cwd, CStr(arg), |arg|, o.tail);
  }

  /** The final reply of RETR, and what it says about the bytes delivered. */
  lemma RetrDelivers(w: World, arg: string, o: Oracle)
    requires FileTarget(w, arg, o).Some?
    ensures var path := FileTarget(w, arg, o).value;
            var file := Content(w.fs, path);
            var (v, ok) := Retrieval(w, path, file, arg, o);
            && DoRetr(w, arg, o)
               == Reply(CloseData(v, o), Wording(if ok then TransferComplete else LocalError), o.final)
            && (ok && o.size == |file| ==>
                  (Delivered(DoRetr(w, arg, o).0) == Delivered(w) + file <==> !ShortWrite(file, 0, |file|, 0, o)))
  {
    hide FileTarget, Content, CStr, WellFormed;
    var path := FileTarget(w, arg, o).value;
    var file := Content(w.fs, path);
    var (v, ok) := Retrieval(w, path, file, arg, o);
    ClosingDeliversNothing(v, Wording(if ok then TransferComplete else LocalError), o);
    if ok && o.size == |file| {
      RetrievalDelivers(w, path, file, arg, o);
    }
  }

  /** On every exit RETR has delivered a prefix of the file it found, unless a write was short, and nothing if it found none. */
  lemma RetrPrefix(w: World, arg: string, o: Oracle)
    ensures FileTarget(w, arg, o).None? ==> Delivered(DoRetr(w, arg, o).0) == Delivered(w)
    ensures FileTarget(w, arg, o).Some? ==>
              var file := Content(w.fs, FileTarget(w, arg, o).value);
              !ShortWrite(file, 0, o.size, 0, o) ==>
                exists n | 0 <= n <= |file| :: Delivered(DoRetr(w, arg, o).0) == Delivered(w) + file[..n]
  {
    hide FileTarget, Content, CStr, WellFormed, Retrieval, Delivered, Wording, Reply, CloseData, ShortWrite;
    var t := FileTarget(w, arg, o);
    if t.Some? {
      var file := Content(w.fs, t.value);
      var (v, ok) := Retrieval(w, t.value, file, arg, o);
      ClosingDeliversNothing(v, Wording(if ok then TransferComplete else LocalError), o);
      if !ShortWrite(file, 0, o.size, 0, o) {
        RetrievalPrefix(w, t.value, file, arg, o);
      }
    } else {
      ClosingDeliversNothing(w, Wording(if |arg| > 0 then NoFileToSend else LocalError), o);
    }
  }

  /** Never more than the size the file had when it was opened, short writes or not, and nothing of a file that may not be read. */
  lemma RetrWithin(w: World, arg: string, o: Oracle)
    ensures |Delivered(w)| <= |Delivered(DoRetr(w, arg, o).0)| <= |Delivered(w)| + o.size
    ensures !o.fileAccess || !o.fileStat ==> Delivered(DoRetr(w, arg, o).0) == Delivered(w)
  {
    hide FileTarget, Content, CStr, WellFormed, Retrieval, Delivered, Wording, Reply, CloseData;
    var t := FileTarget(w, arg, o);
    if t.Some? {
      var (v, ok) := Retrieval(w, t.value, Content(w.fs, t.value), arg, o);
      ClosingDeliversNothing(v, Wording(if ok then TransferComplete else LocalError), o);
      RetrievalWithin(w, t.value, Content(w.fs, t.value), arg, o);
    } else {
      ClosingDeliversNothing(w, Wording(if |arg| > 0 then NoFileToSend else LocalError), o);
    }
  }

  lemma RetrievalWithin(w: World, path: string, file: string, arg: string, o: Oracle)
    ensures var v := Retrieval(w, path, file, arg, o).0;
            && |Delivered(w)| <= |Delivered(v)| <= |Delivered(w)| + o.size
            && (!o.fileAccess || !o.fileStat ==> Delivered(v) == Delivered(w))
  {
    hide SendFile, Delivered, Announcement, AcceptData, Reply, WellFormed;
    AcceptDelivers(w, o);
    var v := AcceptData(w, o).0;
    var text := Announcement(v.binary, arg);
    ReplyDelivers(v, text, o.prelim);
    SendFileWithin(Reply(v, text, o.prelim).0, path, file, o);
  }

  lemma SendFileWithin(w: World, path: string, file: string, o: Oracle)
    ensures var v := SendFile(w, path, file, o).0;
            && |Delivered(w)| <= |Delivered(v)| <= |Delivered(w)| + o.size
            && (!o.fileAccess || !o.fileStat ==> Delivered(v) == Delivered(w))
  {
    hide Payload, SendLoop, WellFormed;
    PayloadStep(w.kernel.trace, Fetches(path));
    SendAccounts(w.kernel.trace + [Fetches(path)], w.transferClientSock, file, 0, o.size, 0, o);
  }

  lemma RetrievalPrefix(w: World, path: string, file: string, arg: string, o: Oracle)
    requires !ShortWrite(file, 0, o.size, 0, o)
    ensures exists n | 0 <= n <= |file| :: Delivered(Retrieval(w, path, file, arg, o).0) == Delivered(w) + file[..n]
  {
    hide SendFile, Delivered, Announcement, ShortWrite, AcceptData, Reply, WellFormed;
    AcceptDelivers(w, o);
    var (v, accepted) := AcceptData(w, o);
    var text := Announcement(v.binary, arg);
    ReplyDelivers(v, text, o.prelim);
    var (u, ok) := Reply(v, text, o.prelim);
    assert Delivered(w) + file[..0] == Delivered(w);
    if accepted && ok {
      SendFilePrefix(u, path, file, o);
    }
  }

  lemma ReplyDelivers(w: World, text: string, sent: bool)
    ensures Delivered(Reply(w, text, sent).0) == Delivered(w)
  {
    hide Payload, WellFormed;
    PayloadStep(w.kernel.trace, Control(w.clientSock, text + CRLF, sent));
  }

  lemma AcceptDelivers(w: World, o: Oracle)
    ensures Delivered(AcceptData(w, o).0) == Delivered(w) && AcceptData(w, o).0.root == w.root
  {
    hide Payload, WellFormed;
    PayloadStep(w.kernel.trace, Accepted(o.accept));
  }

  lemma RetrievalDelivers(w: World, path: string, file: string, arg: string, o: Oracle)
    requires Retrieval(w, path, file, arg, o).1 && o.size == |file|
    ensures Delivered(Retrieval(w, path, file, arg, o).0) == Delivered(w) + file <==> !ShortWrite(file, 0, |file|, 0, o)
  {
    hide SendFile, Delivered, Announcement, ShortWrite, AcceptData, Reply, WellFormed;
    AcceptDelivers(w, o);
    var v := AcceptData(w, o).0;
    var text := Announcement(v.binary, arg);
    ReplyDelivers(v, text, o.prelim);
    SendFileExact(Reply(v, text, o.prelim).0, path, file, o);
  }

  lemma ClosingDeliversNothing(w: World, text: string, o: Oracle)
    ensures Delivered(Reply(CloseData(w, o), text, o.final).0) == Delivered(w)
  {
    hide CloseData, Reply, Payload, WellFormed;
    CloseDataTrace(w, o);
    ReplyDelivers(CloseData(w, o), text, o.final);
  }

  /** A listing whose lines fit and whose sends succeed delivers every entry, and the last one twice. */
  lemma NlstDelivers(w: World, arg: string, o: Oracle)
    requires ListTarget(w, arg, o).Some? && AcceptData(w, o).1 && o.prelim
    requires var dir := ListTarget(w, arg, o).value;
             && dir != "" && AcceptData(w, o).0.kernel.Fresh(o.dir)
             && LinesFit(w.root, dir, arg != "", o.entries) && SendsWhole(o)
    ensures var dir := ListTarget(w, arg, o).value;
            var last := o.entries[|o.entries| - 1];
            && LineFits(w.root, dir, arg != "", last)
            && Delivered(DoNlst(w, arg, o).0) == Delivered(w) + (Lines(w.root, dir, arg != "", o.entries, 0)
                                                + (Shown(w.root, arg != "", Line(dir, arg != "", last)) + CRLF))
            && DoNlst(w, arg, o) == Reply(CloseData(Listing(w, dir, arg != "", o).0, o), Wording(ListingSent), o.final)
  {
    var dir := ListTarget(w, arg, o).value;
    hide ListTarget, Listing, Delivered, Lines, LinesFit, LineFits, Shown, Wording, SendsWhole, CloseData, Reply, WellFormed;
    ListingDelivers(w, dir, arg != "", o);
    assert |arg| != 0 <==> arg != "";
    ClosingDeliversNothing(Listing(w, dir, arg != "", o).0, Wording(ListingSent), o);
  }

  /** Texts as lines. */
  function Lined(texts: seq<string>): string {
    if texts == [] then "" else texts[0] + CRLF + Lined(texts[1..])
  }

  /** NLST without an argument sends the bare names of the entries. */
  lemma {:induction false} BareLines(root: string, dir: string, entries: seq<CText>, i: nat)
    requires i <= |entries| && LinesFit(root, dir, false, entries)
    ensures Lines(root, dir, false, entries, i) == Lined(entries[i..])
    decreases |entries| - i
  {
    if i < |entries| {
      assert LineFits(root, dir, false, entries[i]);
      BareLines(root, dir, entries, i + 1);
      assert entries[i..][1..] == entries[i + 1..];
    }
  }

  /** The server path of each entry of a directory. */
  function EntryPaths(root: string, dir: string, entries: seq<CText>): (paths: seq<string>)
    ensures |paths| == |entries|
  {
    if entries == [] then [] else [ServerPath(dir + "/" + entries[0], root)] + EntryPaths(root, dir, entries[1..])
  }

  /** With one it sends the server paths of the entries. */
  lemma {:induction false} PathLines(root: string, dir: string, entries: seq<CText>, i: nat)
    requires i <= |entries| && LinesFit(root, dir, true, entries) && NotAbove(root, dir)
    ensures Lines(root, dir, true, entries, i) == Lined(EntryPaths(root, dir, entries[i..]))
    decreases |entries| - i
  {
    if i < |entries| {
      assert LineFits(root, dir, true, entries[i]);
      PathLines(root, dir, entries, i + 1);
      assert entries[i..][1..] == entries[i + 1..];
      assert EntryPaths(root, dir, entries[i..])[1..] == EntryPaths(root, dir, entries[i + 1..]);
    }
  }

  /** What NLST sends: each entry once, in order, and then the last one again. */
  lemma NlstSends(w: World, arg: string, o: Oracle)
    requires ListTarget(w, arg, o).Some? && AcceptData(w, o).1 && o.prelim
    requires var dir := ListTarget(w, arg, o).value;
             && dir != "" && AcceptData(w, o).0.kernel.Fresh(o.dir)
             && LinesFit(w.root, dir, arg != "", o.entries) && SendsWhole(o)
    ensures var dir := ListTarget(w, arg, o).value;
            var texts := if arg == "" then o.entries else EntryPaths(w.root, dir, o.entries);
            Delivered(DoNlst(w, arg, o).0) == Delivered(w) + (Lined(texts) + (texts[|texts| - 1] + CRLF))
  {
    var dir := ListTarget(w, arg, o).value;
    var last := o.entries[|o.entries| - 1];
    if arg != "" {
      TargetChecked(w, arg, o);
    }
    hide ListTarget, DoNlst, Delivered, AcceptData, Lined, SendsWhole, WellFormed, CanonicalDir;
    NlstDelivers(w, arg, o);
    assert o.entries[0..] == o.entries;
    if arg == "" {
      BareLines(w.root, dir, o.entries, 0);
    } else {
      PathLines(w.root, dir, o.entries, 0);
      LastPath(w.root, dir, o.entries);
    }
  }

  lemma {:induction false} LastPath(root: string, dir: string, entries: seq<CText>)
    requires entries != [] && NotAbove(root, dir)
    requires |Line(dir, true, entries[|entries| - 1])| < PATH_MAX
    ensures EntryPaths(root, dir, entries)[|entries| - 1] == Shown(root, true, Line(dir, true, entries[|entries| - 1]))
  {
    if |entries| > 1 {
      assert entries[1..][|entries| - 2] == entries[|entries| - 1];
      LastPath(root, dir, entries[1..]);
    }
  }

  lemma ListingDelivers(w: World, dir: string, withPath: bool, o: Oracle)
    requires AcceptData(w, o).1 && o.prelim && dir != "" && AcceptData(w, o).0.kernel.Fresh(o.dir)
    requires LinesFit(w.root, dir, withPath, o.entries) && SendsWhole(o)
    ensures var last := o.entries[|o.entries| - 1];
            && LineFits(w.root, dir, withPath, last)
            && Listing(w, dir, withPath, o).1
            && Delivered(Listing(w, dir, withPath, o).0) == Delivered(w) + (Lines(w.root, dir, withPath, o.entries, 0)
                                                + (Shown(w.root, withPath, Line(dir, withPath, last)) + CRLF))
  {
    hide Payload, Lines, LinesFit, LineFits, ListLoop, Shown, Wording, SendsWhole, AcceptData, WellFormed;
    AcceptDelivers(w, o);
    var v := AcceptData(w, o).0;
    WordingFits(ListingComes);
    ReplyDelivers(v, Wording(ListingComes), o.prelim);
    ReplyWritten(v, Wording(ListingComes), o.prelim);
    var u := Reply(v, Wording(ListingComes), o.prelim).0;
    hide Reply, WellFormed;
    PayloadStep(u.kernel.trace, Opens(dir));
    ListsEveryEntry(u.kernel.trace + [Opens(dir)], u.transferClientSock, u.root, dir, withPath, 0, "", o);
  }

  lemma WordingFits(n: Notice)
    ensures |Wording(n)| < 100
  {
    MessagesFit(n);
  }

  // ---------- what RETR says on the control connection ----------

  lemma WrittenStep(t: seq<Event>, e: Event)
    ensures Written(t + [e]) == Written(t) + (if e.Control? && e.ok then [e.text] else [])
  {
    assert (t + [e])[..|t|] == t;
  }

  lemma {:induction false} SendLoopSilent(t: seq<Event>, sock: int, file: string, pos: nat, count: nat, k: nat, o: Oracle)
    requires pos <= |file|
    ensures Written(SendLoop(t, sock, file, pos, count, k, o).trace) == Written(t)
    decreases count
  {
    hide ReadResult, WriteResult, Written;
    var n := Got(file, pos, count, k, o);
    if count > 0 && n > 0 {
      var m := WriteResult(o.writes(k), n);
      if m == 0 {
        WrittenStep(t, Data(sock, ""));
      } else if m > 0 {
        WrittenStep(t, Data(sock, file[pos..pos + m]));
        SendLoopSilent(t + [Data(sock, file[pos..pos + m])], sock, file, pos + n, count - m, k + 1, o);
      }
    }
  }

  lemma SendFileSilent(w: World, path: string, file: string, o: Oracle)
    ensures Written(SendFile(w, path, file, o).0.kernel.trace) == Written(w.kernel.trace)
  {
    hide SendLoop, Written;
    WrittenStep(w.kernel.trace, Fetches(path));
    SendLoopSilent(w.kernel.trace + [Fetches(path)], w.transferClientSock, file, 0, o.size, 0, o);
  }

  lemma ReplySpeaks(w: World, text: string, sent: bool)
    requires |text| + 2 < RESPONSE_MAX
    ensures Written(Reply(w, text, sent).0.kernel.trace) == Written(w.kernel.trace) + (if sent then [text + CRLF] else [])
  {
    hide Written;
    WrittenStep(w.kernel.trace, Control(w.clientSock, text + CRLF, sent));
  }

  /** Once its data connection is accepted, RETR writes its announcement and one final reply, as far as write() takes them. */
  lemma RetrSpeaks(w: World, arg: string, o: Oracle)
    requires FileTarget(w, arg, o).Some? && AcceptData(w, o).1
    requires |Announcement(w.binary, arg)| + 2 < RESPONSE_MAX
    ensures var path := FileTarget(w, arg, o).value;
            var ok := Retrieval(w, path, Content(w.fs, path), arg, o).1;
            Written(DoRetr(w, arg, o).0.kernel.trace)
            == Written(w.kernel.trace) + (if o.prelim then [Announcement(w.binary, arg) + CRLF] else [])
               + (if o.final then [Wording(if ok then TransferComplete else LocalError) + CRLF] else [])
  {
    hide FileTarget, Content, CStr, Announcement, SendFile, Reply, CloseData, Wording, Written, WellFormed;
    var path := FileTarget(w, arg, o).value;
    var file := Content(w.fs, path);
    var v := AcceptData(w, o).0;
    WrittenStep(w.kernel.trace, Accepted(o.accept));
    ReplySpeaks(v, Announcement(v.binary, arg), o.prelim);
    var u := Reply(v, Announcement(v.binary, arg), o.prelim).0;
    SendFileSilent(u, path, file, o);
    var (x, ok) := Retrieval(w, path, file, arg, o);
    var n := if ok then TransferComplete else LocalError;
    CloseDataTrace(x, o);
    WordingFits(n);
    ReplySpeaks(CloseData(x, o), Wording(n), o.final);
  }

  /** What a RETR wrote on the control connection. */
  function Heard(w: World, arg: string, o: Oracle): seq<string> {
    var t := Written(DoRetr(w, arg, o).0.kernel.trace);
    if |Written(w.kernel.trace)| <= |t| then t[|Written(w.kernel.trace)|..] else []
  }

  /**
   * A file whose path has a CRLF inside breaks the shape of section 5.4 for the reader: RETR writes two replies, and the
   * client reads three, the second of them whatever stands behind the CRLF.
   */
  lemma EchoSplits(w: World, a: string, b: string, o: Oracle)
    requires FileTarget(w, a + CRLF + b, o).Some? && AcceptData(w, o).1 && o.prelim && o.final
    requires |Announcement(w.binary, a + CRLF + b)| + 2 < RESPONSE_MAX
    requires NulFree(a) && NulFree(b) && NoCrlf(a) && NoCrlf(b + ".") && |b| > 2 && (b + ".")[3] != '-'
    ensures var heard := Heard(w, a + CRLF + b, o);
            && |heard| == 2
            && ReadReplies(Joined(heard)) == [Announced(w.binary) + a + CRLF, b + "." + CRLF, heard[1]]
            && !Answered(ReadReplies(Joined(heard)))
  {
    hide FileTarget, AcceptData, Retrieval, Content, DoRetr, Announcement, Announced, Wording, ReadReplies, Whole,
         Written, Joined, NoCrlf, Preliminary, Completes, WellFormed;
    var arg := a + CRLF + b;
    RetrSpeaks(w, arg, o);
    var path := FileTarget(w, arg, o).value;
    var ok := Retrieval(w, path, Content(w.fs, path), arg, o).1;
    var n := if ok then TransferComplete else LocalError;
    NoticeIsWhole(n);
    EchoReadAsReply(w.binary, a, b, Wording(n) + CRLF);
    HeardTwo(w, arg, o, Announcement(w.binary, arg) + CRLF, Wording(n) + CRLF);
  }

  lemma HeardTwo(w: World, arg: string, o: Oracle, x: string, y: string)
    ensures Written(DoRetr(w, arg, o).0.kernel.trace) == Written(w.kernel.trace) + [x] + [y] ==> Heard(w, arg, o) == [x, y]
  {
    hide DoRetr, Written;
  }

  /** Such a file is one called "x", CR, LF, "226 y": the client reads a 226 that no transfer has earned. */
  lemma EchoedName(w: World, o: Oracle)
    requires FileTarget(w, "x" + CRLF + "226 y", o).Some? && AcceptData(w, o).1 && o.prelim && o.final
    ensures IsName("x" + CRLF + "226 y")
    ensures var heard := ReadReplies(Joined(Heard(w, "x" + CRLF + "226 y", o)));
            |heard| == 3 && heard[1] == "226 y." + CRLF && !Answered(heard)
  {
    EchoFits(w.binary);
    hide FileTarget, AcceptData, Heard, Announcement, ReadReplies, Joined, WellFormed;
    EchoSplits(w, "x", "226 y", o);
    assert "226 y" + "." + CRLF == "226 y." + CRLF;
  }

  lemma EchoFits(binary: bool)
    ensures |Announcement(binary, "x" + CRLF + "226 y")| + 2 < RESPONSE_MAX
    ensures ("226 y" + ".")[3] == ' ' && NoCrlf("226 y" + ".")
  {
  }
}
