/** What the two transfer loops deliver on the data connection, for every schedule of results. */
module Transfers {
  import opened Text
  import opened Paths
  import opened Translation
  import opened Machine

  /** Everything a trace delivered on data connections. */
  function Payload(t: seq<Event>): string {
    if t == [] then ""
    else Payload(t[..|t| - 1]) + (if t[|t| - 1].Data? then t[|t| - 1].bytes else "")
  }

  function Delivered(w: World): string {
    Payload(w.kernel.trace)
  }

  lemma PayloadStep(t: seq<Event>, e: Event)
    ensures Payload(t + [e]) == Payload(t) + (if e.Data? then e.bytes else "")
  {
    assert (t + [e])[..|t|] == t;
  }

  /**
   * Accounting, for every schedule of short reads, short writes, end of file and errors: bytes sent
   * plus bytes left is the opened size, and no more is sent than the file holds behind pos.
   */
  lemma {:induction false} SendAccounts(t: seq<Event>, sock: int, file: string, pos: nat, count: nat, k: nat, o: Oracle)
    requires pos <= |file|
    ensures var r := SendLoop(t, sock, file, pos, count, k, o);
            && |Payload(r.trace)| + r.left == |Payload(t)| + count
            && count - (|file| - pos) <= r.left <= count
    decreases count
  {
    hide ReadResult, WriteResult, Payload;
    if count > 0 {
      var n := Got(file, pos, count, k, o);
      if n > 0 {
        var m := WriteResult(o.writes(k), n);
        if m == 0 {
          PayloadStep(t, Data(sock, ""));
        } else if m > 0 {
          PayloadStep(t, Data(sock, file[pos..pos + m]));
          SendAccounts(t + [Data(sock, file[pos..pos + m])], sock, file, pos + n, count - m, k + 1, o);
        }
      }
    }
  }

  /** Some write of the loop accepts part of its chunk only. */
  predicate ShortWrite(file: string, pos: nat, count: nat, k: nat, o: Oracle)
    requires pos <= |file|
    decreases count
  {
    count > 0 &&
    var n := Got(file, pos, count, k, o);
    n > 0 &&
    var m := WriteResult(o.writes(k), n);
    m > 0 && (m < n || ShortWrite(file, pos + n, count - m, k + 1, o))
  }

  /** Without short writes the bytes delivered are always the next bytes of the file. */
  lemma {:induction false} SendsPrefix(t: seq<Event>, sock: int, file: string, pos: nat, count: nat, k: nat, o: Oracle)
    requires pos <= |file| && !ShortWrite(file, pos, count, k, o)
    ensures var r := SendLoop(t, sock, file, pos, count, k, o);
            var sent := count - r.left;
            0 <= sent <= |file| - pos && Payload(r.trace) == Payload(t) + file[pos..pos + sent]
    decreases count
  {
    hide ReadResult, WriteResult, Payload;
    SendAccounts(t, sock, file, pos, count, k, o);
    var n := Got(file, pos, count, k, o);
    if n > 0 {
      var m := WriteResult(o.writes(k), n);
      if m == 0 {
        PayloadStep(t, Data(sock, ""));
      } else if m > 0 {
        var u := t + [Data(sock, file[pos..pos + m])];
        PayloadStep(t, Data(sock, file[pos..pos + m]));
        SendsPrefix(u, sock, file, pos + n, count - m, k + 1, o);
        var sent := count - SendLoop(t, sock, file, pos, count, k, o).left;
        ChunksJoin(Payload(t), file, pos, pos + n, pos + sent);
      }
    }
  }

  lemma ChunksJoin(p: string, file: string, a: nat, b: nat, c: nat)
    requires a <= b <= c <= |file|
    ensures p + file[a..b] + file[b..c] == p + file[a..c]
  {
  }

  /** An unchanging file that was reported sent has arrived whole exactly when no write was short. */
  lemma SentWholeIff(t: seq<Event>, sock: int, file: string, k: nat, o: Oracle)
    requires SendLoop(t, sock, file, 0, |file|, k, o).ok
    ensures Payload(SendLoop(t, sock, file, 0, |file|, k, o).trace) == Payload(t) + file
       <==> !ShortWrite(file, 0, |file|, k, o)
  {
    SendAccounts(t, sock, file, 0, |file|, k, o);
    if ShortWrite(file, 0, |file|, k, o) {
      ShortLeaves(t, sock, file, 0, |file|, k, o);
    } else {
      SendsPrefix(t, sock, file, 0, |file|, k, o);
      NothingLeft(t, sock, file, 0, k, o);
      assert file[0..|file|] == file;
    }
  }

  lemma {:induction false} ShortLeaves(t: seq<Event>, sock: int, file: string, pos: nat, count: nat, k: nat, o: Oracle)
    requires pos <= |file| && |file| - pos <= count && ShortWrite(file, pos, count, k, o)
    ensures SendLoop(t, sock, file, pos, count, k, o).left > 0
    decreases count
  {
    hide ReadResult, WriteResult, Payload;
    var n := Got(file, pos, count, k, o);
    var m := WriteResult(o.writes(k), n);
    var u := t + [Data(sock, file[pos..pos + m])];
    SendAccounts(u, sock, file, pos + n, count - m, k + 1, o);
    if m == n {
      ShortLeaves(u, sock, file, pos + n, count - m, k + 1, o);
    }
  }

  lemma {:induction false} NothingLeft(t: seq<Event>, sock: int, file: string, pos: nat, k: nat, o: Oracle)
    requires pos <= |file| && !ShortWrite(file, pos, |file| - pos, k, o)
    requires SendLoop(t, sock, file, pos, |file| - pos, k, o).ok
    ensures SendLoop(t, sock, file, pos, |file| - pos, k, o).left == 0
    decreases |file| - pos
  {
    var count := |file| - pos;
    if count > 0 {
      var n := Got(file, pos, count, k, o);
      var m := WriteResult(o.writes(k), n);
      assert n > 0 && m == n;
      NothingLeft(t + [Data(sock, file[pos..pos + m])], sock, file, pos + n, k + 1, o);
    }
  }

  /** A file for which the loop reports success although a byte was lost: one short write, then end of file. */
  lemma ShortWriteLosesBytes(t: seq<Event>, sock: int, o: Oracle)
    requires o.chunks(0) == 2 && o.writes(0) == 1 && o.chunks(1) == 1
    ensures SendLoop(t, sock, "ab", 0, 2, 0, o) == Sent(t + [Data(sock, "a")], 1, true)
  {
    var file := "ab";
    assert Got(file, 0, 2, 0, o) == 2 && WriteResult(o.writes(0), 2) == 1;
    assert Got(file, 2, 1, 1, o) == 0;
    assert file[0..1] == "a";
  }

  /** The world with another trace. */
  function WithTrace(w: World, t: seq<Event>): World {
    w.(kernel := w.kernel.(trace := t))
  }

  /** The file handle is closed exactly once whatever happens: only the trace is left changed. */
  lemma SendFileFrame(w: World, path: string, file: string, o: Oracle)
    ensures var v := SendFile(w, path, file, o).0;
            v == WithTrace(w, v.kernel.trace)
  {
    if w.kernel.Fresh(o.file) {
      assert w.kernel.open + {o.file} - {o.file} == w.kernel.open;
    }
  }

  /** A file reported sent whose size did not change was delivered byte for byte, unless a write was short. */
  lemma SendFileExact(w: World, path: string, file: string, o: Oracle)
    requires SendFile(w, path, file, o).1 && o.size == |file|
    ensures Delivered(SendFile(w, path, file, o).0) == Delivered(w) + file <==> !ShortWrite(file, 0, |file|, 0, o)
  {
    hide Payload, SendLoop, ShortWrite, WellFormed;
    PayloadStep(w.kernel.trace, Fetches(path));
    SentWholeIff(w.kernel.trace + [Fetches(path)], w.transferClientSock, file, 0, o);
  }

  /** Without short writes a transfer, finished or not, has delivered a prefix of the file. */
  lemma SendFilePrefix(w: World, path: string, file: string, o: Oracle)
    requires !ShortWrite(file, 0, o.size, 0, o)
    ensures exists n | 0 <= n <= |file| :: Delivered(SendFile(w, path, file, o).0) == Delivered(w) + file[..n]
  {
    hide Payload, SendLoop, ShortWrite, WellFormed;
    var n := 0;
    PayloadStep(w.kernel.trace, Fetches(path));
    assert Delivered(w) + file[..0] == Delivered(w);
    if o.fileAccess && w.kernel.Fresh(o.file) && o.fileStat {
      var t := w.kernel.trace + [Fetches(path)];
      SendsPrefix(t, w.transferClientSock, file, 0, o.size, 0, o);
      n := o.size - SendLoop(t, w.transferClientSock, file, 0, o.size, 0, o).left;
      assert file[0..n] == file[..n];
    }
    assert Delivered(SendFile(w, path, file, o).0) == Delivered(w) + file[..n];
  }

  // ---------- directory listing ----------

  predicate LinesFit(root: string, dir: string, withPath: bool, entries: seq<CText>) {
    forall i | 0 <= i < |entries| :: LineFits(root, dir, withPath, entries[i])
  }

  predicate LineFits(root: string, dir: string, withPath: bool, entry: string) {
    var l := Line(dir, withPath, entry);
    0 < |l| < PATH_MAX && |Shown(root, withPath, l)| + 3 <= PATH_MAX
  }

  /** Entries i and up as the client should see them: one CRLF-terminated line each, in order. */
  function Lines(root: string, dir: string, withPath: bool, entries: seq<CText>, i: nat): string
    requires i <= |entries| && LinesFit(root, dir, withPath, entries)
    decreases |entries| - i
  {
    if i == |entries| then ""
    else
      assert LineFits(root, dir, withPath, entries[i]);
      Shown(root, withPath, Line(dir, withPath, entries[i])) + CRLF + Lines(root, dir, withPath, entries, i + 1)
  }

  ghost predicate SendsWhole(o: Oracle) {
    forall i: nat, n: nat :: WriteResult(o.sends(i), n) == n
  }

  /**
   * The listing: every entry once and in order, and then the last one a second time, because the
   * call that meets the end of the stream leaves the buffer alone. One write per list call, n + 1 in all.
   */
  lemma {:induction false} ListsEveryEntry(
      t: seq<Event>, sock: int, root: string, dir: string, withPath: bool, i: nat, line: string, o: Oracle)
    requires i <= |o.entries| && LinesFit(root, dir, withPath, o.entries) && SendsWhole(o)
    requires i > 0 ==> line == Line(dir, withPath, o.entries[i - 1]) && LineFits(root, dir, withPath, o.entries[i - 1])
    ensures var last := o.entries[|o.entries| - 1];
            && LineFits(root, dir, withPath, last)
            && var r := ListLoop(t, sock, root, dir, withPath, i, line, o);
            && r.ok && r.closed
            && Payload(r.trace) == Payload(t) + (Lines(root, dir, withPath, o.entries, i)
                                   + (Shown(root, withPath, Line(dir, withPath, last)) + CRLF))
            && |r.trace| == |t| + |o.entries| - i + 1
    decreases |o.entries| - i
  {
    hide Payload, SendLine, SendsWhole;
    if i == |o.entries| {
      SendsLine(t, sock, Shown(root, withPath, line), i, o);
      assert "" + (Shown(root, withPath, line) + CRLF) == Shown(root, withPath, line) + CRLF;
    } else {
      assert LineFits(root, dir, withPath, o.entries[i]);
      var next := Line(dir, withPath, o.entries[i]);
      var s := Shown(root, withPath, next);
      SendsLine(t, sock, s, i, o);
      var u := SendLine(t, sock, s, i, o).0;
      ListsEveryEntry(u, sock, root, dir, withPath, i + 1, next, o);
      var rest := Lines(root, dir, withPath, o.entries, i + 1);
      var last := Shown(root, withPath, Line(dir, withPath, o.entries[|o.entries| - 1])) + CRLF;
      ConcatAssociates(Payload(t), s + CRLF, rest + last);
      ConcatAssociates(s + CRLF, rest, last);
    }
  }

  lemma SendsLine(t: seq<Event>, sock: int, text: string, i: nat, o: Oracle)
    requires 0 < |text| && |text| + 3 <= PATH_MAX && SendsWhole(o)
    ensures var (u, ok) := SendLine(t, sock, text, i, o);
            ok && |u| == |t| + 1 && Payload(u) == Payload(t) + (text + CRLF)
  {
    var f := text + CRLF;
    assert Frame(text, o.beyond) == f && f[..|f|] == f;
    hide Frame, Payload;
    assert WriteResult(o.sends(i), |f|) == |f|;
    PayloadStep(t, Data(sock, f));
  }

  /** Lines i to j all fit the buffer, so that without a failure the loop gets to line j. */
  predicate Reaches(dir: string, withPath: bool, i: nat, j: nat, o: Oracle)
    requires j < |o.entries|
  {
    forall m | i <= m <= j :: |Line(dir, withPath, o.entries[m])| < PATH_MAX
  }

  /** A send failed while the handle was open: the j-th line was reached and not taken. */
  predicate FailsMidway(dir: string, withPath: bool, i: nat, o: Oracle) {
    exists j | i <= j < |o.entries| :: o.sends(j) == -1 && Reaches(dir, withPath, i, j, o)
  }

  lemma FailsStep(dir: string, withPath: bool, i: nat, o: Oracle)
    requires i < |o.entries| && |Line(dir, withPath, o.entries[i])| < PATH_MAX
    ensures FailsMidway(dir, withPath, i, o) <==> o.sends(i) == -1 || FailsMidway(dir, withPath, i + 1, o)
  {
    assert Reaches(dir, withPath, i, i, o);
    assert forall j | i < j < |o.entries| :: Reaches(dir, withPath, i + 1, j, o) <==> Reaches(dir, withPath, i, j, o);
  }

  /** The directory handle stays open exactly when a send fails before the end of the stream. */
  lemma {:induction false} ListHandle(
      t: seq<Event>, sock: int, root: string, dir: string, withPath: bool, i: nat, line: string, o: Oracle)
    requires i <= |o.entries| && (i > 0 ==> 0 < |line| < PATH_MAX)
    ensures ListLoop(t, sock, root, dir, withPath, i, line, o).closed <==> !FailsMidway(dir, withPath, i, o)
    decreases |o.entries| - i
  {
    if i < |o.entries| {
      var next := Line(dir, withPath, o.entries[i]);
      if |next| < PATH_MAX {
        FailsStep(dir, withPath, i, o);
        var (u, ok) := SendLine(t, sock, Shown(root, withPath, next), i, o);
        if ok {
          ListHandle(u, sock, root, dir, withPath, i + 1, next, o);
        }
      } else {
        assert forall j | i <= j < |o.entries| :: !Reaches(dir, withPath, i, j, o);
      }
    }
  }

  /** Whatever happens, the handle is opened once, never closed twice, and closed unless a send failed midway. */
  lemma ListDirFrame(w: World, dir: string, withPath: bool, o: Oracle)
    requires dir != "" && w.kernel.Fresh(o.dir)
    ensures var v := ListDir(w, dir, withPath, o).0;
            if FailsMidway(dir, withPath, 0, o) then
              v == WithTrace(w, v.kernel.trace).(
                     kernel := w.kernel.(trace := v.kernel.trace, open := w.kernel.open + {o.dir}),
                     lost := w.lost + {o.dir})
            else v == WithTrace(w, v.kernel.trace)
  {
    ListHandle(w.kernel.trace + [Opens(dir)], w.transferClientSock, w.root, dir, withPath, 0, "", o);
    assert w.kernel.open + {o.dir} - {o.dir} == w.kernel.open;
  }
}
