/** What an unbroken, matched trace means for the client: sections 4.2 and 5.4 of RFC 959. */
module Discipline {
  import opened Text
  import opened Machine
  import opened Sessions

  predicate Boundary(e: Event) {
    e.Command? || e.Session?
  }

  /** The texts that write() took on the control socket, in order. */
  function Written(t: seq<Event>): seq<string> {
    if t == [] then []
    else Written(t[..|t| - 1]) + (if t[|t| - 1].Control? && t[|t| - 1].ok then [t[|t| - 1].text] else [])
  }

  /** One final reply other than 226, or one preliminary reply and then one final reply. */
  predicate Answered(rs: seq<string>) {
    (|rs| == 1 && !Preliminary(rs[0]) && !Completes(rs[0]))
    || (|rs| == 2 && Preliminary(rs[0]) && !Preliminary(rs[1]))
  }

  /** What may have been written before a final reply: nothing, unless it is 226, or one preliminary reply. */
  predicate Leads(rs: seq<string>, last: string) {
    (rs == [] && !Completes(last)) || (|rs| == 1 && Preliminary(rs[0]))
  }

  /** The final reply is handed to write() at k, behind what Leads allows, and no other reply after it. */
  predicate ClosesAt(b: seq<Event>, k: nat) {
    && k < |b| && b[k].Control? && !Preliminary(b[k].text) && Leads(Written(b[..k]), b[k].text)
    && forall m | k < m < |b| :: !b[m].Control?
  }

  /** How the phase behind a boundary reads off the events since. */
  ghost predicate PhaseFits(p: Phase, b: seq<Event>) {
    match p
    case Owed => Written(b) == []
    case Marked => |Written(b)| == 1 && Preliminary(Written(b)[0])
    case Quiet => exists k: nat :: ClosesAt(b, k)
    case Broken => true
  }

  lemma {:induction false} PhaseReadsEvents(a: seq<Event>, e: Event, b: seq<Event>)
    requires Boundary(e) && forall i | 0 <= i < |b| :: !Boundary(b[i])
    ensures PhaseFits(Watch(a + [e] + b).phase, b)
  {
    hide Watch, Preliminary, Completes;
    if b == [] {
      assert a + [e] + b == a + [e];
      WatchStep(a, e);
    } else {
      var f, x := b[..|b| - 1], b[|b| - 1];
      PhaseReadsEvents(a, e, f);
      assert a + [e] + b == (a + [e] + f) + [x];
      WatchStep(a + [e] + f, x);
      if Watch(a + [e] + b).phase == Quiet {
        var k: nat := |b| - 1;
        if !x.Control? {
          k :| ClosesAt(f, k);
        }
        assert b[..k] == f[..k];
        assert ClosesAt(b, k);
      }
    }
  }

  lemma {:induction false} QuietAtBoundary(t: seq<Event>, j: nat)
    requires j < |t| && Boundary(t[j]) && Watch(t).phase != Broken
    ensures Watch(t[..j]).phase == Quiet
  {
    if j < |t| - 1 {
      QuietAtBoundary(t[..|t| - 1], j);
      assert t[..|t| - 1][..j] == t[..j];
    }
  }

  /**
   * Between a request or greeting and the next one a final reply is handed to write() once, at k, and nothing after it.
   * The client gets it, if write() takes it, alone or behind one preliminary reply, 226 only behind one.
   */
  lemma EveryCommandAnswered(t: seq<Event>, i: nat, j: nat) returns (k: nat)
    requires Watch(t).phase == Quiet
    requires i < j <= |t| && Boundary(t[i]) && (j < |t| ==> Boundary(t[j]))
    requires forall m | i < m < j :: !Boundary(t[m])
    ensures i < k < j && t[k].Control? && !Preliminary(t[k].text) && Leads(Written(t[i + 1..k]), t[k].text)
    ensures Written(t[i + 1..j]) == Written(t[i + 1..k]) + (if t[k].ok then [t[k].text] else [])
    ensures t[k].ok ==> Answered(Written(t[i + 1..j]))
  {
    hide Watch, Preliminary, Completes, Written, Leads, Answered;
    if j < |t| {
      QuietAtBoundary(t, j);
    } else {
      assert t[..j] == t;
    }
    var b := t[i + 1..j];
    assert forall m | 0 <= m < |b| :: b[m] == t[i + 1 + m];
    SplitAround(t, i, j);
    PhaseReadsEvents(t[..i], t[i], b);
    var c: nat :| ClosesAt(b, c);
    k := i + 1 + c;
    assert b[..c] == t[i + 1..k];
    WrittenUpTo(b, c);
    LeadsAnswers(Written(b[..c]), t[k].text);
  }

  lemma LeadsAnswers(rs: seq<string>, last: string)
    requires Leads(rs, last) && !Preliminary(last)
    ensures Answered(rs + [last])
  {
    hide Preliminary, Completes;
  }

  /** Nothing is written behind the last reply. */
  lemma {:induction false} WrittenUpTo(b: seq<Event>, k: nat)
    requires k < |b| && b[k].Control? && forall m | k < m < |b| :: !b[m].Control?
    ensures Written(b) == Written(b[..k]) + (if b[k].ok then [b[k].text] else [])
  {
    if k < |b| - 1 {
      var f := b[..|b| - 1];
      assert f[..k] == b[..k];
      WrittenUpTo(f, k);
    }
  }

  lemma SplitAround<T>(t: seq<T>, i: nat, j: nat)
    requires i < j <= |t|
    ensures t[..j] == t[..i] + [t[i]] + t[i + 1..j]
  {
  }

  // ---------- every 150 has its own passive socket ----------

  predicate Marks(e: Event) {
    e.Control? && Preliminary(e.text)
  }

  predicate ReadiesData(e: Event) {
    e.Listen? && e.data
  }

  /** A passive socket for data became ready at j, and up to i neither a 150 nor a new session came in between. */
  predicate Prepares(t: seq<Event>, j: nat, i: nat)
    requires j < i <= |t|
  {
    ReadiesData(t[j]) && forall m | j < m < i :: !Marks(t[m]) && !t[m].Session?
  }

  /** The session that is on before i began at s. */
  predicate BeganAt(t: seq<Event>, s: nat, i: nat)
    requires s < i <= |t|
  {
    t[s].Session? && forall m | s < m < i :: !t[m].Session?
  }

  lemma {:induction false} SessionBegan(t: seq<Event>) returns (s: nat)
    requires Watch(t).control.Some?
    ensures s < |t| && BeganAt(t, s, |t|)
  {
    var f, x := t[..|t| - 1], t[|t| - 1];
    if x.Session? {
      s := |t| - 1;
    } else {
      s := SessionBegan(f);
      assert forall m | s <= m < |f| :: t[m] == f[m];
    }
  }

  lemma {:induction false} ArmedBySomeListen(t: seq<Event>) returns (s: nat, j: nat)
    requires Watch(t).armed
    ensures s < j < |t| && BeganAt(t, s, |t|) && Prepares(t, j, |t|)
  {
    var f, x := t[..|t| - 1], t[|t| - 1];
    if ReadiesData(x) && Watch(f).control.Some? {
      j := |t| - 1;
      s := SessionBegan(f);
      assert forall m | s <= m < |f| :: t[m] == f[m];
    } else {
      s, j := ArmedBySomeListen(f);
      assert forall m | s <= m < |f| :: t[m] == f[m];
    }
  }

  lemma {:induction false} MatchedMarks(t: seq<Event>, i: nat)
    requires i < |t| && Marks(t[i]) && Watch(t).matched
    ensures Watch(t[..i]).armed
  {
    if i < |t| - 1 {
      MatchedMarks(t[..|t| - 1], i);
      assert t[..|t| - 1][..i] == t[..i];
    }
  }

  /** Every 150 comes after the start of its session and, in between, a passive socket for data that no other 150 used. */
  lemma EveryMarkPrepared(t: seq<Event>, i: nat) returns (s: nat, j: nat)
    requires i < |t| && Marks(t[i]) && Watch(t).matched
    ensures s < j < i && BeganAt(t, s, i) && Prepares(t, j, i)
  {
    hide Watch;
    MatchedMarks(t, i);
    s, j := ArmedBySomeListen(t[..i]);
    assert forall m | s <= m < i :: t[m] == t[..i][m];
  }

  /** Two 150s never rely on the same creation. */
  lemma PreparationsDistinct(t: seq<Event>, i: nat, j: nat, i': nat, j': nat)
    requires i < i' < |t| && Marks(t[i]) && Marks(t[i'])
    requires j < i && Prepares(t, j, i) && j' < i' && Prepares(t, j', i')
    ensures j != j'
  {
    assert i <= j';
  }

  /** 150s and passive sockets for data since the session began. */
  function MarksSince(t: seq<Event>): nat {
    if t == [] then 0
    else if t[|t| - 1].Session? then 0
    else MarksSince(t[..|t| - 1]) + (if Marks(t[|t| - 1]) then 1 else 0)
  }

  function ListensSince(t: seq<Event>): nat {
    if t == [] then 0
    else if t[|t| - 1].Session? then 0
    else ListensSince(t[..|t| - 1]) + (if ReadiesData(t[|t| - 1]) then 1 else 0)
  }

  lemma {:induction false} MarksWithinListens(t: seq<Event>)
    requires Watch(t).matched
    ensures MarksSince(t) + (if Watch(t).armed then 1 else 0) <= ListensSince(t)
  {
    if t != [] {
      MarksWithinListens(t[..|t| - 1]);
    }
  }

  // ---------- data only flows behind a 150, on the connection accepted for it ----------

  lemma {:induction false} MarkedBySome(t: seq<Event>) returns (m: nat)
    requires Watch(t).phase == Marked
    ensures m < |t| && Marks(t[m]) && t[m].ok && forall k | m < k < |t| :: !Boundary(t[k]) && !t[k].Control?
  {
    var f, x := t[..|t| - 1], t[|t| - 1];
    if x.Control? {
      m := |t| - 1;
    } else {
      m := MarkedBySome(f);
      assert forall k | m <= k < |f| :: t[k] == f[k];
    }
  }

  lemma {:induction false} AcceptedBySome(t: seq<Event>) returns (a: nat)
    requires Watch(t).data.Some?
    ensures a < |t| && t[a] == Accepted(Watch(t).data.value)
    ensures forall k | a < k < |t| :: !Boundary(t[k]) && !t[k].Accepted?
  {
    var f, x := t[..|t| - 1], t[|t| - 1];
    if x.Accepted? {
      a := |t| - 1;
    } else {
      a := AcceptedBySome(f);
      assert forall k | a <= k < |f| :: t[k] == f[k];
    }
  }

  lemma {:induction false} DataMarked(t: seq<Event>, i: nat)
    requires i < |t| && t[i].Data? && Watch(t).phase != Broken
    ensures Watch(t[..i]).phase == Marked && Watch(t[..i]).data == Some(t[i].sock)
  {
    if i < |t| - 1 {
      DataMarked(t[..|t| - 1], i);
      assert t[..|t| - 1][..i] == t[..i];
    }
  }

  /**
   * Data is only written between a 150 that was written and the final reply behind it, and only on the data connection accepted
   * last, within the same request.
   */
  lemma EveryDataAnnounced(t: seq<Event>, i: nat) returns (a: nat, m: nat)
    requires i < |t| && t[i].Data? && Watch(t).phase != Broken
    ensures a < i && t[a] == Accepted(t[i].sock) && forall k | a < k < i :: !Boundary(t[k]) && !t[k].Accepted?
    ensures m < i && Marks(t[m]) && t[m].ok && forall k | m < k < i :: !Boundary(t[k]) && !t[k].Control?
  {
    hide Watch;
    DataMarked(t, i);
    m := MarkedBySome(t[..i]);
    a := AcceptedBySome(t[..i]);
    assert forall k | 0 <= k < i :: t[k] == t[..i][k];
  }
}
