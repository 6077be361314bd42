/**
 * Path names and realpath over a fixed tree without symbolic links.
 * A node is named by its components from "/"; a path name is text.
 */
module Paths {
  import opened Text

  type Name = c: string | IsName(c) witness "a"

  predicate IsName(c: string) {
    c != "" && c != "." && c != ".." && '/' !in c && NulFree(c)
  }

  datatype Node = File(content: string) | Dir

  datatype Tree = Tree(nodes: map<seq<Name>, Node>, processDir: seq<Name>)

  const OFFSET_LIMIT := 0x8000_0000_0000_0000

  function Parent(p: seq<Name>): seq<Name> {
    if p == [] then [] else p[..|p| - 1]
  }

  ghost predicate WellFormed(fs: Tree) {
    && IsDirAt(fs, [])
    && IsDirAt(fs, fs.processDir)
    && (forall p {:trigger Parent(p)} | p in fs.nodes :: IsDirAt(fs, Parent(p)))
    && (forall p {:trigger fs.nodes[p].content} | p in fs.nodes && fs.nodes[p].File? ::
          |fs.nodes[p].content| < OFFSET_LIMIT)
  }

  predicate IsDirAt(fs: Tree, p: seq<Name>) {
    p in fs.nodes && fs.nodes[p].Dir?
  }

  /** The file system: every node sits in a directory, and file sizes fit off_t. */
  type Fs = fs: Tree | WellFormed(fs) ghost witness Tree(map[[] := Dir], [])

  /** The pieces between the slashes; a doubled or final slash leaves an empty piece. */
  function SplitOn(sep: char, s: string): (pieces: seq<string>)
    ensures pieces != []
  {
    if s == "" then [""]
    else Prepend(sep, s[0], SplitOn(sep, s[1..]))
  }

  function Split(s: string): (pieces: seq<string>)
    ensures pieces != []
  {
    SplitOn('/', s)
  }

  lemma {:induction false} SplitJoin(sep: char, a: string, b: string)
    ensures SplitOn(sep, a + [sep] + b) == SplitOn(sep, a) + SplitOn(sep, b)
  {
    if a == "" {
      assert a + [sep] + b == [sep] + b;
    } else {
      SplitJoin(sep, a[1..], b);
      var whole, rest := a + [sep] + b, a[1..] + [sep] + b;
      assert whole[1..] == rest && whole[0] == a[0];
      PrependPiece(sep, a[0], SplitOn(sep, a[1..]), SplitOn(sep, b));
    }
  }

  /** How a character put in front changes the pieces, as SplitOn does it. */
  function Prepend(sep: char, c: char, pieces: seq<string>): (r: seq<string>)
    requires pieces != []
    ensures r != []
  {
    if c == sep then [""] + pieces else [[c] + pieces[0]] + pieces[1..]
  }

  lemma PrependPiece(sep: char, c: char, u: seq<string>, v: seq<string>)
    requires u != []
    ensures Prepend(sep, c, u + v) == Prepend(sep, c, u) + v
  {
  }

  lemma {:induction false} SplitWhole(sep: char, s: string)
    requires sep !in s
    ensures SplitOn(sep, s) == [s]
  {
    if s != "" {
      SplitWhole(sep, s[1..]);
      assert [s[0]] + s[1..] == s;
    }
  }

  function Slashed(p: seq<string>): (s: string)
    ensures p != [] ==> s != "" && s[0] == '/'
    ensures p == [] ==> s == ""
  {
    if p == [] then "" else "/" + p[0] + Slashed(p[1..])
  }

  /** The canonical text of a node. */
  function Render(p: seq<string>): (s: string)
    ensures s != "" && s[0] == '/'
  {
    if p == [] then "/" else Slashed(p)
  }

  lemma {:induction false} SlashedAppend(p: seq<string>, q: seq<string>)
    ensures Slashed(p + q) == Slashed(p) + Slashed(q)
  {
    if p == [] {
      assert p + q == q;
    } else {
      SlashedAppend(p[1..], q);
      assert (p + q)[1..] == p[1..] + q;
      ConcatAssociates("/" + p[0], Slashed(p[1..]), Slashed(q));
    }
  }

  lemma ConcatAssociates<T>(a: seq<T>, b: seq<T>, c: seq<T>)
    ensures (a + b) + c == a + (b + c)
  {
  }

  lemma {:induction false} SplitSlashed(p: seq<string>)
    requires forall c | c in p :: '/' !in c
    ensures Split(Slashed(p)) == [""] + p
  {
    if p != [] {
      var f, c := p[..|p| - 1], p[|p| - 1];
      assert p == f + [c];
      SlashedAppend(f, [c]);
      assert Slashed([c]) == "/" + c + Slashed([c][1..]) == "/" + c;
      assert Slashed(p) == Slashed(f) + "/" + c;
      SplitSlashed(f);
      SplitJoin('/', Slashed(f), c);
      SplitWhole('/', c);
    }
  }

  lemma {:induction false} SlashedNulFree(p: seq<string>)
    requires forall c | c in p :: NulFree(c)
    ensures NulFree(Slashed(p))
  {
    if p != [] {
      SlashedNulFree(p[1..]);
      assert NulFree("/") && NulFree(p[0]);
    }
  }

  /** One step of path resolution: only a directory can be left or entered. */
  function Enter(fs: Fs, at: seq<Name>, piece: string): (r: Option<seq<Name>>)
  {
    if !IsDirAt(fs, at) then None
    else if piece == "" || piece == "." then Some(at)
    else if piece == ".." then Some(Parent(at))
    else if IsName(piece) && at + [piece] in fs.nodes then Some(at + [piece])
    else None
  }

  function Walk(fs: Fs, at: seq<Name>, pieces: seq<string>): (r: Option<seq<Name>>)
    requires at in fs.nodes
    ensures r.Some? ==> r.value in fs.nodes
    decreases |pieces|
  {
    if pieces == [] then Some(at)
    else
      var next := Enter(fs, at, pieces[0]);
      if next.None? then None else Walk(fs, next.value, pieces[1..])
  }

  lemma {:induction false} WalkAppend(fs: Fs, at: seq<Name>, xs: seq<string>, ys: seq<string>)
    requires at in fs.nodes
    ensures Walk(fs, at, xs + ys)
         == if Walk(fs, at, xs).None? then None else Walk(fs, Walk(fs, at, xs).value, ys)
    decreases |xs|
  {
    if xs == [] {
      assert xs + ys == ys;
    } else {
      assert (xs + ys)[1..] == xs[1..] + ys;
      var next := Enter(fs, at, xs[0]);
      if next.Some? {
        WalkAppend(fs, next.value, xs[1..], ys);
      }
    }
  }

  /** The node a path name denotes, if it exists. */
  function RealPath(fs: Fs, path: string): (r: Option<seq<Name>>)
    ensures r.Some? ==> r.value in fs.nodes
  {
    if path == "" then None
    else Walk(fs, if path[0] == '/' then [] else fs.processDir, Split(path))
  }

  lemma {:induction false} WalkNode(fs: Fs, p: seq<Name>)
    requires p in fs.nodes
    ensures Walk(fs, [], p) == Some(p)
  {
    if p != [] {
      var f, c := Parent(p), p[|p| - 1];
      WalkNode(fs, f);
      WalkAppend(fs, [], f, [c]);
      assert p == f + [c];
    }
  }

  /** Canonical text resolves to the node it names: resolving twice is resolving once. */
  lemma CanonicalResolves(fs: Fs, p: seq<Name>)
    requires p in fs.nodes
    ensures RealPath(fs, Render(p)) == Some(p)
  {
    if p == [] {
      assert Split("/") == ["", ""];
    } else {
      SplitSlashed(p);
      WalkNode(fs, p);
      WalkAppend(fs, [], [""], p);
      assert Walk(fs, [], [""]) == Some([]);
    }
  }

  /** realpath is idempotent. */
  lemma RealPathIdempotent(fs: Fs, path: string)
    requires RealPath(fs, path).Some?
    ensures RealPath(fs, Render(RealPath(fs, path).value)) == RealPath(fs, path)
  {
    CanonicalResolves(fs, RealPath(fs, path).value);
  }

  /** Joining with "/" resolves the second path from where the first one leads. */
  lemma JoinResolves(fs: Fs, p: seq<Name>, path: string)
    requires p in fs.nodes
    ensures RealPath(fs, Render(p) + "/" + path) == Walk(fs, p, Split(path))
  {
    CanonicalResolves(fs, p);
    SplitJoin('/', Render(p), path);
    WalkAppend(fs, [], Split(Render(p)), Split(path));
  }

  /** Text with path appended behind canonical text, for a path that starts with "/". */
  lemma AbsoluteResolves(fs: Fs, p: seq<Name>, path: string)
    requires IsDirAt(fs, p) && path != "" && path[0] == '/'
    ensures RealPath(fs, Render(p) + path) == Walk(fs, p, Split(path))
  {
    assert path == "" + "/" + path[1..];
    SplitJoin('/', "", path[1..]);
    WalkAppend(fs, p, [""], Split(path[1..]));
    assert Walk(fs, p, [""]) == Some(p);
    assert Render(p) + path == Render(p) + "/" + path[1..];
    JoinResolves(fs, p, path[1..]);
  }

  lemma {:induction false} WalkNames(fs: Fs, at: seq<Name>, names: seq<Name>)
    requires at in fs.nodes
    ensures Walk(fs, at, names) == if at + names in fs.nodes then Some(at + names) else None
    decreases |names|
  {
    if names == [] {
      assert at + names == at;
    } else {
      var next := at + [names[0]];
      assert at + names == next + names[1..];
      if next in fs.nodes {
        assert Parent(next) == at;
        WalkNames(fs, next, names[1..]);
      } else {
        NoDescendant(fs, next, names[1..]);
      }
    }
  }

  lemma {:induction false} NoDescendant(fs: Fs, p: seq<Name>, q: seq<Name>)
    requires p !in fs.nodes
    ensures p + q !in fs.nodes
  {
    if q == [] {
      assert p + q == p;
    } else {
      NoDescendant(fs, p, q[..|q| - 1]);
      assert Parent(p + q) == p + q[..|q| - 1];
    }
  }

  // ---------- the byte-prefix test on canonical text ----------

  /** All components of r but the last equal p's, and the last is a string prefix of the one it meets. */
  predicate Admits(r: seq<Name>, p: seq<Name>) {
    |r| <= |p|
    && if |r| == 0 then true
       else if |r| == 1 then r[0] <= p[0]
       else r[0] == p[0] && Admits(r[1..], p[1..])
  }

  lemma {:induction false} AdmitsComponents(r: seq<Name>, p: seq<Name>)
    requires r != []
    ensures Admits(r, p)
       <==> |r| <= |p| && r[..|r| - 1] == p[..|r| - 1] && r[|r| - 1] <= p[|r| - 1]
  {
    var n := |r| - 1;
    if 0 < n < |p| {
      AdmitsComponents(r[1..], p[1..]);
      assert r[..n] == [r[0]] + r[1..][..n - 1];
      assert p[..n] == [p[0]] + p[1..][..n - 1];
    }
  }

  lemma {:induction false} SlashedPrefix(r: seq<Name>, p: seq<Name>)
    requires r != []
    ensures Slashed(r) <= Slashed(p) <==> Admits(r, p)
  {
    if p != [] {
      NamePrefix(r[0], Slashed(r[1..]), p[0], Slashed(p[1..]));
      if |r| > 1 {
        SlashedPrefix(r[1..], p[1..]);
      }
    }
  }

  lemma NamePrefix(a: Name, s: string, b: Name, t: string)
    requires s == "" || s[0] == '/'
    requires t == "" || t[0] == '/'
    ensures s == "" ==> ("/" + a + s <= "/" + b + t <==> a <= b)
    ensures s != "" ==> ("/" + a + s <= "/" + b + t <==> a == b && s <= t)
  {
    var x, y := "/" + a + s, "/" + b + t;
    assert forall i | 0 <= i < |a| :: x[i + 1] == a[i];
    assert forall i | 0 <= i < |b| :: y[i + 1] == b[i];
    if x <= y {
      assert forall i | 0 <= i < |x| :: x[i] == y[i];
      assert forall i | 0 <= i < |a| :: a[i] != '/';
      assert |b| + 1 < |y| ==> y[|b| + 1] == '/';
      assert |a| <= |b|;
      assert forall i | 0 <= i < |a| :: a[i] == b[i];
      assert a == b[..|a|];
      if s != "" {
        assert x[|a| + 1] == s[0];
        assert forall i | 0 <= i < |b| :: b[i] != '/';
        assert |a| == |b|;
        assert x[|a| + 1..] == s && y[|a| + 1..] == t;
      }
    }
    if s == "" && a <= b {
      assert x <= y;
    }
  }
}
