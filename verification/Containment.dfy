/** When the byte test of the root check keeps the server inside its root, and what happens when it does not. */
module Containment {
  import opened Text
  import opened Paths
  import opened Translation

  /** A directory beside the root, short enough for the buffers, whose name properly extends the root's last name. */
  predicate Sibling(fs: Fs, r: seq<Name>, n: Name) {
    r != [] && r[|r| - 1] <= n && n != r[|r| - 1] && IsDirAt(fs, Parent(r) + [n])
    && |Render(Parent(r) + [n])| < PATH_MAX
  }

  /** The root has no such directory beside it. The root "/" never has. */
  ghost predicate Alone(fs: Fs, root: string)
    requires CanonicalText(fs, root)
  {
    forall n: Name :: !Sibling(fs, Components(fs, root), n)
  }

  ghost predicate AdmitsOnlyInside(fs: Fs, root: string) {
    forall t | CanonicalDir(fs, t) && NotAbove(root, t) :: Inside(root, t)
  }

  /** Every directory the byte test accepts is inside the root, if and only if the root stands alone. */
  lemma AdmittedAreInside(fs: Fs, root: string)
    requires CanonicalDir(fs, root)
    ensures AdmitsOnlyInside(fs, root) <==> Alone(fs, root)
  {
    var r := Components(fs, root);
    if Alone(fs, root) {
      forall t | CanonicalDir(fs, t) && NotAbove(root, t) ensures Inside(root, t) {
        AdmittedInside(fs, root, t);
      }
    } else {
      var n: Name :| Sibling(fs, r, n);
      SiblingOutside(fs, root, n);
    }
  }

  lemma AdmittedInside(fs: Fs, root: string, t: string)
    requires CanonicalDir(fs, root) && CanonicalDir(fs, t) && NotAbove(root, t)
    requires Alone(fs, root)
    ensures Inside(root, t)
  {
    var r, p := Components(fs, root), Components(fs, t);
    RootCheckMeaning(r, p);
    InsideIsDescendant(r, p);
    if !(r <= p) {
      var n := |r| - 1;
      SplitAtLast(r, p);
      assert p == (r[..n] + [p[n]]) + p[n + 1..];
      UpperDir(fs, Parent(r) + [p[n]], p[n + 1..]);
      assert Sibling(fs, r, p[n]);
    }
  }

  /** What lies on the way to a directory is a directory with a shorter path. */
  lemma {:induction false} UpperDir(fs: Fs, p: seq<Name>, q: seq<Name>)
    requires IsDirAt(fs, p + q) && p != []
    ensures IsDirAt(fs, p) && |Render(p)| <= |Render(p + q)|
  {
    if q == [] {
      assert p + q == p;
    } else {
      var f := q[..|q| - 1];
      assert Parent(p + q) == p + f;
      UpperDir(fs, p, f);
      ParentShorter(p + q);
    }
  }

  lemma SiblingOutside(fs: Fs, root: string, n: Name)
    requires CanonicalDir(fs, root) && Sibling(fs, Components(fs, root), n)
    ensures var t := Render(Parent(Components(fs, root)) + [n]);
            CanonicalDir(fs, t) && NotAbove(root, t) && !Inside(root, t)
  {
    var r := Components(fs, root);
    var p := Parent(r) + [n];
    CanonicalResolves(fs, p);
    RootCheckMeaning(r, p);
    InsideIsDescendant(r, p);
  }

  /** The path "../n" leads from a directory to what stands beside it. */
  lemma UpAndDown(fs: Fs, r: seq<Name>, n: Name)
    requires IsDirAt(fs, r) && Parent(r) + [n] in fs.nodes
    ensures Walk(fs, r, Split("../" + n)) == Some(Parent(r) + [n])
  {
    var path := "../" + n;
    assert path == ".." + "/" + n;
    SplitJoin('/', "..", n);
    SplitWhole('/', "..");
    SplitWhole('/', n);
    assert Split(path) == ["..", n];
    assert ["..", n][1..] == [n] && [n][1..] == [];
    assert Enter(fs, r, "..") == Some(Parent(r));
    assert Parent(Parent(r) + [n]) == Parent(r);
    assert Enter(fs, Parent(r), n) == Some(Parent(r) + [n]);
    assert Walk(fs, Parent(r), [n]) == Some(Parent(r) + [n]);
  }

  lemma UpAndDownText(n: Name)
    ensures CStr("../" + n) == "../" + n && !IsAbsolute("../" + n)
  {
    var path := "../" + n;
    assert NulFree(path);
    CStrUnique(path, path);
    assert path[0] == '.';
  }

  /** As an argument of CWD it leads from the root to a directory beside it that the byte test admits. */
  lemma StepAside(fs: Fs, root: string, n: Name)
    requires CanonicalDir(fs, root) && Sibling(fs, Components(fs, root), n)
    requires |root| + 4 + |n| < PATH_MAX
    ensures var r, path := Components(fs, root), CStr("../" + n);
            && path == "../" + n && !Unterminated(root, path)
            && CwdNode(fs, r, r, path, |path|) == Some(Parent(r) + [n])
  {
    var r := Components(fs, root);
    UpAndDownText(n);
    UpAndDown(fs, r, n);
    hide Walk, Split, CStr;
    assert |"../" + n| == 3 + |n|;
  }

  // ---------- detours ----------

  function Dots(k: nat): seq<string> {
    if k == 0 then [] else [".."] + Dots(k - 1)
  }

  /** The path "/.." as often as the root has components, and then down to p. */
  function Detour(r: seq<Name>, p: seq<Name>): string {
    Slashed(Dots(|r|)) + Slashed(p)
  }

  lemma {:induction false} WalkUp(fs: Fs, r: seq<Name>, rest: seq<string>)
    requires IsDirAt(fs, r)
    ensures Walk(fs, r, Dots(|r|) + rest) == Walk(fs, [], rest)
    decreases |r|
  {
    if r == [] {
      assert Dots(0) + rest == rest;
    } else {
      assert Dots(|r|) + rest == [".."] + (Dots(|r| - 1) + rest);
      assert ([".."] + (Dots(|r| - 1) + rest))[1..] == Dots(|r| - 1) + rest;
      assert Enter(fs, r, "..") == Some(Parent(r));
      WalkUp(fs, Parent(r), rest);
    }
  }

  lemma {:induction false} DotsPlain(k: nat)
    ensures forall c | c in Dots(k) :: c == ".."
    ensures |Slashed(Dots(k))| == 3 * k
  {
    if k > 0 {
      DotsPlain(k - 1);
      assert Dots(k)[1..] == Dots(k - 1);
    }
  }

  /** From the root the detour leads to any node of the tree. */
  lemma DetourLeads(fs: Fs, r: seq<Name>, p: seq<Name>)
    requires IsDirAt(fs, r) && p in fs.nodes && p != []
    ensures Walk(fs, r, Split(Detour(r, p))) == Some(p)
    ensures NulFree(Detour(r, p)) && IsAbsolute(Detour(r, p)) && |Detour(r, p)| == 3 * |r| + |Slashed(p)|
  {
    DotsPlain(|r|);
    var pieces := Dots(|r|) + p;
    SlashedAppend(Dots(|r|), p);
    SplitSlashed(pieces);
    SlashedNulFree(pieces);
    assert Detour(r, p) == Slashed(pieces);
    hide Slashed, Split, NulFree;
    WalkNode(fs, p);
    WalkUp(fs, r, p);
    assert ([""] + pieces)[1..] == pieces;
    assert Enter(fs, r, "") == Some(r);
  }

  /** RETR and SIZE call no root check: a detour that fits the buffer finds any regular file of the tree, from anywhere. */
  lemma DetourFinds(fs: Fs, root: string, cwd: seq<Name>, p: seq<Name>)
    requires CanonicalDir(fs, root) && cwd in fs.nodes && p in fs.nodes && fs.nodes[p].File?
    requires |root| + |Detour(Components(fs, root), p)| < PATH_MAX
    ensures var r := Components(fs, root);
            var path := CStr(Detour(r, p));
            path == Detour(r, p) && !Unterminated(root, path) && FileNode(fs, r, cwd, path, |path|) == Some(p)
  {
    var r := Components(fs, root);
    var path := Detour(r, p);
    DetourLeads(fs, r, p);
    CStrUnique(path, path);
    hide Detour, Walk, Split, CStr;
    assert |Render(p)| <= |path|;
  }

  // ---------- paths that leave their buffer unterminated ----------

  function Slashes(k: nat): (s: string)
    ensures |s| == k && NulFree(s)
  {
    if k == 0 then "" else "/" + Slashes(k - 1)
  }

  /** As many as fill the path buffer behind the root. */
  function Fill(root: string): (s: string)
    ensures NulFree(s) && (|root| < PATH_MAX ==> |root| + |s| == PATH_MAX)
  {
    Slashes(if |root| < PATH_MAX then PATH_MAX - |root| else 0)
  }

  lemma {:induction false} SlashesLead(fs: Fs, at: seq<Name>, k: nat, rest: string)
    requires IsDirAt(fs, at)
    ensures Walk(fs, at, Split(Slashes(k) + rest)) == Walk(fs, at, Split(rest))
  {
    if k == 0 {
      assert Slashes(0) + rest == rest;
    } else {
      var more := Slashes(k - 1) + rest;
      assert Slashes(k) + rest == "" + "/" + more;
      SplitJoin('/', "", more);
      WalkAppend(fs, at, [""], Split(more));
      assert Walk(fs, at, [""]) == Some(at);
      SlashesLead(fs, at, k - 1, rest);
    }
  }

  /** Slashes that just fill the buffer behind the root: what is resolved is the memory behind it, from the root. */
  lemma SlashesResolve(fs: Fs, root: string, cwd: Option<string>, tail: string)
    requires CanonicalDir(fs, root)
    ensures var path := Fill(root);
            var q := Walk(fs, Components(fs, root), Split(tail));
            && CStr(path) == path && path != "" && path[0] == '/'
            && ServerToReal(fs, root, cwd, path, |path|, tail)
               == if q.Some? && |Render(q.value)| < PATH_MAX then Some(Render(q.value)) else None
  {
    var path := Fill(root);
    CStrUnique(path, path);
    CanonicalStarts(fs, root);
    assert (root + path)[..PATH_MAX] + tail == root + (path + tail);
    AbsoluteResolves(fs, Components(fs, root), path + tail);
    SlashesLead(fs, Components(fs, root), |path|, tail);
    hide Walk, Split, CStr, Slashes;
    assert Clip(root, path, tail) == root + (path + tail);
    assert IsAbsolute(root + (path + tail));
  }

  /** CWD by such slashes enters any directory beside the root that the byte test admits, from anywhere. */
  lemma SlashesEnter(fs: Fs, root: string, cwd: Option<string>, n: Name)
    requires CanonicalDir(fs, root) && Sibling(fs, Components(fs, root), n)
    ensures var path := Fill(root);
            var to := Render(Parent(Components(fs, root)) + [n]);
            CStr(path) == path && CwdTarget(fs, root, cwd, path, |path|, "../" + n) == Some(to) && !Inside(root, to)
  {
    var r := Components(fs, root);
    var to := Render(Parent(r) + [n]);
    SlashesResolve(fs, root, cwd, "../" + n);
    UpAndDown(fs, r, n);
    SiblingOutside(fs, root, n);
    hide Walk, Split, CStr, Fill, ServerToReal;
    SetCanonical(fs, root, cwd, to);
  }

  // ---------- when the root bounds the files that can be fetched ----------

  /** Every regular file whose path fits the buffers is below the root. */
  ghost predicate FilesInside(fs: Fs, root: string)
    requires CanonicalText(fs, root)
  {
    forall p | IsFileAt(fs, p) && |Render(p)| < PATH_MAX :: Components(fs, root) <= p
  }

  predicate IsFileAt(fs: Fs, p: seq<Name>) {
    p in fs.nodes && fs.nodes[p].File?
  }

  lemma FileInside(fs: Fs, root: string, t: string)
    requires CanonicalDir(fs, root) && FilesInside(fs, root)
    requires CanonicalText(fs, t) && IsFileText(fs, t) && |t| < PATH_MAX
    ensures Inside(root, t)
  {
    var p := Components(fs, t);
    assert IsFileAt(fs, p);
    InsideIsDescendant(Components(fs, root), p);
  }
}
