/**
 * The two path vocabularies: real paths on the machine and server paths shown to the client.
 * Text functions here are what the buffer-level methods of Filesystem and Server compute.
 */
module Translation {
  import opened Text
  import opened Paths

  const PATH_MAX := 256

  predicate IsAbsolute(path: string) {
    path != "" && path[0] == '/'
  }

  /** cwd + "/" + path, when both lengths the code checks fit the buffer. */
  function Concat(cwd: string, path: string, pathLen: nat): Option<string> {
    if |cwd| + pathLen < PATH_MAX && |cwd| + 1 + |path| < PATH_MAX then Some(cwd + "/" + path) else None
  }

  /** GetRealPath as text; an empty cwd stands for the NULL the callers pass. */
  function RealPathText(fs: Fs, cwd: string, path: string, pathLen: nat): (r: Option<string>)
    ensures r.Some? ==> |r.value| < PATH_MAX && CanonicalText(fs, r.value)
  {
    var full := if IsAbsolute(path) then Some(path)
                else if cwd != "" then Concat(cwd, path, pathLen)
                else None;
    if pathLen == 0 || full.None? then None
    else
      var p := RealPath(fs, full.value);
      if p.None? || |Render(p.value)| >= PATH_MAX then None
      else
        CanonicalResolves(fs, p.value);
        Some(Render(p.value))
  }

  /** Text that names an existing node and is spelled canonically. */
  predicate CanonicalText(fs: Fs, t: string) {
    var p := RealPath(fs, t);
    p.Some? && Render(p.value) == t
  }

  predicate IsDirText(fs: Fs, t: string) {
    var p := RealPath(fs, t);
    p.Some? && IsDirAt(fs, p.value)
  }

  predicate IsFileText(fs: Fs, t: string) {
    var p := RealPath(fs, t);
    p.Some? && fs.nodes[p.value].File?
  }

  predicate CanonicalDir(fs: Fs, t: string) {
    CanonicalText(fs, t) && IsDirText(fs, t) && |t| < PATH_MAX
  }

  function Components(fs: Fs, t: string): seq<Name>
    requires CanonicalText(fs, t)
  {
    RealPath(fs, t).value
  }

  /** The byte test of AbsPathIsNotAboveRootPath. */
  predicate NotAbove(root: string, t: string) {
    t != "" && root <= t
  }

  // ---------- what the root check means ----------

  /** The last root component only has to be a string prefix of the component it meets. */
  predicate RootAdmits(r: seq<Name>, p: seq<Name>) {
    r == [] || (|r| <= |p| && r[..|r| - 1] == p[..|r| - 1] && r[|r| - 1] <= p[|r| - 1])
  }

  lemma RootCheckMeaning(r: seq<Name>, p: seq<Name>)
    ensures NotAbove(Render(r), Render(p)) <==> RootAdmits(r, p)
  {
    if r == [] {
      assert Render(p)[0] == '/';
    } else {
      SlashedPrefix(r, p);
      AdmitsComponents(r, p);
      if p == [] {
        SlashedLonger(r);
      }
    }
  }

  lemma SlashedLonger(r: seq<Name>)
    requires r != []
    ensures |Slashed(r)| > 1
  {
    assert |"/" + r[0]| > 1;
  }

  /** Every proper ancestor of the root is rejected and every descendant is accepted. */
  lemma AncestorsAndDescendants(r: seq<Name>, p: seq<Name>)
    ensures p < r ==> !NotAbove(Render(r), Render(p))
    ensures r <= p ==> NotAbove(Render(r), Render(p))
  {
    RootCheckMeaning(r, p);
  }

  /** Being inside the root is the byte test plus one more look at the next character. */
  predicate Inside(root: string, t: string) {
    root <= t && (t == root || root == "/" || t[|root|] == '/')
  }

  lemma InsideIsDescendant(r: seq<Name>, p: seq<Name>)
    ensures Inside(Render(r), Render(p)) <==> r <= p
  {
    RootCheckMeaning(r, p);
    if r == [] {
      assert Render(p)[0] == '/';
    } else if RootAdmits(r, p) {
      SlashedLonger(r);
      if r <= p {
        assert p == r + p[|r|..];
        SlashedAppend(r, p[|r|..]);
      } else {
        var n := |r| - 1;
        SplitAtLast(r, p);
        LastDiffers(r[..n], r[n], p[n], p[n + 1..]);
      }
    }
  }

  lemma SplitAtLast(r: seq<Name>, p: seq<Name>)
    requires r != [] && RootAdmits(r, p) && !(r <= p)
    ensures var n := |r| - 1;
            r == r[..n] + [r[n]] && p == r[..n] + [p[n]] + p[n + 1..] && r[n] != p[n]
  {
    var n := |r| - 1;
    assert p[..n + 1] == p[..n] + [p[n]];
  }

  lemma SlashedLast(front: seq<Name>, c: Name)
    ensures Slashed(front + [c]) == Slashed(front) + "/" + c
  {
    SlashedAppend(front, [c]);
    assert Slashed([c]) == "/" + c + Slashed([c][1..]) == "/" + c;
  }

  lemma LastDiffers(front: seq<Name>, a: Name, b: Name, rest: seq<Name>)
    requires a <= b && a != b
    ensures var s, t := Slashed(front + [a]), Slashed(front + [b] + rest);
            s <= t && |s| < |t| && t[|s|] != '/'
  {
    SlashedLast(front, a);
    SlashedLast(front, b);
    SlashedAppend(front + [b], rest);
    hide Slashed;
    assert '/' !in b;
    InsideText(Slashed(front) + "/", a, b, Slashed(rest));
  }

  lemma InsideText(t: string, a: string, b: string, u: string)
    requires a <= b && a != b && '/' !in b
    ensures t + a <= t + b + u && |t + a| < |t + b + u| && (t + b + u)[|t + a|] != '/'
  {
    assert |a| < |b| && (t + b + u)[|t + a|] == b[|a|];
    assert (t + b + u)[..|t + a|] == t + b[..|a|];
  }

  // ---------- real path to server path ----------

  function CommonLength(a: string, b: string): (n: nat)
    ensures n <= |a| && n <= |b| && a[..n] == b[..n]
    ensures n < |a| && n < |b| ==> a[n] != b[n]
  {
    if a == "" || b == "" || a[0] != b[0] then 0 else 1 + CommonLength(a[1..], b[1..])
  }

  /** Everything from the first character that differs from the root; "/" when nothing does. */
  function ServerPath(path: string, root: string): string {
    if path <= root then "/" else path[CommonLength(path, root)..]
  }

  lemma ServerPathBelow(path: string, root: string)
    requires root <= path && path != root
    ensures ServerPath(path, root) == path[|root|..]
  {
    var n := CommonLength(path, root);
    assert forall i | 0 <= i < |root| :: path[i] == root[i];
    assert n == |root|;
  }

  // ---------- server path to real path ----------

  /** Root and path copied into one buffer; without room for the NUL the reader runs on into `tail`. */
  function Clip(root: string, path: string, tail: string): string {
    var s := root + path;
    if |s| < PATH_MAX then s else s[..PATH_MAX] + tail
  }

  function ServerToReal(fs: Fs, root: string, cwd: Option<string>, path: string, pathLen: nat, tail: string)
    : (r: Option<string>)
    ensures r.Some? ==> |r.value| < PATH_MAX && CanonicalText(fs, r.value)
  {
    if pathLen == 0 then None
    else if IsAbsolute(path) then RealPathText(fs, "", Clip(root, path, tail), PATH_MAX)
    else if cwd.None? then None
    else RealPathText(fs, cwd.value, path, pathLen)
  }

  /** The directory SetCwd switches to. */
  function SetTarget(fs: Fs, root: string, cwd: Option<string>, dir: string, len: nat): (r: Option<string>)
    ensures r.Some? ==> CanonicalDir(fs, r.value) && NotAbove(root, r.value)
  {
    var t := RealPathText(fs, cwd.GetOr(""), dir, len);
    if t.Some? && IsDirText(fs, t.value) && NotAbove(root, t.value) then t else None
  }

  /** CWD's new directory, through both nested resolutions. */
  function CwdTarget(fs: Fs, root: string, cwd: Option<string>, path: string, pathLen: nat, tail: string)
    : (r: Option<string>)
    ensures r.Some? ==> CanonicalDir(fs, r.value) && NotAbove(root, r.value)
  {
    var t := ServerToReal(fs, root, cwd, path, pathLen, tail);
    if t.None? then None else SetTarget(fs, root, cwd, t.value, |t.value|)
  }

  lemma CanonicalStarts(fs: Fs, t: string)
    requires CanonicalText(fs, t)
    ensures IsAbsolute(t)
  {
  }

  /** Setting a canonical path again gives the same path. */
  lemma SetCanonical(fs: Fs, root: string, cwd: Option<string>, t: string)
    requires CanonicalText(fs, t) && |t| < PATH_MAX
    ensures SetTarget(fs, root, cwd, t, |t|)
         == if IsDirText(fs, t) && NotAbove(root, t) then Some(t) else None
  {
    CanonicalStarts(fs, t);
  }

  /**
   * The two length checks on a relative path, of which n bytes were received and `path` is what stands before
   * the first NUL among them.
   */
  predicate TooLong(cwd: string, path: string, n: nat) {
    !IsAbsolute(path) && (|cwd| + n >= PATH_MAX || |cwd| + 1 + |path| >= PATH_MAX)
  }

  /** An absolute path without room behind the root: what is resolved then depends on memory behind a buffer. */
  predicate Unterminated(root: string, path: string) {
    IsAbsolute(path) && |root| + |path| >= PATH_MAX
  }

  /** Where the walk of a path leads, absolute ones from the root and others from cwd. */
  function WalkFrom(fs: Fs, root: seq<Name>, cwd: seq<Name>, path: string): (r: Option<seq<Name>>)
    requires root in fs.nodes && cwd in fs.nodes
    ensures r.Some? ==> r.value in fs.nodes
  {
    Walk(fs, if IsAbsolute(path) then root else cwd, Split(path))
  }

  /** CWD on components: where the walk leads, provided it is a directory the root admits. */
  function CwdComponents(fs: Fs, root: seq<Name>, cwd: seq<Name>, path: string): (r: Option<seq<Name>>)
    requires root in fs.nodes && cwd in fs.nodes
    ensures r.Some? ==> IsDirAt(fs, r.value) && RootAdmits(root, r.value) && |Render(r.value)| < PATH_MAX
  {
    var q := WalkFrom(fs, root, cwd, path);
    if q.Some? && IsDirAt(fs, q.value) && RootAdmits(root, q.value) && |Render(q.value)| < PATH_MAX then q
    else None
  }

  /** CWD with an argument of n bytes, on components. */
  function CwdNode(fs: Fs, root: seq<Name>, cwd: seq<Name>, path: string, n: nat): (r: Option<seq<Name>>)
    requires root in fs.nodes && cwd in fs.nodes
    ensures r.Some? ==> IsDirAt(fs, r.value) && RootAdmits(root, r.value) && |Render(r.value)| < PATH_MAX
  {
    if n == 0 || TooLong(Render(cwd), path, n) then None else CwdComponents(fs, root, cwd, path)
  }

  /** Through all buffers a path of the client is resolved as its walk says, unless a length check refuses it. */
  lemma ServerMeaning(fs: Fs, root: string, cwd: string, path: string, n: nat, tail: string)
    requires CanonicalDir(fs, root) && CanonicalDir(fs, cwd) && !Unterminated(root, path)
    ensures var q := WalkFrom(fs, Components(fs, root), Components(fs, cwd), path);
            ServerToReal(fs, root, Some(cwd), path, n, tail)
            == if n > 0 && !TooLong(cwd, path, n) && q.Some? && |Render(q.value)| < PATH_MAX then Some(Render(q.value)) else None
  {
    if n > 0 && !TooLong(cwd, path, n) {
      if IsAbsolute(path) {
        AbsoluteResolves(fs, Components(fs, root), path);
        CanonicalStarts(fs, root);
        assert IsAbsolute(root + path);
      } else {
        JoinResolves(fs, Components(fs, cwd), path);
        assert Concat(cwd, path, n) == Some(cwd + "/" + path);
      }
    }
  }

  /** Through all buffers CWD computes CwdNode, for every path and length but an unterminated one. */
  lemma CwdMeaning(fs: Fs, root: string, cwd: string, path: string, n: nat, tail: string)
    requires CanonicalDir(fs, root) && CanonicalDir(fs, cwd) && !Unterminated(root, path)
    ensures var q := CwdNode(fs, Components(fs, root), Components(fs, cwd), path, n);
            CwdTarget(fs, root, Some(cwd), path, n, tail) == (if q.Some? then Some(Render(q.value)) else None)
  {
    var rc, cc := Components(fs, root), Components(fs, cwd);
    ServerMeaning(fs, root, cwd, path, n, tail);
    var t := ServerToReal(fs, root, Some(cwd), path, n, tail);
    var w := WalkFrom(fs, rc, cc, path);
    if t.Some? {
      CanonicalResolves(fs, w.value);
      SetCanonical(fs, root, Some(cwd), t.value);
      RootCheckMeaning(rc, w.value);
    }
  }

  /** The regular file a path of the client leads to. The root is where absolute paths start, and nothing else. */
  function FileNode(fs: Fs, root: seq<Name>, cwd: seq<Name>, path: string, n: nat): (r: Option<seq<Name>>)
    requires root in fs.nodes && cwd in fs.nodes
    ensures r.Some? ==> r.value in fs.nodes && fs.nodes[r.value].File?
  {
    var q := WalkFrom(fs, root, cwd, path);
    if n > 0 && !TooLong(Render(cwd), path, n) && q.Some? && fs.nodes[q.value].File? && |Render(q.value)| < PATH_MAX then q
    else None
  }

  /** Through all buffers the directory an argument of NLST names is the one CWD would enter with it. */
  lemma DirMeaning(fs: Fs, root: string, cwd: string, path: string, n: nat, tail: string)
    requires CanonicalDir(fs, root) && CanonicalDir(fs, cwd) && !Unterminated(root, path)
    ensures var t := ServerToReal(fs, root, Some(cwd), path, n, tail);
            var q := CwdNode(fs, Components(fs, root), Components(fs, cwd), path, n);
            (if t.Some? && IsDirText(fs, t.value) && NotAbove(root, t.value) then t else None)
            == (if q.Some? then Some(Render(q.value)) else None)
  {
    ServerMeaning(fs, root, cwd, path, n, tail);
    var q := WalkFrom(fs, Components(fs, root), Components(fs, cwd), path);
    if q.Some? {
      CanonicalResolves(fs, q.value);
      RootCheckMeaning(Components(fs, root), q.value);
    }
  }

  /** Through all buffers RETR and SIZE find FileNode. */
  lemma TargetMeaning(fs: Fs, root: string, cwd: string, path: string, n: nat, tail: string)
    requires CanonicalDir(fs, root) && CanonicalDir(fs, cwd) && !Unterminated(root, path)
    ensures var t := ServerToReal(fs, root, Some(cwd), path, n, tail);
            var q := FileNode(fs, Components(fs, root), Components(fs, cwd), path, n);
            (if t.Some? && IsFileText(fs, t.value) then t else None) == (if q.Some? then Some(Render(q.value)) else None)
  {
    ServerMeaning(fs, root, cwd, path, n, tail);
    var q := WalkFrom(fs, Components(fs, root), Components(fs, cwd), path);
    if q.Some? {
      CanonicalResolves(fs, q.value);
    }
  }

  // ---------- round trips ----------

  /** Real to server and back, for every canonical path inside a root other than "/". */
  lemma PathRoundTrip(fs: Fs, root: string, t: string, cwd: Option<string>, tail: string)
    requires CanonicalDir(fs, root) && CanonicalText(fs, t) && |t| < PATH_MAX
    requires root != "/" && Inside(root, t)
    requires t == root ==> |root| + 1 < PATH_MAX
    ensures var s := ServerPath(t, root);
            IsAbsolute(s) && ServerToReal(fs, root, cwd, s, |s|, tail) == Some(t)
  {
    var s := ServerPath(t, root);
    CanonicalStarts(fs, t);
    if t == root {
      AbsoluteResolves(fs, Components(fs, root), "/");
      assert Split("/") == ["", ""];
      assert Enter(fs, Components(fs, root), "") == Some(Components(fs, root));
      assert Walk(fs, Components(fs, root), ["", ""][1..]) == Some(Components(fs, root));
    } else {
      ServerPathBelow(t, root);
      assert root + s == t;
    }
  }

  lemma RootRoundTrip(fs: Fs, root: string, cwd: Option<string>, tail: string)
    requires CanonicalDir(fs, root) && |root| + 1 < PATH_MAX
    ensures ServerPath(root, root) == "/" && ServerToReal(fs, root, cwd, "/", 1, tail) == Some(root)
  {
    CanonicalStarts(fs, root);
    AbsoluteResolves(fs, Components(fs, root), "/");
    assert Split("/") == ["", ""];
    assert Enter(fs, Components(fs, root), "") == Some(Components(fs, root));
    assert Walk(fs, Components(fs, root), ["", ""][1..]) == Some(Components(fs, root));
  }

  /**
   * When sending CWD with the path PWD reported leaves the directory as it was. Inside a root
   * other than "/" it always does; a sibling directory the byte test lets in is reported
   * without its leading "/", and then only two spellings lead back.
   */
  predicate PwdReturns(root: string, cwd: string)
    requires root <= cwd
  {
    var rest := cwd[|root|..];
    rest == ""
    || (root != "/" && rest[0] == '/')
    || (rest[0] != '/' && |cwd| + 1 + |rest| < PATH_MAX
        && (rest == "." || ("../" <= rest && '/' !in rest[3..])))
  }

  /** PWD then CWD is the identity exactly when PwdReturns. */
  lemma PwdThenCwd(fs: Fs, root: string, cwd: string, tail: string)
    requires CanonicalDir(fs, root) && CanonicalDir(fs, cwd) && root <= cwd
    requires |root| + 1 < PATH_MAX
    ensures var s := ServerPath(cwd, root);
            CwdTarget(fs, root, Some(cwd), s, |s|, tail) == Some(cwd) <==> PwdReturns(root, cwd)
  {
    var rest := cwd[|root|..];
    var s := ServerPath(cwd, root);
    if rest == "" {
      assert cwd == root;
      RootRoundTrip(fs, root, Some(cwd), tail);
      SetCanonical(fs, root, Some(cwd), cwd);
    } else {
      ServerPathBelow(cwd, root);
      assert s == rest;
      FirstAfterRoot(fs, root, cwd);
      if rest[0] == '/' {
        PathRoundTrip(fs, root, cwd, Some(cwd), tail);
        SetCanonical(fs, root, Some(cwd), cwd);
      } else {
        PwdRelative(fs, root, cwd, tail);
      }
    }
  }

  lemma FirstAfterRoot(fs: Fs, root: string, cwd: string)
    requires CanonicalText(fs, cwd) && root <= cwd && |root| < |cwd|
    ensures root == "/" ==> cwd[|root|] != '/'
  {
    var c := Components(fs, cwd);
    if root == "/" {
      assert c != [];
      assert cwd[1] == c[0][0];
      assert '/' !in c[0];
    }
  }

  /** The reported path is relative: it is resolved from cwd itself. */
  lemma PwdRelative(fs: Fs, root: string, cwd: string, tail: string)
    requires CanonicalDir(fs, root) && CanonicalDir(fs, cwd) && root <= cwd
    requires |root| < |cwd| && cwd[|root|] != '/'
    ensures var s := cwd[|root|..];
            CwdTarget(fs, root, Some(cwd), s, |s|, tail) == Some(cwd)
            <==> |cwd| + 1 + |s| < PATH_MAX && (s == "." || ("../" <= s && '/' !in s[3..]))
  {
    var s := cwd[|root|..];
    var c := Components(fs, cwd);
    if |cwd| + 1 + |s| < PATH_MAX {
      CwdMeaning(fs, root, cwd, s, |s|, tail);
      RootCheckMeaning(Components(fs, root), c);
      WalkRest(fs, root, cwd);
      var q := Walk(fs, c, Split(s));
      if q.Some? {
        CanonicalResolves(fs, q.value);
        assert Render(q.value) == cwd <==> q.value == c;
      }
    } else {
      assert Concat(cwd, s, |s|) == None;
    }
  }

  lemma WalkRest(fs: Fs, root: string, cwd: string)
    requires CanonicalDir(fs, root) && CanonicalDir(fs, cwd) && root <= cwd
    requires |root| < |cwd| && cwd[|root|] != '/'
    ensures var s := cwd[|root|..];
            Walk(fs, Components(fs, cwd), Split(s)) == Some(Components(fs, cwd))
            <==> s == "." || ("../" <= s && '/' !in s[3..])
  {
    var s := cwd[|root|..];
    var c := Components(fs, cwd);
    assert c != [];
    if '/' !in s {
      SplitWhole('/', s);
      WalkPiece(fs, c, s, []);
      assert Split(s) == [s] + [];
      assert |s| > 2 ==> s[2] in s;
    } else {
      var y, tl := CutAtSlash(s);
      RestNames(fs, root, cwd, y, tl);
      var names := c[|c| - |Split(tl)|..];
      WalkPiece(fs, c, y, names);
      SplitJoin('/', y, tl);
      SplitWhole('/', y);
      SingleName(tl);
      DotsOnly(y, tl);
      assert y == ".." ==> "../" <= s && s[3..] == tl;
      assert s[|y|] == '/';
    }
  }

  /** One piece and then the tail of c's own names, walked from c, lead back to c only in two ways. */
  lemma WalkPiece(fs: Fs, c: seq<Name>, y: string, names: seq<Name>)
    requires IsDirAt(fs, c) && c != [] && y != ""
    requires |names| <= |c| && names == c[|c| - |names|..]
    ensures Walk(fs, c, [y] + names) == Some(c) <==> (y == "." && names == []) || (y == ".." && |names| == 1)
  {
    var next := Enter(fs, c, y);
    assert ([y] + names)[1..] == names;
    assert Walk(fs, c, [y] + names) == if next.None? then None else Walk(fs, next.value, names);
    hide Walk, WellFormed;
    if next.Some? {
      WalkNames(fs, next.value, names);
      if y == ".." {
        assert |Parent(c) + names| == |c| - 1 + |names|;
        assert |names| == 1 ==> Parent(c) + names == c;
      } else {
        assert |next.value + names| == |c| + |names| + (if y == "." then 0 else 1);
      }
    }
  }

  lemma RestNames(fs: Fs, root: string, cwd: string, y: string, tl: string)
    requires CanonicalDir(fs, root) && CanonicalText(fs, cwd) && root <= cwd
    requires cwd[|root|..] == y + "/" + tl
    ensures var c := Components(fs, cwd);
            |Split(tl)| <= |c| && Split(tl) == c[|c| - |Split(tl)|..]
  {
    var c := Components(fs, cwd);
    var head := root + y;
    assert cwd == head + "/" + tl;
    SplitJoin('/', head, tl);
    assert |cwd| >= 2;
    SplitSlashed(c);
    AbsoluteSplit(head);
    hide Split, RealPath, Slashed, SplitOn;
    TailOf([""] + c, Split(head), Split(tl));
    TailOfCons("", c, |Split(tl)|);
  }

  lemma AbsoluteSplit(s: string)
    requires IsAbsolute(s)
    ensures |Split(s)| >= 2
  {
    assert s == "" + "/" + s[1..];
    SplitJoin('/', "", s[1..]);
  }

  lemma TailOfCons<T>(x: T, c: seq<T>, n: nat)
    requires n <= |c|
    ensures ([x] + c)[|c| + 1 - n..] == c[|c| - n..]
  {
  }

  lemma TailOf<T>(w: seq<T>, u: seq<T>, v: seq<T>)
    requires w == u + v
    ensures w[|w| - |v|..] == v
  {
  }

  lemma {:induction false} CutAtSlash(s: string) returns (y: string, tl: string)
    requires '/' in s
    ensures s == y + "/" + tl && '/' !in y
  {
    if s[0] == '/' {
      y, tl := "", s[1..];
      assert s == y + "/" + tl;
    } else {
      var z;
      z, tl := CutAtSlash(s[1..]);
      y := [s[0]] + z;
      assert s == [s[0]] + (z + "/" + tl) == y + "/" + tl;
    }
  }

  lemma DotsOnly(y: string, tl: string)
    requires '/' !in y
    ensures "../" <= y + "/" + tl ==> y == ".."
  {
    var s := y + "/" + tl;
    if "../" <= s {
      assert s[0] == '.' && s[1] == '.' && s[2] == '/';
      assert s[|y|] == '/';
      assert forall i | 0 <= i < |y| :: y[i] == s[i] != '/';
      assert |y| == 2;
    }
  }

  lemma SingleName(s: string)
    ensures '/' !in s <==> |Split(s)| == 1
  {
    if '/' in s {
      var y, tl := CutAtSlash(s);
      SplitJoin('/', y, tl);
    } else {
      SplitWhole('/', s);
    }
  }

  /**
   * A line that NLST with an argument sends is an absolute server path exactly when the listed directory
   * is the root, or the root is not "/" and the directory is inside it. It then reads back as what the entry
   * names, seen from the directory: for a name the entry itself, for "." the directory, for ".." its parent.
   */
  lemma ListedResolvesBack(fs: Fs, root: string, dir: string, entry: string, cwd: Option<string>, tail: string)
    requires CanonicalDir(fs, root) && CanonicalDir(fs, dir) && root <= dir
    requires |dir| + 1 + |entry| < PATH_MAX
    ensures var s := ServerPath(dir + "/" + entry, root);
            && (IsAbsolute(s) <==> dir == root || (root != "/" && Inside(root, dir)))
            && (IsAbsolute(s) ==> ServerToReal(fs, root, cwd, s, |s|, tail) == Resolved(fs, dir, entry))
  {
    var line := dir + "/" + entry;
    ListedAbsolute(fs, root, dir, entry);
    var s := ServerPath(line, root);
    if IsAbsolute(s) {
      ServerPathBelow(line, root);
      assert root + s == line;
      assert Clip(root, s, tail) == line;
      JoinResolves(fs, Components(fs, dir), entry);
      CanonicalStarts(fs, dir);
    }
  }

  /** The text of what a path leads to from a directory, if it exists and fits the buffer. */
  function Resolved(fs: Fs, dir: string, path: string): Option<string>
    requires CanonicalText(fs, dir)
  {
    var p := Walk(fs, Components(fs, dir), Split(path));
    if p.Some? && |Render(p.value)| < PATH_MAX then Some(Render(p.value)) else None
  }

  lemma ListedAbsolute(fs: Fs, root: string, dir: string, entry: string)
    requires CanonicalDir(fs, root) && CanonicalText(fs, dir) && root <= dir
    ensures var s := ServerPath(dir + "/" + entry, root);
            IsAbsolute(s) <==> dir == root || (root != "/" && Inside(root, dir))
  {
    var line := dir + "/" + entry;
    hide RealPath, CommonLength, WellFormed;
    ServerPathBelow(line, root);
    CanonicalStarts(fs, dir);
    var s := ServerPath(line, root);
    if dir != root {
      FirstAfterRoot(fs, root, dir);
      assert s[0] == dir[|root|];
    } else {
      assert s[0] == '/';
    }
  }

  /** What the entries of a directory stream resolve to. */
  lemma EntryResolves(fs: Fs, dir: string, entry: string)
    requires CanonicalDir(fs, dir) && |dir| + 1 + |entry| < PATH_MAX
    ensures var c := Components(fs, dir);
            && Resolved(fs, dir, ".") == Some(dir)
            && Resolved(fs, dir, "..") == Some(Render(Parent(c)))
            && (IsName(entry) ==>
                  Resolved(fs, dir, entry) == if c + [entry] in fs.nodes then Some(Render(c + [entry])) else None)
  {
    var c := Components(fs, dir);
    SplitWhole('/', ".");
    SplitWhole('/', "..");
    assert Walk(fs, c, ["."]) == Some(c) by { assert ["."][1..] == []; }
    assert Walk(fs, c, [".."]) == Some(Parent(c)) by { assert [".."][1..] == []; }
    ParentShorter(c);
    if IsName(entry) {
      SplitWhole('/', entry);
      assert [entry][1..] == [];
      assert Enter(fs, c, entry) == if c + [entry] in fs.nodes then Some(c + [entry]) else None;
      assert Walk(fs, c, [entry]) == Enter(fs, c, entry);
      RenderEntry(c, entry);
    }
  }

  lemma ParentShorter(c: seq<Name>)
    ensures |Render(Parent(c))| <= |Render(c)|
  {
    if c != [] {
      assert c == Parent(c) + [c[|c| - 1]];
      SlashedLast(Parent(c), c[|c| - 1]);
    }
  }

  lemma RenderEntry(c: seq<Name>, n: Name)
    ensures |Render(c + [n])| <= |Render(c)| + 1 + |n|
  {
    SlashedLast(c, n);
  }
}
