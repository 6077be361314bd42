/** src/common/vsftp_server.c: the server's fields and what works on them. */
module Daemon {
  import opened Text
  import opened Paths
  import opened Translation
  import opened HostPort
  import opened Machine
  import opened Operating
  import opened Filesystem

  const IP_MAX := 16

  function CutTo(s: string, n: nat): string {
    if |s| < n then s else s[..n]
  }

  lemma CutInBuffer(m: seq<char>, s: string)
    requires NulFree(s) && m == Padded(s, |m|)
    ensures CStr(m) == CutTo(s, |m|)
  {
    CStrUnique(m, CutTo(s, |m|));
  }

  /** strncpy into a whole buffer: a text that is too long is cut off and not terminated. */
  method CopyText(dst: array<char>, text: string)
    requires NulFree(text)
    modifies dst
    ensures CStr(dst[..]) == CutTo(text, dst.Length)
  {
    CStrUnique(text, text);
    Strncpy(dst, 0, text, dst.Length);
    CutInBuffer(dst[..], text);
  }

  // ---------- what the path loops find in memory ----------

  /** Root and path copied behind each other into one buffer, as a C function reads it. */
  lemma ClipInBuffer(root: string, path: string, tail: CText)
    requires NulFree(root) && NulFree(path) && |root| < PATH_MAX
    ensures CStr(root + Padded(path, PATH_MAX - |root|) + tail + [NUL]) == Clip(root, path, tail)
  {
    CStrUnique(root + Padded(path, PATH_MAX - |root|) + tail + [NUL], Clip(root, path, tail));
  }

  lemma AbsoluteIgnoresLength(fs: Fs, path: string, m: nat, n: nat)
    requires m > 0 && n > 0
    ensures IsAbsolute(path) ==> RealPathText(fs, "", path, m) == RealPathText(fs, "", path, n)
    ensures !IsAbsolute(path) ==> RealPathText(fs, "", path, m) == RealPathText(fs, "", path, n) == None
  {
  }

  lemma CommonLengthIs(a: string, b: string, i: nat)
    requires i < |a| && i <= |b| && (i < |b| ==> a[i] != b[i])
    requires forall j | 0 <= j < i :: a[j] == b[j]
    ensures CommonLength(a, b) == i && !(a <= b)
  {
    var n := CommonLength(a, b);
    assert forall j | 0 <= j < n :: a[j] == a[..n][j] == b[..n][j] == b[j];
  }

  /** s is the text in memory m. */
  predicate TextIn(m: seq<char>, s: string) {
    |s| < |m| && m[|s|] == NUL && forall j | 0 <= j < |s| :: m[j] == s[j] != NUL
  }

  lemma AgreeingTexts(p: seq<char>, t: string, r: seq<char>, root: string, n: nat)
    requires TextIn(p, t) && TextIn(r, root)
    requires |t| <= n <= |p| && n <= |r| && forall j | 0 <= j < n :: p[j] == r[j]
    ensures t <= root
  {
    assert forall j | 0 <= j < |t| :: r[j] == t[j];
    assert !(|root| < |t|);
    assert forall j | 0 <= j < |t| :: root[j] == t[j];
  }

  lemma NoDifference(p: seq<char>, r: seq<char>, n: nat)
    requires |CStr(p)| <= n <= |p| && n <= |r| && forall j | 0 <= j < n :: p[j] == r[j]
    requires |CStr(r)| < |r| && |CStr(p)| < |p|
    ensures CStr(p) <= CStr(r)
  {
    CStrIn(p);
    CStrIn(r);
    hide TextIn, CStr, WellFormed;
    AgreeingTexts(p, CStr(p), r, CStr(r), n);
  }

  lemma CStrIn(m: seq<char>)
    requires |CStr(m)| < |m|
    ensures TextIn(m, CStr(m))
  {
    var s := CStr(m);
    hide CStr, WellFormed;
    assert forall j | 0 <= j < |s| :: m[j] == s[j];
  }

  /** The first byte in which text and root memory differ ends their common prefix. */
  lemma DifferenceIsCommonLength(p: seq<char>, r: seq<char>, i: nat)
    requires i < |p| && i < |r| && p[i] != r[i] && forall j | 0 <= j < i :: p[j] == r[j]
    requires |CStr(p)| < |p| && |CStr(r)| < |r|
    requires i < |CStr(p)| || !(CStr(p) <= CStr(r))
    ensures i < |CStr(p)| && CommonLength(CStr(p), CStr(r)) == i && !(CStr(p) <= CStr(r))
  {
    var t, root := CStr(p), CStr(r);
    CStrIn(p);
    CStrIn(r);
    hide CStr, CommonLength, WellFormed;
    if |t| <= i {
      NoDifference(p, r, i);
    }
    assert i <= |root|;
    CommonLengthIs(t, root, i);
  }

  lemma SuffixCStr(p: seq<char>, i: nat, tail: CText)
    requires i <= |CStr(p)| < |p|
    ensures CStr(p[i..] + tail + [NUL]) == CStr(p)[i..]
  {
    CStrUnique(p[i..] + tail + [NUL], CStr(p)[i..]);
  }

  /**
   * The text RealPathToServerPath finds in memory p: "/" if its first n bytes agree with the root's memory r, otherwise
   * what stands from the first byte that differs; `tail` is the memory behind p.
   */
  function FromDifference(p: seq<char>, r: seq<char>, n: nat, tail: CText): string
    requires n <= |p| && n <= |r|
  {
    var d := CommonLength(p[..n], r[..n]);
    if d == n then "/" else CStr(p[d..] + tail + [NUL])
  }

  lemma FirstDifferent(p: seq<char>, r: seq<char>, n: nat, i: nat, tail: CText)
    requires i <= n <= |p| && n <= |r| && forall j | 0 <= j < i :: p[j] == r[j]
    requires i < n ==> p[i] != r[i]
    ensures FromDifference(p, r, n, tail) == if i == n then "/" else CStr(p[i..] + tail + [NUL])
  {
    var d := CommonLength(p[..n], r[..n]);
    hide CommonLength, CStr;
    assert forall j | 0 <= j < d :: p[j] == p[..n][..d][j] == r[..n][..d][j] == r[j];
    assert d < n ==> p[..n][d] != r[..n][d];
    assert d == i;
  }

  /** On a text that ends inside the memory, and whose own bytes decide, that is the server path. */
  lemma DifferenceShown(p: seq<char>, r: seq<char>, n: nat, tail: CText)
    requires |CStr(p)| <= n <= |p| && n <= |r| && |CStr(p)| < |p| && |CStr(r)| < |r|
    requires n == |CStr(p)| || !(CStr(p) <= CStr(r))
    requires |p| > 1
    ensures CutTo(FromDifference(p, r, n, tail), |p|) == FromDifference(p, r, n, tail) == ServerPath(CStr(p), CStr(r))
  {
    var d := CommonLength(p[..n], r[..n]);
    hide CommonLength, CStr;
    assert forall j | 0 <= j < d :: p[j] == p[..n][..d][j] == r[..n][..d][j] == r[j];
    if d == n {
      NoDifference(p, r, n);
    } else {
      assert p[..n][d] != r[..n][d];
      DifferenceIsCommonLength(p, r, d);
      SuffixCStr(p, d, tail);
    }
  }

  /** One turn of the send loop. */
  lemma SendTurn(t: seq<Event>, sock: int, file: string, pos: nat, count: nat, k: nat, o: Oracle)
    requires pos <= |file|
    ensures SendLoop(t, sock, file, pos, 0, k, o) == Sent(t, 0, true)
    ensures var n := ReadResult(o.chunks(k), Asked(count), |file| - pos);
            var r := SendLoop(t, sock, file, pos, count, k, o);
            count > 0 ==>
            && (n <= 0 ==> r == Sent(t, count, n == 0))
            && (n > 0 ==>
                  var m := WriteResult(o.writes(k), n);
                  && (m == -1 ==> r == Sent(t, count, false))
                  && (m == 0 ==> r == Sent(t + [Data(sock, "")], count, false))
                  && (m > 0 ==> r == SendLoop(t + [Data(sock, file[pos..pos + m])], sock, file,
                                              pos + n, count - m, k + 1, o)))
  {
  }

  lemma RelativeFails(fs: Fs, path: string)
    ensures RealPathText(fs, "", path, |path|).Some? ==> IsAbsolute(path)
  {
  }

  lemma ResolvedIsCanonical(fs: Fs, path: string)
    ensures var r := RealPathText(fs, "", path, |path|);
            r.Some? ==> RealPath(fs, r.value).Some? && r.value != ""
  {
  }

  class Server {
    const os: Os
    const fs: Fs
    const rootPath: array<char>
    const ipAddr: array<char>
    const cwd: array<char>

    var port: nat
    var rootPathLen: nat
    var cwdLen: nat
    var serverSock: int
    var clientSock: int
    var transferSock: int
    var transferClientSock: int
    var transferModeBinary: bool
    var isConnected: bool
    var isServerSocketCreated: bool
    ghost var lost: set<int>

    ghost predicate Valid()
      reads this, rootPath, ipAddr, cwd
    {
      && rootPath.Length == PATH_MAX && cwd.Length == PATH_MAX && ipAddr.Length == IP_MAX
      && rootPath != cwd && rootPath != ipAddr && cwd != ipAddr
      && rootPathLen == |CStr(rootPath[..])| < PATH_MAX
      && cwdLen == |CStr(cwd[..])| < PATH_MAX
    }

    ghost function State(): World
      reads this, os, rootPath, ipAddr, cwd
    {
      World(fs, CStr(rootPath[..]), CStr(ipAddr[..]), port, CStr(cwd[..]),
            serverSock, clientSock, transferSock, transferClientSock,
            transferModeBinary, isConnected, isServerSocketCreated, lost, os.State())
    }

    /** Zero-initialised static storage. */
    constructor (os: Os, fs: Fs)
      ensures Valid() && this.os == os && this.fs == fs
      ensures fresh(rootPath) && fresh(ipAddr) && fresh(cwd)
      ensures State() == World(fs, "", "", 0, "", 0, 0, 0, 0, false, false, false, {}, os.State())
    {
      this.os, this.fs := os, fs;
      rootPath := new char[PATH_MAX](_ => NUL);
      ipAddr := new char[IP_MAX](_ => NUL);
      cwd := new char[PATH_MAX](_ => NUL);
      port, rootPathLen, cwdLen := 0, 0, 0;
      serverSock, clientSock, transferSock, transferClientSock := 0, 0, 0, 0;
      transferModeBinary, isConnected, isServerSocketCreated := false, false, false;
      lost := {};
    }

    // ---------- sockets ----------

    method CloseTransferClientSocket(o: Oracle)
      requires Valid()
      modifies this`transferClientSock, this`lost, os
      ensures Valid() && State() == CloseTransferClient(old(State()), o)
    {
      hide CStr, WellFormed;
      var ok := transferClientSock != -1;
      if ok {
        ok := os.Shutdown(transferClientSock, o);
        ghost var refused := transferClientSock in os.open && !ok;
        lost := if refused then lost + {transferClientSock} else lost;
      }
      if ok {
        os.Close(transferClientSock);
      }
      transferClientSock := -1;
    }

    method CloseTransferSocket(o: Oracle)
      requires Valid()
      modifies this`transferSock, this`lost, os
      ensures Valid() && State() == CloseTransfer(old(State()), o)
    {
      hide CStr, WellFormed;
      var ok := transferSock != -1;
      if ok {
        ok := os.Shutdown(transferSock, o);
        ghost var refused := transferSock in os.open && !ok;
        lost := if refused then lost + {transferSock} else lost;
      }
      if ok {
        os.Close(transferSock);
      }
      transferSock := -1;
    }

    method CloseClientSocket(o: Oracle)
      requires Valid()
      modifies this`clientSock, this`lost, os
      ensures Valid() && State() == CloseClient(old(State()), o)
    {
      hide CStr, WellFormed;
      var ok := clientSock != -1;
      if ok {
        ok := os.Shutdown(clientSock, o);
        ghost var refused := clientSock in os.open && !ok;
        lost := if refused then lost + {clientSock} else lost;
      }
      if ok {
        os.Close(clientSock);
      }
      clientSock := -1;
    }

    method ClientDisconnect(o: Oracle)
      requires Valid()
      modifies this`transferClientSock, this`transferSock, this`clientSock, this`lost, this`isConnected, os
      ensures Valid() && State() == Disconnect(old(State()), o)
    {
      hide CloseTransferClient, CloseTransfer, CloseClient, CStr, WellFormed;
      CloseTransferClientSocket(o);
      CloseTransferSocket(o);
      CloseClientSocket(o);
      isConnected := false;
    }

    method StopServer(o: Oracle)
      requires Valid()
      modifies this`transferClientSock, this`transferSock, this`clientSock, this`serverSock, this`lost,
               this`isConnected, this`isServerSocketCreated, os
      ensures Valid() && State() == Stop(old(State()), o)
    {
      hide CloseTransferClient, CloseTransfer, CloseClient, CStr, WellFormed;
      CloseTransferClientSocket(o);
      CloseTransferSocket(o);
      CloseClientSocket(o);
      ghost var v := State();
      assert v == CloseClient(CloseData(old(State()), o), o);
      hide CloseData, WellFormed;
      if serverSock != -1 {
        var _ := os.Shutdown(serverSock, o);
        os.Close(serverSock);
        serverSock := -1;
      }
      isServerSocketCreated := false;
      isConnected := false;
    }

    /** On failure behind socket() the number, closed, is still handed back. */
    method CreatePassiveSocket(portNum: nat, data: bool, o: Oracle) returns (ok: bool, sock: int)
      modifies os
      ensures (os.State(), sock, ok) == CreatePassive(old(os.State()), portNum, data, o)
    {
      sock := os.Open(o.socket);
      ok := sock != -1;
      if ok {
        ok := o.fcntl;
      }
      if ok {
        ok := o.setsockopt;
      }
      if ok {
        ok := o.bind;
      }
      if ok {
        ok := os.Listens(portNum, data, o.listen);
      }
      if !ok {
        var _ := os.Shutdown(sock, o);
        os.Close(sock);
      }
    }

    method CreateTransferSocket(portNum: nat, o: Oracle) returns (ok: bool)
      requires Valid()
      modifies this`transferSock, os
      ensures Valid() && (State(), ok) == CreateTransfer(old(State()), portNum, o)
    {
      ok := transferSock == -1;
      if ok {
        ok, transferSock := CreatePassiveSocket(portNum, true, o);
      }
    }

    method AcceptTransferClientConnection(o: Oracle) returns (ok: bool)
      requires Valid()
      modifies this`transferClientSock, os
      ensures Valid() && (State(), ok) == AcceptData(old(State()), o)
    {
      ok := transferSock != -1;
      if ok {
        var lsock := os.Accept(transferSock, o.accept, true);
        if lsock >= 0 {
          transferClientSock := lsock;
        } else {
          ok := false;
        }
      }
    }

    method SetTransferMode(binary: bool)
      requires Valid()
      modifies this`transferModeBinary
      ensures Valid() && State() == old(State()).(binary := binary)
    {
      transferModeBinary := binary;
    }

    // ---------- paths ----------

    /** The cwd goes through snprintf as a format string: with a '%' in it the oracle says what comes out. */
    method GetCwd(buf: array<char>, o: Oracle) returns (ok: bool, len: nat)
      requires Valid() && buf.Length == PATH_MAX && buf != cwd && buf != rootPath && buf != ipAddr
      modifies buf
      ensures var r := CurrentDir(State(), o);
              ok == r.Some? && (ok ==> CStr(buf[..]) == r.value && len == |r.value|)
    {
      hide WellFormed, Printed;
      ok, len := 0 < cwdLen < PATH_MAX, 0;
      if ok {
        var text := CStr(cwd[..]);
        var formatted := if '%' !in text then Some(text) else o.expanded;
        if formatted.Some? {
          ghost var before := buf[..];
          var written := Snprintf(buf, 0, PATH_MAX, formatted.value);
          if written < PATH_MAX {
            PrintedIsCStr(before, formatted.value);
            len := written;
          } else {
            ok := false;
          }
        } else {
          ok := false;
        }
      }
    }

    /** The byte comparison with the root path. */
    method AbsPathIsNotAboveRootPath(absPath: string, absPathLen: nat) returns (ok: bool)
      requires Valid() && absPathLen == |absPath|
      ensures ok <==> NotAbove(CStr(rootPath[..]), absPath)
    {
      ok := absPathLen > 0;
      if ok && absPathLen < rootPathLen {
        ok := false;
      }
      if ok {
        var i := 0;
        while i < rootPathLen
          invariant 0 <= i <= rootPathLen && ok
          invariant rootPath[..i] == absPath[..i]
        {
          if rootPath[i] != absPath[i] {
            ok := false;
            break;
          }
          i := i + 1;
        }
        assert CStr(rootPath[..]) == rootPath[..rootPathLen];
      }
    }

    /** Both strings copied into buf, and what a reader of the buffer then sees. */
    method PrependRoot(serverPath: string, buf: array<char>, o: Oracle) returns (seen: string)
      requires Valid() && NulFree(serverPath) && serverPath != ""
      requires buf.Length == PATH_MAX && buf != cwd && buf != rootPath && buf != ipAddr
      modifies buf
      ensures seen == Clip(CStr(rootPath[..]), serverPath, o.tail) && NulFree(seen) && seen != ""
    {
      ghost var root := CStr(rootPath[..]);
      Strncpy(buf, 0, rootPath[..], PATH_MAX);
      assert buf[..rootPathLen] == root;
      Strncpy(buf, rootPathLen, serverPath, PATH_MAX - rootPathLen);
      CStrUnique(serverPath, serverPath);
      assert buf[..] == root + Padded(serverPath, PATH_MAX - |root|);
      ClipInBuffer(root, serverPath, o.tail);
      seen := CStr(buf[..] + o.tail + [NUL]);
    }

    method ServerPathToRealPath(serverPath: string, serverPathLen: nat, realPath: array<char>, o: Oracle)
      returns (ok: bool, realPathLen: nat)
      requires Valid() && NulFree(serverPath)
      requires realPath.Length == PATH_MAX && realPath != cwd && realPath != rootPath && realPath != ipAddr
      modifies realPath
      ensures var w := State();
              var r := ServerToReal(fs, w.root, CurrentDir(w, o), serverPath, serverPathLen, o.tail);
              ok == r.Some? && (ok ==> CStr(realPath[..]) == r.value && realPathLen == |r.value|)
    {
      ok, realPathLen := serverPathLen > 0, 0;
      if ok {
        var buf := new char[PATH_MAX];
        hide Clip, CStr, RealPathText, CurrentDir, WellFormed;
        if IsAbsolute(serverPath) {
          var seen := PrependRoot(serverPath, buf, o);
          ok, realPathLen := GetRealPath(fs, "", 0, seen, |seen|, realPath);
          AbsoluteIgnoresLength(fs, seen, |seen|, PATH_MAX);
        } else {
          var cwdLen;
          ok, cwdLen := GetCwd(buf, o);
          if ok {
            var text := CStr(buf[..]);
            ok, realPathLen := GetRealPath(fs, text, cwdLen, serverPath, serverPathLen, realPath);
          }
        }
      }
    }

    /** Everything from the first byte in which realPath's memory differs from the root's, for any length given. */
    method RealPathToServerPath(realPath: seq<char>, len: nat, serverPath: array<char>, tail: CText)
      returns (ok: bool, serverPathLen: nat)
      requires Valid() && serverPath.Length == PATH_MAX && serverPath != rootPath && serverPath != cwd && serverPath != ipAddr
      requires |realPath| == PATH_MAX && len <= PATH_MAX
      modifies serverPath
      ensures ok <==> len > 0
      ensures ok ==>
                && CStr(serverPath[..]) == CutTo(FromDifference(realPath, rootPath[..], len, tail), PATH_MAX)
                && serverPathLen == |CStr(serverPath[..])|
    {
      ok, serverPathLen := len > 0, 0;
      if ok {
        serverPath[0] := '/';
        serverPath[1] := NUL;
        serverPathLen := 1;
        CStrUnique(serverPath[..], "/");
        assert CutTo("/", PATH_MAX) == "/";
        hide CStr, CommonLength, Padded, WellFormed, FromDifference, ServerPath, CutTo;
        var i := 0;
        while i < len
          invariant 0 <= i <= len
          invariant rootPath[..] == old(rootPath[..])
          invariant forall j | 0 <= j < i :: realPath[j] == rootPath[j]
          invariant CStr(serverPath[..]) == "/" && serverPathLen == 1
        {
          if realPath[i] != rootPath[i] {
            FirstDifferent(realPath, rootPath[..], len, i, tail);
            CopyText(serverPath, CStr(realPath[i..] + tail + [NUL]));
            serverPathLen := |CStr(serverPath[..])|;
            return;
          }
          i := i + 1;
        }
        FirstDifferent(realPath, rootPath[..], len, len, tail);
      }
    }

    /** The copy at the end of SetCwd. */
    method StoreCwd(dir: string, len: nat) returns (ok: bool)
      requires Valid() && NulFree(dir) && len == |dir|
      modifies this`cwdLen, cwd
      ensures Valid() && ok == (len < PATH_MAX)
      ensures State() == if ok then old(State()).(cwd := dir) else old(State())
    {
      hide CStr, WellFormed;
      ok := cwd.Length > len;
      if ok {
        CopyText(cwd, dir);
        cwdLen := len;
      }
    }

    method SetCwd(dir: string, len: nat, o: Oracle) returns (ok: bool)
      requires Valid() && NulFree(dir)
      modifies this`cwdLen, cwd
      ensures Valid() && (State(), ok) == ChangeDir(old(State()), dir, len, o)
    {
      hide RealPathText, CurrentDir, WellFormed, IsDirText, CStr, NulFree;
      var buf := new char[PATH_MAX];
      var realPath := new char[PATH_MAX];
      var bufLen, realPathLen;
      ok, bufLen := GetCwd(buf, o);
      if ok {
        ok, realPathLen := GetRealPath(fs, CStr(buf[..]), bufLen, dir, len, realPath);
      } else {
        ok, realPathLen := GetRealPath(fs, "", 0, dir, len, realPath);
      }
      var target := CStr(realPath[..]);
      if ok {
        ok := IsDir(fs, target, realPathLen, false);
      }
      if ok {
        ok := AbsPathIsNotAboveRootPath(target, realPathLen);
      }
      if ok {
        ok := StoreCwd(target, realPathLen);
      }
    }

    // ---------- replies ----------

    method SendReply(text: string, sent: bool) returns (ok: bool)
      requires Valid()
      modifies os
      ensures Valid() && (State(), ok) == Reply(old(State()), text, sent)
    {
      hide CStr, WellFormed;
      var buf := new char[RESPONSE_MAX];
      ghost var m0 := buf[..];
      var written := Snprintf(buf, 0, RESPONSE_MAX, text);
      ok := written < RESPONSE_MAX;
      if ok {
        assert buf[..written] == text;
        var more := Snprintf(buf, written, RESPONSE_MAX - written, CRLF);
        written := written + more;
        if written >= RESPONSE_MAX {
          ok := false;
        } else {
          assert buf[..written] == text + CRLF;
        }
      }
      if ok {
        ok := os.WriteReply(clientSock, buf[..written], sent);
      }
    }

    /** The reply is already in buf: only the line end is added, as far as there is room; beyond and further lie behind buf. */
    method SendReplyOwnBuf(buf: array<char>, len: nat, sent: bool, beyond: char, further: char) returns (ok: bool)
      requires Valid() && buf != cwd && buf != rootPath && buf != ipAddr && len <= buf.Length
      modifies buf, os
      ensures Valid()
      ensures len == 0 ==> !ok && State() == old(State())
      ensures len > 0 ==>
                var text := old(buf[..len]) + LineEnd(buf.Length - len, beyond, further);
                ok == sent && State() == old(State()).Log(Control(clientSock, text, sent))
    {
      hide CStr, WellFormed;
      ok := len > 0;
      if ok {
        ghost var text := buf[..len];
        var written := Snprintf(buf, len, buf.Length - len, CRLF);
        var data := (buf[..] + [beyond, further])[..len + written];
        assert data == text + LineEnd(buf.Length - len, beyond, further);
        ok := os.WriteReply(clientSock, data, sent);
      }
    }

    /** A listing line: the line end may be cut off by the end of the buffer, and the count run past it. */
    method SendReplyOwnBufTransfer(buf: array<char>, len: nat, i: nat, o: Oracle) returns (ok: bool)
      requires Valid() && buf != cwd && buf != rootPath && buf != ipAddr
      requires buf.Length == PATH_MAX && len < PATH_MAX
      modifies buf, os
      ensures Valid() && buf[..len] == old(buf[..len])
      ensures len == 0 ==> !ok && State() == old(State())
      ensures len > 0 ==>
                var (t, sent) := SendLine(old(State()).kernel.trace, transferClientSock, old(buf[..len]), i, o);
                ok == sent && State() == old(State()).(kernel := old(State()).kernel.(trace := t))
    {
      hide CStr, WellFormed;
      ok := len > 0;
      if ok {
        ghost var text := buf[..len];
        var written := Snprintf(buf, len, PATH_MAX - len, CRLF);
        var data := (buf[..] + [o.beyond])[..len + written];
        assert data == Frame(text, o.beyond);
        var sent := os.WriteData(transferClientSock, data, o.sends(i));
        ok := sent != -1;
      }
    }

    // ---------- sending a file ----------

    method SendfileTransfer(path: string, pathLen: nat, file: string, o: Oracle) returns (ok: bool)
      requires Valid()
      modifies os
      ensures Valid() && (State(), ok) == if pathLen > 0 then SendFile(old(State()), path, file, o) else (old(State()), false)
    {
      hide CStr, WellFormed, ReadResult, WriteResult, SendLoop;
      var fd: int, count: nat;
      ghost var w := State();
      ok, fd, count := OpenFile(os, path, pathLen, o);
      if ok {
        ghost var handed := os.State();
        ghost var t := os.trace;
        var pos: nat, k: nat := 0, 0;
        var end := false;
        while count > 0 && !end
          invariant pos <= |file|
          invariant os.State() == handed.(trace := os.trace)
          invariant !end ==> ok && SendLoop(os.trace, transferClientSock, file, pos, count, k, o)
                                == SendLoop(t, transferClientSock, file, 0, o.size, 0, o)
          invariant end ==> SendLoop(t, transferClientSock, file, 0, o.size, 0, o)
                            == Sent(os.trace, count, ok)
          decreases if end then 0 else 1, count
        {
          SendTurn(os.trace, transferClientSock, file, pos, count, k, o);
          var toRead := if count < CHUNK_MAX then count else CHUNK_MAX;
          var numRead := ReadResult(o.chunks(k), toRead, |file| - pos);
          if numRead == -1 {
            ok := false;
            end := true;
          } else if numRead == 0 {
            end := true;
          } else {
            var numSent := os.WriteData(transferClientSock, file[pos..pos + numRead], o.writes(k));
            if numSent == -1 {
              ok := false;
              end := true;
            } else {
              assert file[pos..pos + numRead][..numSent] == file[pos..pos + numSent];
              if numSent == 0 {
                ok := false;
                end := true;
              } else {
                count := count - numSent;
                pos := pos + numRead;
                k := k + 1;
              }
            }
          }
        }
        SendTurn(os.trace, transferClientSock, file, pos, count, k, o);
      }
      os.Close(fd);
    }

    // ---------- configuration and start ----------

    method GetServerIP4(buf: array<char>) returns (len: nat)
      requires Valid() && buf.Length == IP_MAX && buf != cwd && buf != rootPath && buf != ipAddr
      modifies buf
      ensures CStr(buf[..]) == CStr(ipAddr[..]) && len == |CStr(ipAddr[..])|
    {
      Strncpy(buf, 0, ipAddr[..], IP_MAX);
      ghost var ip := CStr(ipAddr[..]);
      assert buf[..] == Padded(ip, IP_MAX);
      CStrUnique(buf[..], ip);
      len := |CStr(buf[..])|;
    }

    /** Configuration from the command line. Only a directory given as an absolute path is accepted. */
    method Initialize(path: string, ip: string, portNum: nat, junk: bool) returns (ok: bool)
      requires Valid() && NulFree(path) && NulFree(ip)
      modifies this`port, this`rootPathLen, rootPath, ipAddr
      ensures ok ==> Valid()
      ensures ok <==> path != "" && ip != "" && IsAbsolute(path) && RealPathText(fs, "", path, |path|).Some?
                      && IsDirText(fs, RealPathText(fs, "", path, |path|).value)
      ensures ok ==> State() == old(State()).(root := RealPathText(fs, "", path, |path|).value,
                                            ip := CutTo(ip, IP_MAX), port := portNum)
    {
      hide WellFormed, RealPathText, IsDirText, CanonicalText, NulFree, RealPath;
      ghost var r := RealPathText(fs, "", path, |path|);
      ok := |path| > 0 && |ip| > 0;
      if ok {
        CopyText(ipAddr, ip);
        hide CStr;
        port := portNum;
        ok, rootPathLen := GetRealPath(fs, "", 0, path, |path|, rootPath);
        RelativeFails(fs, path);
      }
      if ok {
        var root := CStr(rootPath[..]);
        assert root == r.value && rootPathLen == |root|;
        ResolvedIsCanonical(fs, path);
        ok := IsDir(fs, root, rootPathLen, junk);
      }
    }

    method Start(o: Oracle) returns (ok: bool)
      requires Valid()
      modifies this`transferSock, this`serverSock, this`clientSock, this`transferModeBinary,
               this`isServerSocketCreated, this`cwdLen, cwd, os
      ensures Valid() && (State(), ok) == Machine.Start(old(State()), o)
    {
      hide CStr, WellFormed, ChangeDir, CreatePassive;
      transferSock := -1;
      serverSock := -1;
      clientSock := -1;
      ok := SetCwd(CStr(rootPath[..]), rootPathLen, o);
      if ok {
        transferModeBinary := true;
        ok, serverSock := CreatePassiveSocket(port, false, o);
      }
      if ok {
        isServerSocketCreated := true;
      }
    }
  }
}
