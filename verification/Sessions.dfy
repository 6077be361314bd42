/** What every step of the handler keeps: descriptor ownership, containment and the reply discipline. */
module Sessions {
  import opened Text
  import opened Paths
  import opened Translation
  import opened HostPort
  import opened Dispatch
  import opened Machine
  import opened Protocol
  import opened Transfers

  // ---------- the trace monitor ----------

  /** Quiet: no reply is owed. Owed: one is. Marked: a preliminary reply was written, the final one is owed. */
  datatype Phase = Quiet | Owed | Marked | Broken

  /**
   * control, data: the sockets of the session and of the data connection accepted since the last request.
   * armed: a passive socket for data became ready in this session, and no 150 came since.
   * matched: so far every 150 found it so.
   */
  datatype Monitor = Monitor(phase: Phase, control: Option<int>, data: Option<int>, armed: bool, matched: bool)

  /** First digit 1 of the reply code (section 4.2 of RFC 959). */
  predicate Preliminary(text: string) {
    text != "" && text[0] == '1'
  }

  predicate Completes(text: string) {
    "226" <= text
  }

  function After(m: Monitor, e: Event): Monitor {
    match e
    case Session(sock) =>
      m.(phase := if m.phase == Quiet then Owed else Broken, control := Some(sock), data := None, armed := false)
    case Command(_) => m.(phase := if m.phase == Quiet then Owed else Broken, data := None)
    case Listen(_, data) => m.(armed := m.armed || (data && m.control.Some?))
    case Opens(_) => m
    case Fetches(_) => m
    case Accepted(sock) => m.(data := Some(sock))
    case Data(sock, _) => m.(phase := if m.phase == Marked && m.data == Some(sock) then Marked else Broken)
    case Control(sock, text, ok) =>
      if Preliminary(text) then
        m.(phase := if m.phase == Owed && m.control == Some(sock) then (if ok then Marked else Owed) else Broken,
           armed := false, matched := m.matched && m.armed)
      else
        m.(phase := if m.control == Some(sock) && (m.phase == Marked || (m.phase == Owed && !Completes(text))) then Quiet
                    else Broken)
  }

  function Watch(t: seq<Event>): Monitor {
    if t == [] then Monitor(Quiet, None, None, false, true) else After(Watch(t[..|t| - 1]), t[|t| - 1])
  }

  lemma WatchStep(t: seq<Event>, e: Event)
    ensures Watch(t + [e]) == After(Watch(t), e)
  {
    assert (t + [e])[..|t|] == t;
  }

  lemma DataKeepsWatch(t: seq<Event>, sock: int, bytes: string)
    requires Watch(t).phase == Marked && Watch(t).data == Some(sock)
    ensures Watch(t + [Data(sock, bytes)]) == Watch(t)
  {
    WatchStep(t, Data(sock, bytes));
  }

  lemma {:induction false} SendLoopKeepsWatch(t: seq<Event>, sock: int, file: string, pos: nat, count: nat, k: nat, o: Oracle)
    requires pos <= |file| && Watch(t).phase == Marked && Watch(t).data == Some(sock)
    ensures Watch(SendLoop(t, sock, file, pos, count, k, o).trace) == Watch(t)
    decreases count
  {
    hide ReadResult, WriteResult, Watch, After;
    var n := Got(file, pos, count, k, o);
    if count > 0 && n > 0 {
      var m := WriteResult(o.writes(k), n);
      if m == 0 {
        DataKeepsWatch(t, sock, "");
      } else if m > 0 {
        DataKeepsWatch(t, sock, file[pos..pos + m]);
        SendLoopKeepsWatch(t + [Data(sock, file[pos..pos + m])], sock, file, pos + n, count - m, k + 1, o);
      }
    }
  }

  lemma SendLineKeepsWatch(t: seq<Event>, sock: int, text: string, i: nat, o: Oracle)
    requires 0 < |text| < PATH_MAX && Watch(t).phase == Marked && Watch(t).data == Some(sock)
    ensures Watch(SendLine(t, sock, text, i, o).0) == Watch(t)
  {
    var f := Frame(text, o.beyond);
    var m := WriteResult(o.sends(i), |f|);
    if m != -1 {
      DataKeepsWatch(t, sock, f[..m]);
    }
  }

  lemma {:induction false} ListLoopKeepsWatch(
      t: seq<Event>, sock: int, root: string, dir: string, withPath: bool, i: nat, line: string, o: Oracle)
    requires i <= |o.entries| && (i > 0 ==> 0 < |line| < PATH_MAX)
    requires Watch(t).phase == Marked && Watch(t).data == Some(sock)
    ensures Watch(ListLoop(t, sock, root, dir, withPath, i, line, o).trace) == Watch(t)
    decreases |o.entries| - i
  {
    hide SendLine;
    if i == |o.entries| {
      SendLineKeepsWatch(t, sock, Shown(root, withPath, line), i, o);
    } else {
      var next := Line(dir, withPath, o.entries[i]);
      if |next| < PATH_MAX {
        var s := Shown(root, withPath, next);
        SendLineKeepsWatch(t, sock, s, i, o);
        ListLoopKeepsWatch(SendLine(t, sock, s, i, o).0, sock, root, dir, withPath, i + 1, next, o);
      }
    }
  }

  // ---------- the invariant ----------

  /**
   * Every open descriptor is one of a, b, c, d or is lost; those of the four that are open are
   * pairwise different and none of them is lost.
   */
  predicate Owned(open: set<int>, lost: set<int>, a: int, b: int, c: int, d: int) {
    && (forall n | n in open :: n > 2)
    && lost <= open <= lost + {a, b, c, d}
    && a !in lost && b !in lost && c !in lost && d !in lost
    && (a in open ==> a != b && a != c && a != d)
    && (b in open ==> b != c && b != d)
    && (c in open ==> c != d)
  }

  predicate Owns(w: World) {
    Owned(w.kernel.open, w.lost, w.transferClientSock, w.transferSock, w.clientSock, w.serverSock)
  }

  predicate Live(w: World, fd: int) {
    fd in w.kernel.open
  }

  /** The configuration a successful Initialize leaves. */
  ghost predicate Configured(w: World) {
    CanonicalDir(w.fs, w.root) && ValidIp(w.ip) && w.port < 0x1_0000
  }

  /** cwd is the canonical text of a directory, fits the buffer and has the root as a byte prefix. */
  predicate Within(fs: Fs, root: string, cwd: string) {
    CanonicalDir(fs, cwd) && NotAbove(root, cwd)
  }

  predicate Contained(w: World) {
    Within(w.fs, w.root, w.cwd)
  }

  /** The accepted data socket only exists inside a command; before the first one its field is 0. */
  predicate NoDataSocket(w: World) {
    w.transferClientSock <= 0 && !Live(w, w.transferClientSock)
  }

  /** What holds of the sockets while a client is connected, also inside a command. */
  ghost predicate Serving(w: World) {
    && Configured(w) && Owns(w) && w.kernel.stray == [] && w.created && w.connected && Contained(w)
    && Live(w, w.serverSock) && Live(w, w.clientSock) && NoDataSocket(w)
    && Watch(w.kernel.trace).matched && Watch(w.kernel.trace).control == Some(w.clientSock)
    && (Live(w, w.transferSock) ==> Watch(w.kernel.trace).armed)
  }

  /** What holds between two steps of a run that has not failed. */
  ghost predicate Between(w: World) {
    && Configured(w) && Owns(w) && w.kernel.stray == []
    && Watch(w.kernel.trace).phase == Quiet && Watch(w.kernel.trace).matched
    && NoDataSocket(w) && (w.connected || w.transferSock <= 0)
    && (if !w.created then
          && !w.connected && !Live(w, w.serverSock) && !Live(w, w.clientSock) && !Live(w, w.transferSock)
          && (w.cwd == "" || Contained(w))
        else if !w.connected then
          Contained(w) && Live(w, w.serverSock) && !Live(w, w.clientSock) && !Live(w, w.transferSock)
        else Serving(w))
  }

  /** What is left of it when a step fails: main stops the server next. */
  ghost predicate Failed(w: World) {
    && Configured(w) && Owns(w) && w.kernel.stray == [] && (w.cwd == "" || Contained(w))
    && Watch(w.kernel.trace).phase == Quiet && Watch(w.kernel.trace).matched
  }

  // ---------- socket operations keep ownership ----------

  /** v differs from w in sockets, open and lost descriptors only. */
  predicate SocketsOnly(w: World, v: World) {
    && v.fs == w.fs && v.root == w.root && v.ip == w.ip && v.port == w.port && v.cwd == w.cwd
    && v.binary == w.binary && v.created == w.created && v.connected == w.connected
    && v.kernel.trace == w.kernel.trace && v.kernel.stray == w.kernel.stray
    && w.lost <= v.lost && v.kernel.open <= w.kernel.open
  }

  lemma ReleaseOwned(w: World, a: int, b: int, c: int, d: int, o: Oracle)
    requires Owned(w.kernel.open, w.lost, a, b, c, d)
    ensures var v := Release(w, a, o);
            && Owned(v.kernel.open, v.lost, -1, b, c, d) && SocketsOnly(w, v)
            && v.serverSock == w.serverSock && v.clientSock == w.clientSock
            && v.transferSock == w.transferSock && v.transferClientSock == w.transferClientSock
            && (b in v.kernel.open <==> b in w.kernel.open)
            && (c in v.kernel.open <==> c in w.kernel.open)
            && (d in v.kernel.open <==> d in w.kernel.open)
            && (o.shutdown(a) ==> v.lost == w.lost)
  {
  }

  /** No shutdown() of a live socket fails. */
  ghost predicate Orderly(o: Oracle) {
    forall n :: o.shutdown(n) && o.cleanup(n)
  }

  /** Orderly, and no write of a directory line fails: then no descriptor is lost. */
  ghost predicate Careful(o: Oracle) {
    Orderly(o) && forall i: nat :: o.sends(i) != -1
  }

  lemma CloseDataKeeps(w: World, o: Oracle)
    requires Owns(w)
    ensures var v := CloseData(w, o);
            && Owns(v) && SocketsOnly(w, v)
            && v.transferSock == -1 && v.transferClientSock == -1
            && v.serverSock == w.serverSock && v.clientSock == w.clientSock
            && (Live(v, v.serverSock) <==> Live(w, w.serverSock))
            && (Live(v, v.clientSock) <==> Live(w, w.clientSock))
            && -1 !in v.kernel.open
            && (Orderly(o) ==> v.lost == w.lost)
  {
    hide Release;
    ReleaseOwned(w, w.transferClientSock, w.transferSock, w.clientSock, w.serverSock, o);
    var u := CloseTransferClient(w, o);
    ReleaseOwned(u, u.transferSock, -1, u.clientSock, u.serverSock, o);
  }

  lemma CloseClientKeeps(w: World, o: Oracle)
    requires Owns(w)
    ensures var v := CloseClient(w, o);
            && Owns(v) && SocketsOnly(w, v)
            && v.clientSock == -1 && v.serverSock == w.serverSock
            && v.transferSock == w.transferSock && v.transferClientSock == w.transferClientSock
            && (Live(v, v.serverSock) <==> Live(w, w.serverSock))
            && (Orderly(o) ==> v.lost == w.lost)
  {
    hide Release;
    ReleaseOwned(w, w.clientSock, w.transferClientSock, w.transferSock, w.serverSock, o);
  }

  lemma DisconnectKeeps(w: World, o: Oracle)
    requires Owns(w)
    ensures var v := Disconnect(w, o);
            && Owns(v) && SocketsOnly(w, v.(connected := w.connected)) && !v.connected
            && v.transferSock == -1 && v.transferClientSock == -1 && v.clientSock == -1
            && v.serverSock == w.serverSock
            && (Live(v, v.serverSock) <==> Live(w, w.serverSock))
            && -1 !in v.kernel.open
            && (Orderly(o) ==> v.lost == w.lost)
  {
    hide CloseData, CloseClient;
    CloseDataKeeps(w, o);
    CloseClientKeeps(CloseData(w, o), o);
  }

  /**
   * Stop names no descriptor afterwards and leaves open exactly the lost ones. close() meets a dead number
   * exactly when the server socket variable holds one.
   */
  lemma StopKeeps(w: World, o: Oracle)
    requires Owns(w)
    ensures var v := Stop(w, o);
            && Owns(v) && !v.created && !v.connected
            && v.serverSock == -1 && v.clientSock == -1 && v.transferSock == -1 && v.transferClientSock == -1
            && v.kernel.open == v.lost && -1 !in v.kernel.open
            && (Orderly(o) ==> v.lost == w.lost)
            && v.kernel.stray == w.kernel.stray + (if w.serverSock == -1 || Live(w, w.serverSock) then [] else [w.serverSock])
            && SocketsOnly(w, v.(created := w.created, connected := w.connected,
                                 kernel := v.kernel.(stray := w.kernel.stray)))
  {
    hide CloseData, CloseClient;
    CloseDataKeeps(w, o);
    CloseClientKeeps(CloseData(w, o), o);
    var u := CloseClient(CloseData(w, o), o);
    assert u.kernel.open <= u.lost + {u.serverSock};
    var v := Stop(w, o);
    assert v.kernel.open == v.lost;
    assert w.kernel.stray + [] == w.kernel.stray;
  }
}
