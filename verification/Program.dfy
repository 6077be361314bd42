/** The handler of src/common/vsftp_server.c and the program of src/linux/main.c. */
module Program {
  import opened Text
  import opened Paths
  import opened Translation
  import opened HostPort
  import opened Machine
  import opened Protocol
  import opened Operating
  import opened Daemon
  import opened Handlers
  import opened Sessions
  import opened Runs
  import opened Frames
  import opened Guarantees
  import Decimal
  import Filesystem

  method WaitForIncomingConnection(s: Server, o: Oracle) returns (ok: bool)
    requires s.Valid()
    modifies s, s.os, s.cwd
    ensures s.Valid() && (s.State(), ok) == WaitForConnection(old(s.State()), o)
  {
    hide CStr, WellFormed, Reply, Stop, ChangeDir, Wording;
    ok := true;
    s.clientSock := s.os.Accept(s.serverSock, o.accept, false);
    if s.clientSock >= 0 {
      ok := s.SetCwd(CStr(s.rootPath[..]), s.rootPathLen, o);
      if ok {
        ok := s.SendReply(Wording(Ready), o.final);
        if ok {
          s.isConnected := true;
        }
      }
    } else {
      if !o.again {
        s.StopServer(o);
      }
    }
  }

  /** A command that failed takes a created but unused transfer socket with it. */
  method HandleRequest(s: Server, line: string, o: Oracle)
    requires s.Valid()
    modifies s, s.os, s.cwd
    ensures s.Valid() && s.State() == Request(old(s.State()), line, o)
  {
    hide CStr, WellFormed, Perform, CloseTransferClient, CloseTransfer;
    s.os.Receives(line);
    var handled := Parse(s, line, o);
    if !handled {
      s.CloseTransferClientSocket(o.Later());
      s.CloseTransferSocket(o.Later());
    }
  }

  method ReceiveOwnSock(buffer: array<char>, o: Oracle) returns (ok: bool, received: nat)
    requires buffer.Length == REQUEST_MAX
    modifies buffer
    ensures ok == o.received.Some? && received == (if ok then |o.received.value| else 0)
    ensures ok ==> buffer[..received] == o.received.value
  {
    ok, received := o.received.Some?, 0;
    if ok {
      var bytes := o.received.value;
      received := |bytes|;
      forall i | 0 <= i < |bytes| {
        buffer[i] := bytes[i];
      }
      assert buffer[..received] == bytes;
    }
  }

  lemma EndsWithCrlf(bytes: string)
    ensures IsRequest(bytes) <==> |bytes| > 2 && bytes[|bytes| - 2] == '\r' && bytes[|bytes| - 1] == '\n'
  {
    if |bytes| > 2 {
      var e := bytes[|bytes| - 2..];
      assert e == [bytes[|bytes| - 2], bytes[|bytes| - 1]];
      assert CRLF[0] == '\r' && CRLF[1] == '\n';
    }
  }

  /** One read from the client: a request, the end of the connection, or nothing that can be used. */
  method HandleClient(s: Server, o: Oracle) returns (ok: bool)
    requires s.Valid()
    modifies s, s.os, s.cwd
    ensures s.Valid() && (s.State(), ok) == HandleConnection(old(s.State()), o)
  {
    hide CStr, WellFormed, Request, Stop, Disconnect, IsRequest;
    var buffer := new char[REQUEST_MAX];
    var bytesRead;
    ok, bytesRead := ReceiveOwnSock(buffer, o);
    ghost var bytes := buffer[..bytesRead];
    EndsWithCrlf(bytes);
    buffer[bytesRead] := NUL;
    if ok && bytesRead > 2 && buffer[bytesRead - 2] == '\r' && buffer[bytesRead - 1] == '\n' {
      buffer[bytesRead - 2] := NUL;
      bytesRead := bytesRead - 2;
      assert buffer[..bytesRead] == bytes[..bytesRead];
      HandleRequest(s, buffer[..bytesRead], o);
    } else if ok && bytesRead == 0 {
      s.ClientDisconnect(o);
    } else {
      if !o.again {
        s.StopServer(o);
      }
    }
  }

  /** One turn of the handler. */
  method Handler(s: Server, o: Oracle) returns (ok: bool)
    requires s.Valid()
    modifies s, s.os, s.cwd
    ensures s.Valid() && (s.State(), ok) == Step(old(s.State()), o)
  {
    hide CStr, WellFormed, Machine.Start, WaitForConnection, HandleConnection;
    if !s.isServerSocketCreated {
      ok := s.Start(o);
    } else if !s.isConnected {
      ok := WaitForIncomingConnection(s, o);
    } else {
      ok := HandleClient(s, o);
    }
  }

  /** main's do-while loop over a schedule, and the stop behind it. */
  method Serve(s: Server, steps: seq<Oracle>, last: Oracle) returns (ok: bool)
    requires s.Valid() && Between(s.State()) && steps != []
    modifies s, s.os, s.cwd
    ensures s.Valid()
    ensures var (v, success) := Run(old(s.State()), steps);
            s.State() == Stop(v, last) && ok == success
    ensures s.os.open == s.lost
    ensures AllCareful(steps) && Careful(last) ==> s.lost == old(s.lost)
  {
    hide CStr, WellFormed, Step, Stop, Between, BadStart, Failed, Run, EndsInBadStart;
    ghost var w := s.State();
    RunThenStop(w, steps, last);
    var i := 0;
    ok := true;
    RunHere(w, steps);
    assert steps[0..] == steps;
    while i < |steps| && ok
      invariant 0 <= i <= |steps| && s.Valid()
      invariant ok ==> Run(w, steps) == Run(s.State(), steps[i..])
      invariant !ok ==> Run(w, steps) == (s.State(), false)
      decreases |steps| - i, ok
    {
      RunHere(s.State(), steps[i..]);
      ok := Handler(s, steps[i]);
      assert steps[i..][1..] == steps[i + 1..];
      i := i + 1;
    }
    RunHere(s.State(), []);
    assert ok ==> steps[i..] == [];
    s.StopServer(last);
  }

  lemma RunHere(w: World, os: seq<Oracle>)
    ensures Run(w, os) == if os == [] then (w, true)
                          else
                            var (v, ok) := Step(w, os[0]);
                            if ok then Run(v, os[1..]) else (v, false)
  {
    hide Step, WellFormed;
  }

  /** What the command line must be for the server to start. */
  ghost predicate Starts(fs: Fs, args: seq<CText>) {
    && |args| == 4 && ValidIp(args[1]) && Decimal.Accepted(args[2])
    && IsAbsolute(args[3]) && IsRoot(fs, args[3])
  }

  /** The path leads to a directory whose canonical text fits the buffer. */
  predicate IsRoot(fs: Fs, path: string) {
    var r := RealPathText(fs, "", path, |path|);
    r.Some? && IsDirText(fs, r.value)
  }

  /**
   * The program: address, port and root directory from the command line, then the handler until the
   * schedule is over. It starts exactly for the command lines of Starts, and then it is a run from a
   * fresh server and the final stop; no descriptor is left open but the lost ones.
   */
  method Program(fs: Fs, os: Os, args: seq<CText>, junk: bool, steps: seq<Oracle>, last: Oracle)
    returns (ok: bool, started: bool)
    requires os.State() == Kernel({}, [], []) && steps != []
    modifies os
    ensures started <==> Starts(fs, args)
    ensures !started ==> !ok && os.State() == Kernel({}, [], [])
    ensures started ==>
      var root := RealPathText(fs, "", args[3], |args[3]|).value;
      var w := Initial(fs, root, args[1], Decimal.Value16(args[2]));
      Between(w) && os.State() == Stop(Run(w, steps).0, last).kernel && ok == Run(w, steps).1
    ensures started && args[2] != "" ==>
      forall e | e in os.trace && e.Listen? :: e.port == if e.data then 40000 else Value(args[2])
    ensures started && AllCareful(steps) && Careful(last) ==> os.open == {}
  {
    hide Run, Stop, WellFormed, RealPathText, Between, IsDirText;
    ok, started := false, false;
    if |args| != 4 {
      return;
    }
    IsQuadExact(args[1]);
    if !IsQuad(args[1]) {
      return;
    }
    ghost var a :| args[1] == Quad(a);
    QuadFits(a);
    hide Quad, IsQuad, WellFormed;
    var isDecimal := Decimal.IsDecimal(args[2]);
    if !isDecimal {
      return;
    }
    var isDir := Filesystem.IsDir(fs, args[3], |args[3]|, junk);
    if IsAbsolute(args[3]) && IsRoot(fs, args[3]) {
      RootIsDir(fs, args[3]);
    }
    if !isDir {
      return;
    }
    var port := Decimal.ParseDecimal(args[2]);
    var s := new Server(os, fs);
    ok := s.Initialize(args[3], args[1], port, junk);
    if !ok {
      return;
    }
    started := true;
    RootConfigured(fs, args[3], args[1], port);
    InitialBetween(fs, RealPathText(fs, "", args[3], |args[3]|).value, args[1], port);
    ghost var w := s.State();
    ok := Serve(s, steps, last);
    ListensOn(w, steps, last);
    if args[2] != "" {
      Decimal.AcceptedParsesExactly(args[2]);
    }
  }

  lemma ListensOn(w: World, steps: seq<Oracle>, last: Oracle)
    requires w == Initial(w.fs, w.root, w.ip, w.port) && Configured(w)
    ensures forall e | e in Stop(Run(w, steps).0, last).kernel.trace && e.Listen? :: e.port == if e.data then 40000 else w.port
  {
    var v := Run(w, steps).0;
    StopTrace(v, last);
    hide Run, Stop, WellFormed;
    var t := v.kernel.trace;
    forall e | e in t && e.Listen? ensures e.port == if e.data then 40000 else w.port {
      var i: nat :| i < |t| && t[i] == e;
      RunListens(w, steps, v, i);
    }
  }

  /** The check main makes of the root first is implied by the one Initialize makes of its real path. */
  lemma RootIsDir(fs: Fs, path: string)
    requires IsAbsolute(path) && IsRoot(fs, path)
    ensures RealPath(fs, path).Some? && IsDirText(fs, path)
  {
    CanonicalResolves(fs, RealPath(fs, path).value);
  }

  lemma RootConfigured(fs: Fs, path: string, ip: string, port: nat)
    requires IsRoot(fs, path) && ValidIp(ip) && port < 0x1_0000
    ensures Configured(Initial(fs, RealPathText(fs, "", path, |path|).value, ip, port))
  {
  }
}
