/** The system calls, on the descriptor table and the trace they act on. */
module Operating {
  import opened Text
  import opened Machine

  class Os {
    var open: set<int>
    var stray: seq<int>
    var trace: seq<Event>

    function State(): Kernel
      reads this
    {
      Kernel(open, stray, trace)
    }

    constructor ()
      ensures State() == Kernel({}, [], [])
    {
      open, stray, trace := {}, [], [];
    }

    /** A call that hands out a descriptor, such as socket(): the offered number if it is fresh. */
    method Open(offered: int) returns (fd: int)
      modifies this
      ensures old(State()).Fresh(offered) ==> fd == offered && State() == old(State()).Opened(offered)
      ensures !old(State()).Fresh(offered) ==> fd == -1 && State() == old(State())
    {
      if State().Fresh(offered) {
        fd := offered;
        open := open + {fd};
      } else {
        fd := -1;
      }
    }

    /** opendir(): as open(), and the trace says of which directory. */
    method OpenDir(dir: string, offered: int) returns (fd: int)
      modifies this
      ensures old(State()).Fresh(offered) ==>
                fd == offered && State() == old(State()).Opened(offered).Logged(Opens(dir))
      ensures !old(State()).Fresh(offered) ==> fd == -1 && State() == old(State())
    {
      fd := Open(offered);
      if fd != -1 {
        trace := trace + [Opens(dir)];
      }
    }

    /** open() of a file that is to be sent. */
    method OpenFile(path: string, offered: int) returns (fd: int)
      modifies this
      ensures old(State()).Fresh(offered) ==>
                fd == offered && State() == old(State()).Opened(offered).Logged(Fetches(path))
      ensures !old(State()).Fresh(offered) ==> fd == -1 && State() == old(State())
    {
      fd := Open(offered);
      if fd != -1 {
        trace := trace + [Fetches(path)];
      }
    }

    /** listen(): the socket is ready on its port, for data or for control connections. */
    method Listens(port: nat, data: bool, succeeds: bool) returns (ok: bool)
      modifies this
      ensures ok == succeeds
      ensures State() == if ok then old(State()).Logged(Listen(port, data)) else old(State())
    {
      ok := succeeds;
      if ok {
        trace := trace + [Listen(port, data)];
      }
    }

    /** accept() on a live passive socket, for the control or for the data connection. */
    method Accept(listener: int, offered: int, data: bool) returns (fd: int)
      modifies this
      ensures listener in old(open) && old(State()).Fresh(offered) ==>
                && fd == offered
                && State() == old(State()).Opened(fd).Logged(if data then Accepted(fd) else Session(fd))
      ensures !(listener in old(open) && old(State()).Fresh(offered)) ==> fd == -1 && State() == old(State())
    {
      if listener in open && State().Fresh(offered) {
        fd := offered;
        open := open + {fd};
        trace := trace + [if data then Accepted(fd) else Session(fd)];
      } else {
        fd := -1;
      }
    }

    /** shutdown(): fails on a number that is not a live socket. */
    method Shutdown(fd: int, o: Oracle) returns (ok: bool)
      ensures ok <==> fd in open && o.shutdown(fd)
    {
      ok := fd in open && o.shutdown(fd);
    }

    method Close(fd: int)
      modifies this
      ensures State() == old(State()).Closed(fd)
    {
      if fd != -1 {
        if fd in open {
          open := open - {fd};
        } else {
          stray := stray + [fd];
        }
      }
    }

    /** A complete request line has arrived. */
    method Receives(line: string)
      modifies this
      ensures State() == old(State()).Logged(Command(line))
    {
      trace := trace + [Command(line)];
    }

    /** write() of a reply. */
    method WriteReply(sock: int, text: string, succeeds: bool) returns (ok: bool)
      modifies this
      ensures ok == succeeds && State() == old(State()).Logged(Control(sock, text, succeeds))
    {
      trace := trace + [Control(sock, text, succeeds)];
      ok := succeeds;
    }

    /** write() on the data connection: -1, or the number of bytes taken. */
    method WriteData(sock: int, bytes: string, offered: int) returns (sent: int)
      modifies this
      ensures sent == WriteResult(offered, |bytes|)
      ensures State() == if sent == -1 then old(State()) else old(State()).Logged(Data(sock, bytes[..sent]))
    {
      sent := WriteResult(offered, |bytes|);
      if sent != -1 {
        trace := trace + [Data(sock, bytes[..sent])];
      }
    }
  }
}
