/** The command table of src/common/vsftp_commands.c and the search through it. */
module Dispatch {
  import opened Text

  datatype Command = User | Syst | Pasv | Nlst | Pwd | Cwd | Retr | Size | Type | Help | Quit {
    function Name(): (name: string)
      ensures 3 <= |name| <= 4 && NulFree(name)
    {
      match this
      case User => "USER"
      case Syst => "SYST"
      case Pasv => "PASV"
      case Nlst => "NLST"
      case Pwd => "PWD"
      case Cwd => "CWD"
      case Retr => "RETR"
      case Size => "SIZE"
      case Type => "TYPE"
      case Help => "HELP"
      case Quit => "QUIT"
    }
  }

  const TABLE := [User, Syst, Pasv, Nlst, Pwd, Cwd, Retr, Size, Type, Help, Quit]

  /** The first entry whose name starts the line. */
  function Find(table: seq<Command>, line: string): (c: Option<Command>)
    ensures c.Some? ==> c.value in table && c.value.Name() <= line
  {
    if table == [] then None
    else if table[0].Name() <= line then Some(table[0])
    else Find(table[1..], line)
  }

  /** What the handler is passed: everything behind the name and one separator character. */
  function Argument(c: Command, line: string): (arg: string)
    requires c.Name() <= line
    ensures |line| > |c.Name()| ==> line == c.Name() + [line[|c.Name()|]] + arg
    ensures |line| == |c.Name()| ==> arg == ""
  {
    if |line| > |c.Name()| then line[|c.Name()| + 1..] else ""
  }

  lemma AtMostOneName(a: Command, b: Command, line: string)
    requires a.Name() <= line && b.Name() <= line
    ensures a == b
  {
    var n, m := a.Name(), b.Name();
    assert n[0] == line[0] == m[0] && n[1] == line[1] == m[1] && n[2] == line[2] == m[2];
  }

  lemma {:induction false} FindsTheName(table: seq<Command>, line: string, c: Command)
    ensures Find(table, line) == Some(c) <==> c in table && c.Name() <= line
  {
    if table != [] {
      FindsTheName(table[1..], line, c);
      if table[0].Name() <= line && c.Name() <= line {
        AtMostOneName(table[0], c, line);
      }
    }
  }

  /** The order of the table does not matter, nor do duplicates. */
  lemma TableOrderIrrelevant(s: seq<Command>, t: seq<Command>, line: string)
    requires forall c :: c in s <==> c in t
    ensures Find(s, line) == Find(t, line)
  {
    if Find(s, line).Some? {
      FindsTheName(t, line, Find(s, line).value);
      FindsTheName(s, line, Find(s, line).value);
    }
    if Find(t, line).Some? {
      FindsTheName(s, line, Find(t, line).value);
      FindsTheName(t, line, Find(t, line).value);
    }
  }

  /** What stands behind a word of n letters and one separating character. */
  function Behind(line: string, n: nat): string {
    if |line| > n then line[n + 1..] else ""
  }

  /** Which words select which command: a line runs the one it starts with, and none if it starts with none. */
  lemma Words(line: string)
    ensures Find(TABLE, line) == Some(User) <==> "USER" <= line
    ensures Find(TABLE, line) == Some(Syst) <==> "SYST" <= line
    ensures Find(TABLE, line) == Some(Pasv) <==> "PASV" <= line
    ensures Find(TABLE, line) == Some(Nlst) <==> "NLST" <= line
    ensures Find(TABLE, line) == Some(Pwd) <==> "PWD" <= line
    ensures Find(TABLE, line) == Some(Cwd) <==> "CWD" <= line
    ensures Find(TABLE, line) == Some(Retr) <==> "RETR" <= line
    ensures Find(TABLE, line) == Some(Size) <==> "SIZE" <= line
    ensures Find(TABLE, line) == Some(Type) <==> "TYPE" <= line
    ensures Find(TABLE, line) == Some(Help) <==> "HELP" <= line
    ensures Find(TABLE, line) == Some(Quit) <==> "QUIT" <= line
    ensures Find(TABLE, line) == None <==>
      !("USER" <= line) && !("SYST" <= line) && !("PASV" <= line) && !("NLST" <= line) && !("PWD" <= line)
      && !("CWD" <= line) && !("RETR" <= line) && !("SIZE" <= line) && !("TYPE" <= line) && !("HELP" <= line)
      && !("QUIT" <= line)
  {
    FindsTheName(TABLE, line, User);
    FindsTheName(TABLE, line, Syst);
    FindsTheName(TABLE, line, Pasv);
    FindsTheName(TABLE, line, Nlst);
    FindsTheName(TABLE, line, Pwd);
    FindsTheName(TABLE, line, Cwd);
    FindsTheName(TABLE, line, Retr);
    FindsTheName(TABLE, line, Size);
    FindsTheName(TABLE, line, Type);
    FindsTheName(TABLE, line, Help);
    FindsTheName(TABLE, line, Quit);
    hide Find;
  }
}
