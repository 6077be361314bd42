/** How the client reads the bytes of the control connection: section 4.2 of RFC 959. */
module Wire {
  import opened Text
  import opened Paths
  import opened HostPort
  import opened Machine
  import opened Dispatch
  import opened Protocol

  /** Length of the first line, its CRLF included. */
  function FirstLine(s: string): (n: nat)
    ensures n <= |s| && (s != "" ==> n > 0)
  {
    if |s| < 2 then |s| else if s[0] == '\r' && s[1] == '\n' then 2 else 1 + FirstLine(s[1..])
  }

  /** Length of the lines up to and including the one that starts with the code and a space. */
  function UpToCode(code: string, s: string): (n: nat)
    ensures n <= |s| && (s != "" ==> n > 0)
    decreases |s|
  {
    if s == "" then 0
    else
      var n := FirstLine(s);
      if code + " " <= s then n else n + UpToCode(code, s[n..])
  }

  /** Length of the first reply: one line, or several if a hyphen follows the code of the first. */
  function ReplyLength(s: string): (n: nat)
    ensures n <= |s| && (s != "" ==> n > 0)
  {
    var n := FirstLine(s);
    if n > 3 && s[3] == '-' then n + UpToCode(s[..3], s[n..]) else n
  }

  /** The replies the client reads in a stream of bytes. */
  function ReadReplies(s: string): seq<string>
    decreases |s|
  {
    if s == "" then []
    else
      var n := ReplyLength(s);
      [s[..n]] + ReadReplies(s[n..])
  }

  function Joined(texts: seq<string>): string {
    if texts == [] then "" else texts[0] + Joined(texts[1..])
  }

  /** However the stream goes on behind it, the text is read as one reply. */
  ghost predicate Whole(text: string) {
    text != "" && forall rest: string :: ReplyLength(text + rest) == |text|
  }

  /** Texts that are whole are read back one by one. */
  lemma {:induction false} WholeTextsRead(texts: seq<string>)
    requires forall x | x in texts :: Whole(x)
    ensures ReadReplies(Joined(texts)) == texts
  {
    if texts != [] {
      var x, rest := texts[0], Joined(texts[1..]);
      assert Whole(x);
      assert ReplyLength(x + rest) == |x|;
      assert (x + rest)[..|x|] == x && (x + rest)[|x|..] == rest;
      WholeTextsRead(texts[1..]);
    }
  }

  // ---------- which texts are whole ----------

  predicate NoCrlf(s: string) {
    forall i | 0 <= i < |s| - 1 :: !(s[i] == '\r' && s[i + 1] == '\n')
  }

  lemma {:induction false} LineEnds(a: string, b: string)
    requires NoCrlf(a)
    ensures FirstLine(a + CRLF + b) == |a| + 2
  {
    var s := a + CRLF + b;
    assert CRLF[0] == '\r' && CRLF[1] == '\n' && |CRLF| == 2;
    if a == "" {
      assert s[0] == '\r' && s[1] == '\n';
    } else {
      assert s[1..] == a[1..] + CRLF + b;
      assert s[0] == a[0];
      assert s[1] == if |a| > 1 then a[1] else '\r';
      LineEnds(a[1..], b);
    }
  }

  /** Text with a CRLF inside ends a line there. */
  lemma {:induction false} LineBreaks(a: string)
    requires !NoCrlf(a)
    ensures FirstLine(a + CRLF) <= |a|
  {
    if a[0] != '\r' || a[1] != '\n' {
      var i :| 0 <= i < |a| - 1 && a[i] == '\r' && a[i + 1] == '\n';
      assert a[1..][i - 1] == '\r' && a[1..][i] == '\n';
      LineBreaks(a[1..]);
      assert (a + CRLF)[1..] == a[1..] + CRLF;
    }
  }

  /** A reply line whose code is followed by anything but a hyphen is one reply exactly if no CRLF is inside. */
  lemma OneLineIsWhole(text: string)
    requires |text| > 3 && text[3] != '-'
    ensures Whole(text + CRLF) <==> NoCrlf(text)
  {
    if NoCrlf(text) {
      forall rest: string ensures ReplyLength(text + CRLF + rest) == |text + CRLF| {
        LineEnds(text, rest);
        assert (text + CRLF + rest)[3] == text[3];
      }
    } else {
      LineBreaks(text);
      assert text + CRLF + "" == text + CRLF;
      assert (text + CRLF)[3] == text[3];
      assert ReplyLength(text + CRLF + "") < |text + CRLF|;
    }
  }

  predicate Bare(s: string) {
    '\r' !in s
  }

  lemma {:induction false} NamesBare(table: seq<Command>)
    ensures Bare(Names(table))
    ensures table != [] ==> Names(table) != "" && Names(table)[0] == ' '
  {
    if table != [] {
      NamesBare(table[..|table| - 1]);
      assert Bare(table[|table| - 1].Name());
    }
  }

  lemma HelpParts() returns (h: string, tail: string)
    ensures HelpHead() == h + CRLF && Bare(h) && "214-" <= h
    ensures HelpTail() == CRLF + tail && Bare(tail) && "214 " <= tail
  {
    var a, b := "214-The following commands", " are recognized.";
    h, tail := a + b, "214 Help OK.";
    assert Bare(a) && Bare(b);
    assert a[0] == '2' && a[1] == '1' && a[2] == '4' && a[3] == '-';
    assert HelpHead() == h + CRLF;
  }

  /** A reply of three lines, as HELP gives it. */
  lemma ThreeLines(h: string, names: string, tail: string, rest: string)
    requires NoCrlf(h) && NoCrlf(names) && NoCrlf(tail)
    requires "214-" <= h && names != "" && names[0] == ' ' && "214 " <= tail
    ensures ReplyLength(h + CRLF + (names + CRLF + (tail + CRLF + rest))) == |h| + 2 + |names| + 2 + |tail| + 2
  {
    var last := tail + CRLF + rest;
    var middle := names + CRLF + last;
    var s := h + CRLF + middle;
    LineEnds(h, middle);
    LineEnds(names, last);
    LineEnds(tail, rest);
    hide FirstLine;
    assert s[|h| + 2..] == middle && middle[|names| + 2..] == last;
    assert middle[0] == ' ';
    assert s[3] == h[3] == '-';
    assert s[..3] == "214";
    assert "214" + " " == "214 ";
    assert !("214 " <= middle);
    assert last[..4] == tail[..4] == "214 ";
    assert UpToCode("214", last) == |tail| + 2;
    assert UpToCode("214", middle) == |names| + 2 + UpToCode("214", last);
  }

  /** The reply to HELP takes three lines and is one reply. */
  lemma HelpIsWhole()
    ensures Whole(HelpText() + CRLF)
  {
    var h, tail := HelpParts();
    var names := Names(TABLE);
    NamesBare(TABLE);
    hide HelpHead, HelpTail, Names, ReplyLength;
    forall rest: string ensures ReplyLength(HelpText() + CRLF + rest) == |HelpText() + CRLF| {
      ThreeLines(h, names, tail, rest);
      assert HelpText() + CRLF + rest == h + CRLF + (names + CRLF + (tail + CRLF + rest));
    }
  }

  lemma CodeThenSpace(code: string, rest: string)
    requires |code| == 3 && Bare(code + " " + rest)
    ensures Whole(code + " " + rest + CRLF)
  {
    OneLineIsWhole(code + " " + rest);
  }

  lemma GreetingMessages(n: Notice)
    requires n.Ready? || n.LoggedIn?
    ensures Bare(Message(n))
  {
  }

  lemma LoginMessages(n: Notice)
    requires n.LoginIncorrect? || n.SystemType?
    ensures Bare(Message(n))
  {
  }

  lemma ClosingMessages(n: Notice)
    requires n.Bye? || n.UnknownCommand?
    ensures Bare(Message(n))
  {
  }

  lemma ListingMessages(n: Notice)
    requires n.ListingComes? || n.ListingSent?
    ensures Bare(Message(n))
  {
  }

  lemma RefusalMessages(n: Notice)
    requires n.ListingDenied? || n.NoDirectory?
    ensures Bare(Message(n))
  {
  }

  lemma DirectoryMessages(n: Notice)
    requires n.DirectoryChanged? || n.DirectoryKept?
    ensures Bare(Message(n))
  {
  }

  lemma TransferMessages(n: Notice)
    requires n.NoDataConnection? || n.TransferComplete?
    ensures Bare(Message(n))
  {
  }

  lemma FileMessages(n: Notice)
    requires n.NoFileToSend? || n.NoFileToSize?
    ensures Bare(Message(n))
  {
  }

  lemma ModeMessages(n: Notice)
    requires n.BinaryMode? || n.AsciiMode?
    ensures Bare(Message(n))
  {
  }

  lemma ParameterMessage()
    ensures Bare(Message(BadParameter))
  {
    var a, b := "Command not implemented", " for that parameter.";
    assert Bare(a) && Bare(b);
    assert Message(BadParameter) == a + b;
  }

  lemma ErrorMessage()
    ensures Bare(Message(LocalError))
  {
    var a, b := "Requested action aborted:", " Local error in processing.";
    assert Bare(a) && Bare(b);
    assert Message(LocalError) == a + b;
  }

  lemma MessagesBare(n: Notice)
    ensures Bare(Message(n))
  {
    hide Message, Bare;
    match n {
      case Ready | LoggedIn => GreetingMessages(n);
      case LoginIncorrect | SystemType => LoginMessages(n);
      case Bye | UnknownCommand => ClosingMessages(n);
      case ListingComes | ListingSent => ListingMessages(n);
      case ListingDenied | NoDirectory => RefusalMessages(n);
      case DirectoryChanged | DirectoryKept => DirectoryMessages(n);
      case NoDataConnection | TransferComplete => TransferMessages(n);
      case NoFileToSend | NoFileToSize => FileMessages(n);
      case BinaryMode | AsciiMode => ModeMessages(n);
      case BadParameter => ParameterMessage();
      case LocalError => ErrorMessage();
    }
  }

  lemma NoticeIsWhole(n: Notice)
    ensures Whole(Wording(n) + CRLF)
  {
    MessagesBare(n);
    hide Message, Whole;
    assert Bare(Code(n));
    hide Code;
    CodeThenSpace(Code(n), Message(n));
  }

  lemma DigitsBare(n: nat)
    ensures Bare(Dec(n))
  {
    assert forall i | 0 <= i < |Dec(n)| :: IsDigit(Dec(n)[i]);
  }

  lemma SizeIsWhole(n: nat)
    ensures Whole("213 " + Dec(n) + CRLF)
  {
    DigitsBare(n);
    hide Dec, Whole;
    assert "213" + " " + Dec(n) == "213 " + Dec(n);
    CodeThenSpace("213", Dec(n));
  }

  lemma QuadBare(a: Address)
    ensures Bare(Quad(a))
  {
    DigitsBare(a.h1);
    DigitsBare(a.h2);
    DigitsBare(a.h3);
    DigitsBare(a.h4);
    hide Dec;
  }

  lemma HostPortBare(a: Address, port: nat)
    ensures Bare(HostPortText(Quad(a), port))
  {
    QuadBare(a);
    DigitsBare(port / 256);
    DigitsBare(port % 256);
    hide Dec, Quad;
  }

  lemma PassiveIsWhole(ip: string)
    requires ValidIp(ip)
    ensures Whole(PassiveReply(ip, PASV_PORT) + CRLF)
  {
    var a :| ip == Quad(a);
    HostPortBare(a, PASV_PORT);
    hide Whole, Quad, HostPortText, NoCrlf;
    var head, text, tail := "227 Entering Passive Mode (", HostPortText(ip, PASV_PORT), ").";
    assert Bare(head) && head[3] == ' ';
    assert Bare(tail) && tail[0] != '\n';
    BareText(text);
    hide Bare;
    Embedded(head, text, tail);
    OneLineIsWhole(head + text + tail);
  }

  lemma BareText(s: string)
    requires Bare(s)
    ensures NoCrlf(s)
  {
  }

  lemma Embedded(head: string, s: string, tail: string)
    requires Bare(head) && Bare(tail) && tail != "" && tail[0] != '\n'
    ensures NoCrlf(head + s + tail) <==> NoCrlf(s)
  {
    var t := head + s + tail;
    assert forall i | 0 <= i < |s| :: t[|head| + i] == s[i];
    if NoCrlf(t) {
      forall i | 0 <= i < |s| - 1 ensures !(s[i] == '\r' && s[i + 1] == '\n') {
        assert s[i] == t[|head| + i] && s[i + 1] == t[|head| + i + 1];
      }
    }
  }

  /** The reply to PWD is one reply exactly if the path it shows holds no CRLF. */
  lemma PathReplyIsWhole(path: string)
    ensures Whole("257 \"" + path + "\"" + CRLF) <==> NoCrlf(path)
  {
    hide Whole, NoCrlf;
    Embedded("257 \"", path, "\"");
    OneLineIsWhole("257 \"" + path + "\"");
  }

  /** The announcement of RETR is one reply exactly if the argument it repeats holds no CRLF. */
  lemma AnnouncementIsWhole(binary: bool, arg: string)
    ensures Whole(Announcement(binary, arg) + CRLF) <==> NoCrlf(CStr(arg))
  {
    AnnouncedBare(binary);
    hide Whole, NoCrlf, CStr, Announced;
    Embedded(Announced(binary), CStr(arg), ".");
    OneLineIsWhole(Announcement(binary, arg));
  }

  lemma AnnouncedBare(binary: bool)
    ensures var s := Announced(binary); Bare(s) && |s| > 3 && s[3] == ' '
  {
  }

  /**
   * An argument of RETR with a CRLF inside is repeated as it is: the client reads what stands behind the CRLF
   * as a reply of its own, between the announcement and the final reply.
   */
  lemma EchoReadAsReply(binary: bool, a: string, b: string, last: string)
    requires NulFree(a) && NulFree(b) && NoCrlf(a) && NoCrlf(b + ".") && Whole(last)
    requires |b| > 2 && (b + ".")[3] != '-'
    ensures var announced := Announcement(binary, a + CRLF + b) + CRLF;
            ReadReplies(Joined([announced, last])) == [Announced(binary) + a + CRLF, b + "." + CRLF, last]
  {
    EchoText(binary, a, b);
    EchoLine(binary, a);
    AnnouncedBare(binary);
    hide Whole, CStr, Announced, ReadReplies, Announcement;
    OneLineIsWhole(Announced(binary) + a);
    OneLineIsWhole(b + ".");
    hide NoCrlf;
    ThreeTexts(Announced(binary) + a + CRLF, b + "." + CRLF, last);
    TwoTexts(Announcement(binary, a + CRLF + b) + CRLF, last);
    ConcatAssociates(Announced(binary) + a + CRLF, b + "." + CRLF, last);
  }

  lemma EchoText(binary: bool, a: string, b: string)
    requires NulFree(a) && NulFree(b)
    ensures Announcement(binary, a + CRLF + b) + CRLF == Announced(binary) + a + CRLF + (b + "." + CRLF)
  {
    var arg := a + CRLF + b;
    CStrUnique(arg, arg);
    hide Announced, CStr;
  }

  lemma EchoLine(binary: bool, a: string)
    requires NoCrlf(a)
    ensures NoCrlf(Announced(binary) + a)
  {
    AnnouncedBare(binary);
    hide Announced;
    Embedded(Announced(binary), a, ".");
    PrefixNoCrlf(Announced(binary) + a, ".");
  }

  lemma TwoTexts(x: string, y: string)
    ensures Joined([x, y]) == x + y
  {
    assert [x, y][1..] == [y] && [y][1..] == [];
    assert Joined([y]) == y + "" == y;
  }

  lemma ThreeTexts(x: string, y: string, z: string)
    requires Whole(x) && Whole(y) && Whole(z)
    ensures ReadReplies(x + (y + z)) == [x, y, z]
  {
    hide Whole, ReadReplies;
    var texts := [x, y, z];
    assert texts[1..] == [y, z] && [y, z][1..] == [z] && [z][1..] == [];
    assert Joined([z]) == z + "" == z;
    assert Joined([y, z]) == y + z;
    WholeTextsRead(texts);
  }

  lemma PrefixNoCrlf(a: string, b: string)
    requires NoCrlf(a + b)
    ensures NoCrlf(a)
  {
    forall i | 0 <= i < |a| - 1 ensures !(a[i] == '\r' && a[i + 1] == '\n') {
      assert a[i] == (a + b)[i] && a[i + 1] == (a + b)[i + 1];
    }
  }
}
