/** Reading back what was written, whole or cut short. */
module FramingTheorems {
  import opened Outcomes
  import opened Decimal
  import opened Text
  import opened Framing

  const NAME := "Content-Length"

  lemma IndexOfAbsent(s: string, c: char)
    requires c !in s
    ensures IndexOf(s, c).None?
  {
  }

  lemma PrintIsPlain(n: nat)
    ensures forall i :: 0 <= i < |Print(n)| ==> IsDigit(Print(n)[i])
    ensures '\n' !in Print(n) && ':' !in Print(n) && Print(n) != ""
  {
    PrintThenRead(n);
  }

  /** Trimming the value part of the header line gives the digits back. */
  lemma TrimValue(digits: string)
    requires digits != "" && forall i :: 0 <= i < |digits| ==> !IsSpace(digits[i])
    ensures TrimSpace(" " + digits + "\r\n") == digits
  {
    var s := " " + digits + "\r\n";
    assert s[1..] == digits + "\r\n";
    assert TrimLeft(s) == TrimLeft(digits + "\r\n") == digits + "\r\n";
    var t := digits + "\r\n";
    assert t[..|t| - 1] == digits + "\r";
    assert (digits + "\r")[..|digits|] == digits;
    assert TrimRight(t) == TrimRight(digits + "\r") == TrimRight(digits) == digits;
  }

  lemma AtoiOfPrint(n: nat)
    requires n <= MAX_INT
    ensures Atoi(Print(n)) == Some(n)
  {
    PrintThenRead(n);
  }

  function LengthLine(n: nat): string {
    NAME + ":" + (" " + Print(n) + "\r\n")
  }

  lemma LengthLineRead(n: nat, m: int)
    requires n <= MAX_INT
    ensures LengthAfter(LengthLine(n), m) == Some(n) && TrimSpace(LengthLine(n)) != "" && TrimSuffix(LengthLine(n), "\r") == LengthLine(n)
  {
    PrintIsPlain(n);
    var line := LengthLine(n);
    var tail := " " + Print(n) + "\r\n";
    assert line == NAME + [':'] + tail;
    IndexOfFirst(NAME, ':', tail);
    assert line[..14] == NAME && line[15..] == tail;
    TrimName();
    TrimValue(Print(n));
    AtoiOfPrint(n);
    NotBlank(line);
    assert line[|line| - 1] == '\n';
  }

  lemma TrimName()
    ensures TrimSpace(NAME) == NAME && EqualFold(NAME, NAME)
  {
    assert !IsSpace(NAME[0]) && !IsSpace(NAME[|NAME| - 1]);
  }

  lemma NotBlank(s: string)
    requires s != "" && !IsSpace(s[0])
    ensures TrimSpace(s) != ""
  {
    KeepsFirst(s);
  }

  lemma {:induction false} KeepsFirst(s: string)
    requires s != "" && !IsSpace(s[0])
    ensures TrimRight(s) != "" && TrimRight(s)[0] == s[0]
  {
    if IsSpace(s[|s| - 1]) { KeepsFirst(s[..|s| - 1]); }
  }

  lemma BlankLine()
    ensures TrimSpace(TrimSuffix("\r\n", "\r")) == ""
  {
    assert "\r\n"[1..] == "\n";
    assert "\n"[1..] == "";
    assert TrimLeft("\r\n") == TrimLeft("\n") == TrimLeft("") == "";
  }

  lemma HeaderSplit(n: nat)
    ensures Header(n) == LengthLine(n) + "\r\n"
    ensures LengthLine(n) == NAME + ":" + " " + Print(n) + "\r" + "\n"
  {
    assert "Content-Length: " == NAME + ":" + " ";
    assert "\r\n\r\n" == "\r\n" + "\r\n";
    assert "\r\n" == "\r" + "\n";
    assert Header(n) == NAME + ":" + " " + Print(n) + "\r\n" + "\r\n";
    assert LengthLine(n) == NAME + ":" + " " + Print(n) + "\r\n";
    assert NAME + ":" + " " + Print(n) + ("\r" + "\n") == NAME + ":" + " " + Print(n) + "\r" + "\n";
  }

  /** Reading a line that stands at the head of the stream. */
  lemma FirstLine(line: string, rest: string)
    requires line != "" && line[|line| - 1] == '\n' && '\n' !in line[..|line| - 1]
    ensures IndexOf(line + rest, '\n') == Some(|line| - 1)
    ensures (line + rest)[..|line|] == line && (line + rest)[|line|..] == rest
  {
    var pre := line[..|line| - 1];
    assert line == pre + ['\n'];
    assert line + rest == pre + ['\n'] + rest;
    IndexOfFirst(pre, '\n', rest);
  }

  lemma LengthLineEnds(n: nat)
    ensures LengthLine(n) != "" && LengthLine(n)[|LengthLine(n)| - 1] == '\n' && '\n' !in LengthLine(n)[..|LengthLine(n)| - 1]
  {
    PrintIsPlain(n);
    HeaderSplit(n);
    var pre := NAME + ":" + " " + Print(n) + "\r";
    assert LengthLine(n) == pre + "\n";
    assert LengthLine(n)[..|LengthLine(n)| - 1] == pre;
  }

  /** The header of a body of length `n`, followed by anything, is read as `n`. */
  lemma HeaderRead(n: nat, rest: string)
    requires n <= MAX_INT
    ensures ReadHeader(Header(n) + rest, 0) == (Ok(n), rest)
  {
    HeaderSplit(n);
    var line := LengthLine(n);
    assert Header(n) + rest == line + ("\r\n" + rest);
    LengthLineEnds(n);
    FirstLine(line, "\r\n" + rest);
    LengthLineRead(n, 0);
    assert ReadHeader(Header(n) + rest, 0) == ReadHeader("\r\n" + rest, n);
    BlankLine();
    assert "\r\n"[..1] == "\r";
    FirstLine("\r\n", rest);
  }

  /** One message written is one message read, with the rest of the stream untouched. */
  lemma WriteThenReadOne(body: string, rest: string)
    requires 0 < |body| <= MAX_INT
    ensures ReadOne(Wire(body) + rest) == (Ok(body), rest)
  {
    assert Wire(body) + rest == Header(|body|) + (body + rest);
    HeaderRead(|body|, body + rest);
  }

  lemma EmptyBodyUnreadable(rest: string)
    ensures ReadOne(Wire("") + rest).0 == Bad(MissingLength)
  {
    assert Wire("") + rest == Header(0) + rest;
    HeaderRead(0, rest);
  }

  lemma ReadAllStep(body: string, rest: string)
    requires 0 < |body| <= MAX_INT
    ensures ReadAll(Wire(body) + rest) == ([body] + ReadAll(rest).0, ReadAll(rest).1)
  {
    WriteThenReadOne(body, rest);
  }

  predicate AllSendable(bodies: seq<string>) {
    forall i :: 0 <= i < |bodies| ==> |bodies[i]| <= MAX_INT
  }

  predicate NoneEmpty(bodies: seq<string>) {
    forall i :: 0 <= i < |bodies| ==> bodies[i] != ""
  }

  lemma WireAllStep(bodies: seq<string>)
    requires bodies != [] && AllSendable(bodies) && bodies[0] != ""
    ensures ReadAll(WireAll(bodies)) == ([bodies[0]] + ReadAll(WireAll(bodies[1..])).0, ReadAll(WireAll(bodies[1..])).1)
  {
    ReadAllStep(bodies[0], WireAll(bodies[1..]));
  }

  lemma WireAllStuck(bodies: seq<string>)
    requires bodies != [] && bodies[0] == ""
    ensures ReadAll(WireAll(bodies)) == ([], MissingLength)
  {
    EmptyBodyUnreadable(WireAll(bodies[1..]));
  }

  lemma ConsEqual(x: string, tail: seq<string>, xs: seq<string>)
    requires xs != [] && xs[0] == x
    ensures [x] + tail == xs <==> tail == xs[1..]
  {
    assert ([x] + tail)[1..] == tail;
    assert [x] + xs[1..] == xs;
  }

  lemma NothingToRead()
    ensures ReadAll("") == ([], EndOfStream)
  {
    assert IndexOf("", '\n').None?;
  }

  /** Everything written is read back in order and then the stream ends, exactly when no body is empty. */
  lemma {:induction false} RoundTrip(bodies: seq<string>)
    requires AllSendable(bodies)
    ensures ReadAll(WireAll(bodies)) == (bodies, EndOfStream) <==> NoneEmpty(bodies)
  {
    if bodies == [] {
      NothingToRead();
    } else if bodies[0] == "" {
      WireAllStuck(bodies);
    } else {
      RoundTrip(bodies[1..]);
      WireAllStep(bodies);
      ConsEqual(bodies[0], ReadAll(WireAll(bodies[1..])).0, bodies);
      assert NoneEmpty(bodies) <==> NoneEmpty(bodies[1..]);
    }
  }

  // ---------------------------------------------------------------------------------------
  // Streams cut short
  // ---------------------------------------------------------------------------------------

  /** A header cut anywhere before its end is the end of the stream. */
  lemma CutHeader(n: nat, cut: nat)
    requires n <= MAX_INT && cut < |Header(n)|
    ensures ReadHeader(Header(n)[..cut], 0).0 == Bad(EndOfStream)
  {
    HeaderSplit(n);
    LengthLineEnds(n);
    var line := LengthLine(n);
    var s := Header(n)[..cut];
    if cut < |line| {
      assert s == line[..cut];
      assert '\n' !in s by {
        forall i | 0 <= i < |s| ensures s[i] != '\n' { assert s[i] == line[..|line| - 1][i]; }
      }
      IndexOfAbsent(s, '\n');
    } else {
      var tail := "\r\n"[..cut - |line|];
      assert s == line + tail;
      FirstLine(line, tail);
      LengthLineRead(n, 0);
      assert tail == "" || tail == "\r";
      IndexOfAbsent(tail, '\n');
    }
  }

  /** One message cut before its end: unexpected exactly when part of the body, but not all, is there. */
  lemma CutMessage(body: string, cut: nat)
    requires 0 < |body| <= MAX_INT && cut < |Wire(body)|
    ensures ReadOne(Wire(body)[..cut]).0 == Bad(if |Header(|body|)| < cut then UnexpectedEnd else EndOfStream)
  {
    var h := Header(|body|);
    if cut < |h| {
      assert Wire(body)[..cut] == h[..cut];
      CutHeader(|body|, cut);
    } else {
      assert Wire(body)[..cut] == h + body[..cut - |h|];
      HeaderRead(|body|, body[..cut - |h|]);
    }
  }

  /** How many messages lie wholly before position `cut`. */
  function WholeBefore(bodies: seq<string>, cut: nat): nat {
    if bodies == [] || cut < |Wire(bodies[0])| then 0
    else 1 + WholeBefore(bodies[1..], cut - |Wire(bodies[0])|)
  }

  /** Whether `cut` falls inside a body, past its first byte and before its last. */
  predicate InsideBody(bodies: seq<string>, cut: nat) {
    bodies != [] &&
    if cut < |Wire(bodies[0])| then |Header(|bodies[0]|)| < cut
    else InsideBody(bodies[1..], cut - |Wire(bodies[0])|)
  }

  function Ending(bodies: seq<string>, cut: nat): ReadError {
    if InsideBody(bodies, cut) then UnexpectedEnd else EndOfStream
  }

  lemma CutInFirst(bodies: seq<string>, cut: nat)
    requires bodies != [] && AllSendable(bodies) && bodies[0] != "" && cut < |Wire(bodies[0])|
    ensures cut <= |WireAll(bodies)| && ReadAll(WireAll(bodies)[..cut]) == ([], Ending(bodies, cut))
  {
    assert WireAll(bodies)[..cut] == Wire(bodies[0])[..cut];
    CutMessage(bodies[0], cut);
  }

  lemma CutLater(bodies: seq<string>, cut: nat)
    requires bodies != [] && AllSendable(bodies) && bodies[0] != "" && |Wire(bodies[0])| <= cut <= |WireAll(bodies)|
    ensures
      var tail := ReadAll(WireAll(bodies[1..])[..cut - |Wire(bodies[0])|]);
      ReadAll(WireAll(bodies)[..cut]) == ([bodies[0]] + tail.0, tail.1)
  {
    var rest := WireAll(bodies[1..]);
    TakeAcross(Wire(bodies[0]), rest, cut);
    ReadAllStep(bodies[0], rest[..cut - |Wire(bodies[0])|]);
  }

  lemma TakeAcross(a: string, b: string, cut: nat)
    requires |a| <= cut <= |a| + |b|
    ensures (a + b)[..cut] == a + b[..cut - |a|]
  {
  }

  /** A cut past the first message lies as far into the others. */
  lemma OneMore(bodies: seq<string>, cut: nat)
    requires bodies != [] && |Wire(bodies[0])| <= cut
    ensures
      var rest := cut - |Wire(bodies[0])|;
      && WholeBefore(bodies, cut) == 1 + WholeBefore(bodies[1..], rest) && Ending(bodies, cut) == Ending(bodies[1..], rest)
      && (WholeBefore(bodies[1..], rest) < |bodies| ==>
            [bodies[0]] + bodies[1..][..WholeBefore(bodies[1..], rest)] == bodies[..WholeBefore(bodies, cut)])
  {
  }

  /**
   A truncated stream yields exactly the messages that lie wholly before the cut, never a wrong body,
   and then an error; the error tells the truncation from a clean end exactly when the cut is inside a body.
   */
  lemma {:induction false} Truncation(bodies: seq<string>, cut: nat)
    requires AllSendable(bodies) && NoneEmpty(bodies) && cut <= |WireAll(bodies)|
    ensures WholeBefore(bodies, cut) <= |bodies|
    ensures ReadAll(WireAll(bodies)[..cut]) == (bodies[..WholeBefore(bodies, cut)], Ending(bodies, cut))
  {
    if bodies == [] {
      NothingToRead();
    } else if cut < |Wire(bodies[0])| {
      CutInFirst(bodies, cut);
    } else {
      var rest := cut - |Wire(bodies[0])|;
      assert AllSendable(bodies[1..]) && NoneEmpty(bodies[1..]) && rest <= |WireAll(bodies[1..])|;
      Truncation(bodies[1..], rest);
      CutLater(bodies, cut);
      OneMore(bodies, cut);
    }
  }
}
