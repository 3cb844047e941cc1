/** What the reader makes of any header: foreign lines, several lengths, malformed ones (transport.go). */
module FramingHeaders {
  import opened Outcomes
  import opened Decimal
  import opened Text
  import opened Framing
  import opened FramingTheorems

  /** A line with its newline. */
  predicate IsLine(line: string) {
    line != "" && line[|line| - 1] == '\n' && '\n' !in line[..|line| - 1]
  }

  predicate IsHeaderLine(line: string) {
    IsLine(line) && !Blank(line)
  }

  predicate IsBlankLine(line: string) {
    IsLine(line) && Blank(line)
  }

  predicate Field(line: string, name: string, value: string) {
    line == name + ":" + value && ':' !in name
  }

  predicate IsLengthName(name: string) {
    EqualFold(TrimSpace(name), "Content-Length")
  }

  /** The line carries a length, in whatever case its name is written; `v` is None when its value is no number. */
  ghost predicate CarriesLength(line: string, v: Option<int>) {
    exists name, value :: Field(line, name, value) && IsLengthName(name) && v == Atoi(TrimSpace(value))
  }

  /** The line has no name, or another one. */
  ghost predicate Foreign(line: string) {
    ':' !in line || exists name, value :: Field(line, name, value) && !IsLengthName(name)
  }

  ghost predicate Readable(line: string) {
    Foreign(line) || exists n: int :: CarriesLength(line, Some(n))
  }

  function Concat(lines: seq<string>): string {
    if lines == [] then "" else lines[0] + Concat(lines[1..])
  }

  // ---------------------------------------------------------------------------------------
  // One line
  // ---------------------------------------------------------------------------------------

  lemma FieldFound(line: string, name: string, value: string, n: int)
    requires Field(line, name, value)
    ensures LengthAfter(line, n) == if IsLengthName(name) then Atoi(TrimSpace(value)) else Some(n)
  {
    IndexOfFirst(name, ':', value);
    assert line == name + [':'] + value;
    assert line[..|name|] == name && line[|name| + 1..] == value;
  }

  lemma CarriedIsRead(line: string, v: Option<int>, n: int)
    requires CarriesLength(line, v)
    ensures LengthAfter(line, n) == v
  {
    var name, value :| Field(line, name, value) && IsLengthName(name) && v == Atoi(TrimSpace(value));
    FieldFound(line, name, value, n);
  }

  lemma ForeignIsSkipped(line: string, n: int)
    requires Foreign(line)
    ensures LengthAfter(line, n) == Some(n)
  {
    if ':' !in line {
      IndexOfAbsent(line, ':');
    } else {
      var name, value :| Field(line, name, value) && !IsLengthName(name);
      FieldFound(line, name, value, n);
    }
  }

  lemma ReadableIsRead(line: string, n: int)
    requires Readable(line)
    ensures LengthAfter(line, n).Some?
  {
    if Foreign(line) {
      ForeignIsSkipped(line, n);
    } else {
      var v: int :| CarriesLength(line, Some(v));
      CarriedIsRead(line, Some(v), n);
    }
  }

  lemma LineKeepsSuffix(line: string)
    requires IsLine(line)
    ensures TrimSuffix(line, "\r") == line
  {
  }

  lemma OneHeaderLine(line: string, rest: string, n: int)
    requires IsHeaderLine(line)
    ensures
      ReadHeader(line + rest, n) ==
      if LengthAfter(line, n).None? then (Bad(BadLength), rest) else ReadHeader(rest, LengthAfter(line, n).value)
  {
    FirstLine(line, rest);
    LineKeepsSuffix(line);
  }

  lemma EndOfHeader(line: string, rest: string, n: int)
    requires IsBlankLine(line)
    ensures ReadHeader(line + rest, n) == (Ok(n), rest)
  {
    FirstLine(line, rest);
    LineKeepsSuffix(line);
  }

  // ---------------------------------------------------------------------------------------
  // Whole headers
  // ---------------------------------------------------------------------------------------

  lemma {:induction false} ForeignLinesSkipped(lines: seq<string>, rest: string, n: int)
    requires forall i :: 0 <= i < |lines| ==> IsHeaderLine(lines[i]) && Foreign(lines[i])
    ensures ReadHeader(Concat(lines) + rest, n) == ReadHeader(rest, n)
  {
    if lines == [] {
      assert Concat(lines) + rest == rest;
    } else {
      Regroup(lines[0], Concat(lines[1..]), rest);
      OneHeaderLine(lines[0], Concat(lines[1..]) + rest, n);
      ForeignIsSkipped(lines[0], n);
      ForeignLinesSkipped(lines[1..], rest, n);
    }
  }

  lemma Regroup(a: string, b: string, c: string)
    ensures a + b + c == a + (b + c)
  {
  }

  /** After readable lines the reader stands at the next one, with some length. */
  lemma {:induction false} ReadableLinesRead(lines: seq<string>, rest: string, n: int) returns (v: int)
    requires forall i :: 0 <= i < |lines| ==> IsHeaderLine(lines[i]) && Readable(lines[i])
    ensures ReadHeader(Concat(lines) + rest, n) == ReadHeader(rest, v)
  {
    v := n;
    if lines == [] {
      assert Concat(lines) + rest == rest;
    } else {
      Regroup(lines[0], Concat(lines[1..]), rest);
      OneHeaderLine(lines[0], Concat(lines[1..]) + rest, n);
      ReadableIsRead(lines[0], n);
      v := ReadableLinesRead(lines[1..], rest, LengthAfter(lines[0], n).value);
    }
  }

  /** The last length of a header counts, whatever other lines stand around it. */
  lemma LastLengthCounts(before: seq<string>, line: string, after: seq<string>, blank: string, rest: string, v: int)
    requires forall i :: 0 <= i < |before| ==> IsHeaderLine(before[i]) && Readable(before[i])
    requires forall i :: 0 <= i < |after| ==> IsHeaderLine(after[i]) && Foreign(after[i])
    requires IsHeaderLine(line) && CarriesLength(line, Some(v)) && IsBlankLine(blank)
    ensures
      ReadOne(Concat(before) + (line + (Concat(after) + (blank + rest)))) ==
      if v <= 0 then (Bad(MissingLength), rest)
      else if v <= |rest| then (Ok(rest[..v]), rest[v..])
      else (Bad(if rest == "" then EndOfStream else UnexpectedEnd), "")
  {
    var tail := Concat(after) + (blank + rest);
    var n := ReadableLinesRead(before, line + tail, 0);
    OneHeaderLine(line, tail, n);
    CarriedIsRead(line, Some(v), n);
    ForeignLinesSkipped(after, blank + rest, v);
    EndOfHeader(blank, rest, v);
  }

  /** A header without a length is refused. */
  lemma NoLengthRefused(lines: seq<string>, blank: string, rest: string)
    requires forall i :: 0 <= i < |lines| ==> IsHeaderLine(lines[i]) && Foreign(lines[i])
    requires IsBlankLine(blank)
    ensures ReadOne(Concat(lines) + (blank + rest)) == (Bad(MissingLength), rest)
  {
    ForeignLinesSkipped(lines, blank + rest, 0);
    EndOfHeader(blank, rest, 0);
  }

  /** The first length that is no number ends the reading, with everything after its line unread. */
  lemma MalformedLengthStops(before: seq<string>, line: string, rest: string)
    requires forall i :: 0 <= i < |before| ==> IsHeaderLine(before[i]) && Readable(before[i])
    requires IsHeaderLine(line) && CarriesLength(line, None)
    ensures ReadOne(Concat(before) + (line + rest)) == (Bad(BadLength), rest)
  {
    var n := ReadableLinesRead(before, line + rest, 0);
    OneHeaderLine(line, rest, n);
    CarriedIsRead(line, None, n);
  }

  /** Every line is of one of these kinds. */
  lemma LineKinds(line: string)
    ensures Readable(line) || CarriesLength(line, None)
  {
    var colon := IndexOf(line, ':');
    if colon.Some? {
      var name, value := line[..colon.value], line[colon.value + 1..];
      assert line == name + ":" + value;
      assert Field(line, name, value);
      if IsLengthName(name) {
        assert CarriesLength(line, Atoi(TrimSpace(value)));
      }
    }
  }

  // ---------------------------------------------------------------------------------------
  // Numbers
  // ---------------------------------------------------------------------------------------

  /** `s` is an optional sign and digits that stand for `v`. */
  predicate Denotes(s: string, digits: string, v: int) {
    && digits != "" && AllDigits(digits)
    && ((s == digits && v == Value(digits)) || (s == "+" + digits && v == Value(digits)) || (s == "-" + digits && v + Value(digits) == 0))
  }

  /** A number is read exactly when it is an optional sign and digits, within the 64-bit range. */
  lemma AtoiIff(s: string, v: int)
    ensures Atoi(s) == Some(v) <==> -0x8000_0000_0000_0000 <= v <= 0x7fff_ffff_ffff_ffff && exists digits :: Denotes(s, digits, v)
  {
    var signed := s != "" && (s[0] == '-' || s[0] == '+');
    var digits := if signed then s[1..] else s;
    if signed { assert s == [s[0]] + digits; }
    if Atoi(s) == Some(v) { assert Denotes(s, digits, v); }
    if ds :| Denotes(s, ds, v) {
      assert IsDigit(ds[0]);
      if s == ds { assert s[0] == ds[0]; } else { assert s[1..] == ds; }
      assert ds == digits;
    }
  }
}
