/**
Content-Length framing of the MCP stdio transport (transport.go). A string is a string of bytes.
*/
module Framing {
  import opened Outcomes
  import opened Decimal
  import opened Text

  datatype ReadError = EndOfStream | UnexpectedEnd | BadLength | MissingLength

  const MAX_INT := 0x7fff_ffff_ffff_ffff

  /** strconv.Atoi for a 64-bit int. */
  function Atoi(s: string): Option<int> {
    var signed := s != "" && (s[0] == '-' || s[0] == '+');
    var digits := if signed then s[1..] else s;
    if digits == "" || !AllDigits(digits) then None
    else
      var magnitude: int := Value(digits);
      var v := if signed && s[0] == '-' then -magnitude else magnitude;
      if -MAX_INT - 1 <= v <= MAX_INT then Some(v) else None
  }

  // ---------------------------------------------------------------------------------------
  // Reading and writing one message
  // ---------------------------------------------------------------------------------------

  function Header(n: nat): string {
    "Content-Length: " + Print(n) + "\r\n\r\n"
  }

  /** What WriteMessage puts on the wire. */
  function Wire(body: string): string {
    Header(|body|) + body
  }

  /** What one header line does to the length: None leaves the reader in error. */
  function LengthAfter(line: string, n: int): Option<int> {
    var colon := IndexOf(line, ':');
    if colon.None? then Some(n)
    else if !EqualFold(TrimSpace(line[..colon.value]), "Content-Length") then Some(n)
    else Atoi(TrimSpace(line[colon.value + 1..]))
  }

  function ReadHeader(s: string, n: int): (Result<int, ReadError>, string)
    decreases |s|
  {
    var end := IndexOf(s, '\n');
    if end.None? then (Bad(EndOfStream), "")
    else
      var line, rest := TrimSuffix(s[..end.value + 1], "\r"), s[end.value + 1..];
      if TrimSpace(line) == "" then (Ok(n), rest)
      else
        var n' := LengthAfter(line, n);
        if n'.None? then (Bad(BadLength), rest) else ReadHeader(rest, n'.value)
  }

  lemma {:induction false} HeaderConsumes(s: string, n: int)
    ensures |ReadHeader(s, n).1| <= |s|
    ensures ReadHeader(s, n).0.Ok? ==> |ReadHeader(s, n).1| < |s|
    decreases |s|
  {
    var end := IndexOf(s, '\n');
    if end.Some? {
      var line, rest := TrimSuffix(s[..end.value + 1], "\r"), s[end.value + 1..];
      if TrimSpace(line) != "" && LengthAfter(line, n).Some? {
        HeaderConsumes(rest, LengthAfter(line, n).value);
      }
    }
  }

  /** ReadMessage on a stream `s`: the outcome and what is left of the stream. */
  function ReadOne(s: string): (r: (Result<string, ReadError>, string))
    ensures r.0.Ok? ==> |r.1| < |s|
  {
    HeaderConsumes(s, 0);
    var (n, rest) := ReadHeader(s, 0);
    if n.Bad? then (Bad(n.error), rest)
    else if n.value <= 0 then (Bad(MissingLength), rest)
    else if |rest| < n.value then (Bad(if rest == "" then EndOfStream else UnexpectedEnd), "")
    else (Ok(rest[..n.value]), rest[n.value..])
  }

  /** The serve loop's reader: messages until the first error. */
  function ReadAll(s: string): (seq<string>, ReadError)
    decreases |s|
  {
    var (body, rest) := ReadOne(s);
    if body.Bad? then ([], body.error)
    else
      var (bodies, e) := ReadAll(rest);
      ([body.value] + bodies, e)
  }

  function WireAll(bodies: seq<string>): string {
    if bodies == [] then "" else Wire(bodies[0]) + WireAll(bodies[1..])
  }

  /** The buffered reader of a connection. */
  class Reader {
    var rest: string

    constructor (stream: string)
      ensures rest == stream
    {
      rest := stream;
    }

    /** `ReadString('\n')`: a line with its newline, or the end of the stream. */
    method ReadLine() returns (line: Option<string>)
      modifies this
      ensures
        var end := IndexOf(old(rest), '\n');
        if end.None? then line.None? && rest == ""
        else line == Some(old(rest)[..end.value + 1]) && rest == old(rest)[end.value + 1..]
    {
      var end := IndexOf(rest, '\n');
      if end.None? {
        rest := "";
        return None;
      }
      line := Some(rest[..end.value + 1]);
      rest := rest[end.value + 1..];
    }

    method ReadMessage() returns (body: Result<string, ReadError>)
      modifies this
      ensures (body, rest) == ReadOne(old(rest))
    {
      var n: int := 0;
      ghost var start := rest;
      while true
        invariant ReadHeader(start, 0) == ReadHeader(rest, n)
        decreases |rest|
      {
        var got := ReadLine();
        if got.None? {
          return Bad(EndOfStream);
        }
        var line := TrimSuffix(got.value, "\r");
        if TrimSpace(line) == "" {
          break;
        }
        var colon := IndexOf(line, ':');
        if colon.None? {
          continue;
        }
        if EqualFold(TrimSpace(line[..colon.value]), "Content-Length") {
          var v := Atoi(TrimSpace(line[colon.value + 1..]));
          if v.None? {
            return Bad(BadLength);
          }
          n := v.value;
        }
      }
      if n <= 0 {
        return Bad(MissingLength);
      }
      if |rest| < n {
        body := Bad(if rest == "" then EndOfStream else UnexpectedEnd);
        rest := "";
        return;
      }
      body := Ok(rest[..n]);
      rest := rest[n..];
    }
  }
}
