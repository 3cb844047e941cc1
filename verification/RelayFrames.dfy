/** Telling the child's lines apart, and what reaches the child with one write. */
module RelayFrames {
  import opened Outcomes
  import opened Rendezvous
  import opened Relay

  function Initial(k: Kind): char {
    match k
    case Approval => 'A'
    case Input => 'U'
    case Cancel => 'C'
  }

  lemma PrefixInitial(k: Kind)
    ensures |Prefix(k)| > 17 && Prefix(k)[17] == Initial(k)
  {
  }

  lemma OnePrefix(k: Kind, k': Kind, line: string)
    requires Prefix(k) <= line && Prefix(k') <= line
    ensures k == k'
  {
    PrefixInitial(k);
    PrefixInitial(k');
    assert line[17] == Initial(k) && line[17] == Initial(k');
  }

  /** A line is of a kind exactly when it is that kind's prefix and a body, in whatever order the prefixes are tried. */
  lemma KindIff(line: string, k: Kind)
    ensures LineKind(line) == Some(k) <==> exists body :: line == Prefix(k) + body
    ensures LineKind(line) == Some(k) ==> line == Prefix(k) + Body(line)
  {
    KindHasPrefix(line, k);
    PrefixIff(line, Prefix(k));
    if Prefix(k) <= line { OnePrefix(k, LineKind(line).value, line); }
  }

  lemma KindHasPrefix(line: string, k: Kind)
    ensures LineKind(line).Some? ==> Prefix(LineKind(line).value) <= line
    ensures Prefix(k) <= line ==> LineKind(line).Some?
  {
  }

  lemma PrefixIff(line: string, prefix: string)
    ensures prefix <= line <==> exists body :: line == prefix + body
    ensures prefix <= line ==> line == prefix + line[|prefix|..]
  {
    if prefix <= line { assert line == prefix + line[|prefix|..]; }
  }

  /** The line that an answer is sent as. */
  ghost predicate IsFrame(cfg: Config, k: Kind, answer: Answer, frame: string) {
    exists encoded :: cfg.encode(k, answer) == Some(encoded) && frame == Prefix(k) + encoded + "\n"
  }

  /** An answer that does not encode, or whose line is longer than 65536 bytes, sends nothing and is reported. */
  lemma UnsendableIsReported(cfg: Config, k: Kind, answer: Answer, reply: Reply)
    requires forall frame :: IsFrame(cfg, k, answer, frame) ==> |frame| > 65536
    ensures WriteFrame(cfg, k, answer, reply).0 == "" && WriteFrame(cfg, k, answer, reply).1.Some?
  {
    var encoded := cfg.encode(k, answer);
    if encoded.Some? { assert IsFrame(cfg, k, answer, Prefix(k) + encoded.value + "\n"); }
  }

  /** Otherwise the child gets the line as far as its pipe takes it, and the write is clean exactly when that is all of it and the pipe reports nothing. */
  lemma SentAsFarAsTaken(cfg: Config, k: Kind, answer: Answer, reply: Reply, frame: string)
    requires IsFrame(cfg, k, answer, frame) && |frame| <= 65536
    ensures
      var (bytes, fault) := WriteFrame(cfg, k, answer, reply);
      && bytes <= frame && |bytes| == (if reply.took < |frame| then reply.took else |frame|)
      && (fault.None? <==> bytes == frame && reply.err.None?)
      && (reply.err.Some? ==> fault == Some(WriteFault(reply.err.value)))
  {
  }
}
