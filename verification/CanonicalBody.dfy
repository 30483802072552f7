/** The body a contributor signs: ten labelled lines, unambiguous although org_id may hold anything. */
module CanonicalBody {
  import opened Numbers
  import opened Wrappers
  import opened Strings
  import Decimal
  import Hex
  import Identity

  datatype MemoryType = Unspecified | Memory

  /** The nine signed fields of a submission. */
  datatype Submission = Submission(
    ciphertextHash: seq<byte>, contributor: string, epoch: uint64, memoryType: MemoryType, orgId: string,
    plaintextHash: seq<byte>, salt: seq<byte>, submissionHash: seq<byte>, wrappedDekHash: seq<byte>)

  function CanonicalMemoryType(t: MemoryType): string {
    if t.Memory? then "memory" else ""
  }

  /** strings.Join of the lines, kept in the order they are written. */
  function Body(s: Submission): string {
    "wevibe.submit_memory.v1"
    + ("\n" + (("ciphertext_hash:" + Hex.Encode(s.ciphertextHash))
    + ("\n" + (("contributor_pubkey:" + s.contributor)
    + ("\n" + (("epoch_id:" + Decimal.Format(s.epoch))
    + ("\n" + (("memory_type:" + CanonicalMemoryType(s.memoryType))
    + ("\n" + OrgAndRest(s))))))))))
  }

  function OrgAndRest(s: Submission): string {
    "org_id:" + s.orgId
    + "\n" + ("plaintext_hash:" + Hex.Encode(s.plaintextHash))
    + "\n" + ("salt:" + Hex.Encode(s.salt))
    + "\n" + ("submission_hash:" + Hex.Encode(s.submissionHash))
    + "\n" + ("wrapped_dek_hash:" + Hex.Encode(s.wrappedDekHash))
  }

  /** strings.Join. */
  function Join(lines: seq<string>, sep: string): string {
    if lines == [] then "" else if |lines| == 1 then lines[0] else lines[0] + sep + Join(lines[1..], sep)
  }

  /** The ten lines, in the order they are signed. */
  function Lines(s: Submission): seq<string> {
    ["wevibe.submit_memory.v1",
     "ciphertext_hash:" + Hex.Encode(s.ciphertextHash),
     "contributor_pubkey:" + s.contributor,
     "epoch_id:" + Decimal.Format(s.epoch),
     "memory_type:" + (if s.memoryType.Memory? then "memory" else ""),
     "org_id:" + s.orgId,
     "plaintext_hash:" + Hex.Encode(s.plaintextHash),
     "salt:" + Hex.Encode(s.salt),
     "submission_hash:" + Hex.Encode(s.submissionHash),
     "wrapped_dek_hash:" + Hex.Encode(s.wrappedDekHash)]
  }

  lemma JoinFirst(line: string, rest: seq<string>)
    requires rest != []
    ensures Join([line] + rest, "\n") == line + ("\n" + Join(rest, "\n"))
  {
    assert ([line] + rest)[1..] == rest;
  }

  lemma JoinFive(a: string, b: string, c: string, d: string, e: string, rest: seq<string>)
    requires rest != []
    ensures Join([a, b, c, d, e] + rest, "\n")
         == a + ("\n" + (b + ("\n" + (c + ("\n" + (d + ("\n" + (e + ("\n" + Join(rest, "\n"))))))))))
  {
    hide Join;
    JoinFirst(e, rest);
    JoinFirst(d, [e] + rest);
    JoinFirst(c, [d] + ([e] + rest));
    JoinFirst(b, [c] + ([d] + ([e] + rest)));
    JoinFirst(a, [b] + ([c] + ([d] + ([e] + rest))));
    assert [a, b, c, d, e] + rest == [a] + ([b] + ([c] + ([d] + ([e] + rest))));
  }

  lemma JoinLast(a: string, b: string, c: string, d: string, e: string)
    ensures Join([a, b, c, d, e], "\n") == a + "\n" + b + "\n" + c + "\n" + d + "\n" + e
  {
    hide Join;
    JoinOne(e);
    JoinFirst(d, [e]);
    JoinFirst(c, [d, e]);
    JoinFirst(b, [c, d, e]);
    JoinFirst(a, [b, c, d, e]);
    assert [d] + [e] == [d, e] && [c] + [d, e] == [c, d, e] && [b] + [c, d, e] == [b, c, d, e];
    assert [a] + [b, c, d, e] == [a, b, c, d, e];
  }

  /** The signed body is the ten lines joined by line breaks. */
  lemma BodyIsJoin(s: Submission)
    ensures Body(s) == Join(Lines(s), "\n")
  {
    hide Hex.Encode, Decimal.Format, Join;
    var l := Lines(s);
    assert l == [l[0], l[1], l[2], l[3], l[4]] + [l[5], l[6], l[7], l[8], l[9]];
    JoinFive(l[0], l[1], l[2], l[3], l[4], [l[5], l[6], l[7], l[8], l[9]]);
    JoinLast(l[5], l[6], l[7], l[8], l[9]);
  }

  lemma JoinOne(line: string)
    ensures Join([line], "\n") == line
  {
  }

  predicate OneLine(s: string) {
    Without('\n', s)
  }

  lemma HexLine(tag: string, b: seq<byte>)
    requires OneLine(tag)
    ensures OneLine(tag + Hex.Encode(b))
  {
    Hex.DecodeEncode(b);
  }

  lemma HexLineInjective(tag: string, a: seq<byte>, b: seq<byte>)
    requires tag + Hex.Encode(a) == tag + Hex.Encode(b)
    ensures a == b
  {
    DropLabel(tag, Hex.Encode(a), Hex.Encode(b));
    Hex.EncodeInjective(a, b);
  }

  /** What the chain has checked before it verifies a signature over the body. */
  predicate Checked(s: Submission) {
    s.memoryType.Memory? && Hex.Decode(s.contributor).Some?
  }

  /** From the end: four hexadecimal lines, whatever the organisation id contains. */
  lemma OrgAndRestInjective(s: Submission, t: Submission)
    requires OrgAndRest(s) == OrgAndRest(t)
    ensures s.orgId == t.orgId && s.plaintextHash == t.plaintextHash && s.salt == t.salt
    ensures s.submissionHash == t.submissionHash && s.wrappedDekHash == t.wrappedDekHash
  {
    var s1, t1 := "org_id:" + s.orgId, "org_id:" + t.orgId;
    var p, p' := "plaintext_hash:" + Hex.Encode(s.plaintextHash), "plaintext_hash:" + Hex.Encode(t.plaintextHash);
    var q, q' := "salt:" + Hex.Encode(s.salt), "salt:" + Hex.Encode(t.salt);
    var r, r' := "submission_hash:" + Hex.Encode(s.submissionHash), "submission_hash:" + Hex.Encode(t.submissionHash);
    var w, w' := "wrapped_dek_hash:" + Hex.Encode(s.wrappedDekHash), "wrapped_dek_hash:" + Hex.Encode(t.wrappedDekHash);
    HexLine("plaintext_hash:", s.plaintextHash); HexLine("plaintext_hash:", t.plaintextHash);
    HexLine("salt:", s.salt); HexLine("salt:", t.salt);
    HexLine("submission_hash:", s.submissionHash); HexLine("submission_hash:", t.submissionHash);
    HexLine("wrapped_dek_hash:", s.wrappedDekHash); HexLine("wrapped_dek_hash:", t.wrappedDekHash);
    SplitLast('\n', w, w', s1 + "\n" + p + "\n" + q + "\n" + r, t1 + "\n" + p' + "\n" + q' + "\n" + r');
    SplitLast('\n', r, r', s1 + "\n" + p + "\n" + q, t1 + "\n" + p' + "\n" + q');
    SplitLast('\n', q, q', s1 + "\n" + p, t1 + "\n" + p');
    SplitLast('\n', p, p', s1, t1);
    DropLabel("org_id:", s.orgId, t.orgId);
    HexLineInjective("plaintext_hash:", s.plaintextHash, t.plaintextHash);
    HexLineInjective("salt:", s.salt, t.salt);
    HexLineInjective("submission_hash:", s.submissionHash, t.submissionHash);
    HexLineInjective("wrapped_dek_hash:", s.wrappedDekHash, t.wrappedDekHash);
  }

  lemma FrontLines(s: Submission)
    requires Checked(s)
    ensures OneLine("ciphertext_hash:" + Hex.Encode(s.ciphertextHash))
    ensures OneLine("contributor_pubkey:" + s.contributor)
    ensures OneLine("epoch_id:" + Decimal.Format(s.epoch))
  {
    hide Hex.Encode, Decimal.Format;
    HexLine("ciphertext_hash:", s.ciphertextHash);
    Hex.DecodableIsHex(s.contributor);
    Decimal.FormatDigits(s.epoch);
  }

  /** Five line breaks, each after a part without one, cut the text into the same six parts. */
  lemma CutLines(h: string, c: string, k: string, e: string, m: string, r: string,
                 c': string, k': string, e': string, m': string, r': string)
    requires OneLine(h) && OneLine(c) && OneLine(k) && OneLine(e) && OneLine(m)
    requires OneLine(c') && OneLine(k') && OneLine(e') && OneLine(m')
    requires h + ("\n" + (c + ("\n" + (k + ("\n" + (e + ("\n" + (m + ("\n" + r)))))))))
          == h + ("\n" + (c' + ("\n" + (k' + ("\n" + (e' + ("\n" + (m' + ("\n" + r')))))))))
    ensures c == c' && k == k' && e == e' && m == m' && r == r'
  {
    hide OneLine;
    var s5, t5 := m + ("\n" + r), m' + ("\n" + r');
    var s4, t4 := e + ("\n" + s5), e' + ("\n" + t5);
    var s3, t3 := k + ("\n" + s4), k' + ("\n" + t4);
    SplitLine(h, h, c + ("\n" + s3), c' + ("\n" + t3));
    SplitLine(c, c', s3, t3);
    SplitLine(k, k', s4, t4);
    SplitLine(e, e', s5, t5);
    SplitLine(m, m', r, r');
  }

  lemma SplitLine(a: string, b: string, x: string, y: string)
    requires OneLine(a) && OneLine(b) && a + ("\n" + x) == b + ("\n" + y)
    ensures a == b && x == y
  {
    SplitFirst('\n', a, b, x, y);
  }

  /** One signed body, one submission: equal bodies agree on all nine fields. */
  lemma BodyInjective(s: Submission, t: Submission)
    requires Checked(s) && Checked(t) && Body(s) == Body(t)
    ensures s == t
  {
    hide Hex.Encode, Hex.Decode, Decimal.Format, OrgAndRest;
    var c, c' := "ciphertext_hash:" + Hex.Encode(s.ciphertextHash), "ciphertext_hash:" + Hex.Encode(t.ciphertextHash);
    var k, k' := "contributor_pubkey:" + s.contributor, "contributor_pubkey:" + t.contributor;
    var e, e' := "epoch_id:" + Decimal.Format(s.epoch), "epoch_id:" + Decimal.Format(t.epoch);
    var m, m' := "memory_type:" + CanonicalMemoryType(s.memoryType), "memory_type:" + CanonicalMemoryType(t.memoryType);
    FrontLines(s);
    FrontLines(t);
    CutLines("wevibe.submit_memory.v1", c, k, e, m, OrgAndRest(s), c', k', e', m', OrgAndRest(t));
    HexLineInjective("ciphertext_hash:", s.ciphertextHash, t.ciphertextHash);
    DropLabel("contributor_pubkey:", s.contributor, t.contributor);
    DropLabel("epoch_id:", Decimal.Format(s.epoch), Decimal.Format(t.epoch));
    Decimal.FormatInjective(s.epoch, t.epoch);
    OrgAndRestInjective(s, t);
  }

  /** No signature over a submission can be replayed as an identity migration, or the other way round. */
  lemma BodyIsNotMigration(s: Submission, passkey: string, wallet: string, nonce: uint64)
    ensures Body(s) != Identity.MigrationBody(passkey, wallet, nonce)
  {
    assert Body(s)[7] == 's';
    assert Identity.MigrationBody(passkey, wallet, nonce)[7] == 'm';
  }
}
