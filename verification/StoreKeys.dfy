/** The textual store keys, and why maps over their components model the key-value store. */
module StoreKeys {
  import opened Numbers
  import opened Strings
  import Decimal
  import Hex

  function OrgId(slot: uint64): string {
    "wevibe-org-" + Decimal.Format(slot)
  }

  function MemberPrefix(org: string): string {
    "member/" + (org + "/")
  }

  function MemberKey(org: string, pubkey: string): string {
    "member/" + (org + ("/" + pubkey))
  }

  function ApprovedKey(org: string, contentHash: seq<byte>): string {
    "approved/" + org + "/" + Hex.Encode(contentHash)
  }

  function PendingPrefix(org: string): string {
    "pending/" + org + "/"
  }

  function PendingKey(org: string, contentHash: seq<byte>): string {
    "pending/" + org + "/" + Hex.Encode(contentHash)
  }

  function ReportKey(org: string, contentHash: seq<byte>, reporter: string): string {
    "report/" + (org + ("/" + (Hex.Encode(contentHash) + "/" + reporter)))
  }

  function BandwidthKey(org: string, epoch: uint64): string {
    "state/" + org + "/" + Decimal.Format(epoch)
  }

  /** The prefix byte of validity entries. */
  const VALIDITY := [0x12 as char]

  function ValidityKey(org: string, cid: string): string {
    VALIDITY + (org + (":" + cid))
  }

  function EmissionKey(epoch: uint64): string {
    "emission/" + Decimal.Format(epoch)
  }

  predicate NoSlash(s: string) {
    Without('/', s)
  }

  /** Organisation ids are pairwise different and free of both key separators. */
  lemma OrgIdsDistinct(m: uint64, n: uint64)
    ensures NoSlash(OrgId(m)) && Without(':', OrgId(m))
    ensures OrgId(m) == OrgId(n) ==> m == n
  {
    Decimal.FormatDigits(m);
    if OrgId(m) == OrgId(n) {
      DropLabel("wevibe-org-", Decimal.Format(m), Decimal.Format(n));
      Decimal.FormatInjective(m, n);
    }
  }

  // ----- keys of one kind -----

  /** Different members have different keys. */
  lemma MemberKeysDistinct(o: string, p: string, o': string, p': string)
    requires NoSlash(o) && NoSlash(o') && MemberKey(o, p) == MemberKey(o', p')
    ensures o == o' && p == p'
  {
    DropLabel("member/", o + ("/" + p), o' + ("/" + p'));
    SplitFirst('/', o, o', p, p');
  }

  /** Scanning an organisation's member prefix meets exactly its own members. */
  lemma MemberScanExact(org: string, o: string, p: string)
    requires NoSlash(org) && NoSlash(o)
    ensures MemberPrefix(org) <= MemberKey(o, p) <==> o == org
  {
    assert MemberKey(org, p) == MemberPrefix(org) + p;
    if MemberPrefix(org) <= MemberKey(o, p) {
      var rest := MemberKey(o, p)[|MemberPrefix(org)|..];
      assert MemberKey(o, p) == MemberPrefix(org) + rest;
      assert MemberPrefix(org) + rest == "member/" + (org + ("/" + rest));
      DropLabel("member/", o + ("/" + p), org + ("/" + rest));
      SplitFirst('/', o, org, p, rest);
    }
  }

  lemma HexHasNoSlash(h: seq<byte>)
    ensures NoSlash(Hex.Encode(h))
  {
    Hex.DecodeEncode(h);
  }

  /** The last slash starts the hexadecimal hash: such keys are unambiguous for any organisation id. */
  lemma HashKeysDistinct(tag: string, o: string, h: seq<byte>, o': string, h': seq<byte>)
    requires tag + o + "/" + Hex.Encode(h) == tag + o' + "/" + Hex.Encode(h')
    ensures o == o' && h == h'
  {
    hide Hex.Encode, NoSlash;
    var x, y := Hex.Encode(h), Hex.Encode(h');
    HexHasNoSlash(h);
    HexHasNoSlash(h');
    SplitLastSlash(x, y, tag + o, tag + o');
    DropLabel(tag, o, o');
    Hex.EncodeInjective(h, h');
  }

  lemma SplitLastSlash(a: string, b: string, x: string, y: string)
    requires NoSlash(a) && NoSlash(b) && x + "/" + a == y + "/" + b
    ensures a == b && x == y
  {
    SplitLast('/', a, b, x, y);
  }

  lemma ApprovedKeysDistinct(o: string, h: seq<byte>, o': string, h': seq<byte>)
    requires ApprovedKey(o, h) == ApprovedKey(o', h')
    ensures o == o' && h == h'
  {
    hide Hex.Encode;
    HashKeysDistinct("approved/", o, h, o', h');
  }

  lemma PendingKeysDistinct(o: string, h: seq<byte>, o': string, h': seq<byte>)
    requires PendingKey(o, h) == PendingKey(o', h')
    ensures o == o' && h == h'
  {
    hide Hex.Encode;
    HashKeysDistinct("pending/", o, h, o', h');
  }

  lemma ReportKeysDistinct(o: string, h: seq<byte>, r: string, o': string, h': seq<byte>, r': string)
    requires NoSlash(o) && NoSlash(o') && ReportKey(o, h, r) == ReportKey(o', h', r')
    ensures o == o' && h == h' && r == r'
  {
    hide Hex.Encode;
    var x, y := Hex.Encode(h), Hex.Encode(h');
    HexHasNoSlash(h);
    HexHasNoSlash(h');
    assert x + "/" + r == x + ("/" + r) && y + "/" + r' == y + ("/" + r');
    DropLabel("report/", o + ("/" + (x + ("/" + r))), o' + ("/" + (y + ("/" + r'))));
    SplitFirst('/', o, o', x + ("/" + r), y + ("/" + r'));
    SplitFirst('/', x, y, r, r');
    Hex.EncodeInjective(h, h');
  }

  /** The colon ends an organisation id. */
  lemma ValidityKeysDistinct(o: string, c: string, o': string, c': string)
    requires Without(':', o) && Without(':', o') && ValidityKey(o, c) == ValidityKey(o', c')
    ensures o == o' && c == c'
  {
    DropLabel(VALIDITY, o + (":" + c), o' + (":" + c'));
    SplitFirst(':', o, o', c, c');
  }

  lemma DecimalHasNoSlash(n: nat)
    ensures NoSlash(Decimal.Format(n))
  {
    Decimal.FormatDigits(n);
  }

  /** The epoch is what follows the last slash, so bandwidth keys are unambiguous for any organisation id. */
  lemma BandwidthKeysDistinct(o: string, e: uint64, o': string, e': uint64)
    requires BandwidthKey(o, e) == BandwidthKey(o', e')
    ensures o == o' && e == e'
  {
    hide Decimal.Format, NoSlash;
    DecimalHasNoSlash(e);
    DecimalHasNoSlash(e');
    SplitLastSlash(Decimal.Format(e), Decimal.Format(e'), "state/" + o, "state/" + o');
    DropLabel("state/", o, o');
    Decimal.FormatInjective(e, e');
  }

  /** Keys that are a label and one text: the organisation, count, override, reward and alias keys, and the emission keys. */
  lemma LabelledKeysDistinct(tag: string, a: string, b: string, m: uint64, n: uint64)
    ensures tag + a == tag + b ==> a == b
    ensures EmissionKey(m) == EmissionKey(n) ==> m == n
  {
    if tag + a == tag + b {
      DropLabel(tag, a, b);
    }
    if EmissionKey(m) == EmissionKey(n) {
      DropLabel("emission/", Decimal.Format(m), Decimal.Format(n));
      Decimal.FormatInjective(m, n);
    }
  }

  // ----- keys of different kinds -----

  const MARKER := [255 as char, 255 as char, 255 as char, 255 as char]

  const MEMORY_LABELS := {"approved/", "pending/", "report/", "count/", "merkle/", "current_epoch", "params", VALIDITY, MARKER}
  const ORG_LABELS := {"org/", "member/", "slotreg/", "params", MARKER}
  const EMISSIONS_LABELS := {"pool/", "emission/", "contribreward/", "lifetimereward/", "params", MARKER}
  const BANDWIDTH_LABELS := {"state/", "override/", "params", MARKER}
  const IDENTITY_LABELS := {"alias/", "params", MARKER}

  /** The labels differ in their first or second character. */
  predicate Apart(a: string, b: string) {
    a != "" && b != "" && (a[0] != b[0] || (|a| > 1 && |b| > 1 && a[1] != b[1]))
  }

  lemma LabelsApart(a: string, b: string)
    requires a != b
    requires {a, b} <= MEMORY_LABELS || {a, b} <= ORG_LABELS || {a, b} <= EMISSIONS_LABELS || {a, b} <= BANDWIDTH_LABELS
             || {a, b} <= IDENTITY_LABELS
    ensures Apart(a, b)
  {
    assert a in {a, b} && b in {a, b};
  }

  /** Keys of different kinds in one store never coincide. */
  lemma KindsDistinct(a: string, b: string, x: string, y: string)
    requires a != b
    requires {a, b} <= MEMORY_LABELS || {a, b} <= ORG_LABELS || {a, b} <= EMISSIONS_LABELS || {a, b} <= BANDWIDTH_LABELS
             || {a, b} <= IDENTITY_LABELS
    ensures a + x != b + y
  {
    LabelsApart(a, b);
    assert (a + x)[0] == a[0] && (b + y)[0] == b[0];
    assert |a| > 1 && |b| > 1 ==> (a + x)[1] == a[1] && (b + y)[1] == b[1];
  }
}
