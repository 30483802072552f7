/** The memory keeper as it runs, next to the registry it reports to. */
module MemoryKeeper {
  import opened Numbers
  import opened Wrappers
  import opened Externals
  import opened StoreKeys
  import opened CanonicalBody
  import opened Memory
  import ApprovalCounts
  import Hex
  import Lex
  import Org
  import OrgKeeper

  const EPOCH_IDENTIFIER := "wevibe_epoch"

  class Keeper {
    const orgKeeper: OrgKeeper.Keeper
    var pending: map<Key, PendingCommitment>
    var approved: map<Key, Commitment>
    var counts: map<string, uint64>
    var reports: map<(string, (seq<byte>, string)), Report>
    var validity: map<string, Validity>
    var epoch: uint64
    var params: Option<Params>
    var marker: bool

    constructor (orgKeeper: OrgKeeper.Keeper)
      ensures Value() == EMPTY && this.orgKeeper == orgKeeper
    {
      this.orgKeeper := orgKeeper;
      pending, approved, counts, reports, validity := map[], map[], map[], map[], map[];
      epoch, params, marker := 0, None, false;
    }

    /** What InitChain writes into every store. */
    method PutMarker()
      modifies this`marker
      ensures Value() == old(Value()).(marker := true)
    {
      marker := true;
    }

    ghost function Value(): State
      reads this
    {
      State(pending, approved, counts, reports, validity, epoch, params, marker)
    }

    method RequireLeaderWallet(org: string, signer: string) returns (r: Check<Error>)
      ensures r == LeaderWallet(orgKeeper.Value(), org, signer)
    {
      if org !in orgKeeper.orgs {
        return Fail(OrgNotFound);
      }
      var wallet := orgKeeper.orgs[org].leaderWallet;
      if wallet == "" || signer != wallet {
        return Fail(Unauthorized);
      }
      return Pass;
    }

    /** Counts what an iterator without an end meets from the organisation's pending prefix on. */
    method CountPending(org: string) returns (n: nat)
      ensures n == PendingCount(Value(), org)
    {
      hide Lex.Le, Lex.Codes, PendingPrefix, PendingKey;
      var from := Lex.Codes(PendingPrefix(org));
      n := 0;
      var rest := pending.Keys;
      ghost var met: set<Key> := {};
      while rest != {}
        invariant rest <= pending.Keys
        invariant met == set k | k in PendingScan(Value(), org) && k !in rest
        invariant n == |met|
        decreases |rest|
      {
        var k :| k in rest;
        if Lex.Le(from, Lex.Codes(PendingKey(k.0, k.1))) {
          n := n + 1;
          met := met + {k};
        }
        rest := rest - {k};
      }
      assert met == PendingScan(Value(), org);
      n := n + |reports|;
      if marker {
        n := n + 1;
      }
    }

    method HandleSubmitCommitment(m: MsgSubmit) returns (r: Result<(), Error>)
      modifies this
      ensures r.Failure? ==> Value() == old(Value())
      ensures Submit(old(Value()), orgKeeper.Value(), m) == if r.Success? then Success(Value()) else Failure(r.error)
    {
      if m.signer == "" || m.org == "" || |m.hash| != HASH_SIZE || !ProvenanceValid(m.from) {
        return Failure(InvalidMessage);
      }
      var leader := RequireLeaderWallet(m.org, m.signer);
      if leader.Fail? {
        return Failure(leader.error);
      }
      var member := (m.org, m.from.contributor);
      if member !in orgKeeper.members {
        return Failure(NotContributor);
      }
      var record := orgKeeper.members[member];
      if record.role != Org.LEADER && !record.canContribute {
        return Failure(NotContributor);
      }
      if !m.memoryType.Memory? {
        return Failure(InvalidMemoryType);
      }
      for i := 0 to |m.from.keywords|
        invariant "" !in m.from.keywords[..i]
        invariant Value() == old(Value())
      {
        if m.from.keywords[i] == "" {
          return Failure(InvalidKeyword);
        }
      }
      var key := (m.org, m.hash);
      if key in pending {
        return Failure(CommitmentExists);
      }
      var count := CountPending(m.org);
      if count >= params.GetOr(DEFAULT_PARAMS).maxPending {
        return Failure(MaxPendingExceeded);
      }
      pending := pending[key := PendingCommitment(m.org, m.hash, m.from, 0, 0, m.memoryType)];
      return Success(());
    }

    /** Rebuilds the signed body and checks signature and hashes, in the order the handler does. */
    method CheckApproval(env: Env, p: PendingCommitment, m: MsgApprove) returns (r: Check<Error>)
      ensures r == ApprovalCheck(env, p, m)
    {
      var submissionHash := env.sha256(m.blob + m.wrappedDek);
      var body := Body(Submission(m.ciphertextHash, p.from.contributor, p.epoch, m.memoryType, m.org, m.plaintextHash,
                                  m.salt, submissionHash, env.sha256(m.wrappedDek)));
      var pubkey := Hex.Decode(p.from.contributor);
      if pubkey.None? || |pubkey.value| != PUBLIC_KEY_SIZE {
        return Fail(InvalidContributor);
      }
      if !env.verify(pubkey.value, body, m.sig) {
        return Fail(InvalidSignature);
      }
      if m.ciphertextHash != env.sha256(m.blob) {
        return Fail(InvalidBlob);
      }
      if m.hash != submissionHash {
        return Fail(InvalidContentHash);
      }
      return Pass;
    }

    method HandleApproveMemory(env: Env, m: MsgApprove, reputationOk: bool) returns (r: Result<(), Error>)
      modifies this, orgKeeper`orgs
      ensures r.Failure? ==> Value() == old(Value()) && orgKeeper.Value() == old(orgKeeper.Value())
      ensures Approve(env, old(Value()), old(orgKeeper.Value()), m, reputationOk)
           == if r.Success? then Success((Value(), orgKeeper.Value())) else Failure(r.error)
    {
      if m.signer == "" || m.org == "" || |m.hash| != HASH_SIZE || m.blob == [] {
        return Failure(InvalidMessage);
      }
      var leader := RequireLeaderWallet(m.org, m.signer);
      if leader.Fail? {
        return Failure(leader.error);
      }
      if !m.memoryType.Memory? {
        return Failure(InvalidMemoryType);
      }
      var key := (m.org, m.hash);
      if key !in pending {
        return Failure(CommitmentNotFound);
      }
      var p := pending[key];
      var signed := CheckApproval(env, p, m);
      if signed.Fail? {
        return Failure(signed.error);
      }
      var member := (m.org, m.leader);
      if member !in orgKeeper.members || orgKeeper.members[member].role != Org.LEADER {
        return Failure(Unauthorized);
      }
      if |m.blob| > ToInt64(params.GetOr(DEFAULT_PARAMS).maxBlob) {
        return Failure(BlobTooLarge);
      }
      if key in approved {
        return Failure(MemoryExists);
      }
      if !reputationOk {
        return Failure(ReputationFailed);
      }
      StoreApproval(env, key, p, m);
      return Success(());
    }

    /** The writes of an approval, here and in the registry. */
    method StoreApproval(env: Env, key: Key, p: PendingCommitment, m: MsgApprove)
      requires key == (m.org, m.hash) && key in pending && pending[key] == p && m.org in orgKeeper.orgs
      modifies this, orgKeeper`orgs
      ensures Value() == Promote(env, old(Value()), m)
      ensures orgKeeper.Value() == Org.DateActivity(Org.CountCommitted(old(orgKeeper.Value()), m.org), m.org, p.epoch)
    {
      hide Wrap;
      var capsule := Capsule(
        m.blob, m.wrappedDek, m.plaintextHash, m.salt, m.ciphertextHash, env.sha256(m.wrappedDek), m.sig, m.memoryType);
      approved := approved[key := Commitment(
        m.org, m.hash, p.from, capsule, p.epoch, p.submittedAt, m.leader, Committed, p.epoch, epoch)];
      pending := pending - {key};
      var count: uint64 := 0;
      if m.org in counts {
        count := counts[m.org];
      }
      counts := counts[m.org := Wrap(count + 1)];
      var _ := orgKeeper.IncrementOrgCommittedMemories(m.org);
      var _ := orgKeeper.SetOrgLastActivityEpoch(m.org, p.epoch);
    }

    method HandleReportMemory(m: MsgReport, reputationOk: bool) returns (r: Result<(), Error>)
      modifies this, orgKeeper`orgs
      ensures r.Failure? ==> Value() == old(Value()) && orgKeeper.Value() == old(orgKeeper.Value())
      ensures FileReport(old(Value()), old(orgKeeper.Value()), m, reputationOk)
           == if r.Success? then Success((Value(), orgKeeper.Value())) else Failure(r.error)
    {
      var report := m.report;
      if m.signer == "" || m.org == "" || |m.hash| != HASH_SIZE || m.reporter == "" || report.reason == "" {
        return Failure(InvalidMessage);
      }
      var leader := RequireLeaderWallet(m.org, m.signer);
      if leader.Fail? {
        return Failure(leader.error);
      }
      if |report.plaintextHash| == 0 {
        return Failure(InvalidContentHash);
      }
      if report.oversized {
        if |report.plaintext| > 0 || |report.ciphertext| > 0 || |report.capsule| > 0 {
          return Failure(BlobTooLarge);
        }
      } else if |report.plaintext| > 4096 || |report.ciphertext| > 8192 || |report.capsule| == 0 {
        return Failure(BlobTooLarge);
      }
      if (m.org, m.hash) !in approved {
        return Failure(MemoryNotFound);
      }
      var key := (m.org, (m.hash, m.reporter));
      if key in reports {
        return Failure(ReportExists);
      }
      if !reputationOk {
        return Failure(ReputationFailed);
      }
      reports := reports[key := report.(leader := m.signer)];
      var _ := orgKeeper.IncrementOrgUpheldReports(m.org);
      return Success(());
    }

    method HandleUpdateParams(gov: string, authority: string, p: Params) returns (r: Result<(), Error>)
      modifies this`params
      ensures r.Failure? ==> Value() == old(Value())
      ensures SetParams(gov, old(Value()), authority, p) == if r.Success? then Success(Value()) else Failure(r.error)
    {
      if authority != gov {
        return Failure(Unauthorized);
      }
      if authority == "" {
        return Failure(InvalidMessage);
      }
      params := Some(p);
      return Success(());
    }

    /** Whatever order the store is read in, the result is the number of counting memories per contributor. */
    method GetContributorsWithApprovalsInEpoch(at: uint64) returns (result: map<string, uint64>)
      ensures result == Approvals(approved, at)
    {
      hide Approvals;
      result := map[];
      var rest := approved.Keys;
      ghost var seen: map<Key, Commitment> := map[];
      ApprovalCounts.NoApprovals(at);
      while rest != {}
        invariant rest <= approved.Keys
        invariant seen.Keys == approved.Keys - rest && forall k :: k in seen ==> seen[k] == approved[k]
        invariant result == Approvals(seen, at)
        decreases |rest|
      {
        var k :| k in rest;
        var stored := approved[k];
        ApprovalCounts.ApprovalsAdd(seen, k, stored, at);
        seen := seen[k := stored];
        rest := rest - {k};
        if stored.approvedAt != at || stored.state != Committed || stored.from.contributor == "" {
          continue;
        }
        var who := stored.from.contributor;
        var n: int := if who in result then result[who] else 0;
        result := result[who := Wrap(n + 1)];
      }
      assert seen == approved;
    }

    method IsValidInEpoch(key: string, at: uint64) returns (valid: bool)
      ensures valid == ValidIn(validity, key, at)
    {
      if key !in validity {
        return true;
      }
      var metadata := validity[key];
      if metadata.after != 0 && at < metadata.after {
        return false;
      }
      if metadata.until != 0 && at > metadata.until {
        return false;
      }
      return true;
    }

    /** The expired entries in key order. */
    method CollectExpired(at: uint64) returns (expired: seq<string>)
      ensures expired == Lex.Ordered(ExpiredKeys(Value(), at))
    {
      var keys := SortedKeys();
      expired := [];
      for i := 0 to |keys|
        invariant forall a :: a in expired <==> a in keys[..i] && Expired(validity[a], at)
        invariant Lex.Distinct(expired) && Lex.SortedBy(Lex.Codes, expired)
      {
        assert keys[..i + 1] == keys[..i] + [keys[i]];
        if validity[keys[i]].until == 0 || at <= validity[keys[i]].until {
          continue;
        }
        forall j | 0 <= j < |expired| ensures expired[j] != keys[i] && Lex.Le(Lex.Codes(expired[j]), Lex.Codes(keys[i])) {
          assert expired[j] in keys[..i];
        }
        expired := expired + [keys[i]];
      }
      assert keys[..|keys|] == keys;
      Lex.OrderedIs(ExpiredKeys(Value(), at), expired);
    }

    /** The order of a store iterator over the validity entries. */
    method SortedKeys() returns (keys: seq<string>)
      ensures Lex.Distinct(keys) && Lex.SortedBy(Lex.Codes, keys) && forall k :: k in keys <==> k in validity
    {
      var listed: seq<string> := [];
      var rest := validity.Keys;
      while rest != {}
        invariant rest <= validity.Keys
        invariant multiset(listed) == multiset(validity.Keys - rest)
        decreases |rest|
      {
        var k :| k in rest;
        assert validity.Keys - (rest - {k}) == validity.Keys - rest + {k};
        listed := listed + [k];
        rest := rest - {k};
      }
      assert validity.Keys - rest == validity.Keys;
      Lex.OrderedUnique(validity.Keys, listed);
      Lex.OrderedLists(validity.Keys);
      keys := Lex.Sort(Lex.Codes, listed);
    }

    /** Collects first and mutates afterwards; an error keeps the entries already handled. */
    method CheckEpochExpiry(at: uint64) returns (ok: bool)
      modifies this`approved, this`validity
      ensures (Value(), ok) == Sweep(old(Value()), at)
    {
      hide Lex.Ordered, Lex.SortedBy, Hex.Decode;
      var expired := CollectExpired(at);
      Lex.OrderedLists(ExpiredKeys(Value(), at));
      var entries := validity;
      ghost var target := ExpireAll(Value(), expired, entries);
      for i := 0 to |expired|
        invariant ExpireAll(Value(), expired[i..], entries) == target
      {
        assert expired[i..][0] == expired[i] && expired[i..][1..] == expired[i + 1..];
        var e := entries[expired[i]];
        var hash := DecodeCid(e.cid);
        if hash.None? || (e.org, hash.value) !in approved {
          return false;
        }
        var memory := approved[(e.org, hash.value)];
        if memory.state != Archived && memory.state != Denied {
          memory := memory.(state := Archived);
          approved := approved[(memory.org, memory.hash) := memory];
        }
        validity := validity - {expired[i]};
      }
      return true;
    }

    /** The epoch hook: records the epoch, then sweeps; a failed sweep is swallowed. */
    method AfterEpochEnd(identifier: string, number: uint64)
      modifies this`epoch, this`approved, this`validity
      ensures identifier != EPOCH_IDENTIFIER ==> Value() == old(Value())
      ensures identifier == EPOCH_IDENTIFIER ==> Value() == EpochEnd(old(Value()), number)
    {
      if identifier == EPOCH_IDENTIFIER {
        epoch := number;
        var _ := CheckEpochExpiry(number);
      }
    }
  }
}
