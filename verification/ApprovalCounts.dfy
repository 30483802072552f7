/** How the approvals of an epoch are counted, one memory at a time. */
module ApprovalCounts {
  import opened Numbers
  import opened Wrappers
  import opened Externals
  import opened Memory
  import Hex
  import Org

  lemma WrapStep(n: nat)
    ensures Wrap(Wrap(n) + 1) == Wrap(n + 1)
  {
  }

  lemma ApprovalsOfAdd(seen: map<Key, Commitment>, k: Key, c: Commitment, epoch: uint64, a: string)
    requires k !in seen
    ensures ApprovalsOf(seen[k := c], epoch, a)
         == ApprovalsOf(seen, epoch, a) + (if CountsFor(c, epoch) && c.from.contributor == a then {k} else {})
  {
  }

  lemma HasApprovals(approved: map<Key, Commitment>, epoch: uint64, a: string)
    ensures a in Contributors(approved, epoch) <==> ApprovalsOf(approved, epoch, a) != {}
  {
    if a in Contributors(approved, epoch) {
      var k :| k in approved && CountsFor(approved[k], epoch) && approved[k].from.contributor == a;
      assert k in ApprovalsOf(approved, epoch, a);
    }
    if ApprovalsOf(approved, epoch, a) != {} {
      var k :| k in ApprovalsOf(approved, epoch, a);
      assert approved[k].from.contributor in Contributors(approved, epoch);
    }
  }

  /** The count of one contributor, zero when it has none. */
  function CountFor(approved: map<Key, Commitment>, epoch: uint64, a: string): uint64 {
    Wrap(|ApprovalsOf(approved, epoch, a)|)
  }

  lemma CountAdd(seen: map<Key, Commitment>, k: Key, c: Commitment, epoch: uint64, a: string)
    requires k !in seen
    ensures var grows := CountsFor(c, epoch) && c.from.contributor == a;
            && CountFor(seen[k := c], epoch, a) == Wrap(CountFor(seen, epoch, a) + if grows then 1 else 0)
            && (a in Contributors(seen[k := c], epoch) <==> a in Contributors(seen, epoch) || grows)
    ensures a !in Contributors(seen, epoch) ==> CountFor(seen, epoch, a) == 0
  {
    hide Contributors, CountsFor, ApprovalsOf;
    ApprovalsOfAdd(seen, k, c, epoch, a);
    HasApprovals(seen, epoch, a);
    HasApprovals(seen[k := c], epoch, a);
    NotYet(seen, k, epoch, a);
    WrapStep(|ApprovalsOf(seen, epoch, a)|);
  }

  lemma NotYet(seen: map<Key, Commitment>, k: Key, epoch: uint64, a: string)
    requires k !in seen
    ensures k !in ApprovalsOf(seen, epoch, a)
  {
  }

  lemma NoApprovals(epoch: uint64)
    ensures Approvals(map[], epoch) == map[]
  {
    assert Contributors(map[], epoch) == {};
  }

  /** One more stored memory raises the count of its contributor, if it counts at all. */
  lemma ApprovalsAdd(seen: map<Key, Commitment>, k: Key, c: Commitment, epoch: uint64)
    requires k !in seen
    ensures var (before, who) := (Approvals(seen, epoch), c.from.contributor);
            Approvals(seen[k := c], epoch)
            == if !CountsFor(c, epoch) then before
               else before[who := Wrap((if who in before then before[who] else 0) + 1)]
  {
    hide Contributors, CountsFor, ApprovalsOf;
    forall a: string
      ensures var grows := CountsFor(c, epoch) && c.from.contributor == a;
              && CountFor(seen[k := c], epoch, a) == Wrap(CountFor(seen, epoch, a) + if grows then 1 else 0)
              && (a in Contributors(seen[k := c], epoch) <==> a in Contributors(seen, epoch) || grows)
              && (a !in Contributors(seen, epoch) ==> CountFor(seen, epoch, a) == 0)
    {
      CountAdd(seen, k, c, epoch, a);
    }
  }

  /** Per contributor, the number of committed memories stamped with the epoch; archived and denied ones do not count. */
  lemma ApprovalsAre(approved: map<Key, Commitment>, epoch: uint64, a: string)
    ensures var mine := set k | k in approved && approved[k].from.contributor == a
                                && approved[k].approvedAt == epoch && approved[k].state == Committed;
            && (a in Approvals(approved, epoch) <==> a != "" && mine != {})
            && (a in Approvals(approved, epoch) ==> Approvals(approved, epoch)[a] == Wrap(|mine|))
  {
    var mine := set k | k in approved && approved[k].from.contributor == a
                        && approved[k].approvedAt == epoch && approved[k].state == Committed;
    HasApprovals(approved, epoch, a);
    assert ApprovalsOf(approved, epoch, a) == if a == "" then {} else mine;
  }

  lemma ContributorNamed(env: Env, p: PendingCommitment, m: MsgApprove)
    requires ApprovalCheck(env, p, m).Pass?
    ensures p.from.contributor != ""
  {
    assert Hex.Decode("") == Some([]);
  }

  /** An approval counts once, for its contributor, in the recorded epoch and in no other. */
  lemma ApprovalCountsOnce(env: Env, s: State, orgs: Org.State, m: MsgApprove, ok: bool, epoch: uint64)
    requires Approve(env, s, orgs, m, ok).Success?
    ensures (m.org, m.hash) in s.pending
    ensures var (before, who) := (Approvals(s.approved, epoch), s.pending[(m.org, m.hash)].from.contributor);
            Approvals(Approve(env, s, orgs, m, ok).value.0.approved, epoch)
            == if epoch != s.epoch then before
               else before[who := Wrap((if who in before then before[who] else 0) + 1)]
  {
    hide Approvals;
    var key := (m.org, m.hash);
    ContributorNamed(env, s.pending[key], m);
    ApprovalsAdd(s.approved, key, Approved(env, s, s.pending[key], m), epoch);
  }
}
