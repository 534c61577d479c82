/** Properties of approvals: the order of signatures does not matter, more signers never
    hurt, and two approvals overlap. */
module Quorum {
  import opened Common
  import opened Ed25519
  import opened Committee
  import opened Sums

  /** The signature instructions of a transaction with n signatures. */
  function SignatureIxs(rq: Request, n: nat): seq<Instruction>
    requires n < |rq.ixs|
  {
    rq.ixs[1..n + 1]
  }

  lemma SignersAreKeys(rq: Request, n: nat)
    requires n < |rq.ixs|
    ensures Signers(rq.ixs, n) == set ix | ix in SignatureIxs(rq, n) :: KeyIn(ix)
  {
    forall i | 0 <= i < n
      ensures Keys(rq.ixs, n)[i] == KeyIn(SignatureIxs(rq, n)[i])
    {
    }
    forall k | k in Signers(rq.ixs, n)
      ensures exists ix :: ix in SignatureIxs(rq, n) && KeyIn(ix) == k
    {
      var i :| 0 <= i < n && Keys(rq.ixs, n)[i] == k;
      assert SignatureIxs(rq, n)[i] in SignatureIxs(rq, n);
    }
    forall ix | ix in SignatureIxs(rq, n)
      ensures KeyIn(ix) in Signers(rq.ixs, n)
    {
      var i :| 0 <= i < n && SignatureIxs(rq, n)[i] == ix;
      assert Keys(rq.ixs, n)[i] in Keys(rq.ixs, n);
    }
  }

  lemma SameElements(a: seq<Instruction>, b: seq<Instruction>)
    requires multiset(a) == multiset(b)
    ensures forall ix :: ix in a <==> ix in b
  {
    forall ix: Instruction
      ensures ix in a <==> ix in b
    {
      assert ix in a <==> ix in multiset(a);
      assert ix in b <==> ix in multiset(b);
    }
  }

  /** Whether an instruction stands does not depend on where it is. */
  predicate StandsAnywhere(rq: Request, ix: Instruction) {
    Stands(rq.(ixs := [ix]), 0)
  }

  lemma StandingIsPerInstruction(rq: Request, n: nat)
    requires n < |rq.ixs|
    ensures AllStand(rq, n)
       <==> (forall ix <- SignatureIxs(rq, n) :: StandsAnywhere(rq, ix))
  {
    var sigs := SignatureIxs(rq, n);
    forall i | 1 <= i <= n
      ensures sigs[i - 1] == rq.ixs[i] && (Stands(rq, i) <==> StandsAnywhere(rq, rq.ixs[i]))
    {
    }
    if forall ix <- sigs :: StandsAnywhere(rq, ix) {
      forall i | 1 <= i <= n
        ensures Stands(rq, i)
      {
        assert sigs[i - 1] in sigs;
      }
    }
    if AllStand(rq, n) {
      forall ix | ix in sigs
        ensures StandsAnywhere(rq, ix)
      {
        var j :| 0 <= j < |sigs| && sigs[j] == ix;
        assert Stands(rq, j + 1);
      }
    }
  }

  lemma PermutedSignatures(rq: Request, rq': Request, n: nat)
    requires n < |rq.ixs| && n < |rq'.ixs| && rq' == rq.(ixs := rq'.ixs)
    requires multiset(SignatureIxs(rq, n)) == multiset(SignatureIxs(rq', n))
    ensures AllStand(rq, n) <==> AllStand(rq', n)
    ensures Signers(rq.ixs, n) == Signers(rq'.ixs, n)
  {
    SameElements(SignatureIxs(rq, n), SignatureIxs(rq', n));
    SignersAreKeys(rq, n);
    SignersAreKeys(rq', n);
    StandingIsPerInstruction(rq, n);
    StandingIsPerInstruction(rq', n);
    assert forall ix :: rq.(ixs := [ix]) == rq'.(ixs := [ix]);
  }

  /** Permuting the signature instructions, or changing any other instruction, never changes
      the outcome. */
  lemma OrderDoesNotMatter(rq: Request, ixs: seq<Instruction>, n: u8)
    requires Keyed(rq.members)
    requires n < |rq.ixs| && n < |ixs|
    requires multiset(rq.ixs[1..n + 1]) == multiset(ixs[1..n + 1])
    ensures Approve(rq, n).Ok? <==> Approve(rq.(ixs := ixs), n).Ok?
    ensures Approve(rq, n).Ok? ==> Approve(rq, n) == Approve(rq.(ixs := ixs), n)
  {
    PermutedSignatures(rq, rq.(ixs := ixs), n);
    ApproveIff(rq, n);
    ApproveIff(rq.(ixs := ixs), n);
  }

  lemma MoreSignersWeighMore(members: Members, ixs: seq<Instruction>, n: nat, k: nat)
    requires n <= k
    ensures Signers(ixs, n) <= Signers(ixs, k)
    ensures Weight(members, Signers(ixs, n)) <= Weight(members, Signers(ixs, k))
  {
    assert Keys(ixs, n) == Keys(ixs, k)[..n];
    WeightOfParts(members, Signers(ixs, n), Signers(ixs, k) - Signers(ixs, n));
    assert Signers(ixs, n) + (Signers(ixs, k) - Signers(ixs, n)) == Signers(ixs, k);
  }

  /** Monotonicity: an accepted approval stays accepted when further distinct active signers
      join, as long as the count fits and the stake fits u16. */
  lemma MoreSignersKeepApproval(rq: Request, n: u8, k: u8)
    requires Keyed(rq.members) && Approve(rq, n).Ok? && n <= k <= 254
    requires forall i | n < i <= k :: Stands(rq, i)
    requires |Signers(rq.ixs, k)| == k
    requires Weight(rq.members, Signers(rq.ixs, k)) <= U16_MAX
    ensures Approve(rq, k) == Approve(rq, n)
  {
    ApproveIff(rq, n);
    ApproveIff(rq, k);
    MoreSignersWeighMore(rq.members, rq.ixs, n, k);
  }

  lemma WeightOfParts(members: Members, a: set<Pubkey>, b: set<Pubkey>)
    requires a !! b
    ensures Weight(members, a + b) == Weight(members, a) + Weight(members, b)
  {
    SumOfParts(Stakes(members, a), Stakes(members, b));
    assert Stakes(members, a + b) == Stakes(members, a) + Stakes(members, b);
  }

  function ActiveKeys(members: Members): set<Pubkey> {
    set k | k in members && members[k].Active()
  }

  /** Storing one record changes the standing and the weight of its member alone. */
  lemma MemberPut(members: Members, key: Pubkey, m: Member)
    ensures var after := members[key := m];
            && ActiveKeys(after) == ActiveKeys(members) - {key} + (if m.Active() then {key} else {})
            && Weight(after, {key}) == m.stake
            && forall keys: set<Pubkey> | key !in keys :: Weight(after, keys) == Weight(members, keys)
  {
    var after := members[key := m];
    assert Stakes(after, {key}) == map[][key := m.stake as nat];
    SumPut(map[], key, m.stake);
    forall keys: set<Pubkey> | key !in keys
      ensures Weight(after, keys) == Weight(members, keys)
    {
      assert Stakes(after, keys) == Stakes(members, keys);
    }
  }

  lemma StandingSigner(rq: Request, i: nat)
    requires Stands(rq, i)
    ensures KeyIn(rq.ixs[i]) in ActiveKeys(rq.members)
  {
  }

  lemma ApprovedSignersAreActive(rq: Request, n: u8)
    requires Approved(rq, n)
    ensures Signers(rq.ixs, n) <= ActiveKeys(rq.members)
  {
    forall k | k in Signers(rq.ixs, n)
      ensures k in ActiveKeys(rq.members)
    {
      var i :| 0 <= i < n && Keys(rq.ixs, n)[i] == k;
      StandingSigner(rq, i + 1);
    }
  }

  /** Quorum overlap: of any two approvals accepted under the same committee, the common
      signers hold at least the two required stakes less the total active stake. */
  lemma QuorumsOverlap(a: Request, n: u8, b: Request, k: u8)
    requires a.members == b.members && Keyed(a.members)
    requires Approve(a, n).Ok? && Approve(b, k).Ok?
    ensures RequiredStake(a.msg).Ok? && RequiredStake(b.msg).Ok?
    ensures Weight(a.members, Signers(a.ixs, n) * Signers(b.ixs, k))
         >= RequiredStake(a.msg).value + RequiredStake(b.msg).value
            - Weight(a.members, ActiveKeys(a.members))
  {
    ApproveIff(a, n);
    ApproveIff(b, k);
    ApprovedSignersAreActive(a, n);
    ApprovedSignersAreActive(b, k);
    var m, s, t := a.members, Signers(a.ixs, n), Signers(b.ixs, k);
    var active := ActiveKeys(m);
    WeightOfParts(m, s - t, s * t);
    assert s - t + s * t == s;
    WeightOfParts(m, s - t, t);
    WeightOfParts(m, s - t + t, active - (s - t + t));
    assert s - t + t + (active - (s - t + t)) == active;
  }

  /** Two mint approvals share signers holding at least 13332 less the total active stake, so
      with less active stake than that, they share a member. */
  lemma MintQuorumsOverlap(a: Request, n: u8, b: Request, k: u8)
    requires a.members == b.members && Keyed(a.members)
    requires a.op == TokenTransfer && b.op == TokenTransfer
    requires Approve(a, n).Ok? && Approve(b, k).Ok?
    ensures Weight(a.members, Signers(a.ixs, n) * Signers(b.ixs, k))
         >= 13332 - Weight(a.members, ActiveKeys(a.members))
    ensures Weight(a.members, ActiveKeys(a.members)) < 13332 ==>
              Signers(a.ixs, n) * Signers(b.ixs, k) != {}
  {
    QuorumsOverlap(a, n, b, k);
    ApproveIff(a, n);
    ApproveIff(b, k);
    assert Stands(a, 1) && Stands(b, 1);
    assert Stakes(a.members, {}) == map[];
  }
}
