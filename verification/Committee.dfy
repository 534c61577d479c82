/** Weighted-stake verification of a committee message. */
module Committee {
  import opened Common
  import opened Codec
  import opened Ed25519
  import opened Sums

  datatype Member = Member(isInitialized: bool, index: Pubkey, stake: u16, isBlocklisted: bool) {
    predicate Active() { !isBlocklisted && isInitialized }
  }

  /** Committee records by the member key they are derived from. */
  type Members = map<Pubkey, Member>

  datatype Operation =
    | TokenTransfer
    | Blocklist
    | EmergencyOp
    | UpdateBridgeLimit
    | UpdateTokenPrice
    | Upgrade
    | AddEvmTokens
    | UpdateChainId

  function OperationOf(code: u8): Option<Operation> {
    match code
    case 0 => Some(TokenTransfer)
    case 1 => Some(Blocklist)
    case 2 => Some(EmergencyOp)
    case 3 => Some(UpdateBridgeLimit)
    case 4 => Some(UpdateTokenPrice)
    case 5 => Some(Upgrade)
    case 7 => Some(AddEvmTokens)
    case 8 => Some(UpdateChainId)
    case _ => None
  }

  const TRANSFER_STAKE_REQUIRED: u16 := 6666
  const GOVERNANCE_STAKE_REQUIRED: u16 := 5001

  /** Stake an approval must reach. Neither message type carries a payload, so an emergency
      operation never gets past its payload check. */
  function RequiredStake(msg: Message): Result<u16> {
    match OperationOf(msg.Type())
    case None => Err(InvalidMessageType)
    case Some(TokenTransfer) => Ok(TRANSFER_STAKE_REQUIRED)
    case Some(EmergencyOp) => Err(InvalidPayloadLength)
    case Some(_) => Ok(GOVERNANCE_STAKE_REQUIRED)
  }

  /** The nonce account handed to `verify`: the empty one of a mint, or a counter. */
  datatype NonceCell = Dummy | Counter(nonce: u64) {
    predicate Equals(value: u64) {
      Counter? ==> nonce == value
    }

    function Incremented(): Result<NonceCell> {
      match this
      case Dummy => Ok(Dummy)
      case Counter(n) => if n == U64_MAX then Err(Panicked(NonceAdd)) else Ok(Counter(n + 1))
    }
  }

  /** Everything an approval is judged by, the number of signatures apart. */
  datatype Request = Request(
    members: Members,
    remaining: seq<Address>,
    ixs: seq<Instruction>,
    msg: Message,
    op: Operation,
    cell: NonceCell)

  /** The active committee record behind signature `i`. */
  function Signature(rq: Request, i: nat): Result<Member> {
    var signer :- Resolve(rq.ixs, i, rq.msg);
    var _ :- Need(OperationOf(rq.msg.Type()) == Some(rq.op), MessageOpTypeMismatch);
    var _ :- Need(rq.cell.Equals(rq.msg.Nonce()), InvalidNonce);
    var _ :- Need(CommitteeRecord(signer) in rq.remaining, CommitteeConfigAddressMissing);
    var _ :- Need(signer in rq.members, Panicked(RecordSlice));
    var _ :- Need(rq.members[signer].Active(), InvalidCommittee);
    Ok(rq.members[signer])
  }

  datatype Tally = Tally(seen: set<Pubkey>, stake: u16)

  function Count(t: Tally, m: Member): Result<Tally> {
    var _ :- Need(m.index !in t.seen, DuplicateSignature);
    var _ :- Need(t.stake + m.stake <= U16_MAX, Panicked(ApprovalStakeAdd));
    Ok(Tally(t.seen + {m.index}, t.stake + m.stake))
  }

  /** The tally of a list of signatures, failing at the first that fails. */
  function Counted(sigs: seq<Result<Member>>): Result<Tally> {
    if sigs == [] then Ok(Tally({}, 0))
    else
      var t :- Counted(sigs[..|sigs| - 1]);
      var m :- sigs[|sigs| - 1];
      Count(t, m)
  }

  /** The outcomes of signatures 1 to n. */
  function Signatures(rq: Request, n: nat): seq<Result<Member>> {
    seq(n, i requires 0 <= i < n => Signature(rq, i + 1))
  }

  function Approve(rq: Request, n: u8): Result<NonceCell> {
    var _ :- Need(n >= 1, InsufficientSignatures);
    var _ :- Need(n + 1 <= U8_MAX, Panicked(SignatureCountAdd));
    var t :- Counted(Signatures(rq, n));
    var cell :- rq.cell.Incremented();
    var required :- RequiredStake(rq.msg);
    var _ :- Need(t.stake >= required, InsufficientStake);
    Ok(cell)
  }

  lemma {:induction false} FailedCountStays(sigs: seq<Result<Member>>, k: nat)
    requires k <= |sigs| && Counted(sigs[..k]).Err?
    ensures Counted(sigs) == Counted(sigs[..k])
  {
    if k == |sigs| {
      assert sigs[..k] == sigs;
    } else {
      var front := sigs[..|sigs| - 1];
      assert front[..k] == sigs[..k];
      FailedCountStays(front, k);
    }
  }

  /** One iteration of the loop: a signature that fails, fails the whole tally. */
  lemma CountStep(sigs: seq<Result<Member>>, k: nat)
    requires k < |sigs| && Counted(sigs[..k]).Ok?
    ensures var t := Counted(sigs[..k]).value;
            var next := if sigs[k].Err? then Err(sigs[k].error) else Count(t, sigs[k].value);
            Counted(sigs[..k + 1]) == next && (next.Err? ==> Counted(sigs) == next)
  {
    assert sigs[..k + 1][..k] == sigs[..k];
    if Counted(sigs[..k + 1]).Err? {
      FailedCountStays(sigs, k + 1);
    }
  }

  /** The loop over pre-instructions 1 to n. */
  method CountSignatures(rq: Request, n: u8) returns (r: Result<Tally>)
    requires n + 1 <= U8_MAX
    ensures r == Counted(Signatures(rq, n))
  {
    var approvalStake: u16 := 0;
    var seenIndices: set<Pubkey> := {};
    ghost var sigs := Signatures(rq, n);
    ghost var t := Tally({}, 0);
    var i := 1;
    while i < n + 1
      invariant 1 <= i <= n + 1
      invariant t == Tally(seenIndices, approvalStake) && Counted(sigs[..i - 1]) == Ok(t)
    {
      var found := Signature(rq, i);
      CountStep(sigs, i - 1);
      if found.Err? {
        return Err(found.error);
      }
      var member := found.value;
      if member.index in seenIndices {
        return Err(DuplicateSignature);
      }
      seenIndices := seenIndices + {member.index};
      if approvalStake + member.stake > U16_MAX {
        return Err(Panicked(ApprovalStakeAdd));
      }
      approvalStake := approvalStake + member.stake;
      t := Count(t, member).value;
      i := i + 1;
    }
    assert sigs[..n] == sigs;
    return Ok(Tally(seenIndices, approvalStake));
  }

  /** The nonce account in memory while a handler runs. */
  class NonceAccount {
    const counts: bool
    var nonce: u64

    function View(): NonceCell
      reads this
    {
      if counts then Counter(nonce) else Dummy
    }

    constructor Load(cell: NonceCell)
      ensures View() == cell
    {
      counts := cell.Counter?;
      nonce := if cell.Counter? then cell.nonce else 0;
    }

    method IncrementNonce() returns (r: Result<()>)
      modifies this
      ensures var spec := old(View()).Incremented();
              if spec.Ok? then r == Ok(()) && View() == spec.value
              else r == Err(spec.error) && View() == old(View())
    {
      if counts {
        if nonce + 1 > U64_MAX {
          return Err(Panicked(NonceAdd));
        }
        nonce := nonce + 1;
      }
      return Ok(());
    }
  }

  /** What verification leaves in the nonce account in memory. */
  function CellLeft(rq: Request, n: u8): NonceCell {
    var next := rq.cell.Incremented();
    if 1 <= n <= 254 && Counted(Signatures(rq, n)).Ok? && next.Ok? then next.value else rq.cell
  }

  /** The counter moves before the stake is compared, so an approval refused for its stake has
      already moved the account in memory; the stored counter is safe only because a failed
      transaction stores nothing. */
  method Verify(rq: Request, n: u8, nonceConfig: NonceAccount) returns (r: Result<()>)
    requires nonceConfig.View() == rq.cell
    modifies nonceConfig
    ensures var spec := Approve(rq, n);
            if spec.Ok? then r == Ok(()) && nonceConfig.View() == spec.value
            else r == Err(spec.error)
    ensures nonceConfig.View() == CellLeft(rq, n)
  {
    if n < 1 {
      return Err(InsufficientSignatures);
    }
    if n + 1 > U8_MAX {
      return Err(Panicked(SignatureCountAdd));
    }
    var t :- CountSignatures(rq, n);
    var _ :- nonceConfig.IncrementNonce();
    var required :- RequiredStake(rq.msg);
    if t.stake < required {
      return Err(InsufficientStake);
    }
    return Ok(());
  }

  // ---------- what an approval means ----------

  /** Every record is stored under the key it names. */
  predicate Keyed(members: Members) {
    forall k <- members :: members[k].index == k
  }

  /** Signature `i` attests the message, in time, by an active member whose record is supplied. */
  predicate Stands(rq: Request, i: nat) {
    && i < |rq.ixs|
    && Attests(rq.ixs[i], rq.msg)
    && OperationOf(rq.msg.Type()) == Some(rq.op)
    && rq.cell.Equals(rq.msg.Nonce())
    && var signer := SignerOf(rq.ixs[i]);
    && CommitteeRecord(signer) in rq.remaining
    && signer in rq.members
    && rq.members[signer].Active()
  }

  function KeyIn(ix: Instruction): Pubkey {
    if |ix.data| >= MESSAGE_AT then SignerOf(ix) else DEFAULT_KEY
  }

  /** The keys in the signature instructions 1 to n. */
  function Keys(ixs: seq<Instruction>, n: nat): seq<Pubkey> {
    seq(n, i requires 0 <= i < n => if i + 1 < |ixs| then KeyIn(ixs[i + 1]) else DEFAULT_KEY)
  }

  function KeySet(keys: seq<Pubkey>): set<Pubkey> {
    set k | k in keys
  }

  function Signers(ixs: seq<Instruction>, n: nat): set<Pubkey> {
    KeySet(Keys(ixs, n))
  }

  ghost function Stakes(members: Members, keys: set<Pubkey>): map<Pubkey, nat> {
    map k | k in keys && k in members :: members[k].stake
  }

  /** Total stake of a set of members. */
  ghost function Weight(members: Members, keys: set<Pubkey>): nat {
    Sum(Stakes(members, keys))
  }

  lemma WeightOfOneMore(members: Members, keys: set<Pubkey>, k: Pubkey)
    requires k !in keys && k in members
    ensures Weight(members, keys + {k}) == Weight(members, keys) + members[k].stake
  {
    SumPut(Stakes(members, keys), k, members[k].stake);
    assert Stakes(members, keys + {k}) == Stakes(members, keys)[k := members[k].stake];
  }

  lemma KeySetOfOneMore(keys: seq<Pubkey>)
    requires keys != []
    ensures KeySet(keys) == KeySet(keys[..|keys| - 1]) + {keys[|keys| - 1]}
  {
    assert keys == keys[..|keys| - 1] + [keys[|keys| - 1]];
  }

  lemma {:induction false} AtMostOneEach(keys: seq<Pubkey>)
    ensures |KeySet(keys)| <= |keys|
  {
    if keys == [] {
    } else {
      KeySetOfOneMore(keys);
      AtMostOneEach(keys[..|keys| - 1]);
    }
  }

  lemma {:induction false} CountedNeedsAll(sigs: seq<Result<Member>>)
    requires Counted(sigs).Ok?
    ensures forall i | 0 <= i < |sigs| :: sigs[i].Ok?
  {
    if sigs == [] {
    } else {
      CountedNeedsAll(sigs[..|sigs| - 1]);
    }
  }

  /** Counting the records of a list of keys succeeds exactly when the keys are distinct and
      their stake fits u16; it then holds exactly those keys and that stake. */
  lemma {:induction false} CountedIff(members: Members, keys: seq<Pubkey>, sigs: seq<Result<Member>>)
    requires Keyed(members) && |keys| == |sigs|
    requires forall i | 0 <= i < |keys| :: keys[i] in members && sigs[i] == Ok(members[keys[i]])
    ensures Counted(sigs).Ok? <==>
              |KeySet(keys)| == |keys| && Weight(members, KeySet(keys)) <= U16_MAX
    ensures Counted(sigs).Ok? ==>
              Counted(sigs).value == Tally(KeySet(keys), Weight(members, KeySet(keys)))
  {
    if keys == [] {
      assert Stakes(members, KeySet(keys)) == map[];
    } else {
      var front, key := keys[..|keys| - 1], keys[|keys| - 1];
      CountedIff(members, front, sigs[..|sigs| - 1]);
      KeySetOfOneMore(keys);
      AtMostOneEach(front);
      if key in KeySet(front) {
        assert KeySet(keys) == KeySet(front);
      } else {
        WeightOfOneMore(members, KeySet(front), key);
      }
    }
  }

  lemma SignatureIff(rq: Request, i: nat)
    ensures Signature(rq, i).Ok? <==> Stands(rq, i)
    ensures Stands(rq, i) ==>
              && KeyIn(rq.ixs[i]) in rq.members
              && Signature(rq, i) == Ok(rq.members[KeyIn(rq.ixs[i])])
  {
    ResolveIff(rq.ixs, i, rq.msg);
  }

  ghost predicate AllStand(rq: Request, n: nat) {
    forall i | 1 <= i <= n :: Stands(rq, i)
  }

  lemma SignaturesIff(rq: Request, n: nat)
    ensures AllStand(rq, n) <==> forall i | 0 <= i < n :: Signatures(rq, n)[i].Ok?
    ensures AllStand(rq, n) ==> forall i | 0 <= i < n ::
              var key := Keys(rq.ixs, n)[i];
              key in rq.members && Signatures(rq, n)[i] == Ok(rq.members[key])
  {
    forall i | 0 <= i < n
      ensures Signatures(rq, n)[i].Ok? <==> Stands(rq, i + 1)
      ensures Stands(rq, i + 1) ==>
                var key := Keys(rq.ixs, n)[i];
                key in rq.members && Signatures(rq, n)[i] == Ok(rq.members[key])
    {
      SignatureIff(rq, i + 1);
    }
    if forall i | 0 <= i < n :: Signatures(rq, n)[i].Ok? {
      forall i | 1 <= i <= n
        ensures Stands(rq, i)
      {
        assert Signatures(rq, n)[i - 1].Ok?;
      }
    }
  }

  /** The tally succeeds exactly when all signatures stand, the signers are distinct and
      their stake fits u16; it then holds exactly those signers and that stake. */
  lemma TallyIff(rq: Request, n: nat)
    requires Keyed(rq.members)
    ensures Counted(Signatures(rq, n)).Ok? <==>
              && AllStand(rq, n)
              && |Signers(rq.ixs, n)| == n
              && Weight(rq.members, Signers(rq.ixs, n)) <= U16_MAX
    ensures Counted(Signatures(rq, n)).Ok? ==>
              Counted(Signatures(rq, n)).value
              == Tally(Signers(rq.ixs, n), Weight(rq.members, Signers(rq.ixs, n)))
  {
    SignaturesIff(rq, n);
    if AllStand(rq, n) {
      CountedIff(rq.members, Keys(rq.ixs, n), Signatures(rq, n));
    } else if Counted(Signatures(rq, n)).Ok? {
      CountedNeedsAll(Signatures(rq, n));
    }
  }

  /** When an approval by n signatures is accepted. */
  ghost predicate Approved(rq: Request, n: u8) {
    && 1 <= n <= 254
    && AllStand(rq, n)
    && |Signers(rq.ixs, n)| == n
    && RequiredStake(rq.msg).Ok?
    && RequiredStake(rq.msg).value <= Weight(rq.members, Signers(rq.ixs, n)) <= U16_MAX
    && rq.cell != Counter(U64_MAX)
  }

  /** `verify` accepts exactly the approvals by distinct active members of enough stake, and
      advances a counter, which held the message's nonce, by one. */
  lemma ApproveIff(rq: Request, n: u8)
    requires Keyed(rq.members)
    ensures Approve(rq, n).Ok? <==> Approved(rq, n)
    ensures Approve(rq, n).Ok? ==>
              && rq.cell.Equals(rq.msg.Nonce())
              && Approve(rq, n).value
                 == if rq.cell.Dummy? then Dummy else Counter(rq.cell.nonce + 1)
  {
    TallyIff(rq, n);
    if Approve(rq, n).Ok? {
      assert Stands(rq, 1);
    }
  }

  lemma FrameOf(rq: Request, n: nat, key: Pubkey) returns (i: nat)
    requires AllStand(rq, n) && key in Signers(rq.ixs, n)
    ensures 1 <= i <= n && i < |rq.ixs| && Attests(rq.ixs[i], rq.msg) && SignerOf(rq.ixs[i]) == key
  {
    i :| 0 <= i < n && Keys(rq.ixs, n)[i] == key;
    i := i + 1;
    assert Stands(rq, i);
  }

  /** What an approval rests on: when every counted frame names its rest, as the client's does, the
      native program has checked the very encoding of the message under the key of every signer. */
  lemma ApprovedIsSigned(rq: Request, n: u8)
    requires Keyed(rq.members) && Approve(rq, n).Ok?
    requires forall i | 1 <= i <= n && i < |rq.ixs| :: NamesRest(rq.ixs[i].data)
    ensures forall key <- Signers(rq.ixs, n) ::
              exists i | 1 <= i <= n && i < |rq.ixs| :: SignedBy(rq.ixs[i], key, rq.msg)
  {
    ApproveIff(rq, n);
    assert AllStand(rq, n) <==> true;
    forall key <- Signers(rq.ixs, n)
      ensures exists i | 1 <= i <= n && i < |rq.ixs| :: SignedBy(rq.ixs[i], key, rq.msg)
    {
      var i := FrameOf(rq, n, key);
      AttestedIsSigned(rq.ixs[i], rq.msg);
    }
  }

  /** Whatever holds of the errors of the signatures and of the two errors of counting holds of
      the error of a tally. */
  lemma {:induction false} CountedErrors(sigs: seq<Result<Member>>, p: Error -> bool)
    requires p(DuplicateSignature) && p(Panicked(ApprovalStakeAdd))
    requires forall i | 0 <= i < |sigs| :: sigs[i].Err? ==> p(sigs[i].error)
    ensures Counted(sigs).Err? ==> p(Counted(sigs).error)
  {
    if sigs == [] {
    } else {
      CountedErrors(sigs[..|sigs| - 1], p);
    }
  }

  lemma SignatureNotShort(rq: Request, i: nat)
    ensures Signature(rq, i) != Err(InsufficientStake)
  {
  }

  predicate NotShort(e: Error) { e != InsufficientStake }

  lemma CountedNotShort(rq: Request, n: nat)
    ensures Counted(Signatures(rq, n)) != Err(InsufficientStake)
  {
    forall i | 0 <= i < n
      ensures Signatures(rq, n)[i].Err? ==> NotShort(Signatures(rq, n)[i].error)
    {
      SignatureNotShort(rq, i + 1);
    }
    CountedErrors(Signatures(rq, n), NotShort);
  }

  /** When an approval fails for its stake and for nothing else. */
  ghost predicate ShortOfStake(rq: Request, n: u8) {
    && 1 <= n <= 254
    && AllStand(rq, n)
    && |Signers(rq.ixs, n)| == n
    && rq.cell != Counter(U64_MAX)
    && RequiredStake(rq.msg).Ok?
    && Weight(rq.members, Signers(rq.ixs, n)) < RequiredStake(rq.msg).value
  }

  /** Verification refuses an approval for its stake exactly when all else is in order, and then
      it has already moved the counter in memory. */
  lemma ShortOfStakeIff(rq: Request, n: u8)
    requires Keyed(rq.members)
    ensures Approve(rq, n) == Err(InsufficientStake) <==> ShortOfStake(rq, n)
    ensures ShortOfStake(rq, n) ==> Ok(CellLeft(rq, n)) == rq.cell.Incremented()
  {
    TallyIff(rq, n);
    CountedNotShort(rq, n);
  }

  /** Verification moves the account in memory exactly when all signatures stand, by distinct members
      whose stake fits u16, and there is a counter that can still move; then it moves by one. */
  lemma CounterMovesIff(rq: Request, n: u8)
    requires Keyed(rq.members)
    ensures CellLeft(rq, n) != rq.cell <==>
              && 1 <= n <= 254 && AllStand(rq, n)
              && |Signers(rq.ixs, n)| == n && Weight(rq.members, Signers(rq.ixs, n)) <= 0xFFFF
              && rq.cell.Counter? && rq.cell.nonce < 0xFFFF_FFFF_FFFF_FFFF
    ensures CellLeft(rq, n) != rq.cell ==> CellLeft(rq, n) == Counter(rq.cell.nonce + 1)
  {
    TallyIff(rq, n);
  }

  /** No approval of an emergency operation is ever accepted. */
  lemma NoEmergency(rq: Request, n: u8)
    requires Keyed(rq.members) && rq.op == EmergencyOp
    ensures Approve(rq, n).Err?
  {
    ApproveIff(rq, n);
    if Approved(rq, n) {
      assert Stands(rq, 1);
    }
  }
}
