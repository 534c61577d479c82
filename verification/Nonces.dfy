/** The three nonce disciplines: a mint creates an account per source chain and nonce, limiter
    updates use an expected counter, and withdrawals number themselves. */
module Nonces {
  import opened Common
  import opened Sums
  import opened Committee
  import opened State
  import opened Flows
  import opened Invariants

  /** The mint nonces used in a log. */
  function NoncesIn(log: seq<Receipt>): set<MintNonce> {
    if log == [] then {}
    else
      var r := log[|log| - 1];
      NoncesIn(log[..|log| - 1]) + if r.Minted? then {MintNonce(r.source.chain, r.nonce)} else {}
  }

  function LimitsIn(log: seq<Receipt>): nat {
    if log == [] then 0
    else LimitsIn(log[..|log| - 1]) + if log[|log| - 1].LimitSet? then 1 else 0
  }

  function WithdrawalsIn(log: seq<Receipt>): nat {
    if log == [] then 0
    else WithdrawalsIn(log[..|log| - 1]) + if log[|log| - 1].Withdrawn? then 1 else 0
  }

  /** Whether `r` may follow the log `before`: a mint with a new nonce, the limiter update whose
      turn it is, the withdrawal with the next number. The update's event shows the counter
      after it, one more than the nonce its message carries. */
  predicate Follows(before: seq<Receipt>, r: Receipt) {
    match r
    case Minted(source, nonce, _, _, _, _) => MintNonce(source.chain, nonce) !in NoncesIn(before)
    case LimitSet(_, messageNonce, nonce, _, _) =>
      messageNonce == LimitsIn(before) && nonce == LimitsIn(before) + 1
    case Withdrawn(_, nonce, _, _, _, _, _) => nonce == WithdrawalsIn(before) + 1
  }

  ghost predicate InOrder(log: seq<Receipt>) {
    forall i | 0 <= i < |log| :: Follows(log[..i], log[i])
  }

  ghost predicate NoncesOk(s: Accounts) {
    && InOrder(s.log)
    && s.mintNonces == NoncesIn(s.log)
    && s.limitNonce == LimitsIn(s.log)
    && s.withdrawNonce == WithdrawalsIn(s.log)
  }

  lemma LogGrows(log: seq<Receipt>, r: Receipt)
    requires InOrder(log) && Follows(log, r)
    ensures InOrder(log + [r])
    ensures NoncesIn(log + [r])
         == NoncesIn(log) + if r.Minted? then {MintNonce(r.source.chain, r.nonce)} else {}
    ensures LimitsIn(log + [r]) == LimitsIn(log) + if r.LimitSet? then 1 else 0
    ensures WithdrawalsIn(log + [r]) == WithdrawalsIn(log) + if r.Withdrawn? then 1 else 0
  {
    var log' := log + [r];
    assert log'[..|log|] == log;
    forall i | 0 <= i < |log'|
      ensures Follows(log'[..i], log'[i])
    {
      if i < |log| {
        assert log'[..i] == log[..i];
      }
    }
  }

  lemma MintKeepsNonces(s: Accounts, c: MintCall, hour: u32)
    requires NoncesOk(s) && MintSbtc(s, c, hour).Ok?
    ensures NoncesOk(MintSbtc(s, c, hour).value)
  {
    MintEffect(s, c, hour);
    LogGrows(s.log, MintSbtc(s, c, hour).value.log[|s.log|]);
  }

  lemma WithdrawKeepsNonces(s: Accounts, c: WithdrawCall, writeBack: bool)
    requires NoncesOk(s) && WithdrawBtc(s, c, writeBack).Ok?
    ensures NoncesOk(WithdrawBtc(s, c, writeBack).value)
  {
    WithdrawEffect(s, c, writeBack);
    LogGrows(s.log, WithdrawBtc(s, c, writeBack).value.log[|s.log|]);
  }

  lemma LimitKeepsNonces(s: Accounts, c: LimitCall, hour: u32)
    requires Keyed(s.members) && NoncesOk(s) && UpdateLimiter(s, c, hour).Ok?
    ensures NoncesOk(UpdateLimiter(s, c, hour).value)
  {
    LimitEffect(s, c, hour);
    LogGrows(s.log, UpdateLimiter(s, c, hour).value.log[|s.log|]);
  }

  lemma {:induction false} EarlierNonceIsUsed(log: seq<Receipt>, i: nat)
    requires i < |log| && log[i].Minted?
    ensures MintNonce(log[i].source.chain, log[i].nonce) in NoncesIn(log)
  {
    if i == |log| - 1 {
    } else {
      EarlierNonceIsUsed(log[..|log| - 1], i);
    }
  }

  /** Exactly once: no two mints of a log share source chain and nonce. */
  lemma MintsAreDistinct(log: seq<Receipt>, i: nat, j: nat)
    requires InOrder(log) && i < j < |log| && log[i].Minted? && log[j].Minted?
    ensures log[i].source.chain != log[j].source.chain || log[i].nonce != log[j].nonce
  {
    EarlierNonceIsUsed(log[..j], i);
    assert Follows(log[..j], log[j]);
  }

  // ---------- the pigeonhole ----------

  function NoncesOf(nonces: set<MintNonce>, c: u8): set<nat> {
    set n | n in nonces && n.sourceChain == c :: n.nonce
  }

  /** Each chain total is at most one full amount for each nonce the chain has used. */
  ghost predicate TotalsCovered(s: Accounts) {
    forall c: u8 :: ChainTotal(s.chains, c) <= |NoncesOf(s.mintNonces, c)| * U64_MAX
  }

  lemma NewNonceCounts(nonces: set<MintNonce>, n: MintNonce, c: u8)
    ensures n !in nonces && n.sourceChain == c ==>
              |NoncesOf(nonces + {n}, c)| == |NoncesOf(nonces, c)| + 1
    ensures n.sourceChain != c ==> NoncesOf(nonces + {n}, c) == NoncesOf(nonces, c)
  {
    if n.sourceChain == c && n !in nonces {
      assert NoncesOf(nonces + {n}, c) == NoncesOf(nonces, c) + {n.nonce};
      assert n.nonce !in NoncesOf(nonces, c);
    }
  }

  lemma MintKeepsCover(s: Accounts, c: MintCall, hour: u32)
    requires TotalsCovered(s) && MintSbtc(s, c, hour).Ok?
    ensures TotalsCovered(MintSbtc(s, c, hour).value)
  {
    MintEffect(s, c, hour);
    var s' := MintSbtc(s, c, hour).value;
    forall k: u8
      ensures ChainTotal(s'.chains, k) <= |NoncesOf(s'.mintNonces, k)| * U64_MAX
    {
      NewNonceCounts(s.mintNonces, c.Nonce(), k);
    }
  }

  lemma WithdrawKeepsCover(s: Accounts, c: WithdrawCall, writeBack: bool)
    requires TotalsCovered(s) && WithdrawBtc(s, c, writeBack).Ok?
    ensures TotalsCovered(WithdrawBtc(s, c, writeBack).value)
  {
    WithdrawEffect(s, c, writeBack);
    var s' := WithdrawBtc(s, c, writeBack).value;
    forall k: u8
      ensures ChainTotal(s'.chains, k) <= |NoncesOf(s'.mintNonces, k)| * U64_MAX
    {
    }
  }

  /** Pigeonhole: a chain has at most 2^64 nonces, so its total is bounded; and each token's
      total is part of it. */
  lemma TotalsBounded(s: Accounts, id: TokenId)
    requires TotalsCovered(s) && TotalsAgree(s.tokens, s.chains)
    ensures TokenTotal(s.tokens, id) <= ChainTotal(s.chains, id.chain)
         <= (U64_MAX + 1) * U64_MAX <= U128_MAX
  {
    AtMostBelow(NoncesOf(s.mintNonces, id.chain), U64_MAX + 1);
    TokenAtMostSum(s.tokens, id, 256);
  }

  /** While a nonce is unused there is room for any amount. */
  lemma RoomForEveryMint(s: Accounts, id: TokenId, nonce: u64, amount: u64)
    requires TotalsCovered(s) && TotalsAgree(s.tokens, s.chains)
    requires MintNonce(id.chain, nonce) !in s.mintNonces
    ensures TokenTotal(s.tokens, id) <= ChainTotal(s.chains, id.chain)
    ensures ChainTotal(s.chains, id.chain) + amount <= (U64_MAX + 1) * U64_MAX <= U128_MAX
  {
    var used := NoncesOf(s.mintNonces, id.chain);
    assert nonce !in used;
    AtMostBelow(used + {nonce as nat}, U64_MAX + 1);
    TotalsBounded(s, id);
  }
}
