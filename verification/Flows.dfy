/** Sums over the log of committed transactions and over the stored accounts. */
module Flows {
  import opened Common
  import opened Sums
  import opened State

  /** What is added up over the log. */
  datatype Measure =
    | MintedFrom(id: TokenId)
    | WithdrawnTo(id: TokenId)
    | BurnedTo(id: TokenId)
    | ChainMinted(chain: u8)
    | ChainWithdrawn(chain: u8)
    | MintedOn(solanaChain: u8)
    | BurnedOn(solanaChain: u8)
    | AllMinted
    | AllWithdrawn
    | AllBurned
    | AllFees

  function Part(r: Receipt, k: Measure): nat {
    match k
    case MintedFrom(id) => if r.Minted? && r.source == id then r.amount else 0
    case WithdrawnTo(id) => if r.Withdrawn? && r.target == id then r.original else 0
    case BurnedTo(id) => if r.Withdrawn? && r.target == id then r.burned else 0
    case ChainMinted(c) => if r.Minted? && r.source.chain == c then r.amount else 0
    case ChainWithdrawn(c) => if r.Withdrawn? && r.target.chain == c then r.original else 0
    case MintedOn(d) => if r.Minted? && r.solanaChain == d then r.amount else 0
    case BurnedOn(d) => if r.Withdrawn? && r.solanaChain == d then r.burned else 0
    case AllMinted => if r.Minted? then r.amount else 0
    case AllWithdrawn => if r.Withdrawn? then r.original else 0
    case AllBurned => if r.Withdrawn? then r.burned else 0
    case AllFees => if r.Withdrawn? then r.fee else 0
  }

  function Flow(log: seq<Receipt>, k: Measure): nat {
    if log == [] then 0 else Flow(log[..|log| - 1], k) + Part(log[|log| - 1], k)
  }

  lemma FlowGrows(log: seq<Receipt>, r: Receipt, k: Measure)
    ensures Flow(log + [r], k) == Flow(log, k) + Part(r, k)
  {
    assert (log + [r])[..|log|] == log;
  }

  // ---------- totals of the stored records ----------

  function TokenTotal(tokens: map<TokenId, TokenConfig>, id: TokenId): nat {
    if id in tokens then tokens[id].mintTotal else 0
  }

  function ChainTotal(chains: map<u8, ChainConfig>, c: u8): nat {
    if c in chains then chains[c].mintTotal else 0
  }

  function Supply(mints: map<u8, Sbtc>, d: u8): nat {
    if d in mints then mints[d].supply else 0
  }

  /** Total of the token records of chain `c` with token id below `n`. */
  function TokenSum(tokens: map<TokenId, TokenConfig>, c: u8, n: nat): nat
    requires n <= 256
  {
    if n == 0 then 0 else TokenSum(tokens, c, n - 1) + TokenTotal(tokens, TokenId(c, n - 1))
  }

  function ChainSum(chains: map<u8, ChainConfig>, n: nat): nat
    requires n <= 256
  {
    if n == 0 then 0 else ChainSum(chains, n - 1) + ChainTotal(chains, n - 1)
  }

  function SupplySum(mints: map<u8, Sbtc>, n: nat): nat
    requires n <= 256
  {
    if n == 0 then 0 else SupplySum(mints, n - 1) + Supply(mints, n - 1)
  }

  lemma {:induction false} TokenSumPut(tokens: map<TokenId, TokenConfig>, id: TokenId,
                                       v: TokenConfig, c: u8, n: nat)
    requires n <= 256
    ensures TokenSum(tokens[id := v], c, n)
         == TokenSum(tokens, c, n)
            + if id.chain == c && id.token < n then v.mintTotal - TokenTotal(tokens, id) else 0
  {
    if n == 0 {
    } else {
      TokenSumPut(tokens, id, v, c, n - 1);
    }
  }

  lemma {:induction false} ChainSumPut(chains: map<u8, ChainConfig>, c: u8, v: ChainConfig, n: nat)
    requires n <= 256
    ensures ChainSum(chains[c := v], n)
         == ChainSum(chains, n) + if c < n then v.mintTotal - ChainTotal(chains, c) else 0
  {
    if n == 0 {
    } else {
      ChainSumPut(chains, c, v, n - 1);
    }
  }

  lemma {:induction false} SupplySumPut(mints: map<u8, Sbtc>, d: u8, v: Sbtc, n: nat)
    requires n <= 256
    ensures SupplySum(mints[d := v], n)
         == SupplySum(mints, n) + if d < n then v.supply - Supply(mints, d) else 0
  {
    if n == 0 {
    } else {
      SupplySumPut(mints, d, v, n - 1);
    }
  }

  lemma {:induction false} TokenAtMostSum(tokens: map<TokenId, TokenConfig>, id: TokenId, n: nat)
    requires id.token < n <= 256
    ensures TokenTotal(tokens, id) <= TokenSum(tokens, id.chain, n)
  {
    if id.token == n - 1 {
    } else {
      TokenAtMostSum(tokens, id, n - 1);
    }
  }

  lemma {:induction false} NoTokensNoSum(tokens: map<TokenId, TokenConfig>, c: u8, n: nat)
    requires n <= 256 && forall id <- tokens :: id.chain == c ==> tokens[id].mintTotal == 0
    ensures TokenSum(tokens, c, n) == 0
  {
    if n == 0 {
    } else {
      NoTokensNoSum(tokens, c, n - 1);
    }
  }

  // ---------- the token program keeps balances and supply together ----------

  /** The balances of one mint add up to its supply. */
  ghost predicate Balanced(s: Sbtc) { Sum(s.balances) == s.supply }

  lemma OpenAtaKeepsBalance(s: Sbtc, owner: Pubkey)
    ensures Sum(OpenAta(s, owner).balances) == Sum(s.balances)
  {
    SumPut(s.balances, owner, 0);
  }

  lemma MintToBalance(s: Sbtc, owner: Pubkey, amount: u64)
    requires MintTo(s, owner, amount).Ok?
    ensures MintTo(s, owner, amount).value.supply == s.supply + amount
    ensures Sum(MintTo(s, owner, amount).value.balances) == Sum(s.balances) + amount
  {
    SumPut(s.balances, owner, s.balances[owner] + amount);
  }

  lemma TransferBalance(s: Sbtc, from: Pubkey, to: Pubkey, amount: u64)
    requires TransferSbtc(s, from, to, amount).Ok?
    ensures TransferSbtc(s, from, to, amount).value.supply == s.supply
    ensures Sum(TransferSbtc(s, from, to, amount).value.balances) == Sum(s.balances)
  {
    var taken: map<Pubkey, u64> := s.balances[from := s.balances[from] - amount];
    SumPut(s.balances, from, s.balances[from] - amount);
    SumPut(taken, to, taken[to] + amount);
    assert TransferSbtc(s, from, to, amount).value.balances == taken[to := taken[to] + amount];
  }

  lemma BurnBalance(s: Sbtc, owner: Pubkey, amount: u64)
    requires Burn(s, owner, amount).Ok?
    ensures Burn(s, owner, amount).value.supply == s.supply - amount
    ensures Sum(Burn(s, owner, amount).value.balances) == Sum(s.balances) - amount
  {
    SumPut(s.balances, owner, s.balances[owner] - amount);
  }

  lemma CreditBalance(s: Accounts, c: MintCall)
    requires CreditMint(s, c).Ok?
    ensures c.msg.toChainId in s.mints
    ensures var old', new' := s.mints[c.msg.toChainId], CreditMint(s, c).value;
            && new'.supply == old'.supply + c.msg.amount
            && (Balanced(old') ==> Balanced(new'))
  {
    var m := s.mints[c.msg.toChainId];
    OpenAtaKeepsBalance(m, c.msg.toAddress);
    MintToBalance(OpenAta(m, c.msg.toAddress), c.msg.toAddress, c.msg.amount);
  }

  /** The fee moves inside the mint; only the rest leaves it. */
  lemma ChargeBalance(s: Sbtc, user: Pubkey, recipient: Pubkey, fee: u64, rest: u64)
    requires ChargeAndBurn(s, user, recipient, fee, rest).Ok?
    ensures var s' := ChargeAndBurn(s, user, recipient, fee, rest).value;
            && s'.supply == s.supply - rest
            && (Balanced(s) ==> Balanced(s'))
  {
    var withAta := OpenAta(s, recipient);
    OpenAtaKeepsBalance(s, recipient);
    TransferBalance(withAta, user, recipient, fee);
    BurnBalance(TransferSbtc(withAta, user, recipient, fee).value, user, rest);
  }
}
