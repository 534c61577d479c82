/** Finding the accounts a handler needs among the remaining accounts, in one pass that stops
    as soon as all are found. */
module Lookup {
  import opened Common

  /** Positions of the accounts a withdrawal uses. */
  datatype WithdrawAccounts =
    WithdrawAccounts(userAta: nat, feeRecipient: nat, feeRecipientAta: nat, mint: nat)

  datatype MintAccounts = MintAccounts(user: nat, userAta: nat, mint: nat)

  /** The first missing account decides the error; an address that an earlier test of the
      chain already claims is never found for a later one. */
  function WithdrawLookup(accounts: seq<Address>, userAta: Address, feeRecipient: Address,
                          feeRecipientAta: Address, mint: Address): Result<()> {
    var _ :- Need(userAta in accounts, UserSbtcAtaNotFound);
    var _ :- Need(feeRecipient in accounts && feeRecipient != userAta, FeeRecipientNotFound);
    var _ :- Need(feeRecipientAta in accounts && feeRecipientAta !in {userAta, feeRecipient},
            FeeRecipientSbtcAtaNotFound);
    var _ :- Need(mint in accounts && mint !in {userAta, feeRecipient, feeRecipientAta},
            SbtcMintAccountNotFound);
    Ok(())
  }

  function MintLookup(accounts: seq<Address>, user: Address, userAta: Address, mint: Address)
    : Result<()> {
    var _ :- Need(user in accounts && user !in {userAta, mint}, UserNotFound);
    var _ :- Need(userAta in accounts, UserSbtcAtaNotFound);
    var _ :- Need(mint in accounts && mint != userAta, SbtcMintAccountNotFound);
    Ok(())
  }

  /** What a position variable holds after the accounts before `i` were looked at. */
  ghost predicate Holds(found: Option<nat>, accounts: seq<Address>, i: nat, target: Address,
                        claimed: set<Address>)
    requires i <= |accounts|
  {
    if target in accounts[..i] && target !in claimed
    then found.Some? && found.value < i && accounts[found.value] == target
    else found.None?
  }

  lemma HoldsNext(found: Option<nat>, accounts: seq<Address>, i: nat, target: Address,
                  claimed: set<Address>)
    requires i < |accounts| && Holds(found, accounts, i, target, claimed)
    ensures (accounts[i] != target || target in claimed) ==>
              Holds(found, accounts, i + 1, target, claimed)
    ensures accounts[i] == target && target !in claimed ==>
              Holds(Some(i), accounts, i + 1, target, claimed)
  {
    assert accounts[..i + 1] == accounts[..i] + [accounts[i]];
  }

  /** Once found, an account stays found: the early exit loses nothing. */
  lemma FoundEarly(found: Option<nat>, accounts: seq<Address>, i: nat, target: Address,
                   claimed: set<Address>)
    requires i <= |accounts| && Holds(found, accounts, i, target, claimed) && found.Some?
    ensures Holds(found, accounts, |accounts|, target, claimed)
  {
    assert accounts[..|accounts|] == accounts;
  }

  /** The single pass of a withdrawal. */
  method ScanForWithdraw(accounts: seq<Address>, userAta: Address, feeRecipient: Address,
                         feeRecipientAta: Address, mint: Address)
    returns (u: Option<nat>, f: Option<nat>, fa: Option<nat>, m: Option<nat>)
    ensures Holds(u, accounts, |accounts|, userAta, {})
    ensures Holds(f, accounts, |accounts|, feeRecipient, {userAta})
    ensures Holds(fa, accounts, |accounts|, feeRecipientAta, {userAta, feeRecipient})
    ensures Holds(m, accounts, |accounts|, mint, {userAta, feeRecipient, feeRecipientAta})
  {
    u, f, fa, m := None, None, None, None;
    var i := 0;
    while i < |accounts|
      invariant i <= |accounts|
      invariant Holds(u, accounts, i, userAta, {})
      invariant Holds(f, accounts, i, feeRecipient, {userAta})
      invariant Holds(fa, accounts, i, feeRecipientAta, {userAta, feeRecipient})
      invariant Holds(m, accounts, i, mint, {userAta, feeRecipient, feeRecipientAta})
    {
      HoldsNext(u, accounts, i, userAta, {});
      HoldsNext(f, accounts, i, feeRecipient, {userAta});
      HoldsNext(fa, accounts, i, feeRecipientAta, {userAta, feeRecipient});
      HoldsNext(m, accounts, i, mint, {userAta, feeRecipient, feeRecipientAta});
      if accounts[i] == userAta {
        u := Some(i);
      } else if accounts[i] == feeRecipient {
        f := Some(i);
      } else if accounts[i] == feeRecipientAta {
        fa := Some(i);
      } else if accounts[i] == mint {
        m := Some(i);
      }
      i := i + 1;
      if u.Some? && f.Some? && fa.Some? && m.Some? {
        FoundEarly(u, accounts, i, userAta, {});
        FoundEarly(f, accounts, i, feeRecipient, {userAta});
        FoundEarly(fa, accounts, i, feeRecipientAta, {userAta, feeRecipient});
        FoundEarly(m, accounts, i, mint, {userAta, feeRecipient, feeRecipientAta});
        return;
      }
    }
  }

  /** The lookup finds all four accounts exactly when all four addresses are present and
      pairwise distinct, and then the ones four separate searches would. */
  method GetWithdrawAccounts(accounts: seq<Address>, userAta: Address, feeRecipient: Address,
                             feeRecipientAta: Address, mint: Address)
    returns (r: Result<WithdrawAccounts>)
    ensures r.Ok? <==>
              && {userAta, feeRecipient, feeRecipientAta, mint} <= (set a | a in accounts)
              && |{userAta, feeRecipient, feeRecipientAta, mint}| == 4
    ensures r.Ok? ==>
              && r.value.userAta < |accounts| && accounts[r.value.userAta] == userAta
              && r.value.feeRecipient < |accounts| && accounts[r.value.feeRecipient] == feeRecipient
              && r.value.feeRecipientAta < |accounts|
              && accounts[r.value.feeRecipientAta] == feeRecipientAta
              && r.value.mint < |accounts| && accounts[r.value.mint] == mint
    ensures var spec := WithdrawLookup(accounts, userAta, feeRecipient, feeRecipientAta, mint);
            if spec.Ok? then r.Ok? else r == Err(spec.error)
  {
    var u, f, fa, m := ScanForWithdraw(accounts, userAta, feeRecipient, feeRecipientAta, mint);
    assert accounts[..|accounts|] == accounts;
    FourAddresses(userAta, feeRecipient, feeRecipientAta, mint);
    if u.None? { return Err(UserSbtcAtaNotFound); }
    if f.None? { return Err(FeeRecipientNotFound); }
    if fa.None? { return Err(FeeRecipientSbtcAtaNotFound); }
    if m.None? { return Err(SbtcMintAccountNotFound); }
    return Ok(WithdrawAccounts(u.value, f.value, fa.value, m.value));
  }

  lemma FourAddresses(a: Address, b: Address, c: Address, d: Address)
    ensures |{a, b, c, d}| == 4 <==> b != a && c !in {a, b} && d !in {a, b, c}
  {
    assert {a, b} == {a} + {b};
    assert {a, b, c} == {a, b} + {c};
    assert {a, b, c, d} == {a, b, c} + {d};
  }

  lemma ThreeAddresses(a: Address, b: Address, c: Address)
    ensures |{a, b, c}| == 3 <==> b != a && c !in {a, b}
  {
    assert {a, b} == {a} + {b};
    assert {a, b, c} == {a, b} + {c};
  }

  method GetMintAccounts(accounts: seq<Address>, user: Address, userAta: Address, mint: Address)
    returns (r: Result<MintAccounts>)
    ensures r.Ok? <==>
              && {userAta, mint, user} <= (set a | a in accounts)
              && |{userAta, mint, user}| == 3
    ensures r.Ok? ==>
              && r.value.user < |accounts| && accounts[r.value.user] == user
              && r.value.userAta < |accounts| && accounts[r.value.userAta] == userAta
              && r.value.mint < |accounts| && accounts[r.value.mint] == mint
    ensures var spec := MintLookup(accounts, user, userAta, mint);
            if spec.Ok? then r.Ok? else r == Err(spec.error)
  {
    var w: Option<nat>, a: Option<nat>, m: Option<nat> := None, None, None;
    var i := 0;
    while i < |accounts|
      invariant i <= |accounts|
      invariant Holds(a, accounts, i, userAta, {})
      invariant Holds(m, accounts, i, mint, {userAta})
      invariant Holds(w, accounts, i, user, {userAta, mint})
    {
      HoldsNext(a, accounts, i, userAta, {});
      HoldsNext(m, accounts, i, mint, {userAta});
      HoldsNext(w, accounts, i, user, {userAta, mint});
      if accounts[i] == userAta {
        a := Some(i);
      } else if accounts[i] == mint {
        m := Some(i);
      } else if accounts[i] == user {
        w := Some(i);
      }
      i := i + 1;
      if a.Some? && m.Some? && w.Some? {
        FoundEarly(a, accounts, i, userAta, {});
        FoundEarly(m, accounts, i, mint, {userAta});
        FoundEarly(w, accounts, i, user, {userAta, mint});
        break;
      }
    }
    assert accounts[..|accounts|] == accounts;
    ThreeAddresses(userAta, mint, user);
    if w.None? { return Err(UserNotFound); }
    if a.None? { return Err(UserSbtcAtaNotFound); }
    if m.None? { return Err(SbtcMintAccountNotFound); }
    return Ok(MintAccounts(w.value, a.value, m.value));
  }
}
