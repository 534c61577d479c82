/** The two batch instructions: a configuration adds token and chain records, a committee adds
    member records, and each record only when there is none. */
module Batches {
  import opened Common
  import opened Committee
  import opened State

  // ---------- token and chain records ----------

  lemma {:induction false} FailedEntriesStay(r: Records, es: seq<TokenEntry>, self: u8,
                                             remaining: seq<Address>, k: nat)
    requires k <= |es| && AddEntries(r, es[..k], self, remaining).Err?
    ensures AddEntries(r, es, self, remaining) == AddEntries(r, es[..k], self, remaining)
  {
    if k == |es| {
      assert es[..k] == es;
    } else {
      var front := es[..|es| - 1];
      assert front[..k] == es[..k];
      FailedEntriesStay(r, front, self, remaining, k);
    }
  }

  /** One iteration of the loop: an entry that fails, fails the whole batch. */
  lemma EntryStep(r: Records, es: seq<TokenEntry>, self: u8, remaining: seq<Address>, k: nat)
    requires k < |es| && AddEntries(r, es[..k], self, remaining).Ok?
    ensures var next := AddEntry(AddEntries(r, es[..k], self, remaining).value, es[k], self, remaining);
            AddEntries(r, es[..k + 1], self, remaining) == next
            && (next.Err? ==> AddEntries(r, es, self, remaining) == next)
  {
    assert es[..k + 1][..k] == es[..k];
    if AddEntries(r, es[..k + 1], self, remaining).Err? {
      FailedEntriesStay(r, es, self, remaining, k + 1);
    }
  }

  function Ids(es: seq<TokenEntry>): set<TokenId> {
    set e | e in es :: e.id
  }

  function ChainsOf(es: seq<TokenEntry>): set<u8> {
    set e | e in es :: e.id.chain
  }

  /** Entry `i` is the first to name a token whose record's address is empty. */
  ghost predicate Creates(r: Records, es: seq<TokenEntry>, i: nat)
    requires i < |es|
  {
    r.TokenEmpty(es[i].id) && es[i].id !in Ids(es[..i])
  }

  /** An entry's fee is bounded only where it creates the record: the fee of an entry whose
      record already exists is ignored, whatever it is. */
  ghost predicate EntryFits(r: Records, es: seq<TokenEntry>, i: nat, self: u8,
                            remaining: seq<Address>)
    requires i < |es|
  {
    && es[i].id.chain != self
    && TokenRecord(es[i].id) in remaining
    && ChainRecord(es[i].id.chain) in remaining
    && (Creates(r, es, i) ==> es[i].feePercentage < FEE_DENOMINATOR)
  }

  /** What a batch stores: old records as they were, new tokens as their first entry says. An
      address that was funded without a record gets none. */
  ghost predicate TokensStored(r: Records, es: seq<TokenEntry>, r': Records) {
    && r'.funded == r.funded
    && r'.tokens.Keys == r.tokens.Keys + (set id | id in Ids(es) && r.TokenEmpty(id))
    && (forall id <- r.tokens :: r'.tokens[id] == r.tokens[id])
    && (forall i | 0 <= i < |es| && Creates(r, es, i) :: r'.tokens[es[i].id] == NewToken(es[i]))
  }

  ghost predicate ChainsStored(r: Records, es: seq<TokenEntry>, r': Records) {
    && r'.funded == r.funded
    && r'.chains.Keys == r.chains.Keys + (set c | c in ChainsOf(es) && r.ChainEmpty(c))
    && (forall c <- r.chains :: r'.chains[c] == r.chains[c])
    && (forall c <- r'.chains | c !in r.chains :: r'.chains[c] == NewChain(c))
  }

  lemma IdsOfOneMore(es: seq<TokenEntry>, e: TokenEntry)
    ensures Ids(es + [e]) == Ids(es) + {e.id}
    ensures ChainsOf(es + [e]) == ChainsOf(es) + {e.id.chain}
  {
    assert forall x :: x in es + [e] <==> x in es || x == e;
    assert e in es + [e];
  }

  lemma OneMoreToken(r: Records, es: seq<TokenEntry>, e: TokenEntry, mid: Records, r': Records)
    requires TokensStored(r, es, mid)
    requires r'.funded == mid.funded
    requires r'.tokens == if mid.TokenEmpty(e.id) then mid.tokens[e.id := NewToken(e)] else mid.tokens
    ensures TokensStored(r, es + [e], r')
  {
    IdsOfOneMore(es, e);
    var all := es + [e];
    forall i | 0 <= i < |all| && Creates(r, all, i)
      ensures r'.tokens[all[i].id] == NewToken(all[i])
    {
      if i < |es| {
        assert all[..i] == es[..i];
        assert Creates(r, es, i) && all[i].id in mid.tokens;
      } else {
        assert all[..i] == es;
        assert mid.TokenEmpty(e.id);
      }
    }
  }

  lemma OneMoreChain(r: Records, es: seq<TokenEntry>, e: TokenEntry, mid: Records, r': Records)
    requires ChainsStored(r, es, mid)
    requires r'.funded == mid.funded
    requires r'.chains == if mid.ChainEmpty(e.id.chain)
                          then mid.chains[e.id.chain := NewChain(e.id.chain)]
                          else mid.chains
    ensures ChainsStored(r, es + [e], r')
  {
    IdsOfOneMore(es, e);
  }

  lemma OneMoreEntry(r: Records, es: seq<TokenEntry>, e: TokenEntry, mid: Records, self: u8,
                     remaining: seq<Address>)
    requires TokensStored(r, es, mid) && ChainsStored(r, es, mid)
    ensures AddEntry(mid, e, self, remaining).Ok? <==> EntryFits(r, es + [e], |es|, self, remaining)
    ensures AddEntry(mid, e, self, remaining).Ok? ==>
              var r' := AddEntry(mid, e, self, remaining).value;
              TokensStored(r, es + [e], r') && ChainsStored(r, es + [e], r')
  {
    assert (es + [e])[..|es|] == es;
    if AddEntry(mid, e, self, remaining).Ok? {
      OneMoreToken(r, es, e, mid, AddEntry(mid, e, self, remaining).value);
      OneMoreChain(r, es, e, mid, AddEntry(mid, e, self, remaining).value);
    }
  }

  /** A batch succeeds exactly when every entry names a foreign chain, comes with both its
      record addresses, and has a fee below the denominator if it creates its record; it then
      stores what the entries say. */
  lemma {:induction false} EntriesIff(r: Records, es: seq<TokenEntry>, self: u8,
                                      remaining: seq<Address>)
    ensures AddEntries(r, es, self, remaining).Ok?
       <==> forall i | 0 <= i < |es| :: EntryFits(r, es, i, self, remaining)
    ensures AddEntries(r, es, self, remaining).Ok? ==>
              var r' := AddEntries(r, es, self, remaining).value;
              TokensStored(r, es, r') && ChainsStored(r, es, r')
  {
    if es == [] {
    } else {
      var front, e := es[..|es| - 1], es[|es| - 1];
      EntriesIff(r, front, self, remaining);
      assert es == front + [e];
      FrontEntriesFit(r, es, self, remaining);
      if AddEntries(r, front, self, remaining).Ok? {
        OneMoreEntry(r, front, e, AddEntries(r, front, self, remaining).value, self, remaining);
      }
    }
  }

  lemma FrontEntriesFit(r: Records, es: seq<TokenEntry>, self: u8, remaining: seq<Address>)
    requires es != []
    ensures var front := es[..|es| - 1];
            (forall i | 0 <= i < |es| :: EntryFits(r, es, i, self, remaining))
            <==> (forall i | 0 <= i < |front| :: EntryFits(r, front, i, self, remaining))
                 && EntryFits(r, es, |es| - 1, self, remaining)
  {
    var front := es[..|es| - 1];
    forall i | 0 <= i < |front|
      ensures EntryFits(r, es, i, self, remaining) <==> EntryFits(r, front, i, self, remaining)
    {
      assert es[..i] == front[..i];
    }
  }

  // ---------- member records ----------

  lemma {:induction false} FailedMembersStay(members: Members, funded: set<Address>,
                                             remaining: seq<Address>, keys: seq<Pubkey>,
                                             stakes: seq<u16>, k: nat)
    requires k <= |keys| == |stakes|
    requires AddMembers(members, funded, remaining, keys[..k], stakes[..k]).Err?
    ensures AddMembers(members, funded, remaining, keys, stakes)
         == AddMembers(members, funded, remaining, keys[..k], stakes[..k])
  {
    if k == |keys| {
      assert keys[..k] == keys && stakes[..k] == stakes;
    } else {
      var n := |keys| - 1;
      assert keys[..n][..k] == keys[..k] && stakes[..n][..k] == stakes[..k];
      FailedMembersStay(members, funded, remaining, keys[..n], stakes[..n], k);
    }
  }

  lemma MemberStep(members: Members, funded: set<Address>, remaining: seq<Address>,
                   keys: seq<Pubkey>, stakes: seq<u16>, k: nat)
    requires k < |keys| == |stakes|
    requires AddMembers(members, funded, remaining, keys[..k], stakes[..k]).Ok?
    ensures var next := AddMember(AddMembers(members, funded, remaining, keys[..k], stakes[..k]).value,
                                  funded, remaining, keys[k], stakes[k]);
            AddMembers(members, funded, remaining, keys[..k + 1], stakes[..k + 1]) == next
            && (next.Err? ==> AddMembers(members, funded, remaining, keys, stakes) == next)
  {
    assert keys[..k + 1][..k] == keys[..k] && stakes[..k + 1][..k] == stakes[..k];
    if AddMembers(members, funded, remaining, keys[..k + 1], stakes[..k + 1]).Err? {
      FailedMembersStay(members, funded, remaining, keys, stakes, k + 1);
    }
  }

  /** What a new committee stores: old members as they were, new ones with their first stake; none
      at an address that was funded without a record. */
  ghost predicate MembersStored(members: Members, funded: set<Address>, keys: seq<Pubkey>,
                                stakes: seq<u16>, members': Members)
    requires |keys| == |stakes|
  {
    && members'.Keys == members.Keys + (set k | k in KeySet(keys) && MemberEmpty(members, funded, k))
    && (forall k <- members :: members'[k] == members[k])
    && (forall i | 0 <= i < |keys| && MemberEmpty(members, funded, keys[i]) && keys[i] !in keys[..i] ::
          members'[keys[i]] == Member(true, keys[i], stakes[i], false))
  }

  /** A committee is stored exactly when every member's record address is supplied. A repeated
      or known key is not an error: the first stake wins, a known member keeps everything. */
  lemma {:induction false} MembersIff(members: Members, funded: set<Address>, remaining: seq<Address>,
                                      keys: seq<Pubkey>, stakes: seq<u16>)
    requires |keys| == |stakes|
    ensures AddMembers(members, funded, remaining, keys, stakes).Ok?
       <==> forall k <- keys :: CommitteeRecord(k) in remaining
    ensures AddMembers(members, funded, remaining, keys, stakes).Ok? ==>
              MembersStored(members, funded, keys, stakes,
                            AddMembers(members, funded, remaining, keys, stakes).value)
  {
    if keys == [] {
    } else {
      var n := |keys| - 1;
      var front, key := keys[..n], keys[n];
      MembersIff(members, funded, remaining, front, stakes[..n]);
      KeySetOfOneMore(keys);
      assert keys == front + [key];
      forall i | 0 <= i < n
        ensures keys[..i] == front[..i]
      {
      }
    }
  }
}
