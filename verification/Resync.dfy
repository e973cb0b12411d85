/**
 * A resync: the keeper lists the policies and token accounts on chain and brings its index in step with them. A sweep
 * then starts from what `Sweep` assumes.
 */
module Resync {
  import opened Bytes
  import opened Policy
  import opened Metas
  import opened Gate
  import opened HolderIndex
  import opened Keeper
  import opened Sweep

  // ----- What is on chain

  /** Every account of the gate that reads as a policy is one the gate wrote, at the policy's own address. */
  ghost predicate WrittenByGate(w: World, chain: Chain) {
    forall a, p :: HoldsPolicy(w, chain, a, p) ==>
      && a == PolicyPda(w, p.mint)
      && exists s: StoredPolicy :: |s.reserved| == 64 && s.policy == p && chain[a].data == Serialize(s)
  }

  /** The keeper's listing of policies finds `p` at `a`. */
  predicate HoldsPolicy(w: World, chain: Chain, a: Address, p: GatePolicy) {
    a in chain && chain[a].owner == w.gateId && KeeperDecode(chain[a].data) == Some(p)
  }

  lemma WrittenIsStored(w: World, chain: Chain, a: Address, p: GatePolicy)
    requires WrittenByGate(w, chain) && HoldsPolicy(w, chain, a, p)
    ensures a == PolicyPda(w, p.mint) && Stored(w, chain, p)
  {
    var s: StoredPolicy :| |s.reserved| == 64 && s.policy == p && chain[a].data == Serialize(s);
    PolicyRoundTrip(s);
  }

  /** The accounts a listing by mint returns: Token-2022's, starting with the mint's address. */
  predicate ListedFor(w: World, chain: Chain, mint: Address, a: Address) {
    a in chain && chain[a].owner == w.tokenId && |chain[a].data| >= 32 && KeyAt(chain[a].data, 0) == mint
  }

  method ListTokenAccounts(w: World, chain: Chain, mint: Address) returns (listed: seq<Address>)
    ensures forall a :: a in listed <==> ListedFor(w, chain, mint, a)
  {
    listed := [];
    var rest := chain.Keys;
    while rest != {}
      invariant rest <= chain.Keys
      invariant forall a :: a in listed <==> a !in rest && ListedFor(w, chain, mint, a)
      decreases rest
    {
      var a :| a in rest;
      if ListedFor(w, chain, mint, a) {
        listed := listed + [a];
      }
      rest := rest - {a};
    }
  }

  // ----- One mint

  /** The listed accounts in `done`, as far as they decode and name the mint. */
  ghost predicate Tracks(chain: Chain, mint: Address, done: seq<Address>, accounts: map<Address, TrackedAccount>) {
    && (forall ta :: ta in accounts <==>
          ta in done && TokenAt(chain, ta).Some? && TokenAt(chain, ta).value.mint == mint)
    && (forall ta :: ta in accounts ==>
          accounts[ta] == TrackedAccount(TokenAt(chain, ta).value.owner, TokenAt(chain, ta).value.state))
  }

  /** Clears the entry's accounts and tracks the ones on chain. */
  method Relist(w: World, chain: Chain, entry: MintEntry)
    modifies entry`accounts
    ensures Agrees(w, chain, entry.mint, entry.accounts)
  {
    var listed := ListTokenAccounts(w, chain, entry.mint);
    entry.accounts := map[];
    for i := 0 to |listed|
      invariant Tracks(chain, entry.mint, listed[..i], entry.accounts)
    {
      assert listed[..i + 1] == listed[..i] + [listed[i]];
      assert ListedFor(w, chain, entry.mint, listed[i]);
      var token := DecodeTokenAccount(chain[listed[i]].data);
      if token.Some? && token.value.mint == entry.mint {
        var _ := entry.UpsertAccount(listed[i], TrackedAccount(token.value.owner, token.value.state));
      }
    }
    assert listed[..|listed|] == listed;
  }

  /**
   * (Re)loads a mint from any state: its policy, its owners afresh if the policy changed, and exactly the chain's token
   * accounts. Other mints are left alone.
   */
  method LoadMint(k: Keeper, chain: Chain, policyAddress: Address, policy: GatePolicy) returns (entry: MintEntry)
    requires k.index.Valid() && k.index.IsCurrent(k.w)
    modifies k.index, if policy.mint in k.index.mints then {k.index.mints[policy.mint]} else {}
    ensures k.index.Valid() && k.index.IsCurrent(k.w) && (old(k.index.IsExact()) ==> k.index.IsExact())
    ensures k.index.mints == old(k.index.mints)[policy.mint := entry]
    ensures if policy.mint in old(k.index.mints) then entry == old(k.index.mints[policy.mint]) else fresh(entry)
    ensures entry.policy == policy && Agrees(k.w, chain, policy.mint, entry.accounts)
    ensures entry.owners == if policy.mint in old(k.index.mints) && old(k.index.mints[policy.mint].policy) == policy
                            then old(k.index.mints[policy.mint].owners) else map[]
  {
    entry := SetIfChanged(k, policyAddress, policy);
    ghost var v := k.index.AsView();
    Relist(k.w, chain, entry);
    assert k.index.AsView() == v;
  }

  method SetIfChanged(k: Keeper, policyAddress: Address, policy: GatePolicy) returns (entry: MintEntry)
    requires k.index.Valid() && k.index.IsCurrent(k.w)
    modifies k.index, if policy.mint in k.index.mints then {k.index.mints[policy.mint]} else {}
    ensures k.index.Valid() && k.index.IsCurrent(k.w) && (old(k.index.IsExact()) ==> k.index.IsExact())
    ensures k.index.mints == old(k.index.mints)[policy.mint := entry]
    ensures entry.policy == policy && entry.mint == policy.mint
    ensures if policy.mint in old(k.index.mints) then entry == old(k.index.mints[policy.mint]) else fresh(entry)
    ensures entry.owners == if policy.mint in old(k.index.mints) && old(k.index.mints[policy.mint].policy) == policy
                            then old(k.index.mints[policy.mint].owners) else map[]
  {
    if policy.mint in k.index.mints && k.index.mints[policy.mint].policy == policy {
      entry := k.index.mints[policy.mint];
      assert k.index.mints == k.index.mints[policy.mint := entry];
    } else {
      entry := k.index.SetMint(policy.mint, policyAddress, policy);
    }
  }

  // ----- All mints

  /** The mints in `seen` are loaded: each tracked under its policy on chain, with the chain's accounts. */
  ghost predicate Loaded(k: Keeper, chain: Chain, wanted: Address -> bool, seen: set<Address>)
    reads k.index, k.index.mints.Values
  {
    forall m :: m in seen ==> m in k.index.mints && IsLoaded(k.w, chain, wanted, m, k.index.mints[m])
  }

  ghost predicate IsLoaded(w: World, chain: Chain, wanted: Address -> bool, m: Address, entry: MintEntry)
    reads entry
  {
    entry.policy.mint == m && wanted(m) && HoldsPolicy(w, chain, PolicyPda(w, m), entry.policy)
    && Agrees(w, chain, m, entry.accounts)
  }

  /** `a` holds the policy of a wanted mint. */
  predicate IsFound(w: World, chain: Chain, wanted: Address -> bool, a: Address) {
    a in chain && chain[a].owner == w.gateId
    && var p := KeeperDecode(chain[a].data); p.Some? && wanted(p.value.mint)
  }

  function MintAt(w: World, chain: Chain, wanted: Address -> bool, a: Address): Address
    requires IsFound(w, chain, wanted, a)
  {
    KeeperDecode(chain[a].data).value.mint
  }

  /** The policies of the mints this keeper serves. `wanted` is its configuration and Token ACL's mint settings. */
  ghost predicate Serves(w: World, chain: Chain, wanted: Address -> bool, policies: map<Address, GatePolicy>) {
    forall m, p :: (m in policies && policies[m] == p) <==>
      p.mint == m && wanted(m) && HoldsPolicy(w, chain, PolicyPda(w, m), p)
  }

  /** No wanted policy names Token-2022 as its issuer. */
  ghost predicate NoneReadsTokens(w: World, chain: Chain, wanted: Address -> bool) {
    forall a, p :: HoldsPolicy(w, chain, a, p) && wanted(p.mint) ==> TokenIdApart(w, p)
  }

  /** The index is sound and current, the mints in `seen` are loaded, and it all lives in `s`. */
  ghost predicate Loading(k: Keeper, chain: Chain, wanted: Address -> bool, seen: set<Address>, s: set<object>)
    reads k.index, k.index.mints.Values
  {
    k.index.Valid() && k.index.IsCurrent(k.w) && k.index.Within(s) && Loaded(k, chain, wanted, seen)
  }

  /** Loads one mint, with what it leaves alone. */
  method LoadFrame(k: Keeper, chain: Chain, a: Address, p: GatePolicy, ghost s: set<object>)
    returns (entry: MintEntry, ghost s': set<object>)
    requires k.index.Valid() && k.index.IsCurrent(k.w) && k.index.Within(s)
    modifies s
    ensures k.index.Valid() && k.index.IsCurrent(k.w) && k.index.Within(s') && fresh(s' - s)
    ensures k.index.mints == old(k.index.mints)[p.mint := entry]
    ensures entry.policy == p && Agrees(k.w, chain, p.mint, entry.accounts)
    ensures forall m :: m in old(k.index.mints) && m != p.mint ==>
      && k.index.mints[m].policy == old(k.index.mints[m].policy)
      && k.index.mints[m].accounts == old(k.index.mints[m].accounts)
  {
    ghost var mints := k.index.mints;
    entry := LoadMint(k, chain, a, p);
    s' := s + {entry};
    assert forall m :: m in mints && m != p.mint ==> k.index.mints[m] == mints[m] && mints[m] != entry;
  }

  method LoadFound(k: Keeper, chain: Chain, wanted: Address -> bool, a: Address, seen: set<Address>,
                   ghost s: set<object>)
    returns (mint: Address, ghost s': set<object>)
    requires Loading(k, chain, wanted, seen, s) && WrittenByGate(k.w, chain) && IsFound(k.w, chain, wanted, a)
    modifies s
    ensures mint == MintAt(k.w, chain, wanted, a)
    ensures Loading(k, chain, wanted, seen + {mint}, s') && fresh(s' - s)
  {
    var p := KeeperDecode(chain[a].data).value;
    mint := p.mint;
    WrittenIsStored(k.w, chain, a, p);
    var entry;
    entry, s' := LoadFrame(k, chain, a, p, s);
  }

  method LoadAll(k: Keeper, chain: Chain, wanted: Address -> bool, ghost s: set<object>)
    returns (seen: set<Address>, ghost s': set<object>)
    requires Loading(k, chain, wanted, {}, s) && WrittenByGate(k.w, chain)
    modifies s
    ensures Loading(k, chain, wanted, seen, s') && fresh(s' - s)
    ensures forall a :: IsFound(k.w, chain, wanted, a) ==> MintAt(k.w, chain, wanted, a) in seen
  {
    seen, s' := {}, s;
    var rest := chain.Keys;
    while rest != {}
      invariant Loading(k, chain, wanted, seen, s') && fresh(s' - s)
      invariant forall a :: IsFound(k.w, chain, wanted, a) && a !in rest ==> MintAt(k.w, chain, wanted, a) in seen
      decreases rest
    {
      var a :| a in rest;
      if IsFound(k.w, chain, wanted, a) {
        var mint;
        mint, s' := LoadFound(k, chain, wanted, a, seen, s');
        seen := seen + {mint};
      }
      rest := rest - {a};
    }
  }

  /** Drops the mints that were not seen. */
  method DropOthers(k: Keeper, chain: Chain, wanted: Address -> bool, seen: set<Address>, ghost s: set<object>)
    requires Loading(k, chain, wanted, seen, s)
    modifies s
    ensures Loading(k, chain, wanted, seen, s) && k.index.mints.Keys == seen
  {
    assert seen <= k.index.mints.Keys;
    var rest := k.index.mints.Keys - seen;
    while rest != {}
      invariant rest == k.index.mints.Keys - seen && seen <= k.index.mints.Keys
      invariant Loading(k, chain, wanted, seen, s)
      decreases rest
    {
      var m :| m in rest;
      Drop(k, chain, wanted, seen, m, s);
      rest := rest - {m};
    }
    assert forall m :: m in k.index.mints ==> m in seen || m in rest;
  }

  method Drop(k: Keeper, chain: Chain, wanted: Address -> bool, seen: set<Address>, m: Address, ghost s: set<object>)
    requires Loading(k, chain, wanted, seen, s) && m in k.index.mints && m !in seen
    modifies s
    ensures Loading(k, chain, wanted, seen, s) && k.index.mints == old(k.index.mints) - {m}
  {
    ghost var entry := k.index.mints[m];
    k.index.RemoveMint(m);
    forall n | n in seen ensures IsLoaded(k.w, chain, wanted, n, k.index.mints[n]) {
      assert k.index.mints[n] != entry;
    }
    assert forall n :: n in k.index.mints ==> k.index.mints[n] != entry;
  }

  /**
   * From any sound and current index, whatever it tracked: afterwards the index tracks exactly the wanted mints with a
   * policy on chain, each under that policy and with exactly the chain's token accounts.
   */
  method Run(k: Keeper, chain: Chain, wanted: Address -> bool, ghost s: set<object>) returns (ghost s': set<object>)
    requires k.index.Valid() && k.index.IsCurrent(k.w) && k.index.Within(s)
    requires WrittenByGate(k.w, chain) && NoneReadsTokens(k.w, chain, wanted)
    modifies s
    ensures Serves(k.w, chain, wanted, k.index.Policies())
    ensures Steady(k, k.index.Policies(), k.index.Tracked(), s') && fresh(s' - s)
    ensures AllInStep(k.w, chain, k.index.Policies(), k.index.Tracked())
  {
    var seen;
    seen, s' := LoadAll(k, chain, wanted, s);
    DropOthers(k, chain, wanted, seen, s');
    LoadedInStep(k, chain, wanted, seen);
  }

  lemma LoadedInStep(k: Keeper, chain: Chain, wanted: Address -> bool, seen: set<Address>)
    requires WrittenByGate(k.w, chain) && NoneReadsTokens(k.w, chain, wanted)
    requires Loaded(k, chain, wanted, seen) && k.index.mints.Keys == seen
    requires forall a :: IsFound(k.w, chain, wanted, a) ==> MintAt(k.w, chain, wanted, a) in seen
    ensures Serves(k.w, chain, wanted, k.index.Policies())
    ensures AllInStep(k.w, chain, k.index.Policies(), k.index.Tracked())
  {
    var policies, tracked := k.index.Policies(), k.index.Tracked();
    forall m | m in policies ensures InStep(k.w, chain, policies[m], m, tracked[m]) {
      assert IsLoaded(k.w, chain, wanted, m, k.index.mints[m]);
      WrittenIsStored(k.w, chain, PolicyPda(k.w, m), policies[m]);
    }
    forall m, p: GatePolicy | p.mint == m && wanted(m) && HoldsPolicy(k.w, chain, PolicyPda(k.w, m), p)
      ensures m in policies && policies[m] == p
    {
      assert IsFound(k.w, chain, wanted, PolicyPda(k.w, m));
      assert IsLoaded(k.w, chain, wanted, m, k.index.mints[m]);
    }
    forall m | m in policies
      ensures policies[m].mint == m && wanted(m) && HoldsPolicy(k.w, chain, PolicyPda(k.w, m), policies[m])
    {
      assert IsLoaded(k.w, chain, wanted, m, k.index.mints[m]);
    }
  }

  /**
   * A resync and two sweeps after it, from any sound and current index, over a chain that otherwise stands still: every
   * thawed account on chain of a wanted mint that the gate flags is frozen, and the second sweep asks only for what the
   * gate refused.
   */
  method RunThenSweep(k: Keeper, chain: Chain, wanted: Address -> bool, caller: Address, now: I64, ghost s: set<object>)
    returns (ghost policies: map<Address, GatePolicy>, first: seq<FreezeRequest>, after: Chain,
             second: seq<FreezeRequest>)
    requires k.index.Valid() && k.index.IsCurrent(k.w) && k.index.Within(s)
    requires WrittenByGate(k.w, chain) && NoneReadsTokens(k.w, chain, wanted)
    modifies s
    ensures Serves(k.w, chain, wanted, policies)
    ensures Covers(k.w, chain, policies, policies.Keys, now, first) && GrantsFreezable(k.w, chain, policies, now, first)
    ensures after == FrozenIn(chain, Granted(k.w, chain, policies, first))
    ensures NothingFreezable(k.w, after, policies, now)
    ensures forall q :: q in second <==> q in first && !IsGranted(k.w, chain, policies, q)
  {
    ghost var s' := Run(k, chain, wanted, s);
    policies := k.index.Policies();
    ghost var tracked := k.index.Tracked();
    var outcomes;
    first, after, outcomes, second := SweepTwice(k, chain, caller, now, policies, tracked, s');
  }
}
