/**
 * The keeper's holder index. `owner()` awaits between deriving an owner's PDAs and storing them, so it is two methods
 * here, `Derive` and `Commit`, and any other method may run between them.
 */
module HolderIndex {
  import opened Bytes
  import opened Policy
  import opened Metas
  import opened Registry
  import opened KeeperPolicy
  import Attestations

  datatype TokenState = Uninitialized | Initialized | Frozen

  datatype TrackedAccount = TrackedAccount(owner: Address, state: TokenState)

  // ----- Pair keys

  /** An address as text. Of base58 the index uses only that it is injective and has no '|'. */
  function Text(a: Address): (t: string)
    ensures |t| == 32 && '|' !in t
  {
    seq(32, i requires 0 <= i < 32 => (a[i] as int + 256) as char)
  }

  function PairKey(mint: Address, owner: Address): string {
    Text(mint) + "|" + Text(owner)
  }

  function Split(s: string): (parts: seq<string>)
    ensures |parts| > 0
  {
    if s == [] then [""]
    else
      var rest := Split(s[1..]);
      if s[0] == '|' then [""] + rest else [[s[0]] + rest[0]] + rest[1..]
  }

  lemma {:induction false} SplitOne(a: string)
    requires '|' !in a
    ensures Split(a) == [a]
  {
    if a != [] {
      SplitOne(a[1..]);
      assert [a[0]] + a[1..] == a;
    }
  }

  lemma {:induction false} SplitTwo(a: string, b: string)
    requires '|' !in a && '|' !in b
    ensures Split(a + "|" + b) == [a, b]
  {
    if a == [] {
      SplitOne(b);
      assert ("" + "|" + b)[1..] == b;
    } else {
      SplitTwo(a[1..], b);
      assert (a + "|" + b)[1..] == a[1..] + "|" + b;
      assert [a[0]] + a[1..] == a;
    }
  }

  predicate IsText(t: string) {
    |t| == 32 && forall i :: 0 <= i < 32 ==> 256 <= t[i] as int < 512
  }

  function Untext(t: string): Address
    requires IsText(t)
  {
    seq(32, i requires 0 <= i < 32 => t[i] as int - 256)
  }

  lemma TextRoundTrip(a: Address)
    ensures IsText(Text(a)) && Untext(Text(a)) == a
  {
  }

  lemma PairKeyInjective(m: Address, o: Address, m': Address, o': Address)
    requires PairKey(m, o) == PairKey(m', o')
    ensures m == m' && o == o'
  {
    SplitTwo(Text(m), Text(o));
    SplitTwo(Text(m'), Text(o'));
    TextRoundTrip(m);
    TextRoundTrip(o);
    TextRoundTrip(m');
    TextRoundTrip(o');
  }

  ghost predicate IsPairKey(k: string) {
    exists m, o :: k == PairKey(m, o)
  }

  // ----- What is stored

  datatype Pdas = Pdas(attestation: Option<Address>, blacklist: Option<Address>, allowlist: Option<Address>)

  function PdasFor(w: World, p: GatePolicy, mint: Address, owner: Address): Pdas {
    Pdas(if p.requireSas then Some(AttestationPda(w, p.sasCredential, p.sasSchema, owner)) else None,
         if p.checkBlacklist then Some(BlacklistPda(w, p.issuerProgram, mint, owner)) else None,
         if p.allowlistMode != Off then Some(AllowlistPda(w, p.issuerProgram, mint, owner)) else None)
  }

  /** An owner's PDAs and curve test, fixed when derived, and the last reads of those PDAs. */
  class OwnerFacts {
    const owner: Address
    const pdas: Pdas
    const ownerOffCurve: bool
    var blacklist: Option<EntryRead>
    var allowlist: Option<EntryRead>
    var attestation: Option<Attestations.AttestationRead>

    constructor (owner: Address, pdas: Pdas, ownerOffCurve: bool)
      ensures this.owner == owner && this.pdas == pdas && this.ownerOffCurve == ownerOffCurve
      ensures Reads() == OwnerReads(None, None, None, ownerOffCurve)
    {
      this.owner, this.pdas, this.ownerOffCurve := owner, pdas, ownerOffCurve;
      blacklist, allowlist, attestation := None, None, None;
    }

    function Reads(): OwnerReads
      reads this
    {
      OwnerReads(blacklist, allowlist, attestation, ownerOffCurve)
    }
  }

  /** `facts` are what `owner()` derives under policy `p`. */
  ghost predicate Fits(w: World, p: GatePolicy, mint: Address, owner: Address, facts: OwnerFacts) {
    facts.owner == owner && facts.pdas == PdasFor(w, p, mint, owner) && facts.ownerOffCurve == w.offCurve(owner)
  }

  class MintEntry {
    const mint: Address
    var policyAddress: Address
    var policy: GatePolicy
    var accounts: map<Address, TrackedAccount>
    var owners: map<Address, OwnerFacts>

    constructor (mint: Address, policyAddress: Address, policy: GatePolicy)
      ensures this.mint == mint && this.policyAddress == policyAddress && this.policy == policy
      ensures accounts == map[] && owners == map[]
    {
      this.mint, this.policyAddress, this.policy := mint, policyAddress, policy;
      accounts, owners := map[], map[];
    }

    /** Records a token account; returns its previous state (None if new). */
    method UpsertAccount(tokenAccount: Address, account: TrackedAccount) returns (previous: Option<TokenState>)
      modifies `accounts
      ensures accounts == old(accounts)[tokenAccount := account]
      ensures previous == if tokenAccount in old(accounts) then Some(old(accounts)[tokenAccount].state) else None
    {
      previous := if tokenAccount in accounts then Some(accounts[tokenAccount].state) else None;
      accounts := accounts[tokenAccount := account];
    }
  }

  // ----- The index as a value

  /** What the reverse map depends on: per live mint, its policy and its owners' facts (whose PDAs never change). */
  datatype MintView = MintView(policy: GatePolicy, owners: map<Address, OwnerFacts>)

  type View = map<Address, MintView>
  type Listing = map<Address, set<string>>

  /** A live entry of `mint` holds facts of `owner` that name `attestation`. */
  ghost predicate Names(v: View, mint: Address, owner: Address, attestation: Address) {
    && mint in v
    && owner in v[mint].owners
    && v[mint].owners[owner].pdas.attestation == Some(attestation)
  }

  ghost predicate Holds(l: Listing, attestation: Address, key: string) {
    attestation in l && key in l[attestation]
  }

  ghost predicate Listed(l: Listing, mint: Address, owner: Address, attestation: Address) {
    Holds(l, attestation, PairKey(mint, owner))
  }

  /** What a live fact names, the reverse map lists. */
  ghost predicate Complete(v: View, l: Listing) {
    && (forall m, o :: m in v && o in v[m].owners ==> v[m].owners[o].owner == o)
    && (forall m, o, a :: Names(v, m, o, a) ==> Listed(l, m, o, a))
    && (forall a, k :: Holds(l, a, k) ==> IsPairKey(k))
  }

  /** What the reverse map lists, a live fact names. */
  ghost predicate Exact(v: View, l: Listing) {
    forall a, k :: Holds(l, a, k) ==> exists m, o :: Names(v, m, o, a) && k == PairKey(m, o)
  }

  /** Every live fact is what its mint's current policy derives. */
  ghost predicate Current(w: World, v: View) {
    forall m, o :: m in v && o in v[m].owners ==> Fits(w, v[m].policy, m, o, v[m].owners[o])
  }

  /** The keys the owners of `mint` that are in `done` hold under `attestation`. */
  ghost function KeysOf(mint: Address, owners: map<Address, OwnerFacts>, done: set<Address>, attestation: Address)
    : set<string>
  {
    set o | o in owners && o in done && owners[o].pdas.attestation == Some(attestation) ::
      PairKey(mint, owners[o].owner)
  }

  lemma KeysOfStep(mint: Address, owners: map<Address, OwnerFacts>, done: set<Address>, o: Address, a: Address)
    requires o in owners
    ensures KeysOf(mint, owners, done + {o}, a)
         == KeysOf(mint, owners, done, a)
            + (if owners[o].pdas.attestation == Some(a) then {PairKey(mint, owners[o].owner)} else {})
  {
  }

  /** `l` without the keys of `mint`'s owners. */
  ghost predicate Forgets(l: Listing, l': Listing, mint: Address, owners: map<Address, OwnerFacts>) {
    l'.Keys == l.Keys && forall a :: a in l' ==> l'[a] == l[a] - KeysOf(mint, owners, owners.Keys, a)
  }

  /** Dropping a mint's owners, with or without the mint, and whatever its next policy is. */
  lemma ForgetKeeps(v: View, v': View, l: Listing, l': Listing, mint: Address)
    requires Complete(v, l) && mint in v && Forgets(l, l', mint, v[mint].owners)
    requires v' == v - {mint} || exists p :: v' == v[mint := MintView(p, map[])]
    ensures Complete(v', l')
    ensures Exact(v, l) ==> Exact(v', l')
    ensures forall w :: Current(w, v) ==> Current(w, v')
  {
    var owners := v[mint].owners;
    assert forall a, k :: Holds(l', a, k) ==> Holds(l, a, k);
    forall m, o, a | Names(v', m, o, a) ensures Listed(l', m, o, a) {
      assert m != mint && Names(v, m, o, a) && Listed(l, m, o, a);
      assert a in l' && l'[a] == l[a] - KeysOf(mint, owners, owners.Keys, a);
      assert PairKey(m, o) !in KeysOf(mint, owners, owners.Keys, a) by {
        forall o' | o' in owners ensures PairKey(m, o) != PairKey(mint, owners[o'].owner) {
          if PairKey(m, o) == PairKey(mint, owners[o'].owner) {
            PairKeyInjective(m, o, mint, owners[o'].owner);
          }
        }
      }
      assert PairKey(m, o) in l[a];
    }
    if Exact(v, l) {
      forall a, k | Holds(l', a, k) ensures exists m, o :: Names(v', m, o, a) && k == PairKey(m, o) {
        assert Holds(l, a, k);
        var m, o :| Names(v, m, o, a) && k == PairKey(m, o);
        assert m != mint && Names(v', m, o, a);
      }
    }
  }

  lemma AddKeeps(v: View, l: Listing, mint: Address, p: GatePolicy)
    requires Complete(v, l) && mint !in v
    ensures var v' := v[mint := MintView(p, map[])];
      && Complete(v', l)
      && (Exact(v, l) ==> Exact(v', l))
      && (forall w :: Current(w, v) ==> Current(w, v'))
  {
    assert forall m, o, a :: Names(v, m, o, a) <==> Names(v[mint := MintView(p, map[])], m, o, a);
  }

  /** `l` with the key of (mint, owner) added under `attestation`. */
  ghost predicate Adds(l: Listing, l': Listing, mint: Address, owner: Address, attestation: Option<Address>) {
    forall a, k :: Holds(l', a, k) <==>
      Holds(l, a, k) || (attestation == Some(a) && k == PairKey(mint, owner))
  }

  /** Storing new facts in an entry that was removed: the reverse map only grows. */
  lemma StoreElsewhereKeeps(v: View, l: Listing, l': Listing, mint: Address, owner: Address,
                            attestation: Option<Address>)
    requires Complete(v, l) && Adds(l, l', mint, owner, attestation)
    ensures Complete(v, l')
    ensures Exact(v, l) ==> (Exact(v, l') <==> attestation.None? || Names(v, mint, owner, attestation.value))
  {
    forall m, o, a | Names(v, m, o, a) ensures Listed(l', m, o, a) {
      assert Listed(l, m, o, a);
    }
    if attestation.Some? && Exact(v, l') {
      var a := attestation.value;
      assert Holds(l', a, PairKey(mint, owner));
      var m, o :| Names(v, m, o, a) && PairKey(mint, owner) == PairKey(m, o);
      PairKeyInjective(mint, owner, m, o);
    }
  }

  /** Storing new facts in a live entry. */
  lemma StoreKeeps(v: View, l: Listing, l': Listing, mint: Address, owner: Address, facts: OwnerFacts)
    requires Complete(v, l) && mint in v && owner !in v[mint].owners && facts.owner == owner
    requires Adds(l, l', mint, owner, facts.pdas.attestation)
    ensures var v' := v[mint := v[mint].(owners := v[mint].owners[owner := facts])];
      && Complete(v', l')
      && (Exact(v, l) ==> Exact(v', l'))
      && (forall w :: Current(w, v) ==> (Current(w, v') <==> Fits(w, v[mint].policy, mint, owner, facts)))
  {
    var v' := v[mint := v[mint].(owners := v[mint].owners[owner := facts])];
    forall m, o, a | Names(v', m, o, a) ensures Listed(l', m, o, a) {
      if m == mint && o == owner {
        assert facts.pdas.attestation == Some(a);
      } else {
        assert Names(v, m, o, a) && Listed(l, m, o, a);
      }
    }
    if Exact(v, l) {
      forall a, k | Holds(l', a, k) ensures exists m, o :: Names(v', m, o, a) && k == PairKey(m, o) {
        if Holds(l, a, k) {
          var m, o :| Names(v, m, o, a) && k == PairKey(m, o);
          assert Names(v', m, o, a);
        } else {
          assert Names(v', mint, owner, a);
        }
      }
    }
    assert mint in v' && owner in v'[mint].owners && v'[mint].owners[owner] == facts;
  }

  // ----- The index

  class HolderIndex {
    var mints: map<Address, MintEntry>
    var byAttestation: map<Address, set<string>>

    ghost function AsView(): View
      reads this, mints.Values
    {
      map m | m in mints :: MintView(mints[m].policy, mints[m].owners)
    }

    /** `s` holds the index, its entries and their facts. */
    ghost predicate Within(s: set<object>)
      reads this, mints.Values
    {
      && this in s
      && (forall m :: m in mints ==> mints[m] in s)
      && (forall m, o :: m in mints && o in mints[m].owners ==> mints[m].owners[o] in s)
    }

    ghost function Policies(): map<Address, GatePolicy>
      reads this, mints.Values
    {
      map m | m in mints :: mints[m].policy
    }

    ghost function Tracked(): map<Address, map<Address, TrackedAccount>>
      reads this, mints.Values
    {
      map m | m in mints :: mints[m].accounts
    }

    /** Kept by every method, so in every interleaving of them. */
    ghost predicate Valid()
      reads this, mints.Values
    {
      && (forall m :: m in mints ==> mints[m].mint == m)
      && Complete(AsView(), byAttestation)
    }

    ghost predicate IsExact()
      reads this, mints.Values
    {
      Exact(AsView(), byAttestation)
    }

    ghost predicate IsCurrent(w: World)
      reads this, mints.Values
    {
      Current(w, AsView())
    }

    ghost predicate Live(entry: MintEntry)
      reads this
    {
      entry.mint in mints && mints[entry.mint] == entry
    }

    constructor ()
      ensures Valid() && IsExact() && mints == map[] && byAttestation == map[]
      ensures forall w :: IsCurrent(w)
    {
      mints, byAttestation := map[], map[];
    }

    /** Drops every owner of `entry` from the reverse map and from the entry. */
    method ForgetOwners(entry: MintEntry)
      modifies `byAttestation, entry`owners
      ensures mints == old(mints) && entry.owners == map[]
      ensures Forgets(old(byAttestation), byAttestation, entry.mint, old(entry.owners))
    {
      var rest := entry.owners.Keys;
      while rest != {}
        invariant rest <= entry.owners.Keys && entry.owners == old(entry.owners) && mints == old(mints)
        invariant byAttestation.Keys == old(byAttestation.Keys)
        invariant forall a :: a in byAttestation ==>
          byAttestation[a] == old(byAttestation[a]) - KeysOf(entry.mint, entry.owners, entry.owners.Keys - rest, a)
        decreases rest
      {
        var o :| o in rest;
        var facts := entry.owners[o];
        ghost var restBefore := rest;
        if facts.pdas.attestation.Some? && facts.pdas.attestation.value in byAttestation {
          var a := facts.pdas.attestation.value;
          byAttestation := byAttestation[a := byAttestation[a] - {PairKey(entry.mint, facts.owner)}];
        }
        rest := rest - {o};
        forall a | a in byAttestation
          ensures byAttestation[a]
               == old(byAttestation[a]) - KeysOf(entry.mint, entry.owners, entry.owners.Keys - rest, a)
        {
          KeysOfStep(entry.mint, entry.owners, entry.owners.Keys - restBefore, o, a);
          assert entry.owners.Keys - rest == (entry.owners.Keys - restBefore) + {o};
        }
      }
      assert entry.owners.Keys - rest == entry.owners.Keys;
      entry.owners := map[];
    }

    /** Adds a mint, or replaces its policy; either way the mint's owners start afresh. */
    method SetMint(mint: Address, policyAddress: Address, policy: GatePolicy) returns (entry: MintEntry)
      requires Valid()
      modifies this, if mint in mints then {mints[mint]} else {}
      ensures Valid() && Live(entry)
      ensures mints == old(mints)[mint := entry] && entry.mint == mint
      ensures entry.policy == policy && entry.policyAddress == policyAddress && entry.owners == map[]
      ensures if mint in old(mints) then entry == old(mints[mint]) && entry.accounts == old(mints[mint].accounts)
              else fresh(entry) && entry.accounts == map[]
      ensures if mint in old(mints) then Forgets(old(byAttestation), byAttestation, mint, old(mints[mint].owners))
              else byAttestation == old(byAttestation)
      ensures AsView() == old(AsView())[mint := MintView(policy, map[])]
      ensures old(IsExact()) ==> IsExact()
      ensures forall w :: old(IsCurrent(w)) ==> IsCurrent(w)
    {
      if mint in mints {
        entry := mints[mint];
        Replace(entry, policyAddress, policy);
      } else {
        ghost var v, l := AsView(), byAttestation;
        entry := new MintEntry(mint, policyAddress, policy);
        mints := mints[mint := entry];
        assert AsView() == v[mint := MintView(policy, map[])];
        AddKeeps(v, l, mint, policy);
      }
    }

    method Replace(entry: MintEntry, policyAddress: Address, policy: GatePolicy)
      requires Valid() && Live(entry)
      modifies `byAttestation, entry
      ensures Valid() && mints == old(mints) && entry.accounts == old(entry.accounts)
      ensures entry.policy == policy && entry.policyAddress == policyAddress && entry.owners == map[]
      ensures Forgets(old(byAttestation), byAttestation, entry.mint, old(entry.owners))
      ensures AsView() == old(AsView())[entry.mint := MintView(policy, map[])]
      ensures old(IsExact()) ==> IsExact()
      ensures forall w :: old(IsCurrent(w)) ==> IsCurrent(w)
    {
      ghost var v, l := AsView(), byAttestation;
      ForgetOwners(entry);
      entry.policy := policy;
      entry.policyAddress := policyAddress;
      assert AsView() == v[entry.mint := MintView(policy, map[])];
      ForgetKeeps(v, AsView(), l, byAttestation, entry.mint);
    }

    method RemoveMint(mint: Address)
      requires Valid()
      modifies this, if mint in mints then {mints[mint]} else {}
      ensures Valid() && mints == old(mints) - {mint} && AsView() == old(AsView()) - {mint}
      ensures if mint in old(mints)
              then Forgets(old(byAttestation), byAttestation, mint, old(mints[mint].owners))
                   && old(mints[mint]).owners == map[] && old(mints[mint]).policy == old(mints[mint].policy)
              else byAttestation == old(byAttestation)
      ensures old(IsExact()) ==> IsExact()
      ensures forall w :: old(IsCurrent(w)) ==> IsCurrent(w)
    {
      if mint !in mints {
        assert mints - {mint} == mints;
        return;
      }
      ghost var v, l := AsView(), byAttestation;
      var entry := mints[mint];
      ForgetOwners(entry);
      mints := mints - {mint};
      assert AsView() == v - {mint};
      ForgetKeeps(v, AsView(), l, byAttestation, mint);
    }

    /** The first half of `owner()`: PDAs under the policy the entry has now. Nothing is stored. */
    method Derive(w: World, entry: MintEntry, owner: Address) returns (facts: OwnerFacts)
      ensures fresh(facts) && Fits(w, entry.policy, entry.mint, owner, facts)
      ensures facts.Reads() == OwnerReads(None, None, None, w.offCurve(owner))
    {
      facts := new OwnerFacts(owner, PdasFor(w, entry.policy, entry.mint, owner), w.offCurve(owner));
    }

    /**
     * The second half: stores `facts` unless another caller stored the owner meanwhile. The entry may have been given
     * another policy since `facts` was derived, or have been removed, so nothing is assumed of either. What that costs
     * is stated exactly: the reverse map stays exact if and only if facts newly stored in a removed entry name no
     * attestation, or one that the mint's present entry names for the owner too; and the index stays current if and
     * only if facts newly stored in a live entry are what its present policy derives.
     */
    method Commit(entry: MintEntry, owner: Address, facts: OwnerFacts) returns (r: OwnerFacts)
      requires Valid() && facts.owner == owner
      modifies `byAttestation, entry`owners
      ensures Valid() && mints == old(mints)
      ensures r == if owner in old(entry.owners) then old(entry.owners)[owner] else facts
      ensures entry.owners == old(entry.owners)[owner := r]
      ensures Adds(old(byAttestation), byAttestation, entry.mint, owner,
                   if owner in old(entry.owners) then None else facts.pdas.attestation)
      ensures old(IsExact()) ==>
        (IsExact() <==>
         Live(entry) || owner in old(entry.owners) || facts.pdas.attestation.None?
         || Names(AsView(), entry.mint, owner, facts.pdas.attestation.value))
      ensures forall w :: old(IsCurrent(w)) ==>
        (IsCurrent(w) <==>
         (Live(entry) && owner !in old(entry.owners) ==> Fits(w, entry.policy, entry.mint, owner, facts)))
    {
      ghost var v, l := AsView(), byAttestation;
      if owner in entry.owners {
        assert entry.owners[owner := entry.owners[owner]] == entry.owners;
        return entry.owners[owner];
      }
      entry.owners := entry.owners[owner := facts];
      if facts.pdas.attestation.Some? {
        var a := facts.pdas.attestation.value;
        var keys := if a in byAttestation then byAttestation[a] else {};
        byAttestation := byAttestation[a := keys + {PairKey(entry.mint, owner)}];
      }
      r := facts;
      if Live(entry) {
        StoreKeeps(v, l, byAttestation, entry.mint, owner, facts);
        assert AsView() == v[entry.mint := v[entry.mint].(owners := v[entry.mint].owners[owner := facts])];
      } else {
        assert forall m :: m in mints ==> mints[m] != entry;
        assert AsView() == v;
        StoreElsewhereKeeps(v, l, byAttestation, entry.mint, owner, facts.pdas.attestation);
      }
    }

    /** `owner()` with nothing between its halves. */
    method Owner(w: World, entry: MintEntry, owner: Address) returns (r: OwnerFacts)
      requires Valid() && Live(entry)
      modifies `byAttestation, entry`owners
      ensures Valid() && mints == old(mints)
      ensures if owner in old(entry.owners) then r == old(entry.owners)[owner] else fresh(r)
      ensures entry.owners == old(entry.owners)[owner := r] && r.owner == owner
      ensures old(IsExact()) ==> IsExact()
      ensures old(IsCurrent(w)) ==> IsCurrent(w) && Fits(w, entry.policy, entry.mint, owner, r)
    {
      assert AsView()[entry.mint] == MintView(entry.policy, entry.owners);
      if owner in entry.owners {
        assert entry.owners[owner := entry.owners[owner]] == entry.owners;
        return entry.owners[owner];
      }
      var facts := Derive(w, entry, owner);
      r := Commit(entry, owner, facts);
    }

    /**
     * Every (mint, owner) listed under an attestation address. It never misses an owner whose live facts name the
     * address, and on an exact index it holds no other.
     */
    method Dependents(attestation: Address) returns (r: set<(Address, Address)>)
      requires Valid()
      ensures forall m, o :: (m, o) in r <==> Listed(byAttestation, m, o, attestation)
      ensures forall m, o :: Names(AsView(), m, o, attestation) ==> (m, o) in r
      ensures IsExact() ==> forall m, o :: Names(AsView(), m, o, attestation) <==> (m, o) in r
    {
      r := {};
      var rest := if attestation in byAttestation then byAttestation[attestation] else {};
      ghost var all := rest;
      while rest != {}
        invariant rest <= all
        invariant forall m, o :: (m, o) in r <==> PairKey(m, o) in all - rest
        decreases rest
      {
        var k :| k in rest;
        var parts := Split(k);
        assert |parts| == 2 && IsText(parts[0]) && IsText(parts[1])
               && PairKey(Untext(parts[0]), Untext(parts[1])) == k by {
          assert Holds(byAttestation, attestation, k);
          var m, o :| k == PairKey(m, o);
          SplitTwo(Text(m), Text(o));
          TextRoundTrip(m);
          TextRoundTrip(o);
        }
        ghost var before := r;
        r := r + {(Untext(parts[0]), Untext(parts[1]))};
        forall m, o ensures (m, o) in r <==> (m, o) in before || PairKey(m, o) == k {
          if PairKey(m, o) == k {
            PairKeyInjective(m, o, Untext(parts[0]), Untext(parts[1]));
          }
        }
        rest := rest - {k};
      }
      if IsExact() {
        forall m, o | (m, o) in r ensures Names(AsView(), m, o, attestation) {
          assert Holds(byAttestation, attestation, PairKey(m, o));
          var m', o' :| Names(AsView(), m', o', attestation) && PairKey(m, o) == PairKey(m', o');
          PairKeyInjective(m, o, m', o');
        }
      }
    }

    method HasAttestations() returns (b: bool)
      ensures b <==> exists a :: a in byAttestation && byAttestation[a] != {}
    {
      var rest := byAttestation.Keys;
      while rest != {}
        invariant rest <= byAttestation.Keys
        invariant forall a :: a in byAttestation && a !in rest ==> byAttestation[a] == {}
        decreases rest
      {
        var a :| a in rest;
        if byAttestation[a] != {} {
          return true;
        }
        rest := rest - {a};
      }
      return false;
    }
  }

  // ----- What an interleaving can cost

  lemma NothingListed(v: View, l: Listing)
    requires Exact(v, l) && forall m :: m in v ==> v[m].owners == map[]
    ensures forall a, k :: !Holds(l, a, k)
  {
    assert forall m, o, a :: !Names(v, m, o, a);
  }

  /** A policy change between the two halves of `owner()`. */
  method ChangeWhileDeriving(w: World, mint: Address, owner: Address, before: GatePolicy, after: GatePolicy)
    returns (index: HolderIndex, entry: MintEntry, facts: OwnerFacts)
    ensures fresh(index) && fresh(entry)
    ensures index.Valid() && index.mints == map[mint := entry] && entry.mint == mint
    ensures entry.policy == after && entry.owners == map[]
    ensures facts.owner == owner && facts.pdas == PdasFor(w, before, mint, owner)
    ensures forall a, k :: !Holds(index.byAttestation, a, k)
  {
    index := new HolderIndex();
    entry := index.SetMint(mint, PolicyPda(w, mint), before);
    facts := index.Derive(w, entry, owner);
    entry := index.SetMint(mint, PolicyPda(w, mint), after);
    NothingListed(index.AsView(), index.byAttestation);
  }

  /**
   * What the interleaving does cost: when a mint's policy changes while an owner is being derived, the owner is stored
   * with the old policy's PDAs. It is tracked and the new policy requires a credential, but a transaction on that
   * credential's address finds no dependent.
   */
  method StaleFacts(w: World, mint: Address, owner: Address, before: GatePolicy, after: GatePolicy)
    returns (index: HolderIndex, entry: MintEntry, dependents: set<(Address, Address)>)
    requires before.requireSas && after.requireSas
    requires AttestationPda(w, before.sasCredential, before.sasSchema, owner)
          != AttestationPda(w, after.sasCredential, after.sasSchema, owner)
    ensures index.Valid() && index.mints == map[mint := entry] && entry.policy == after && owner in entry.owners
    ensures forall m, o :: (m, o) !in dependents
  {
    var facts;
    index, entry, facts := ChangeWhileDeriving(w, mint, owner, before, after);
    var _ := index.Commit(entry, owner, facts);
    var attestation := AttestationPda(w, after.sasCredential, after.sasSchema, owner);
    dependents := index.Dependents(attestation);
    forall m, o ensures (m, o) !in dependents {
      assert !Holds(index.byAttestation, attestation, PairKey(m, o));
    }
  }

  /** A removal between the two halves of `owner()`. */
  method RemoveWhileDeriving(w: World, mint: Address, owner: Address, policy: GatePolicy)
    returns (index: HolderIndex, entry: MintEntry, facts: OwnerFacts)
    ensures fresh(index) && fresh(entry)
    ensures index.Valid() && index.IsExact() && index.mints.Keys == {} && entry.mint == mint && entry.owners == map[]
    ensures facts.owner == owner && facts.pdas == PdasFor(w, policy, mint, owner)
  {
    index := new HolderIndex();
    entry := index.SetMint(mint, PolicyPda(w, mint), policy);
    facts := index.Derive(w, entry, owner);
    index.RemoveMint(mint);
  }

  /**
   * And when a mint is removed while an owner is being derived, the owner is listed all the same: a transaction on the
   * credential's address finds a dependent of a mint that is not tracked.
   */
  method PhantomDependent(w: World, mint: Address, owner: Address, policy: GatePolicy)
    returns (index: HolderIndex, dependents: set<(Address, Address)>)
    requires policy.requireSas
    ensures index.Valid() && index.mints.Keys == {} && !index.IsExact()
    ensures (mint, owner) in dependents
  {
    var entry, facts;
    index, entry, facts := RemoveWhileDeriving(w, mint, owner, policy);
    var _ := index.Commit(entry, owner, facts);
    dependents := index.Dependents(AttestationPda(w, policy.sasCredential, policy.sasSchema, owner));
  }
}
