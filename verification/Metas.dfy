/** The gate's extra accounts: where each one sits, the list that makes Token ACL resolve it, and the resolution. */
module Metas {
  import opened Bytes
  import opened Policy

  const MINT_INDEX: nat := 2
  const OWNER_INDEX: nat := 3
  const EXTRA_METAS_INDEX: nat := 5
  const POLICY_INDEX: nat := EXTRA_METAS_INDEX + 1
  const SAS_GROUP_LEN: nat := 4

  const SEED_POLICY: seq<Byte> := Ascii("policy")
  const SEED_BLACKLIST: seq<Byte> := Ascii("blacklist")
  const SEED_ALLOWLIST: seq<Byte> := Ascii("allowlist")
  const SEED_ATTESTATION: seq<Byte> := Ascii("attestation")

  // ----- The addresses the keeper derives, and the gate means

  function PolicyPda(w: World, mint: Address): Address {
    w.pda(w.gateId, [Ascii("policy"), mint])
  }

  function BlacklistPda(w: World, issuer: Address, mint: Address, wallet: Address): Address {
    w.pda(issuer, [Ascii("blacklist"), mint, wallet])
  }

  function AllowlistPda(w: World, issuer: Address, mint: Address, wallet: Address): Address {
    w.pda(issuer, [Ascii("allowlist"), mint, wallet])
  }

  function AttestationPda(w: World, credential: Address, schema: Address, owner: Address): Address {
    w.pda(w.sasId, [Ascii("attestation"), credential, schema, owner])
  }

  // ----- Layout

  datatype Layout = Layout(
    issuer: Option<nat>, blacklist: Option<nat>, allowlist: Option<nat>, sas: Option<nat>, len: nat)
  {
    function Attestation(): Option<nat> {
      if sas.Some? then Some(sas.value + 3) else None
    }
  }

  function Count(b: bool): nat {
    if b then 1 else 0
  }

  /** The indices in closed form. */
  function LayoutOf(checkBlacklist: bool, mode: AllowlistMode, requireSas: bool): Layout {
    var allowlistOn := mode != Off;
    var registry := Count(checkBlacklist || allowlistOn) + Count(checkBlacklist) + Count(allowlistOn);
    Layout(
      if checkBlacklist || allowlistOn then Some(7) else None,
      if checkBlacklist then Some(8) else None,
      if allowlistOn then Some(8 + Count(checkBlacklist)) else None,
      if requireSas then Some(7 + registry) else None,
      7 + registry + (if requireSas then SAS_GROUP_LEN else 0))
  }

  function LayoutFor(p: GatePolicy): Layout {
    LayoutOf(p.checkBlacklist, p.allowlistMode, p.requireSas)
  }

  /** `Layout::of` as written: one running index handed out slot by slot. */
  method ComputeLayout(checkBlacklist: bool, mode: AllowlistMode, requireSas: bool) returns (l: Layout)
    ensures l == LayoutOf(checkBlacklist, mode, requireSas)
  {
    var allowlistOn := mode != Off;
    var next := POLICY_INDEX + 1;
    var issuer, blacklist, allowlist, sas: Option<nat> := None, None, None, None;
    if checkBlacklist || allowlistOn {
      issuer, next := Some(next), next + 1;
    }
    if checkBlacklist {
      blacklist, next := Some(next), next + 1;
    }
    if allowlistOn {
      allowlist, next := Some(next), next + 1;
    }
    if requireSas {
      sas, next := Some(next), next + SAS_GROUP_LEN;
    }
    return Layout(issuer, blacklist, allowlist, sas, next);
  }

  // ----- The list

  datatype Seed = Literal(bytes: seq<Byte>) | AccountKey(index: nat)

  /** A fixed key, a PDA of the gate, or a PDA of the program at an earlier index. */
  datatype Meta = FixedKey(key: Address) | OwnPda(seeds: seq<Seed>) | ExternalPda(program: nat, seeds: seq<Seed>)

  function RegistrySeeds(prefix: seq<Byte>): seq<Seed> {
    [Literal(prefix), AccountKey(MINT_INDEX), AccountKey(OWNER_INDEX)]
  }

  method ExtraMetas(w: World, p: GatePolicy) returns (metas: seq<Meta>)
    ensures metas == MetasOf(w, p)
  {
    var layout := ComputeLayout(p.checkBlacklist, p.allowlistMode, p.requireSas);
    metas := [OwnPda([Literal(SEED_POLICY), AccountKey(MINT_INDEX)])];
    if layout.issuer.Some? {
      var issuer := layout.issuer.value;
      metas := metas + [FixedKey(p.issuerProgram)];
      if layout.blacklist.Some? {
        metas := metas + [ExternalPda(issuer, RegistrySeeds(SEED_BLACKLIST))];
      }
      if layout.allowlist.Some? {
        metas := metas + [ExternalPda(issuer, RegistrySeeds(SEED_ALLOWLIST))];
      }
    }
    if layout.sas.Some? {
      var sas := layout.sas.value;
      metas := metas + [FixedKey(w.sasId)];
      metas := metas + [FixedKey(p.sasCredential)];
      metas := metas + [FixedKey(p.sasSchema)];
      metas := metas + [ExternalPda(sas, [Literal(SEED_ATTESTATION), AccountKey(sas + 1), AccountKey(sas + 2),
                                          AccountKey(OWNER_INDEX)])];
    }
  }

  function RegistryMetas(p: GatePolicy): seq<Meta> {
    var l := LayoutFor(p);
    if l.issuer.None? then []
    else
      [FixedKey(p.issuerProgram)]
      + (if p.checkBlacklist then [ExternalPda(l.issuer.value, RegistrySeeds(SEED_BLACKLIST))] else [])
      + (if p.allowlistMode != Off then [ExternalPda(l.issuer.value, RegistrySeeds(SEED_ALLOWLIST))] else [])
  }

  function SasMetas(w: World, p: GatePolicy): seq<Meta> {
    if !p.requireSas then []
    else
      var sas := LayoutFor(p).sas.value;
      [FixedKey(w.sasId), FixedKey(p.sasCredential), FixedKey(p.sasSchema),
       ExternalPda(sas, [Literal(SEED_ATTESTATION), AccountKey(sas + 1), AccountKey(sas + 2), AccountKey(OWNER_INDEX)])]
  }

  function MetasOf(w: World, p: GatePolicy): (metas: seq<Meta>)
    ensures POLICY_INDEX + |metas| == LayoutFor(p).len
  {
    [OwnPda([Literal(SEED_POLICY), AccountKey(MINT_INDEX)])] + RegistryMetas(p) + SasMetas(w, p)
  }

  // ----- Resolution, one meta after another over the keys resolved so far

  predicate Ready(s: Seed, keys: seq<Address>) {
    s.AccountKey? ==> s.index < |keys|
  }

  function SeedBytes(s: Seed, keys: seq<Address>): seq<Byte>
    requires Ready(s, keys)
  {
    match s case Literal(bytes) => bytes case AccountKey(i) => keys[i]
  }

  function ResolveSeeds(seeds: seq<Seed>, keys: seq<Address>): Option<seq<seq<Byte>>> {
    if forall i :: 0 <= i < |seeds| ==> Ready(seeds[i], keys)
    then Some(seq(|seeds|, i requires 0 <= i < |seeds| && Ready(seeds[i], keys) => SeedBytes(seeds[i], keys)))
    else None
  }

  /** None when a seed or program index is not resolved yet. */
  function ResolveMeta(w: World, m: Meta, keys: seq<Address>): Option<Address> {
    match m
    case FixedKey(k) => Some(k)
    case OwnPda(seeds) =>
      var s :- ResolveSeeds(seeds, keys);
      Some(w.pda(w.gateId, s))
    case ExternalPda(program, seeds) =>
      if program >= |keys| then None
      else
        var s :- ResolveSeeds(seeds, keys);
        Some(w.pda(keys[program], s))
  }

  function Resolve(w: World, metas: seq<Meta>, keys: seq<Address>): Option<seq<Address>> {
    if metas == [] then Some(keys)
    else
      var k :- ResolveMeta(w, metas[0], keys);
      Resolve(w, metas[1..], keys + [k])
  }

  lemma {:induction false} ResolveAppend(w: World, a: seq<Meta>, b: seq<Meta>, keys: seq<Address>)
    ensures Resolve(w, a + b, keys)
            == (if Resolve(w, a, keys).None? then None else Resolve(w, b, Resolve(w, a, keys).value))
  {
    if a == [] {
      assert a + b == b;
    } else {
      assert (a + b)[0] == a[0] && (a + b)[1..] == a[1..] + b;
      var k := ResolveMeta(w, a[0], keys);
      if k.Some? {
        ResolveAppend(w, a[1..], b, keys + [k.value]);
      }
    }
  }

  /** The accounts Token ACL fixes: caller, token account, mint, owner, flag account, extra-metas account. */
  predicate BaseKeys(base: seq<Address>, mint: Address, owner: Address) {
    |base| == 6 && base[MINT_INDEX] == mint && base[OWNER_INDEX] == owner
  }

  lemma ResolveEntry(w: World, on: bool, prefix: seq<Byte>, keys: seq<Address>, mint: Address, owner: Address)
    requires |keys| > 7 && keys[MINT_INDEX] == mint && keys[OWNER_INDEX] == owner
    ensures Resolve(w, if on then [ExternalPda(7, RegistrySeeds(prefix))] else [], keys)
         == Some(keys + if on then [w.pda(keys[7], [prefix, mint, owner])] else [])
  {
    if on {
      var m := ExternalPda(7, RegistrySeeds(prefix));
      assert ResolveSeeds(RegistrySeeds(prefix), keys).value == [prefix, mint, owner];
      assert [m][1..] == [];
    } else {
      assert keys + [] == keys;
    }
  }

  lemma ResolveRegistry(w: World, p: GatePolicy, owner: Address, keys: seq<Address>)
    requires |keys| == 7 && BaseKeys(keys[..6], p.mint, owner)
    ensures Resolve(w, RegistryMetas(p), keys) == Some(keys + RegistryKeys(w, p, owner))
  {
    if RegistryMetas(p) != [] {
      assert keys[2] == keys[..6][2] && keys[3] == keys[..6][3];
      var fixed := [FixedKey(p.issuerProgram)];
      var blackMetas := if p.checkBlacklist then [ExternalPda(7, RegistrySeeds(SEED_BLACKLIST))] else [];
      var allowMetas := if p.allowlistMode != Off then [ExternalPda(7, RegistrySeeds(SEED_ALLOWLIST))] else [];
      var black := if p.checkBlacklist then [BlacklistPda(w, p.issuerProgram, p.mint, owner)] else [];
      var k1 := keys + [p.issuerProgram];
      assert fixed[1..] == [];
      assert Resolve(w, fixed, keys) == Some(k1);
      ResolveEntry(w, p.checkBlacklist, SEED_BLACKLIST, k1, p.mint, owner);
      ResolveEntry(w, p.allowlistMode != Off, SEED_ALLOWLIST, k1 + black, p.mint, owner);
      ResolveAppend(w, fixed, blackMetas, keys);
      ResolveAppend(w, fixed + blackMetas, allowMetas, keys);
      assert RegistryMetas(p) == fixed + blackMetas + allowMetas;
      assert k1 + black + (if p.allowlistMode != Off then [AllowlistPda(w, p.issuerProgram, p.mint, owner)] else [])
          == keys + RegistryKeys(w, p, owner);
    } else {
      assert keys + RegistryKeys(w, p, owner) == keys;
    }
  }

  function RegistryKeys(w: World, p: GatePolicy, owner: Address): seq<Address> {
    if !p.checkBlacklist && p.allowlistMode == Off then []
    else
      [p.issuerProgram]
      + (if p.checkBlacklist then [BlacklistPda(w, p.issuerProgram, p.mint, owner)] else [])
      + (if p.allowlistMode != Off then [AllowlistPda(w, p.issuerProgram, p.mint, owner)] else [])
  }

  function SasKeys(w: World, p: GatePolicy, owner: Address): seq<Address> {
    if !p.requireSas then []
    else [w.sasId, p.sasCredential, p.sasSchema, AttestationPda(w, p.sasCredential, p.sasSchema, owner)]
  }

  lemma ResolveSas(w: World, p: GatePolicy, owner: Address, keys: seq<Address>)
    requires |keys| == 7 + |RegistryKeys(w, p, owner)| && keys[OWNER_INDEX] == owner
    ensures Resolve(w, SasMetas(w, p), keys) == Some(keys + SasKeys(w, p, owner))
  {
    if p.requireSas {
      var metas, n := SasMetas(w, p), |keys|;
      assert LayoutFor(p).sas.value == n;
      var k3 := keys + [w.sasId] + [p.sasCredential] + [p.sasSchema];
      var seeds := metas[3].seeds;
      assert ResolveSeeds(seeds, k3).value == [SEED_ATTESTATION, p.sasCredential, p.sasSchema, owner];
      assert metas[1..][1..][1..][1..] == [];
      assert Resolve(w, metas[1..][1..][1..], k3)
           == Some(k3 + [AttestationPda(w, p.sasCredential, p.sasSchema, owner)]);
      assert Resolve(w, metas[1..][1..], keys + [w.sasId] + [p.sasCredential])
          == Resolve(w, metas[1..][1..][1..], k3);
      assert Resolve(w, metas[1..], keys + [w.sasId])
           == Resolve(w, metas[1..][1..], keys + [w.sasId] + [p.sasCredential]);
      assert k3 + [AttestationPda(w, p.sasCredential, p.sasSchema, owner)] == keys + SasKeys(w, p, owner);
    } else {
      assert keys + SasKeys(w, p, owner) == keys;
    }
  }

  /**
   * Resolving any policy's list over the base accounts never meets an unresolved index, ends at the layout's length,
   * and puts each account at exactly the index the layout names.
   */
  lemma ResolutionMatchesLayout(w: World, p: GatePolicy, owner: Address, base: seq<Address>)
    requires BaseKeys(base, p.mint, owner)
    ensures Resolve(w, MetasOf(w, p), base).Some?
    ensures var keys, l := Resolve(w, MetasOf(w, p), base).value, LayoutFor(p);
      && |keys| == l.len
      && keys[..6] == base
      && keys[POLICY_INDEX] == PolicyPda(w, p.mint)
      && (l.issuer.Some? ==> l.issuer.value < l.len && keys[l.issuer.value] == p.issuerProgram)
      && (l.blacklist.Some? <==> p.checkBlacklist)
      && (l.blacklist.Some? ==>
            && l.blacklist.value < l.len
            && keys[l.blacklist.value] == BlacklistPda(w, p.issuerProgram, p.mint, owner))
      && (l.allowlist.Some? <==> p.allowlistMode != Off)
      && (l.allowlist.Some? ==>
            && l.allowlist.value < l.len
            && keys[l.allowlist.value] == AllowlistPda(w, p.issuerProgram, p.mint, owner))
      && (l.Attestation().Some? <==> p.requireSas)
      && (l.Attestation().Some? ==>
            && l.Attestation().value < l.len
            && keys[l.sas.value] == w.sasId
            && keys[l.sas.value + 1] == p.sasCredential
            && keys[l.sas.value + 2] == p.sasSchema
            && keys[l.Attestation().value] == AttestationPda(w, p.sasCredential, p.sasSchema, owner))
  {
    var head := [OwnPda([Literal(SEED_POLICY), AccountKey(MINT_INDEX)])];
    var k1 := base + [PolicyPda(w, p.mint)];
    var seeds := head[0].seeds;
    assert ResolveSeeds(seeds, base).value == [SEED_POLICY, p.mint];
    assert head[1..] == [];
    assert Resolve(w, head, base) == Some(k1);
    assert k1[..6] == base;
    ResolveAppend(w, head, RegistryMetas(p) + SasMetas(w, p), base);
    assert MetasOf(w, p) == head + (RegistryMetas(p) + SasMetas(w, p));
    ResolveRegistry(w, p, owner, k1);
    ResolveAppend(w, RegistryMetas(p), SasMetas(w, p), k1);
    ResolveSas(w, p, owner, k1 + RegistryKeys(w, p, owner));
  }

  // ----- Seed packing

  /** Bytes a seed takes in the 32-byte address config: a tag, then an index, or a length and the literal. */
  function SeedSize(s: Seed): nat {
    match s case Literal(bytes) => 2 + |bytes| case AccountKey(_) => 2
  }

  function SeedsSize(seeds: seq<Seed>): nat {
    if seeds == [] then 0 else SeedSize(seeds[0]) + SeedsSize(seeds[1..])
  }

  lemma SeedsSizeCons(s: Seed, rest: seq<Seed>)
    ensures SeedsSize([s] + rest) == SeedSize(s) + SeedsSize(rest)
  {
    assert ([s] + rest)[1..] == rest;
  }

  lemma SeedsSize3(a: Seed, b: Seed, c: Seed)
    ensures SeedsSize([a, b, c]) == SeedSize(a) + SeedSize(b) + SeedSize(c)
  {
    SeedsSizeCons(a, [b, c]);
    SeedsSizeCons(b, [c]);
    SeedsSizeCons(c, []);
    assert [a] + [b, c] == [a, b, c] && [b] + [c] == [b, c] && [c] + [] == [c];
  }

  /** A meta at position `i` of the list: its seeds fit the 32-byte address config and name only resolved accounts. */
  predicate Packs(m: Meta, i: nat) {
    && (m.ExternalPda? ==> m.program < POLICY_INDEX + i && m.program < 128)
    && (!m.FixedKey? ==>
          && SeedsSize(m.seeds) <= 32
          && forall j :: 0 <= j < |m.seeds| && m.seeds[j].AccountKey? ==> m.seeds[j].index < POLICY_INDEX + i)
  }

  lemma SeedsFit(w: World, p: GatePolicy, i: nat)
    requires i < |MetasOf(w, p)|
    ensures Packs(MetasOf(w, p)[i], i)
  {
    SeedsSizeCons(Literal(SEED_POLICY), [AccountKey(MINT_INDEX)]);
    SeedsSizeCons(AccountKey(MINT_INDEX), []);
    assert [AccountKey(MINT_INDEX)] + [] == [AccountKey(MINT_INDEX)];
    assert [Literal(SEED_POLICY)] + [AccountKey(MINT_INDEX)] == [Literal(SEED_POLICY), AccountKey(MINT_INDEX)];
    SeedsSize3(Literal(SEED_BLACKLIST), AccountKey(MINT_INDEX), AccountKey(OWNER_INDEX));
    SeedsSize3(Literal(SEED_ALLOWLIST), AccountKey(MINT_INDEX), AccountKey(OWNER_INDEX));
    var r := 1 + |RegistryMetas(p)|;
    if r <= i {
      var m := SasMetas(w, p)[i - r];
      assert MetasOf(w, p)[i] == m;
      var a, c, d, e := Literal(SEED_ATTESTATION), AccountKey(r + 7), AccountKey(r + 8), AccountKey(OWNER_INDEX);
      SeedsSizeCons(a, [c, d, e]);
      SeedsSize3(c, d, e);
      assert [a] + [c, d, e] == [a, c, d, e];
    } else if 1 <= i {
      assert MetasOf(w, p)[i] == RegistryMetas(p)[i - 1];
    }
  }
}
