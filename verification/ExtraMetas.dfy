/** `update_policy` and the two extra-metas accounts it rewrites: their lists and their rent. */
module ExtraMetas {
  import opened Bytes
  import opened Policy
  import opened Metas

  /** TLV header, list length, and 35 bytes a meta. */
  function SizeOf(metas: nat): nat {
    8 + 4 + 4 + 35 * metas
  }

  datatype Owner = System | Gate | Other

  class Wallet {
    var lamports: nat

    constructor (lamports: nat)
      ensures this.lamports == lamports
    {
      this.lamports := lamports;
    }
  }

  /** A PDA of the gate: absent accounts are system-owned and empty, and may already hold lamports. */
  class MetasAccount {
    var lamports: nat
    var owner: Owner
    var len: nat
    var list: seq<Meta>

    constructor (lamports: nat)
      ensures this.lamports == lamports && owner == System && len == 0 && list == []
    {
      this.lamports, owner, len, list := lamports, System, 0, [];
    }
  }

  function Max(a: nat, b: nat): nat {
    if a > b then a else b
  }

  /**
   * `write`. An account the gate owns ends at exactly the rent for its new length; one it creates ends at the larger of
   * that and what it held. What it gains the payer pays and what it loses the payer gets. On failure (the payer cannot
   * pay, or the account is not the gate's to take) nothing changes.
   */
  method Write(account: MetasAccount, payer: Wallet, metas: seq<Meta>, rent: nat -> nat) returns (ok: bool)
    modifies account, payer
    ensures account.lamports + payer.lamports == old(account.lamports + payer.lamports)
    ensures ok ==>
      && account.owner == Gate && account.list == metas && account.len == SizeOf(|metas|)
      && account.lamports == (if old(account.owner) == Gate then rent(SizeOf(|metas|))
                              else Max(old(account.lamports), rent(SizeOf(|metas|))))
    ensures ok <==>
      && (old(account.owner) == Gate || (old(account.owner) == System && old(account.len) == 0))
      && rent(SizeOf(|metas|)) <= old(account.lamports) + old(payer.lamports)
    ensures !ok ==>
      && payer.lamports == old(payer.lamports) && account.lamports == old(account.lamports)
      && account.owner == old(account.owner) && account.len == old(account.len) && account.list == old(account.list)
  {
    var len := SizeOf(|metas|);
    var min := rent(len);
    var current := account.lamports;
    if account.owner != Gate && (account.owner != System || account.len != 0) {
      return false;  // allocate refuses an account in use
    }
    if current < min && payer.lamports < min - current {
      return false;  // the transfer below fails, and the instruction with it
    }
    if account.owner == Gate {
      account.len := len;
      if current > min {
        account.lamports := min;
        payer.lamports := payer.lamports + (current - min);
      }
    } else {
      account.len := len;
      account.owner := Gate;
    }
    if current < min {
      payer.lamports := payer.lamports - (min - current);
      account.lamports := account.lamports + (min - current);
    }
    account.list := metas;
    return true;
  }

  datatype UpdateResult = Updated | NotPolicyAuthority | Refused(reason: ApplyResult) | MetasFailed

  /** The stored policy and where the lamports are. */
  datatype Books = Books(policy: GatePolicy, payer: nat, thaw: nat, freeze: nat) {
    function Total(): nat {
      payer + thaw + freeze
    }
  }

  type Call = (Address, PolicyArgs)

  /** One update when the gate owns both accounts: nothing, or the new policy with both accounts at their rent. */
  function NextBooks(w: World, rent: nat -> nat, b: Books, call: Call): (r: Books)
    ensures r.Total() == b.Total()
  {
    var p := With(b.policy.mint, call.1);
    var min := rent(SizeOf(|MetasOf(w, p)|));
    if call.0 != b.policy.authority || !WellConfigured(p) || min > b.thaw + b.payer || 2 * min > b.Total() then b
    else Books(p, b.Total() - 2 * min, min, min)
  }

  function AllBooks(w: World, rent: nat -> nat, b: Books, calls: seq<Call>): (r: Books)
    ensures r.Total() == b.Total()
    decreases |calls|
  {
    if calls == [] then b else NextBooks(w, rent, AllBooks(w, rent, b, calls[..|calls| - 1]), calls[|calls| - 1])
  }

  /** A mint's policy account with its thaw and freeze lists. */
  class Gated {
    const w: World
    const policy: PolicyAccount
    const thaw: MetasAccount
    const freeze: MetasAccount
    const rent: nat -> nat

    constructor (w: World, mint: Address, rent: nat -> nat, thawLamports: nat, freezeLamports: nat)
      ensures this.w == w && policy.mint == mint && this.rent == rent
      ensures Apart() && fresh(policy) && fresh(thaw) && fresh(freeze)
      ensures thaw.lamports == thawLamports && freeze.lamports == freezeLamports
      ensures thaw.owner == System && freeze.owner == System && thaw.len == freeze.len == 0
    {
      this.w, this.rent := w, rent;
      policy := new PolicyAccount(mint);
      thaw := new MetasAccount(thawLamports);
      freeze := new MetasAccount(freezeLamports);
    }

    predicate Apart() {
      thaw != freeze
    }

    /** Both lists are the stored policy's, so Token ACL resolves the accounts that policy reads. */
    ghost predicate ListsMatch()
      reads policy, thaw, freeze
    {
      thaw.owner == Gate && freeze.owner == Gate
      && thaw.list == MetasOf(w, policy.Value()) && freeze.list == MetasOf(w, policy.Value())
    }

    ghost predicate AtRent()
      reads thaw, freeze
    {
      thaw.lamports == rent(thaw.len) && freeze.lamports == rent(freeze.len)
    }

    ghost function Total(payer: Wallet): nat
      reads thaw, freeze, payer
    {
      thaw.lamports + freeze.lamports + payer.lamports
    }

    ghost function AsBooks(payer: Wallet): Books
      reads policy, thaw, freeze, payer
    {
      Books(policy.Value(), payer.lamports, thaw.lamports, freeze.lamports)
    }

    /**
     * `update_policy`: only the policy's authority, only a valid policy, and then both lists. A failure anywhere leaves
     * everything as it was (the runtime undoes a failed instruction).
     */
    method UpdatePolicy(signer: Address, args: PolicyArgs, payer: Wallet) returns (r: UpdateResult)
      requires Apart()
      modifies policy, thaw, freeze, payer
      ensures Total(payer) == old(Total(payer))
      ensures r.NotPolicyAuthority? <==> signer != old(policy.authority)
      ensures r.Refused? <==> signer == old(policy.authority) && !WellConfigured(With(policy.mint, args))
      ensures old(thaw.owner == Gate && freeze.owner == Gate) ==>
        AsBooks(payer) == NextBooks(w, rent, old(AsBooks(payer)), (signer, args))
      ensures r.Updated? ==>
        && signer == old(policy.authority) && WellConfigured(policy.Value())
        && policy.Value() == With(policy.mint, args)
        && ListsMatch()
        && (old(thaw.owner == Gate && freeze.owner == Gate) ==> AtRent())
      ensures !r.Updated? ==>
        && policy.Value() == old(policy.Value()) && payer.lamports == old(payer.lamports)
        && thaw.lamports == old(thaw.lamports) && thaw.owner == old(thaw.owner) && thaw.len == old(thaw.len)
        && thaw.list == old(thaw.list)
        && freeze.lamports == old(freeze.lamports) && freeze.owner == old(freeze.owner) && freeze.len == old(freeze.len)
        && freeze.list == old(freeze.list)
    {
      if signer != policy.authority {
        return NotPolicyAuthority;
      }
      var before := policy.Value();
      var applied := policy.Apply(args);
      if !applied.Applied? {
        return Refused(applied);
      }
      var metas := ExtraMetas(w, policy.Value());
      var lamports, owner, len, list := thaw.lamports, thaw.owner, thaw.len, thaw.list;
      var paid := payer.lamports;
      var ok := Write(thaw, payer, metas, rent);
      if ok {
        ok := Write(freeze, payer, metas, rent);
      }
      if !ok {
        thaw.lamports, thaw.owner, thaw.len, thaw.list := lamports, owner, len, list;
        payer.lamports := paid;
        Undo(before);
        return MetasFailed;
      }
      return Updated;
    }

    method Undo(p: GatePolicy)
      requires p.mint == policy.mint
      modifies policy
      ensures policy.Value() == p
    {
      policy.authority := p.authority;
      policy.issuerProgram := p.issuerProgram;
      policy.checkBlacklist := p.checkBlacklist;
      policy.allowlistMode := p.allowlistMode;
      policy.requireSas := p.requireSas;
      policy.sasCredential := p.sasCredential;
      policy.sasSchema := p.sasSchema;
      policy.minKycLevel := p.minKycLevel;
    }

    ghost function Lists(): (seq<Meta>, seq<Meta>, nat, nat)
      reads thaw, freeze
    {
      (thaw.list, freeze.list, thaw.len, freeze.len)
    }

    /**
     * Any run of updates of accounts the gate owns, failed ones included, from any balances: the books follow the calls
     * and no lamport is made or lost. As soon as one call succeeds the lists match the stored policy and both accounts
     * are at exactly their rent, and they stay so; until then nothing changes.
     */
    method Updates(calls: seq<Call>, payer: Wallet)
      requires Apart() && thaw.owner == Gate && freeze.owner == Gate
      modifies policy, thaw, freeze, payer
      ensures thaw.owner == Gate && freeze.owner == Gate
      ensures AsBooks(payer) == AllBooks(w, rent, old(AsBooks(payer)), calls)
      ensures Total(payer) == old(Total(payer))
      ensures (ListsMatch() && AtRent() && WellConfigured(policy.Value()))
           || (AsBooks(payer) == old(AsBooks(payer)) && Lists() == old(Lists()))
      ensures old(ListsMatch() && AtRent()) ==> ListsMatch() && AtRent()
    {
      for i := 0 to |calls|
        invariant thaw.owner == Gate && freeze.owner == Gate
        invariant AsBooks(payer) == AllBooks(w, rent, old(AsBooks(payer)), calls[..i])
        invariant Total(payer) == old(Total(payer))
        invariant (ListsMatch() && AtRent() && WellConfigured(policy.Value()))
               || (AsBooks(payer) == old(AsBooks(payer)) && Lists() == old(Lists()))
      {
        assert calls[..i + 1][..i] == calls[..i];
        var _ := UpdatePolicy(calls[i].0, calls[i].1, payer);
      }
      assert calls[..|calls|] == calls;
    }
  }

  // ----- The list as bytes

  predicate SeedPacks(s: Seed) {
    match s case Literal(bytes) => |bytes| < 256 case AccountKey(i) => i < 256
  }

  /** A tag, then a length and the bytes, or the account's index. */
  function PackSeed(s: Seed): (b: seq<Byte>)
    requires SeedPacks(s)
    ensures |b| == SeedSize(s)
  {
    match s case Literal(bytes) => [1, |bytes|] + bytes case AccountKey(i) => [3, i]
  }

  function PackSeeds(seeds: seq<Seed>): (b: seq<Byte>)
    requires forall i :: 0 <= i < |seeds| ==> SeedPacks(seeds[i])
    ensures |b| == SeedsSize(seeds)
  {
    if seeds == [] then [] else PackSeed(seeds[0]) + PackSeeds(seeds[1..])
  }

  predicate MetaPacks(m: Meta) {
    && (m.ExternalPda? ==> m.program < 128)
    && (!m.FixedKey? ==> SeedsSize(m.seeds) <= 32 && forall i :: 0 <= i < |m.seeds| ==> SeedPacks(m.seeds[i]))
  }

  /** Kind, 32 bytes of address config, and neither signer nor writable. */
  function PackMeta(m: Meta): (b: seq<Byte>)
    requires MetaPacks(m)
    ensures |b| == 35
  {
    match m
    case FixedKey(key) => [0] + key + [0, 0]
    case OwnPda(seeds) => [1] + Padded(PackSeeds(seeds)) + [0, 0]
    case ExternalPda(program, seeds) => [128 + program] + Padded(PackSeeds(seeds)) + [0, 0]
  }

  function Padded(b: seq<Byte>): (r: seq<Byte>)
    requires |b| <= 32
    ensures |r| == 32
  {
    b + LeBytes(0, 32 - |b|)
  }

  predicate AllPack(metas: seq<Meta>) {
    forall i :: 0 <= i < |metas| ==> MetaPacks(metas[i])
  }

  function PackMetas(metas: seq<Meta>): (b: seq<Byte>)
    requires AllPack(metas)
    ensures |b| == 35 * |metas|
  {
    if metas == [] then [] else PackMeta(metas[0]) + PackMetas(metas[1..])
  }

  /** One TLV entry: the instruction's discriminator, the value's length, and a counted list of metas. */
  function PackList(discriminator: seq<Byte>, metas: seq<Meta>): seq<Byte>
    requires |discriminator| == 8 && AllPack(metas)
  {
    var value := LeBytes(|metas|, 4) + PackMetas(metas);
    discriminator + LeBytes(|value|, 4) + value
  }

  /** Every policy's list can be packed, and fills exactly the size its account is given. */
  lemma ListFillsAccount(w: World, p: GatePolicy, discriminator: seq<Byte>)
    requires |discriminator| == 8
    ensures AllPack(MetasOf(w, p)) && |PackList(discriminator, MetasOf(w, p))| == SizeOf(|MetasOf(w, p)|)
  {
    var metas := MetasOf(w, p);
    forall i | 0 <= i < |metas| ensures MetaPacks(metas[i]) {
      SeedsFit(w, p, i);
      if !metas[i].FixedKey? {
        forall j | 0 <= j < |metas[i].seeds| ensures SeedPacks(metas[i].seeds[j]) {
          SeedWithin(metas[i].seeds, j);
        }
      }
    }
  }

  lemma {:induction false} SeedWithin(seeds: seq<Seed>, j: nat)
    requires j < |seeds|
    ensures SeedSize(seeds[j]) <= SeedsSize(seeds)
  {
    if j > 0 {
      SeedWithin(seeds[1..], j - 1);
    }
  }
}
