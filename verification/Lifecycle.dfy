/**
 * One token account over time: the policy, the registries, the credential, the clock and the owner all change around
 * it, and anyone may ask for a permissionless thaw or freeze at any moment.
 */
module Lifecycle {
  import opened Bytes
  import opened Policy
  import opened Registry
  import opened Metas
  import opened Decision
  import opened Gate
  import Attestations

  // ----- What the gate goes by

  datatype Reads = Reads(
    blacklist: Option<Option<Entry>>, allowlist: Option<Option<Entry>>, credential: Option<Attestations.Credential>)

  function ReadsOf(w: World, chain: Chain, p: GatePolicy, owner: Address, now: I64): Reads {
    Reads(BlacklistOnChain(w, chain, p, owner), AllowlistOnChain(w, chain, p, owner),
          CredentialOnChain(w, chain, p, owner, now))
  }

  predicate Bypasses(p: GatePolicy, offCurve: bool, r: Reads) {
    p.allowlistMode == BypassForPdas && r.allowlist == Some(Some(Active)) && offCurve
  }

  /** Every account the policy consults for this owner is well formed. */
  predicate WellFormed(p: GatePolicy, offCurve: bool, r: Reads) {
    && r.blacklist != Some(None)
    && r.allowlist != Some(None)
    && (p.requireSas && !Bypasses(p, offCurve, r) ==> r.credential.Some?)
  }

  function FactsOf(p: GatePolicy, offCurve: bool, immutableOwner: bool, r: Reads): Option<Facts> {
    if !WellFormed(p, offCurve, r) then None
    else Some(Facts(
      immutableOwner,
      if r.blacklist.Some? then r.blacklist.value else None,
      if r.allowlist.Some? then r.allowlist.value else None,
      p.allowlistMode,
      if !p.requireSas then NotRequired
      else if Bypasses(p, offCurve, r) then Bypassed
      else Checked(r.credential.value)))
  }

  /** Some policy objects to the owner; which one is named first does not matter. */
  predicate Objects(f: Facts) {
    || f.blacklist == Some(Active)
    || (f.allowlistMode == AllowOnly && f.allowlist != Some(Active))
    || (f.sas.Checked? && !f.sas.credential.Valid?)
  }

  /** A freeze is allowed exactly on well-formed accounts and an objection; a thaw exactly on well-formed accounts, no
      objection and ImmutableOwner. No facts allow both. */
  lemma AllowedExactly(p: GatePolicy, offCurve: bool, immutableOwner: bool, r: Reads)
    ensures var f := FactsOf(p, offCurve, immutableOwner, r);
      && (DecideRead(Freeze, p, offCurve, immutableOwner, r.blacklist, r.allowlist, r.credential).AllowWith?
          <==> f.Some? && Objects(f.value))
      && (DecideRead(Thaw, p, offCurve, immutableOwner, r.blacklist, r.allowlist, r.credential).AllowWith?
          <==> f.Some? && !Objects(f.value) && immutableOwner)
  {
  }

  predicate Allows(w: World, chain: Chain, op: Op, p: GatePolicy, owner: Address, immutableOwner: bool, now: I64) {
    DecideFor(w, chain, op, p, owner, immutableOwner, now).AllowWith?
  }

  function FactsOnChain(w: World, chain: Chain, p: GatePolicy, owner: Address, immutableOwner: bool, now: I64)
    : Option<Facts>
  {
    FactsOf(p, w.offCurve(owner), immutableOwner, ReadsOf(w, chain, p, owner, now))
  }

  lemma AllowedOnChain(w: World, chain: Chain, p: GatePolicy, owner: Address, immutableOwner: bool, now: I64)
    ensures var f := FactsOnChain(w, chain, p, owner, immutableOwner, now);
      && (Allows(w, chain, Freeze, p, owner, immutableOwner, now) <==> f.Some? && Objects(f.value))
      && (Allows(w, chain, Thaw, p, owner, immutableOwner, now) <==> f.Some? && !Objects(f.value) && immutableOwner)
  {
    AllowedExactly(p, w.offCurve(owner), immutableOwner, ReadsOf(w, chain, p, owner, now));
  }

  // ----- Time

  lemma ParseOverTime(data: seq<Byte>, credential: Address, schema: Address, owner: Address, level: Byte, t: I64,
                      u: I64)
    requires t <= u
    ensures var before, after := Attestations.Parse(data, credential, schema, owner, level, t),
                                 Attestations.Parse(data, credential, schema, owner, level, u);
      after == before || after == Some(Attestations.Expired)
  {
  }

  /**
   * On unchanged accounts, whatever their bytes, an owner who can be frozen stays freezable and a refused thaw stays
   * refused: a malformed credential can only turn into an expired one.
   */
  lemma TimeOnlyTightens(w: World, chain: Chain, p: GatePolicy, owner: Address, immutableOwner: bool, t: I64, u: I64)
    requires t <= u
    ensures Allows(w, chain, Freeze, p, owner, immutableOwner, t) ==>
      Allows(w, chain, Freeze, p, owner, immutableOwner, u)
    ensures Allows(w, chain, Thaw, p, owner, immutableOwner, u) ==> Allows(w, chain, Thaw, p, owner, immutableOwner, t)
  {
    AllowedOnChain(w, chain, p, owner, immutableOwner, t);
    AllowedOnChain(w, chain, p, owner, immutableOwner, u);
    var info := InfoAt(w, chain, AttestationPda(w, p.sasCredential, p.sasSchema, owner));
    ParseOverTime(info.data, p.sasCredential, p.sasSchema, owner, p.minKycLevel, t, u);
  }

  // ----- Policy changes

  predicate Consults(p: GatePolicy) {
    p.checkBlacklist || p.allowlistMode != Off
  }

  /** `q` checks at least what `p` checks, against the same issuer and the same credential. */
  predicate Tighter(p: GatePolicy, q: GatePolicy) {
    && p.mint == q.mint
    && (p.checkBlacklist ==> q.checkBlacklist)
    && (q.allowlistMode == p.allowlistMode || q.allowlistMode == AllowOnly)
    && (p.requireSas ==> q.requireSas && q.sasCredential == p.sasCredential && q.sasSchema == p.sasSchema)
    && p.minKycLevel <= q.minKycLevel
    && (Consults(p) ==> q.issuerProgram == p.issuerProgram)
  }

  /** The same attestation under a lower and a higher required level. */
  lemma ParseUnderLevels(data: seq<Byte>, credential: Address, schema: Address, owner: Address, low: Byte, high: Byte,
                         now: I64)
    requires low <= high
    ensures var p, q := Attestations.Parse(data, credential, schema, owner, low, now),
                        Attestations.Parse(data, credential, schema, owner, high, now);
      && (q == Some(Attestations.Valid) ==> p == Some(Attestations.Valid))
      && (q.Some? && p == Some(Attestations.LevelTooLow) ==> q == Some(Attestations.LevelTooLow))
      && (p == Some(Attestations.Expired) <==> q == Some(Attestations.Expired))
      && (q.Some? ==> p.Some?)
  {
  }

  /** What the reads of the two policies have in common. */
  predicate SameSources(p: GatePolicy, q: GatePolicy, r: Reads, r': Reads) {
    && (r.blacklist.Some? ==> r'.blacklist == r.blacklist)
    && (p.allowlistMode != Off ==> r'.allowlist == r.allowlist)
    && (p.allowlistMode == Off ==> r.allowlist == None)
    && (p.requireSas ==>
        && (r'.credential == Some(Attestations.Valid) ==> r.credential == Some(Attestations.Valid))
        && (r'.credential.Some? ==> r.credential.Some?))
  }

  lemma TighterReads(w: World, chain: Chain, p: GatePolicy, q: GatePolicy, owner: Address, now: I64)
    requires Tighter(p, q)
    ensures SameSources(p, q, ReadsOf(w, chain, p, owner, now), ReadsOf(w, chain, q, owner, now))
  {
    if p.requireSas {
      var info := InfoAt(w, chain, AttestationPda(w, q.sasCredential, q.sasSchema, owner));
      ParseUnderLevels(info.data, q.sasCredential, q.sasSchema, owner, p.minKycLevel, q.minKycLevel, now);
    }
  }

  lemma TighterRules(p: GatePolicy, q: GatePolicy, offCurve: bool, immutableOwner: bool, r: Reads, r': Reads)
    requires Tighter(p, q) && SameSources(p, q, r, r')
    ensures var f, g := FactsOf(p, offCurve, immutableOwner, r), FactsOf(q, offCurve, immutableOwner, r');
      && (g.Some? && !Objects(g.value) ==> f.Some? && !Objects(f.value))
      && (f.Some? && Objects(f.value) && g.Some? ==> Objects(g.value))
  {
  }

  /**
   * Tightening a policy never turns a refused thaw into an allowed one, and an owner who could be frozen still can,
   * exactly when the accounts the tighter policy consults are well formed.
   */
  lemma TighteningTightens(w: World, chain: Chain, p: GatePolicy, q: GatePolicy, owner: Address, immutableOwner: bool,
                           now: I64)
    requires Tighter(p, q)
    ensures Allows(w, chain, Thaw, q, owner, immutableOwner, now) ==>
      Allows(w, chain, Thaw, p, owner, immutableOwner, now)
    ensures Allows(w, chain, Freeze, p, owner, immutableOwner, now) ==>
      (Allows(w, chain, Freeze, q, owner, immutableOwner, now)
       <==> WellFormed(q, w.offCurve(owner), ReadsOf(w, chain, q, owner, now)))
  {
    AllowedOnChain(w, chain, p, owner, immutableOwner, now);
    AllowedOnChain(w, chain, q, owner, immutableOwner, now);
    TighterReads(w, chain, p, q, owner, now);
    TighterRules(p, q, w.offCurve(owner), immutableOwner, ReadsOf(w, chain, p, owner, now),
                 ReadsOf(w, chain, q, owner, now));
  }

  // ----- The issuer's allowlist entries

  /** `init_if_needed`: no account, or one the system program still owns, starts as a zeroed entry. */
  function LoadEntry(w: World, chain: Chain, at: Address, issuer: Address): Option<AllowlistEntry> {
    var info := InfoAt(w, chain, at);
    if info.owner == w.systemId then Some(AllowlistEntry(NO_KEY, NO_KEY, 0, false, 0))
    else if info.owner != issuer || !StartsWith(info.data, ALLOWLIST_DISC) then None
    else DecodeAllowlist(info.data)
  }

  /** The two handlers on an entry; None is a refusal. */
  function Added(e: AllowlistEntry, mint: Address, wallet: Address, now: I64, bump: Byte): Option<AllowlistEntry> {
    if e.active then None else Some(AllowlistEntry(mint, wallet, now, true, bump))
  }

  function Removed(e: AllowlistEntry): Option<AllowlistEntry> {
    if !e.active then None else Some(e.(active := false))
  }

  /** An issuer's entry account as its two handlers change it. */
  class AllowlistAccount {
    var mint: Address
    var wallet: Address
    var addedAt: I64
    var active: bool
    var bump: Byte

    constructor (e: AllowlistEntry)
      ensures Value() == e
    {
      mint, wallet, addedAt, active, bump := e.mint, e.wallet, e.addedAt, e.active, e.bump;
    }

    function Value(): AllowlistEntry
      reads this
    {
      AllowlistEntry(mint, wallet, addedAt, active, bump)
    }

    /** `add_to_allowlist`: a new entry, or an inactive one back in force. */
    method Add(mint: Address, wallet: Address, now: I64, bump: Byte) returns (ok: bool)
      modifies this
      ensures ok <==> Added(old(Value()), mint, wallet, now, bump).Some?
      ensures Value() == if ok then Added(old(Value()), mint, wallet, now, bump).value else old(Value())
      ensures active
    {
      if active {
        return false;
      }
      this.mint := mint;
      this.wallet := wallet;
      addedAt := now;
      active := true;
      this.bump := bump;
      return true;
    }

    /** `remove_from_allowlist`: the entry stays, with its history, but no longer counts. */
    method Remove() returns (ok: bool)
      modifies this
      ensures ok <==> Removed(old(Value())).Some?
      ensures Value() == if ok then Removed(old(Value())).value else old(Value())
      ensures !active
    {
      if !active {
        return false;
      }
      active := false;
      return true;
    }
  }

  // ----- The state machine

  /** `bump`, `version` and `reserved` of the policy account never change after its creation. */
  datatype State = State(
    chain: Chain, stored: StoredPolicy, now: I64, owner: Address, immutableOwner: bool, frozen: bool)

  datatype Step =
    | UpdatePolicy(signer: Address, args: PolicyArgs)
    | AddToAllowlist(wallet: Address, bump: Byte)
    | RemoveFromAllowlist(wallet: Address)
    | WriteAccount(at: Address, account: Option<Account>)
    | Advance(now: I64)
    | SetOwner(owner: Address)
    | CallThaw(base: seq<Address>)
    | CallFreeze(base: seq<Address>)

  /** The policy account holds the stored policy; only the gate writes it. */
  predicate Sound(w: World, s: State) {
    && |s.stored.reserved| == 64
    && Lookup(s.chain, PolicyPda(w, s.stored.policy.mint)) == Some(Account(w.gateId, Serialize(s.stored)))
    && WellConfigured(s.stored.policy)
  }

  function Put(w: World, s: State, at: Address, account: Option<Account>): State {
    if at == PolicyPda(w, s.stored.policy.mint) then s
    else s.(chain := if account.Some? then s.chain[at := account.value] else s.chain - {at})
  }

  function Verdict(w: World, s: State, op: Op, base: seq<Address>): Decision.Verdict {
    DecideOnChain(w, s.chain, op, s.stored.policy, base, s.stored.policy.mint, s.owner, s.immutableOwner, s.now)
  }

  /** A call that fails changes nothing. */
  function Next(w: World, issuer: Address, s: State, step: Step): (t: State)
    requires Sound(w, s)
    ensures Sound(w, t)
    ensures t.stored.policy.mint == s.stored.policy.mint && s.now <= t.now
    ensures t.immutableOwner == s.immutableOwner && (s.immutableOwner ==> t.owner == s.owner)
  {
    var mint := s.stored.policy.mint;
    match step
    case UpdatePolicy(signer, args) =>
      if signer != s.stored.policy.authority || !WellConfigured(With(mint, args)) then s
      else
        var stored := s.stored.(policy := With(mint, args));
        s.(stored := stored, chain := s.chain[PolicyPda(w, mint) := Account(w.gateId, Serialize(stored))])
    case AddToAllowlist(wallet, bump) =>
      var at := AllowlistPda(w, issuer, mint, wallet);
      var entry := LoadEntry(w, s.chain, at, issuer);
      var added := if entry.Some? then Added(entry.value, mint, wallet, s.now, bump) else None;
      if added.None? then s else Put(w, s, at, Some(Account(issuer, SerializeAllowlist(added.value))))
    case RemoveFromAllowlist(wallet) =>
      var at := AllowlistPda(w, issuer, mint, wallet);
      var entry := LoadEntry(w, s.chain, at, issuer);
      var removed := if entry.Some? then Removed(entry.value) else None;
      if removed.None? then s else Put(w, s, at, Some(Account(issuer, SerializeAllowlist(removed.value))))
    case WriteAccount(at, account) => Put(w, s, at, account)
    case Advance(now) => if now < s.now then s else s.(now := now)
    case SetOwner(owner) => if s.immutableOwner then s else s.(owner := owner)
    case CallThaw(base) =>
      if s.frozen && BaseKeys(base, mint, s.owner) && Verdict(w, s, Thaw, base).AllowWith?
      then s.(frozen := false) else s
    case CallFreeze(base) =>
      if !s.frozen && BaseKeys(base, mint, s.owner) && Verdict(w, s, Freeze, base).AllowWith?
      then s.(frozen := true) else s
  }

  function CurrentFacts(w: World, s: State): Option<Facts> {
    FactsOnChain(w, s.chain, s.stored.policy, s.owner, s.immutableOwner, s.now)
  }

  /** The facts refuse the operation that would undo the account's present state. */
  predicate Settled(w: World, s: State) {
    var f := CurrentFacts(w, s);
    f.Some? && (if s.frozen then Objects(f.value) else !Objects(f.value))
  }

  lemma VerdictOnFacts(w: World, s: State, op: Op, base: seq<Address>)
    requires Sound(w, s) && BaseKeys(base, s.stored.policy.mint, s.owner)
    ensures Verdict(w, s, op, base) == DecideFor(w, s.chain, op, s.stored.policy, s.owner, s.immutableOwner, s.now)
  {
    PolicyRoundTrip(s.stored);
    assert Stored(w, s.chain, s.stored.policy);
    ResolvedDecision(w, s.chain, op, s.stored.policy, base, s.owner, s.immutableOwner, s.now);
  }

  /**
   * Every permissionless thaw is of an account that has ImmutableOwner and whose owner no policy objects to; every
   * permissionless freeze is of one whose owner some policy objects to; and nothing else changes the frozen flag.
   */
  lemma ChangesAreJustified(w: World, issuer: Address, s: State, step: Step)
    requires Sound(w, s)
    ensures var t := Next(w, issuer, s, step);
      t.frozen != s.frozen ==>
        && t == s.(frozen := !s.frozen)
        && (if s.frozen then step.CallThaw? && s.immutableOwner else step.CallFreeze?)
        && CurrentFacts(w, t) == CurrentFacts(w, s)
        && Settled(w, t) && !Settled(w, s)
  {
    AllowedOnChain(w, s.chain, s.stored.policy, s.owner, s.immutableOwner, s.now);
    if (step.CallThaw? || step.CallFreeze?) && BaseKeys(step.base, s.stored.policy.mint, s.owner) {
      VerdictOnFacts(w, s, if step.CallThaw? then Thaw else Freeze, step.base);
    }
  }

  /**
   * And they do happen: a permissionless call through the right accounts succeeds exactly when its account is in the
   * other state and the facts are for it, whatever else the caller passes.
   */
  lemma CallsExactly(w: World, issuer: Address, s: State, base: seq<Address>)
    requires Sound(w, s) && BaseKeys(base, s.stored.policy.mint, s.owner)
    ensures var f := CurrentFacts(w, s);
      && (Next(w, issuer, s, CallThaw(base))
          == if s.frozen && s.immutableOwner && f.Some? && !Objects(f.value) then s.(frozen := false) else s)
      && (Next(w, issuer, s, CallFreeze(base))
          == if !s.frozen && f.Some? && Objects(f.value) then s.(frozen := true) else s)
  {
    AllowedOnChain(w, s.chain, s.stored.policy, s.owner, s.immutableOwner, s.now);
    VerdictOnFacts(w, s, Thaw, base);
    VerdictOnFacts(w, s, Freeze, base);
  }

  /** A policy update by the authority that is well configured is what the gate reads from then on; any other is not. */
  lemma UpdatesAreRead(w: World, issuer: Address, s: State, signer: Address, args: PolicyArgs)
    requires Sound(w, s)
    ensures var t, p := Next(w, issuer, s, UpdatePolicy(signer, args)), s.stored.policy;
      var accepted := signer == p.authority && WellConfigured(With(p.mint, args));
      && Stored(w, t.chain, if accepted then With(p.mint, args) else p)
      && (!accepted ==> t == s)
      && t.frozen == s.frozen && t.owner == s.owner && t.now == s.now
  {
    PolicyRoundTrip(s.stored);
    PolicyRoundTrip(Next(w, issuer, s, UpdatePolicy(signer, args)).stored);
  }

  /** The other steps do what they say: the clock only advances, and an owner changes only without ImmutableOwner. */
  lemma OtherSteps(w: World, issuer: Address, s: State, now: I64, owner: Address, at: Address, account: Option<Account>)
    requires Sound(w, s)
    ensures Next(w, issuer, s, Advance(now)) == s.(now := if now >= s.now then now else s.now)
    ensures Next(w, issuer, s, SetOwner(owner)) == s.(owner := if s.immutableOwner then s.owner else owner)
    ensures at != PolicyPda(w, s.stored.policy.mint) ==>
      var t := Next(w, issuer, s, WriteAccount(at, account));
      Lookup(t.chain, at) == account && forall a :: a != at ==> Lookup(t.chain, a) == Lookup(s.chain, a)
  {
  }

  // ----- Runs

  function After(w: World, issuer: Address, s: State, steps: seq<Step>): (t: State)
    requires Sound(w, s)
    ensures Sound(w, t)
    decreases |steps|
  {
    if steps == [] then s else Next(w, issuer, After(w, issuer, s, steps[..|steps| - 1]), steps[|steps| - 1])
  }

  /** How often the frozen flag changes along a run. */
  function Flips(w: World, issuer: Address, s: State, steps: seq<Step>): nat
    requires Sound(w, s)
    decreases |steps|
  {
    if steps == [] then 0
    else
      var before := steps[..|steps| - 1];
      Flips(w, issuer, s, before)
      + if After(w, issuer, s, steps).frozen != After(w, issuer, s, before).frozen then 1 else 0
  }

  /** How often what the gate reads about the owner changes along a run. */
  function FactChanges(w: World, issuer: Address, s: State, steps: seq<Step>): nat
    requires Sound(w, s)
    decreases |steps|
  {
    if steps == [] then 0
    else
      var before := steps[..|steps| - 1];
      FactChanges(w, issuer, s, before)
      + if CurrentFacts(w, After(w, issuer, s, steps)) != CurrentFacts(w, After(w, issuer, s, before)) then 1 else 0
  }

  /**
   * No ping-pong: along every run from every state, the account flips at most once more often than the facts about its
   * owner change, so at most once between two changes, and not at all from a settled state.
   */
  lemma {:induction false} NoPingPong(w: World, issuer: Address, s: State, steps: seq<Step>)
    requires Sound(w, s)
    ensures var flips, changes := Flips(w, issuer, s, steps), FactChanges(w, issuer, s, steps);
      && flips <= changes + 1
      && (flips == changes + 1 ==> Settled(w, After(w, issuer, s, steps)))
      && (Settled(w, s) ==> flips <= changes && (flips == changes ==> Settled(w, After(w, issuer, s, steps))))
    decreases |steps|
  {
    if steps != [] {
      var before := steps[..|steps| - 1];
      NoPingPong(w, issuer, s, before);
      ChangesAreJustified(w, issuer, After(w, issuer, s, before), steps[|steps| - 1]);
      FrozenKept(w, issuer, After(w, issuer, s, before), steps[|steps| - 1]);
    }
  }

  lemma FrozenKept(w: World, issuer: Address, s: State, step: Step)
    requires Sound(w, s)
    ensures var t := Next(w, issuer, s, step);
      t.frozen == s.frozen && CurrentFacts(w, t) == CurrentFacts(w, s) ==> Settled(w, t) == Settled(w, s)
  {
  }

  predicate OnlyTime(step: Step) {
    step.Advance? || step.CallThaw? || step.CallFreeze?
  }

  /** The gate allows anyone to freeze the account. */
  predicate Freezable(w: World, s: State) {
    Allows(w, s.chain, Freeze, s.stored.policy, s.owner, s.immutableOwner, s.now)
  }

  /** One step while only time passes. */
  lemma TimeStep(w: World, issuer: Address, s: State, step: Step)
    requires Sound(w, s) && OnlyTime(step)
    ensures var t := Next(w, issuer, s, step);
      && t == s.(now := t.now, frozen := t.frozen)
      && (Freezable(w, s) ==> Freezable(w, t))
      && (t.frozen != s.frozen ==> Freezable(w, t) == t.frozen && Freezable(w, s) == t.frozen)
  {
    var t := Next(w, issuer, s, step);
    ChangesAreJustified(w, issuer, s, step);
    FreezableExactly(w, s);
    FreezableExactly(w, t);
    TimeOnlyTightens(w, s.chain, s.stored.policy, s.owner, s.immutableOwner, s.now, t.now);
  }

  /**
   * While only time passes an account is thawed at most once, then frozen at most once and for good: a credential
   * expires once. From a freezable state a frozen account never moves.
   */
  lemma {:induction false} TimeFreezesOnce(w: World, issuer: Address, s: State, steps: seq<Step>)
    requires Sound(w, s) && forall i :: 0 <= i < |steps| ==> OnlyTime(steps[i])
    ensures var t, flips := After(w, issuer, s, steps), Flips(w, issuer, s, steps);
      && (Freezable(w, s) ==> Freezable(w, t))
      && (if t.frozen == s.frozen then flips == 0 || (s.frozen && flips == 2 && Freezable(w, t)) else flips == 1)
      && (s.frozen && flips > 0 ==> !Freezable(w, s))
      && (t.frozen && flips > 0 ==> Freezable(w, t))
    decreases |steps|
  {
    if steps != [] {
      var before, step := steps[..|steps| - 1], steps[|steps| - 1];
      TimeFreezesOnce(w, issuer, s, before);
      TimeStep(w, issuer, After(w, issuer, s, before), step);
    }
  }

  lemma FreezableExactly(w: World, s: State)
    ensures Freezable(w, s) <==> CurrentFacts(w, s).Some? && Objects(CurrentFacts(w, s).value)
  {
    AllowedOnChain(w, s.chain, s.stored.policy, s.owner, s.immutableOwner, s.now);
  }

  lemma {:induction false} OwnerStays(w: World, issuer: Address, s: State, steps: seq<Step>)
    requires Sound(w, s) && s.immutableOwner
    ensures After(w, issuer, s, steps).owner == s.owner && After(w, issuer, s, steps).immutableOwner
    decreases |steps|
  {
    if steps != [] {
      OwnerStays(w, issuer, s, steps[..|steps| - 1]);
    }
  }

  /** An account the gate thawed never changes hands: whoever was admitted is its owner for good. */
  lemma AdmittedOwnerStays(w: World, issuer: Address, s: State, thaw: Step, steps: seq<Step>)
    requires Sound(w, s) && s.frozen && !Next(w, issuer, s, thaw).frozen
    ensures After(w, issuer, Next(w, issuer, s, thaw), steps).owner == s.owner
  {
    ChangesAreJustified(w, issuer, s, thaw);
    OwnerStays(w, issuer, Next(w, issuer, s, thaw), steps);
  }

  // ----- Allowlist steps as the gate sees them

  /** What the issuer's own handlers load for the wallet. */
  function EntryAt(w: World, issuer: Address, s: State, wallet: Address): Option<AllowlistEntry> {
    LoadEntry(w, s.chain, AllowlistPda(w, issuer, s.stored.policy.mint, wallet), issuer)
  }

  /** What the gate reads for the wallet. */
  function SeenAs(w: World, issuer: Address, s: State, wallet: Address): Option<Entry> {
    GateReadAllowlist(InfoAt(w, s.chain, AllowlistPda(w, issuer, s.stored.policy.mint, wallet)), issuer,
                      s.stored.policy.mint, wallet)
  }

  lemma EntryWritten(w: World, issuer: Address, s: State, wallet: Address, e: AllowlistEntry)
    requires issuer != w.systemId && e.mint == s.stored.policy.mint && e.wallet == wallet
    requires AllowlistPda(w, issuer, s.stored.policy.mint, wallet) != PolicyPda(w, s.stored.policy.mint)
    ensures var at := AllowlistPda(w, issuer, s.stored.policy.mint, wallet);
      var t := Put(w, s, at, Some(Account(issuer, SerializeAllowlist(e))));
      && SeenAs(w, issuer, t, wallet) == Some(if e.active then Active else Inactive)
      && LoadEntry(w, t.chain, at, issuer) == Some(e)
  {
    AllowlistRoundTrip(e, issuer, []);
    assert SerializeAllowlist(e) + [] == SerializeAllowlist(e);
    assert SerializeAllowlist(e)[..8] == ALLOWLIST_DISC;
  }

  predicate EntryApart(w: World, issuer: Address, mint: Address, wallet: Address) {
    issuer != w.systemId && AllowlistPda(w, issuer, mint, wallet) != PolicyPda(w, mint)
  }

  /** An addition that succeeds is read by the gate as an active entry; a second one changes nothing. */
  lemma AddIsSeen(w: World, issuer: Address, s: State, wallet: Address, bump: Byte)
    requires Sound(w, s) && EntryApart(w, issuer, s.stored.policy.mint, wallet)
    requires var e := EntryAt(w, issuer, s, wallet); e.Some? && !e.value.active
    ensures var t := Next(w, issuer, s, AddToAllowlist(wallet, bump));
      && SeenAs(w, issuer, t, wallet) == Some(Active)
      && EntryAt(w, issuer, t, wallet) == Some(AllowlistEntry(s.stored.policy.mint, wallet, s.now, true, bump))
      && t.now == s.now && t.stored == s.stored
      && forall again :: Next(w, issuer, t, AddToAllowlist(wallet, again)) == t
  {
    EntryWritten(w, issuer, s, wallet, AllowlistEntry(s.stored.policy.mint, wallet, s.now, true, bump));
  }

  /** The first addition of a wallet creates its entry; an account of another program there refuses it. */
  lemma FirstAddition(w: World, issuer: Address, s: State, wallet: Address, bump: Byte)
    requires Sound(w, s) && EntryApart(w, issuer, s.stored.policy.mint, wallet)
    ensures var at, t := AllowlistPda(w, issuer, s.stored.policy.mint, wallet),
                         Next(w, issuer, s, AddToAllowlist(wallet, bump));
      && (Lookup(s.chain, at).None? ==> SeenAs(w, issuer, t, wallet) == Some(Active))
      && (Lookup(s.chain, at).Some? && s.chain[at].owner != issuer && s.chain[at].owner != w.systemId ==> t == s)
  {
    if Lookup(s.chain, AllowlistPda(w, issuer, s.stored.policy.mint, wallet)).None? {
      AddIsSeen(w, issuer, s, wallet, bump);
    }
  }

  /** A removal that succeeds is read by the gate as an inactive entry; a second one changes nothing. */
  lemma RemoveIsSeen(w: World, issuer: Address, s: State, wallet: Address)
    requires Sound(w, s) && EntryApart(w, issuer, s.stored.policy.mint, wallet)
    requires var e := EntryAt(w, issuer, s, wallet);
      e.Some? && e.value.active && e.value.mint == s.stored.policy.mint && e.value.wallet == wallet
    ensures var t := Next(w, issuer, s, RemoveFromAllowlist(wallet));
      && SeenAs(w, issuer, t, wallet) == Some(Inactive)
      && EntryAt(w, issuer, t, wallet) == Some(EntryAt(w, issuer, s, wallet).value.(active := false))
      && t.now == s.now && t.stored == s.stored
      && Next(w, issuer, t, RemoveFromAllowlist(wallet)) == t
  {
    EntryWritten(w, issuer, s, wallet, EntryAt(w, issuer, s, wallet).value.(active := false));
  }

  /** Adding, removing and adding again ends where the first addition did, except for what changed elsewhere. */
  lemma ReaddingRestores(w: World, issuer: Address, s: State, wallet: Address, bump: Byte)
    requires Sound(w, s) && EntryApart(w, issuer, s.stored.policy.mint, wallet)
    requires var e := EntryAt(w, issuer, s, wallet); e.Some? && !e.value.active
    ensures var added := Next(w, issuer, s, AddToAllowlist(wallet, bump));
      var removed := Next(w, issuer, added, RemoveFromAllowlist(wallet));
      && SeenAs(w, issuer, removed, wallet) == Some(Inactive)
      && SeenAs(w, issuer, Next(w, issuer, removed, AddToAllowlist(wallet, bump)), wallet) == Some(Active)
      && EntryAt(w, issuer, Next(w, issuer, removed, AddToAllowlist(wallet, bump)), wallet)
           == EntryAt(w, issuer, added, wallet)
  {
    AddIsSeen(w, issuer, s, wallet, bump);
    var added := Next(w, issuer, s, AddToAllowlist(wallet, bump));
    RemoveIsSeen(w, issuer, added, wallet);
    AddIsSeen(w, issuer, Next(w, issuer, added, RemoveFromAllowlist(wallet)), wallet, bump);
  }
}
