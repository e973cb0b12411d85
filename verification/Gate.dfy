/**
 * The gate instruction: what `decide` returns for the accounts it is handed, and what it returns when Token ACL hands
 * it the accounts its own extra-metas list resolves to.
 */
module Gate {
  import opened Bytes
  import opened Policy
  import opened Registry
  import opened Metas
  import opened Decision
  import Attestations

  /** `accounts` is the whole gate instruction, base accounts first; an absent account is an empty one. */
  function Decide(w: World, op: Op, accounts: seq<Account>, mint: Address, owner: Address, immutableOwner: bool,
                  now: I64)
    : Verdict
  {
    if |accounts| <= POLICY_INDEX then DenyWith(MissingAccounts)
    else
      var loaded := GateLoad(w, accounts[POLICY_INDEX], mint);
      if loaded.None? then DenyWith(BadPolicy)
      else if |accounts| < LayoutFor(loaded.value).len then DenyWith(MissingAccounts)
      else DecideLoaded(w, op, accounts, loaded.value, mint, owner, immutableOwner, now)
  }

  function DecideLoaded(w: World, op: Op, accounts: seq<Account>, p: GatePolicy, mint: Address, owner: Address,
                        immutableOwner: bool, now: I64): Verdict
    requires |accounts| >= LayoutFor(p).len
  {
    var l := LayoutFor(p);
    DecideRead(op, p, w.offCurve(owner), immutableOwner,
               if l.blacklist.Some?
               then Some(GateReadBlacklist(accounts[l.blacklist.value], p.issuerProgram, mint, owner)) else None,
               if l.allowlist.Some?
               then Some(GateReadAllowlist(accounts[l.allowlist.value], p.issuerProgram, mint, owner)) else None,
               if l.Attestation().Some?
               then ReadCredential(w, accounts[l.Attestation().value], p, owner, now) else None)
  }

  function ReadCredential(w: World, info: Account, p: GatePolicy, owner: Address, now: I64)
    : Option<Attestations.Credential>
  {
    Attestations.GateRead(info, w.sasId, p.sasCredential, p.sasSchema, owner, p.minKycLevel, now)
  }

  /**
   * The handler on its reads. A registry read is `None` when the policy does not consult it and `Some(None)` when the
   * entry is malformed; the credential is consulted only where the policy requires one and the owner has no bypass.
   */
  function DecideRead(op: Op, p: GatePolicy, ownerOffCurve: bool, immutableOwner: bool,
                      blacklist: Option<Option<Entry>>,
                      allowlist: Option<Option<Entry>>, credential: Option<Attestations.Credential>): Verdict
  {
    if blacklist == Some(None) || allowlist == Some(None) then DenyWith(BadRegistryEntry)
    else
      var black := if blacklist.Some? then blacklist.value else None;
      var allow := if allowlist.Some? then allowlist.value else None;
      var immutable := op.Freeze? || immutableOwner;
      if !p.requireSas then Evaluate(op, Facts(immutable, black, allow, p.allowlistMode, NotRequired))
      else if p.allowlistMode == BypassForPdas && allow == Some(Active) && ownerOffCurve
      then Evaluate(op, Facts(immutable, black, allow, p.allowlistMode, Bypassed))
      else if credential.None? then DenyWith(BadCredential)
      else Evaluate(op, Facts(immutable, black, allow, p.allowlistMode, Checked(credential.value)))
  }

  // ----- On chain

  type Chain = map<Address, Account>

  function Lookup(chain: Chain, a: Address): Option<Account> {
    if a in chain then Some(chain[a]) else None
  }

  function InfoAt(w: World, chain: Chain, a: Address): Account {
    AsInfo(Lookup(chain, a), w.systemId)
  }

  /**
   * A permissionless operation: Token ACL resolves the list the gate stored for `p` over the base accounts and calls
   * the gate with the accounts at those addresses.
   */
  function DecideOnChain(w: World, chain: Chain, op: Op, p: GatePolicy, base: seq<Address>, mint: Address,
                         owner: Address, immutableOwner: bool, now: I64): Verdict
  {
    var keys := Resolve(w, MetasOf(w, p), base);
    if keys.None? then DenyWith(MissingAccounts)
    else
      Decide(w, op, seq(|keys.value|, i requires 0 <= i < |keys.value| => InfoAt(w, chain, keys.value[i])),
             mint, owner, immutableOwner, now)
  }

  /** The policy account of `p.mint` holds `p`. */
  predicate Stored(w: World, chain: Chain, p: GatePolicy) {
    GateLoad(w, InfoAt(w, chain, PolicyPda(w, p.mint)), p.mint) == Some(p)
  }

  // What the policy reads for one owner, at the named addresses.

  function BlacklistOnChain(w: World, chain: Chain, p: GatePolicy, owner: Address): Option<Option<Entry>> {
    if !p.checkBlacklist then None
    else Some(GateReadBlacklist(InfoAt(w, chain, BlacklistPda(w, p.issuerProgram, p.mint, owner)), p.issuerProgram,
                                p.mint, owner))
  }

  function AllowlistOnChain(w: World, chain: Chain, p: GatePolicy, owner: Address): Option<Option<Entry>> {
    if p.allowlistMode == Off then None
    else Some(GateReadAllowlist(InfoAt(w, chain, AllowlistPda(w, p.issuerProgram, p.mint, owner)), p.issuerProgram,
                                p.mint, owner))
  }

  function CredentialOnChain(w: World, chain: Chain, p: GatePolicy, owner: Address, now: I64)
    : Option<Attestations.Credential>
  {
    if !p.requireSas then None
    else ReadCredential(w, InfoAt(w, chain, AttestationPda(w, p.sasCredential, p.sasSchema, owner)), p, owner, now)
  }

  /** The verdict on the accounts at the named addresses, with no list and no indices. */
  function DecideFor(w: World, chain: Chain, op: Op, p: GatePolicy, owner: Address, immutableOwner: bool, now: I64)
    : Verdict
  {
    DecideRead(op, p, w.offCurve(owner), immutableOwner, BlacklistOnChain(w, chain, p, owner),
               AllowlistOnChain(w, chain, p, owner), CredentialOnChain(w, chain, p, owner, now))
  }

  /**
   * With the list of the stored policy, the gate decides from this mint's policy and this owner's canonical registry
   * and attestation accounts, whatever the other base accounts are.
   */
  lemma ResolvedDecision(w: World, chain: Chain, op: Op, p: GatePolicy, base: seq<Address>, owner: Address,
                         immutableOwner: bool, now: I64)
    requires BaseKeys(base, p.mint, owner) && Stored(w, chain, p)
    ensures DecideOnChain(w, chain, op, p, base, p.mint, owner, immutableOwner, now)
         == DecideFor(w, chain, op, p, owner, immutableOwner, now)
  {
    ResolutionMatchesLayout(w, p, owner, base);
    var keys := Resolve(w, MetasOf(w, p), base).value;
    var accounts := seq(|keys|, i requires 0 <= i < |keys| => InfoAt(w, chain, keys[i]));
    assert accounts[POLICY_INDEX] == InfoAt(w, chain, PolicyPda(w, p.mint));
  }

  /** Fail closed: an allowed operation was given this mint's policy and every account that policy needs. */
  lemma MissingExtrasDeny(w: World, op: Op, accounts: seq<Account>, mint: Address, owner: Address, immutableOwner: bool,
                          now: I64)
    requires Decide(w, op, accounts, mint, owner, immutableOwner, now).AllowWith?
    ensures |accounts| > POLICY_INDEX && GateLoad(w, accounts[POLICY_INDEX], mint).Some?
    ensures |accounts| >= LayoutFor(GateLoad(w, accounts[POLICY_INDEX], mint).value).len
  {
  }

  // ----- Which denial

  /** Missing accounts before the policy is read or after it, or an unreadable policy; otherwise the policy decides. */
  lemma DenialsBeforePolicy(w: World, op: Op, accounts: seq<Account>, mint: Address, owner: Address,
                            immutableOwner: bool, now: I64)
    ensures var v := Decide(w, op, accounts, mint, owner, immutableOwner, now);
      && (v == DenyWith(BadPolicy) <==> |accounts| > 6 && GateLoad(w, accounts[6], mint).None?)
      && (v == DenyWith(MissingAccounts)
          <==> |accounts| <= 6
               || (GateLoad(w, accounts[6],
                            mint).Some? && |accounts| < LayoutFor(GateLoad(w, accounts[6], mint).value).len))
  {
  }

  /** Of the policies the gate writes, it loads its own program's account of this very mint. */
  lemma LoadsOwnPolicy(w: World, s: StoredPolicy, program: Address, mint: Address)
    requires |s.reserved| == 64
    ensures GateLoad(w, Account(program, Serialize(s)), mint)
         == if program == w.gateId && mint == s.policy.mint then Some(s.policy) else None
  {
    PolicyRoundTrip(s);
  }

  /**
   * ImmutableOwner decides a thaw of well-formed accounts before any policy flag does, and plays no part in a freeze or
   * in what malformed accounts are denied with.
   */
  lemma WithoutImmutableOwner(p: GatePolicy, offCurve: bool, blacklist: Option<Option<Entry>>,
                              allowlist: Option<Option<Entry>>, credential: Option<Attestations.Credential>)
    ensures var without := DecideRead(Thaw, p, offCurve, false, blacklist, allowlist, credential);
      var with := DecideRead(Thaw, p, offCurve, true, blacklist, allowlist, credential);
      var freeze := DecideRead(Freeze, p, offCurve, true, blacklist, allowlist, credential);
      && DecideRead(Freeze, p, offCurve, false, blacklist, allowlist, credential) == freeze
      && (if freeze == DenyWith(BadRegistryEntry) || freeze == DenyWith(BadCredential) then without == with == freeze
          else without == DenyWith(NoImmutableOwner))
  {
  }

  /** Which malformed account a denial names: a registry entry first, then a credential that was needed. */
  lemma MalformedDenials(op: Op, p: GatePolicy, offCurve: bool, immutableOwner: bool, blacklist: Option<Option<Entry>>,
                         allowlist: Option<Option<Entry>>, credential: Option<Attestations.Credential>)
    ensures var v := DecideRead(op, p, offCurve, immutableOwner, blacklist, allowlist, credential);
      && (v == DenyWith(BadRegistryEntry) <==> blacklist == Some(None) || allowlist == Some(None))
      && (v == DenyWith(BadCredential)
          <==> blacklist != Some(None) && allowlist != Some(None) && p.requireSas && credential.None?
               && !(p.allowlistMode == BypassForPdas && offCurve && allowlist == Some(Some(Active))))
  {
  }
}
