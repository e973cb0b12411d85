/** The keeper's mirror of the freeze rule, and the proof that it is one. */
module KeeperPolicy {
  import opened Bytes
  import opened Policy
  import opened Registry
  import opened Metas
  import opened Decision
  import opened Gate
  import A = Attestations

  /** What the gate would read for one owner; None = not read yet. */
  datatype OwnerReads = OwnerReads(
    blacklist: Option<EntryRead>,
    allowlist: Option<EntryRead>,
    attestation: Option<A.AttestationRead>,
    ownerOffCurve: bool)

  function BlacklistFor(p: GatePolicy, r: OwnerReads): Option<EntryRead> {
    if p.checkBlacklist then r.blacklist else Some(ReadNone)
  }

  function AllowlistFor(p: GatePolicy, r: OwnerReads): Option<EntryRead> {
    if p.allowlistMode != Off then r.allowlist else Some(ReadNone)
  }

  predicate Bypasses(p: GatePolicy, r: OwnerReads) {
    p.allowlistMode == BypassForPdas && r.allowlist == Some(ReadActive) && r.ownerOffCurve
  }

  /** The flag the gate would freeze this owner for now; None if it would deny, or if a read is missing. */
  function FreezeReason(p: GatePolicy, r: OwnerReads, now: I64): Option<Flag> {
    var blacklist := BlacklistFor(p, r);
    var allowlist := AllowlistFor(p, r);
    if blacklist.None? || allowlist.None? then None
    else if blacklist.value.ReadBad? || allowlist.value.ReadBad? then None
    else
      var checked := p.requireSas && !Bypasses(p, r);
      if checked && r.attestation.None? then None
      else
        var credential := if checked then A.CredentialState(r.attestation.value, p.minKycLevel, now) else Some(A.Valid);
        if credential.None? then None
        else if blacklist.value.ReadActive? then Some(Blacklisted)
        else if p.allowlistMode == AllowOnly && !allowlist.value.ReadActive? then Some(NotAllowlisted)
        else match credential.value
          case Missing => Some(NoCredential)
          case Expired => Some(CredentialExpired)
          case LevelTooLow => Some(KycLevelTooLow)
          case Valid => None
  }

  datatype OwnerVerdict = Unknown | Freezable(flag: Flag) | CompliantBy(allow: Allow)

  /** `now` is None until a sweep has read the cluster clock. */
  function VerdictOf(p: GatePolicy, r: OwnerReads, now: Option<I64>): OwnerVerdict {
    if now.None? then Unknown
    else
      var reason := FreezeReason(p, r, now.value);
      var blacklist := BlacklistFor(p, r);
      var allowlist := AllowlistFor(p, r);
      if reason.Some? then Freezable(reason.value)
      else if blacklist.None? || allowlist.None? || blacklist.value.ReadBad? || allowlist.value.ReadBad? then Unknown
      else if p.requireSas then
        if Bypasses(p, r) then CompliantBy(PdaAllowlisted)
        else if r.attestation.None? || A.CredentialState(r.attestation.value, p.minKycLevel, now.value) != Some(A.Valid)
        then Unknown
        else CompliantBy(Kyc)
      else CompliantBy(if allowlist.value.ReadActive? then Allowlisted else Clean)
  }

  /**
   * Without a clock, or with a read the policy consults missing or malformed, the owner is not judged: the verdict is
   * `unknown`, and no flag is named. In every other case it is judged.
   */
  lemma JudgedExactly(p: GatePolicy, r: OwnerReads, now: Option<I64>)
    ensures VerdictOf(p, r, now).Unknown? <==> !CanJudge(p, r, now)
    ensures now.Some? && FreezeReason(p, r, now.value).Some? ==> CanJudge(p, r, now)
  {
  }

  predicate CanJudge(p: GatePolicy, r: OwnerReads, now: Option<I64>) {
    && now.Some?
    && (p.checkBlacklist ==> r.blacklist.Some? && !r.blacklist.value.ReadBad?)
    && (p.allowlistMode != Off ==> r.allowlist.Some? && !r.allowlist.value.ReadBad?)
    && (p.requireSas ==>
          || (p.allowlistMode == BypassForPdas && r.ownerOffCurve && r.allowlist == Some(ReadActive))
          || (r.attestation.Some? && A.CredentialState(r.attestation.value, p.minKycLevel, now.value).Some?))
  }

  // ----- Fresh reads of one owner from a chain snapshot

  /** The reads `check` stores: one per PDA the policy gives the owner. */
  function ReadsFrom(w: World, chain: Chain, p: GatePolicy, owner: Address): OwnerReads {
    OwnerReads(
      if p.checkBlacklist
      then Some(KeeperReadBlacklist(Lookup(chain, BlacklistPda(w, p.issuerProgram, p.mint, owner)), p.issuerProgram,
                                    p.mint, owner))
      else None,
      if p.allowlistMode != Off
      then Some(KeeperReadAllowlist(Lookup(chain, AllowlistPda(w, p.issuerProgram, p.mint, owner)), p.issuerProgram,
                                    p.mint, owner))
      else None,
      if p.requireSas
      then Some(A.KeeperRead(Lookup(chain, AttestationPda(w, p.sasCredential, p.sasSchema, owner)), w.sasId,
                             p.sasCredential, p.sasSchema, owner))
      else None,
      w.offCurve(owner))
  }

  /** The owner's blacklist entry, if consulted and well formed otherwise, has a reason that is text. */
  predicate TextReason(w: World, chain: Chain, p: GatePolicy, owner: Address) {
    var account := Lookup(chain, BlacklistPda(w, p.issuerProgram, p.mint, owner));
    p.checkBlacklist && account.Some? && !KeeperReadBlacklist(account, p.issuerProgram, p.mint, owner).ReadBad? ==>
      ReasonIsText(account.value.data)
  }

  // The owner's accounts other than the blacklist entry.

  predicate NeedsCredential(p: GatePolicy, offCurve: bool, allowlist: Option<Option<Entry>>) {
    p.requireSas && !(p.allowlistMode == BypassForPdas && offCurve && allowlist == Some(Some(Active)))
  }

  predicate ReadsWellFormed(p: GatePolicy, offCurve: bool, allowlist: Option<Option<Entry>>,
                            credential: Option<A.Credential>)
  {
    allowlist != Some(None) && (NeedsCredential(p, offCurve, allowlist) ==> credential.Some?)
  }

  predicate ReadsObject(p: GatePolicy, offCurve: bool, allowlist: Option<Option<Entry>>,
                        credential: Option<A.Credential>) {
    || (p.allowlistMode == AllowOnly && allowlist != Some(Some(Active)))
    || (NeedsCredential(p, offCurve, allowlist) && credential != Some(A.Valid))
  }

  /** A consulted allowlist entry is well formed on chain, and a needed credential readable. */
  predicate OthersWellFormed(w: World, chain: Chain, p: GatePolicy, owner: Address, now: I64) {
    ReadsWellFormed(p, w.offCurve(owner), AllowlistOnChain(w, chain, p, owner),
                    CredentialOnChain(w, chain, p, owner, now))
  }

  /** The allowlist or the credential rule objects to the owner. */
  predicate OthersObject(w: World, chain: Chain, p: GatePolicy, owner: Address, now: I64) {
    ReadsObject(p, w.offCurve(owner), AllowlistOnChain(w, chain, p, owner), CredentialOnChain(w, chain, p, owner, now))
  }

  /** The byte after reason, time and operator of the owner's blacklist entry is 1. */
  predicate FlagByteSet(w: World, chain: Chain, p: GatePolicy, owner: Address) {
    var account := Lookup(chain, BlacklistPda(w, p.issuerProgram, p.mint, owner));
    && account.Some? && |account.value.data| >= 76
    && var at := 116 + LeNat(Slice(account.value.data, 72, 4));
       at < |account.value.data| && account.value.data[at] == 1
  }

  /** When the keeper names the right flag, or rightly none; see `FreezeMirror`. */
  predicate FlagIsRight(w: World, chain: Chain, p: GatePolicy, owner: Address, now: I64) {
    || TextReason(w, chain, p, owner)
    || !OthersWellFormed(w, chain, p, owner, now)
    || (!FlagByteSet(w, chain, p, owner) && !OthersObject(w, chain, p, owner, now))
  }

  function FreezeFlag(v: Verdict): Option<Flag> {
    if v.AllowWith? && v.allow.Flagged? then Some(v.allow.flag) else None
  }

  /** The attestation judged in two steps is the attestation judged in one. */
  lemma CredentialsAgree(account: Option<Account>, w: World, credential: Address, schema: Address, owner: Address,
                         minKycLevel: Byte, now: I64)
    ensures A.CredentialState(A.KeeperRead(account, w.sasId, credential, schema, owner), minKycLevel, now)
         == A.GateRead(AsInfo(account, w.systemId), w.sasId, credential, schema, owner, minKycLevel, now)
  {
  }

  /** The keeper's reads are the gate's, value by value. */
  predicate SameReads(p: GatePolicy, r: OwnerReads, now: I64, blacklist: Option<Option<Entry>>,
                      allowlist: Option<Option<Entry>>, credential: Option<A.Credential>)
  {
    && (if p.checkBlacklist then blacklist.Some? && r.blacklist == Some(AsRead(blacklist.value)) else blacklist.None?)
    && (if p.allowlistMode != Off then allowlist.Some? && r.allowlist == Some(AsRead(allowlist.value))
        else allowlist.None?)
    && (p.requireSas ==>
        r.attestation.Some? && A.CredentialState(r.attestation.value, p.minKycLevel, now) == credential)
  }

  lemma RuleMirror(p: GatePolicy, r: OwnerReads, now: I64, blacklist: Option<Option<Entry>>,
                   allowlist: Option<Option<Entry>>, credential: Option<A.Credential>)
    requires SameReads(p, r, now, blacklist, allowlist, credential)
    ensures var freeze := DecideRead(Freeze, p, r.ownerOffCurve, true, blacklist, allowlist, credential);
      var thaw := DecideRead(Thaw, p, r.ownerOffCurve, true, blacklist, allowlist, credential);
      var v := VerdictOf(p, r, Some(now));
      && FreezeReason(p, r, now) == FreezeFlag(freeze)
      && (FreezeReason(p, r, now).None? <==> freeze.DenyWith?)
      && (v.Freezable? ==> freeze == AllowWith(Flagged(v.flag)) && thaw == DenyWith(DenyFlag(v.flag)))
      && (v.CompliantBy? ==> thaw == AllowWith(v.allow) && !v.allow.Flagged? && freeze == DenyWith(Compliant))
      && (v.Unknown? ==> thaw.DenyWith? && thaw == freeze)
  {
  }

  lemma ReadsMirror(w: World, chain: Chain, p: GatePolicy, owner: Address, now: I64)
    requires TextReason(w, chain, p, owner)
    ensures SameReads(p, ReadsFrom(w, chain, p, owner), now, BlacklistOnChain(w, chain, p, owner),
                      AllowlistOnChain(w, chain, p, owner), CredentialOnChain(w, chain, p, owner, now))
  {
    BlacklistReadersAgree(Lookup(chain, BlacklistPda(w, p.issuerProgram, p.mint, owner)), p.issuerProgram, p.mint,
                          owner, w.systemId);
    AllowlistReadersAgree(Lookup(chain, AllowlistPda(w, p.issuerProgram, p.mint, owner)), p.issuerProgram, p.mint,
                          owner, w.systemId);
    CredentialsAgree(Lookup(chain, AttestationPda(w, p.sasCredential, p.sasSchema, owner)), w, p.sasCredential,
                     p.sasSchema, owner, p.minKycLevel, now);
  }

  /** The keeper's answers from its other reads, when the blacklist entry is one the gate refuses and it does not. */
  lemma NonTextRule(p: GatePolicy, r: OwnerReads, now: I64, isActive: bool, allowlist: Option<Option<Entry>>,
                    credential: Option<A.Credential>)
    requires p.checkBlacklist && r.blacklist == Some(if isActive then ReadActive else ReadInactive)
    requires if p.allowlistMode != Off then allowlist.Some? && r.allowlist == Some(AsRead(allowlist.value))
             else allowlist.None?
    requires p.requireSas ==>
      r.attestation.Some? && A.CredentialState(r.attestation.value, p.minKycLevel, now) == credential
    ensures var wellFormed := ReadsWellFormed(p, r.ownerOffCurve, allowlist, credential);
      && (VerdictOf(p, r, Some(now)).Unknown? <==> !wellFormed)
      && (FreezeReason(p, r, now).None?
          <==> !wellFormed || (!isActive && !ReadsObject(p, r.ownerOffCurve, allowlist, credential)))
  {
  }

  /** On a reason that is not text the keeper decides from its other reads, and the gate refuses. */
  lemma NonTextMirror(w: World, chain: Chain, p: GatePolicy, owner: Address, now: I64)
    requires !TextReason(w, chain, p, owner)
    ensures BlacklistOnChain(w, chain, p, owner) == Some(None)
    ensures var r := ReadsFrom(w, chain, p, owner);
      && (VerdictOf(p, r, Some(now)).Unknown? <==> !OthersWellFormed(w, chain, p, owner, now))
      && (FreezeReason(p, r, now).None? <==> FlagIsRight(w, chain, p, owner, now))
  {
    BlacklistReadersAgree(Lookup(chain, BlacklistPda(w, p.issuerProgram, p.mint, owner)), p.issuerProgram, p.mint,
                          owner, w.systemId);
    AllowlistReadersAgree(Lookup(chain, AllowlistPda(w, p.issuerProgram, p.mint, owner)), p.issuerProgram, p.mint,
                          owner, w.systemId);
    CredentialsAgree(Lookup(chain, AttestationPda(w, p.sasCredential, p.sasSchema, owner)), w, p.sasCredential,
                     p.sasSchema, owner, p.minKycLevel, now);
    NonTextRule(p, ReadsFrom(w, chain, p, owner), now, FlagByteSet(w, chain, p, owner),
                AllowlistOnChain(w, chain, p, owner), CredentialOnChain(w, chain, p, owner, now));
  }

  /**
   * On every snapshot (any owner program and any bytes at all three addresses) the keeper names flag f exactly when the
   * gate's freeze is allowed with f, and names none exactly when the gate denies. The one exception is a blacklist
   * entry that is well formed except for a reason that is not text: there the gate always denies with
   * BAD_REGISTRY_ENTRY, and the keeper rightly names no flag exactly when another account it consults is malformed, or
   * the entry is not active and no other rule objects.
   */
  lemma FreezeMirror(w: World, chain: Chain, p: GatePolicy, owner: Address, now: I64)
    ensures var gate := DecideFor(w, chain, Freeze, p, owner, true, now);
      var keeper := FreezeReason(p, ReadsFrom(w, chain, p, owner), now);
      && (TextReason(w, chain, p, owner) ==> keeper == FreezeFlag(gate) && (keeper.None? <==> gate.DenyWith?))
      && (!TextReason(w, chain, p, owner) ==> gate == DenyWith(BadRegistryEntry))
      && (keeper == FreezeFlag(gate) <==> FlagIsRight(w, chain, p, owner, now))
  {
    if TextReason(w, chain, p, owner) {
      ReadsMirror(w, chain, p, owner, now);
      RuleMirror(p, ReadsFrom(w, chain, p, owner), now, BlacklistOnChain(w, chain, p, owner),
                 AllowlistOnChain(w, chain, p, owner), CredentialOnChain(w, chain, p, owner, now));
    } else {
      NonTextMirror(w, chain, p, owner, now);
    }
  }

  /** `compliant:c` means a thaw is allowed with c, `freezable:f` a freeze with f, `unknown` that neither is. */
  ghost predicate IsRight(v: OwnerVerdict, thaw: Verdict, freeze: Verdict) {
    && (forall c: Allow :: v == CompliantBy(c) <==> thaw == AllowWith(c))
    && (forall f: Flag :: v == Freezable(f) <==> freeze == AllowWith(Flagged(f)))
    && (v.Unknown? <==> thaw.DenyWith? && freeze.DenyWith?)
  }

  /**
   * The verdict served over HTTP, on every snapshot, against a thaw of an ImmutableOwner account and a freeze: it is
   * right if and only if the blacklist reason is text or another account consulted is malformed. On any other reason
   * the gate denies both with BAD_REGISTRY_ENTRY.
   */
  lemma VerdictMirror(w: World, chain: Chain, p: GatePolicy, owner: Address, now: I64)
    ensures var v := VerdictOf(p, ReadsFrom(w, chain, p, owner), Some(now));
      var thaw := DecideFor(w, chain, Thaw, p, owner, true, now);
      var freeze := DecideFor(w, chain, Freeze, p, owner, true, now);
      && (IsRight(v, thaw, freeze) <==> TextReason(w, chain, p, owner) || !OthersWellFormed(w, chain, p, owner, now))
      && (!TextReason(w, chain, p, owner) ==> thaw == DenyWith(BadRegistryEntry) && freeze == thaw)
  {
    if TextReason(w, chain, p, owner) {
      ReadsMirror(w, chain, p, owner, now);
      RuleMirror(p, ReadsFrom(w, chain, p, owner), now, BlacklistOnChain(w, chain, p, owner),
                 AllowlistOnChain(w, chain, p, owner), CredentialOnChain(w, chain, p, owner, now));
    } else {
      NonTextMirror(w, chain, p, owner, now);
    }
  }

  /**
   * An instance: under a policy that only checks the blacklist, an entry written with reason FF. The gate denies thaw
   * and freeze; the keeper calls the owner freezable if the entry is active, and compliant if it is not.
   */
  lemma NonTextVerdict(w: World, chain: Chain, p: GatePolicy, e: BlacklistEntry, now: I64)
    requires p.checkBlacklist && p.allowlistMode == Off && !p.requireSas
    requires e.mint == p.mint && e.reason == [0xFF]
    requires Lookup(chain, BlacklistPda(w, p.issuerProgram, p.mint, e.target))
          == Some(Account(p.issuerProgram, SerializeBlacklist(e)))
    ensures VerdictOf(p, ReadsFrom(w, chain, p, e.target), Some(now))
         == if e.active then Freezable(Blacklisted) else CompliantBy(Clean)
    ensures DecideFor(w, chain, Thaw, p, e.target, true, now) == DenyWith(BadRegistryEntry)
    ensures DecideFor(w, chain, Freeze, p, e.target, true, now) == DenyWith(BadRegistryEntry)
  {
    NonTextReason(e, p.issuerProgram);
  }

  /** The whole path: Token ACL resolves the stored list, the gate decides, and the keeper had named the same flag. */
  lemma OnChainFreezeMirror(w: World, chain: Chain, p: GatePolicy, base: seq<Address>, owner: Address, now: I64)
    requires BaseKeys(base, p.mint, owner) && Stored(w, chain, p)
    ensures var gate := DecideOnChain(w, chain, Freeze, p, base, p.mint, owner, true, now);
      var keeper := FreezeReason(p, ReadsFrom(w, chain, p, owner), now);
      && (keeper == FreezeFlag(gate) <==> FlagIsRight(w, chain, p, owner, now))
      && (TextReason(w, chain, p, owner) ==> (keeper.None? <==> gate.DenyWith?))
      && (!TextReason(w, chain, p, owner) ==> gate == DenyWith(BadRegistryEntry))
  {
    ResolvedDecision(w, chain, Freeze, p, base, owner, true, now);
    FreezeMirror(w, chain, p, owner, now);
  }
}
