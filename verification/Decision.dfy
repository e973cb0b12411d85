/** The gate's decision as a pure function of what its handler read. */
module Decision {
  import opened Bytes
  import opened Policy
  import opened Registry
  import Attestations

  datatype Op = Thaw | Freeze

  datatype Sas = NotRequired | Bypassed | Checked(credential: Attestations.Credential)

  /** `None` entries are registries the policy does not consult. */
  datatype Facts = Facts(
    immutableOwner: bool,
    blacklist: Option<Entry>,
    allowlist: Option<Entry>,
    allowlistMode: AllowlistMode,
    sas: Sas)

  /** A policy flag on the owner: it denies a thaw and allows a freeze. */
  datatype Flag = Blacklisted | NotAllowlisted | NoCredential | CredentialExpired | KycLevelTooLow

  datatype Allow = Clean | Allowlisted | Kyc | PdaAllowlisted | Flagged(flag: Flag)

  datatype Deny =
    | MissingAccounts
    | BadPolicy
    | BadRegistryEntry
    | BadCredential
    | NoImmutableOwner
    | DenyFlag(flag: Flag)
    | Compliant

  datatype Verdict = AllowWith(allow: Allow) | DenyWith(deny: Deny)

  /** The first policy that flags the owner: blacklist, allowlist, SAS credential. */
  function FlagOf(f: Facts): Option<Flag> {
    if f.blacklist == Some(Active) then Some(Blacklisted)
    else if f.allowlistMode == AllowOnly && f.allowlist != Some(Active) then Some(NotAllowlisted)
    else if !f.sas.Checked? then None
    else match f.sas.credential
      case Missing => Some(NoCredential)
      case Expired => Some(CredentialExpired)
      case LevelTooLow => Some(KycLevelTooLow)
      case Valid => None
  }

  function AdmittedBy(f: Facts): Allow {
    match f.sas
    case Bypassed => PdaAllowlisted
    case Checked(_) => Kyc
    case NotRequired => if f.allowlist == Some(Active) then Allowlisted else Clean
  }

  function Evaluate(op: Op, f: Facts): Verdict {
    var flag := FlagOf(f);
    match op
    case Thaw =>
      if !f.immutableOwner then DenyWith(NoImmutableOwner)
      else if flag.Some? then DenyWith(DenyFlag(flag.value))
      else AllowWith(AdmittedBy(f))
    case Freeze =>
      if flag.Some? then AllowWith(Flagged(flag.value)) else DenyWith(Compliant)
  }

  // ----- Codes

  function FlagCode(f: Flag): string {
    match f
    case Blacklisted => "BLACKLISTED"
    case NotAllowlisted => "NOT_ALLOWLISTED"
    case NoCredential => "NO_CREDENTIAL"
    case CredentialExpired => "CREDENTIAL_EXPIRED"
    case KycLevelTooLow => "KYC_LEVEL_TOO_LOW"
  }

  function AllowCode(a: Allow): string {
    match a
    case Clean => "CLEAN"
    case Allowlisted => "ALLOWLISTED"
    case Kyc => "KYC"
    case PdaAllowlisted => "PDA_ALLOWLISTED"
    case Flagged(f) => FlagCode(f)
  }

  function DenyCode(d: Deny): string {
    match d
    case MissingAccounts => "MISSING_ACCOUNTS"
    case BadPolicy => "BAD_POLICY"
    case BadRegistryEntry => "BAD_REGISTRY_ENTRY"
    case BadCredential => "BAD_CREDENTIAL"
    case NoImmutableOwner => "NO_IMMUTABLE_OWNER"
    case DenyFlag(f) => FlagCode(f)
    case Compliant => "COMPLIANT"
  }

  /** `Deny::error`: Anchor numbers custom errors from 6000, and the nine administrative errors come first. */
  function DenyError(d: Deny): nat {
    match d
    case MissingAccounts => 6009
    case BadPolicy => 6010
    case BadRegistryEntry => 6011
    case BadCredential => 6012
    case NoImmutableOwner => 6013
    case DenyFlag(f) =>
      (match f
       case Blacklisted => 6014
       case NotAllowlisted => 6015
       case NoCredential => 6016
       case CredentialExpired => 6017
       case KycLevelTooLow => 6018)
    case Compliant => 6019
  }

  // ----- The codes, against the SDK's list

  const THAW_ALLOW_CODES: set<string> := {"KYC", "PDA_ALLOWLISTED", "ALLOWLISTED", "CLEAN"}
  const FLAG_CODES: set<string> :=
    {"BLACKLISTED", "NOT_ALLOWLISTED", "NO_CREDENTIAL", "CREDENTIAL_EXPIRED", "KYC_LEVEL_TOO_LOW"}
  const STRUCTURAL_DENY_CODES: set<string> := {"MISSING_ACCOUNTS", "BAD_POLICY", "BAD_REGISTRY_ENTRY", "BAD_CREDENTIAL"}

  lemma FlagCodesExactly(code: string)
    ensures code in FLAG_CODES <==> exists f :: FlagCode(f) == code
  {
    assert FlagCode(Blacklisted) == "BLACKLISTED" && FlagCode(NotAllowlisted) == "NOT_ALLOWLISTED";
    assert FlagCode(NoCredential) == "NO_CREDENTIAL" && FlagCode(CredentialExpired) == "CREDENTIAL_EXPIRED";
    assert FlagCode(KycLevelTooLow) == "KYC_LEVEL_TOO_LOW";
  }

  /** The SDK knows exactly the codes the gate logs: those of an admission, and flags when a freeze is allowed. */
  lemma AllowCodesExactly(code: string)
    ensures code in THAW_ALLOW_CODES <==> exists a: Allow :: !a.Flagged? && AllowCode(a) == code
    ensures forall f :: AllowCode(Flagged(f)) == FlagCode(f) == DenyCode(DenyFlag(f))
  {
    assert AllowCode(Kyc) == "KYC" && AllowCode(PdaAllowlisted) == "PDA_ALLOWLISTED";
    assert AllowCode(Allowlisted) == "ALLOWLISTED" && AllowCode(Clean) == "CLEAN";
  }

  lemma DenyCodesExactly(code: string)
    ensures code in STRUCTURAL_DENY_CODES
       <==> exists d: Deny :: !d.NoImmutableOwner? && !d.DenyFlag? && !d.Compliant? && DenyCode(d) == code
    ensures DenyCode(NoImmutableOwner) == "NO_IMMUTABLE_OWNER" && DenyCode(Compliant) == "COMPLIANT"
  {
    assert DenyCode(MissingAccounts) == "MISSING_ACCOUNTS" && DenyCode(BadPolicy) == "BAD_POLICY";
    assert DenyCode(BadRegistryEntry) == "BAD_REGISTRY_ENTRY" && DenyCode(BadCredential) == "BAD_CREDENTIAL";
  }

  /** No two decisions of one kind share a code. */
  lemma CodesApart(a: Allow, b: Allow, d: Deny, e: Deny)
    ensures AllowCode(a) == AllowCode(b) ==> a == b
    ensures DenyCode(d) == DenyCode(e) ==> d == e
  {
    FlagCodeStart(if a.Flagged? then a.flag else Blacklisted);
    FlagCodeStart(if b.Flagged? then b.flag else Blacklisted);
    FlagCodeStart(if d.DenyFlag? then d.flag else Blacklisted);
    FlagCodeStart(if e.DenyFlag? then e.flag else Blacklisted);
  }

  /** Lengths tell the flags' codes apart, but for two, which differ in the first letter. */
  lemma FlagCodeStart(f: Flag)
    ensures |FlagCode(f)| == match f
      case Blacklisted => 11 case NotAllowlisted => 15 case NoCredential => 13 case CredentialExpired => 18
      case KycLevelTooLow => 17
  {
  }
}
