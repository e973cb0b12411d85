/** The gate's per-mint policy: its account layout, its validation, and the two programs that decode it. */
module Policy {
  import opened Bytes

  datatype AllowlistMode = Off | AllowOnly | BypassForPdas

  datatype GatePolicy = GatePolicy(
    mint: Address,
    authority: Address,
    issuerProgram: Address,
    checkBlacklist: bool,
    allowlistMode: AllowlistMode,
    requireSas: bool,
    sasCredential: Address,
    sasSchema: Address,
    minKycLevel: Byte)

  /** The stored account: the policy plus what only the gate keeps. */
  datatype StoredPolicy = StoredPolicy(version: Byte, bump: Byte, policy: GatePolicy, reserved: seq<Byte>)

  /** What is not an input of the decisions: program ids, PDA derivation and the curve test. */
  datatype World = World(
    gateId: Address,
    sasId: Address,
    tokenId: Address,
    systemId: Address,
    pda: (Address, seq<seq<Byte>>) -> Address,
    offCurve: Address -> bool)

  const POLICY_DISC: seq<Byte> := [3, 77, 45, 55, 30, 166, 143, 147]
  const KEEPER_POLICY_DISC: seq<Byte> := [3, 77, 45, 55, 30, 166, 143, 147]
  const GATE_POLICY_LEN: nat := 238

  function ModeByte(m: AllowlistMode): Byte {
    match m case Off => 0 case AllowOnly => 1 case BypassForPdas => 2
  }

  function ByteMode(b: Byte): Option<AllowlistMode> {
    if b == 0 then Some(Off) else if b == 1 then Some(AllowOnly) else if b == 2 then Some(BypassForPdas) else None
  }

  function BoolByte(b: bool): Byte {
    if b then 1 else 0
  }

  /** Anchor's bytes of a policy account. */
  function Serialize(s: StoredPolicy): (data: seq<Byte>)
    requires |s.reserved| == 64
    ensures |data| == GATE_POLICY_LEN
  {
    var p := s.policy;
    POLICY_DISC + [s.version, s.bump] + p.mint + p.authority + p.issuerProgram
    + [BoolByte(p.checkBlacklist), ModeByte(p.allowlistMode), BoolByte(p.requireSas)]
    + p.sasCredential + p.sasSchema + [p.minKycLevel] + s.reserved
  }

  /** The gate's decoder (Anchor `try_deserialize`): strict bools, bytes past the last field ignored. */
  function GateDecode(data: seq<Byte>): Option<GatePolicy> {
    if |data| < GATE_POLICY_LEN || !StartsWith(data, POLICY_DISC) then None
    else
      var mode :- ByteMode(data[107]);
      if data[106] > 1 || data[108] > 1 then None
      else Some(GatePolicy(KeyAt(data, 10), KeyAt(data, 42), KeyAt(data, 74), data[106] == 1, mode, data[108] == 1,
                           KeyAt(data, 109), KeyAt(data, 141), data[173]))
  }

  /** `load_policy`: owned by the gate, decodable, and about this mint. */
  function GateLoad(w: World, info: Account, mint: Address): Option<GatePolicy> {
    if info.owner != w.gateId then None
    else
      var p :- GateDecode(info.data);
      if p.mint == mint then Some(p) else None
  }

  /** The keeper's decoder: exact length, lenient bools. */
  function KeeperDecode(data: seq<Byte>): Option<GatePolicy> {
    if |data| != GATE_POLICY_LEN || !StartsWith(data, KEEPER_POLICY_DISC) then None
    else
      var mode :- ByteMode(data[107]);
      Some(GatePolicy(KeyAt(data, 10), KeyAt(data, 42), KeyAt(data, 74), data[106] == 1, mode, data[108] == 1,
                      KeyAt(data, 109), KeyAt(data, 141), data[173]))
  }

  /** Every policy the gate writes is read back unchanged by both programs. */
  lemma PolicyRoundTrip(s: StoredPolicy)
    requires |s.reserved| == 64
    ensures GateDecode(Serialize(s)) == Some(s.policy)
    ensures KeeperDecode(Serialize(s)) == Some(s.policy)
  {
    var data, p := Serialize(s), s.policy;
    assert data[..8] == POLICY_DISC;
    assert KeyAt(data, 10) == p.mint && KeyAt(data, 42) == p.authority && KeyAt(data, 74) == p.issuerProgram;
    assert KeyAt(data, 109) == p.sasCredential && KeyAt(data, 141) == p.sasSchema;
  }

  /**
   * The two decoders give the same answer on exactly the bytes that both refuse or that have the written length and
   * bools that are 0 or 1.
   */
  lemma PolicyDecodersAgree(data: seq<Byte>)
    ensures GateDecode(data) == KeeperDecode(data)
       <==> (|data| < GATE_POLICY_LEN || !StartsWith(data, POLICY_DISC) || ByteMode(data[107]).None?
             || (|data| == GATE_POLICY_LEN && data[106] <= 1 && data[108] <= 1)
             || (|data| > GATE_POLICY_LEN && (data[106] > 1 || data[108] > 1)))
  {
  }

  /**
   * Both ways to disagree, on any stored policy: with a byte after the end only the gate reads it, and with a bool byte
   * of 2 only the keeper does, as false. The gate writes neither.
   */
  lemma PolicyDecodersDiffer(s: StoredPolicy)
    requires |s.reserved| == 64
    ensures GateDecode(Serialize(s) + [0]) == Some(s.policy) && KeeperDecode(Serialize(s) + [0]).None?
    ensures GateDecode(Serialize(s)[106 := 2]).None?
    ensures KeeperDecode(Serialize(s)[106 := 2]) == Some(s.policy.(checkBlacklist := false))
  {
    PolicyRoundTrip(s);
    var data := Serialize(s);
    assert (data + [0])[..8] == data[..8] && data[106 := 2][..8] == data[..8];
    forall at: nat | at + 32 <= 174 ensures KeyAt(data + [0], at) == KeyAt(data, at) {
    }
    forall at: nat | at + 32 <= 106 || 107 <= at <= 142 ensures KeyAt(data[106 := 2], at) == KeyAt(data, at) {
    }
  }

  /** What each decoder refuses. */
  lemma PolicyRefused(data: seq<Byte>)
    ensures GateDecode(data).None?
       <==> |data| < 238 || !StartsWith(data, POLICY_DISC) || data[106] > 1 || data[107] > 2 || data[108] > 1
    ensures KeeperDecode(data).None? <==> |data| != 238 || !StartsWith(data, POLICY_DISC) || data[107] > 2
  {
  }

  // ----- GatePolicy::apply

  const NO_KEY: Address := LeBytes(0, 32)

  datatype PolicyArgs = PolicyArgs(
    authority: Address,
    issuerProgram: Address,
    checkBlacklist: bool,
    allowlistMode: AllowlistMode,
    requireSas: bool,
    sasCredential: Address,
    sasSchema: Address,
    minKycLevel: Byte)

  datatype ApplyResult = Applied | MissingIssuerProgram | MissingSasConfig | BypassNeedsSas

  /** What every stored policy satisfies: no enabled check lacks the keys it reads. */
  predicate WellConfigured(p: GatePolicy) {
    && (p.checkBlacklist || !p.allowlistMode.Off? ==> p.issuerProgram != NO_KEY)
    && (p.requireSas ==> p.sasCredential != NO_KEY && p.sasSchema != NO_KEY)
    && (p.allowlistMode.BypassForPdas? ==> p.requireSas)
  }

  function With(mint: Address, a: PolicyArgs): GatePolicy {
    GatePolicy(mint, a.authority, a.issuerProgram, a.checkBlacklist, a.allowlistMode, a.requireSas, a.sasCredential,
               a.sasSchema, a.minKycLevel)
  }

  class PolicyAccount {
    const mint: Address
    var authority: Address
    var issuerProgram: Address
    var checkBlacklist: bool
    var allowlistMode: AllowlistMode
    var requireSas: bool
    var sasCredential: Address
    var sasSchema: Address
    var minKycLevel: Byte

    /** A fresh account is zeroed except for its mint. */
    constructor (mint: Address)
      ensures this.mint == mint
      ensures Value() == GatePolicy(mint, NO_KEY, NO_KEY, false, Off, false, NO_KEY, NO_KEY, 0)
    {
      this.mint := mint;
      authority, issuerProgram, sasCredential, sasSchema := NO_KEY, NO_KEY, NO_KEY, NO_KEY;
      checkBlacklist, allowlistMode, requireSas, minKycLevel := false, Off, false, 0;
    }

    function Value(): GatePolicy
      reads this
    {
      GatePolicy(mint, authority, issuerProgram, checkBlacklist, allowlistMode, requireSas, sasCredential, sasSchema,
                 minKycLevel)
    }

    /** Validates, then copies every field; a refused update changes nothing, and an accepted one is exactly the
        arguments. It is accepted exactly when the result is well configured. */
    method Apply(args: PolicyArgs) returns (r: ApplyResult)
      modifies this
      ensures r.Applied? <==> WellConfigured(With(mint, args))
      ensures Value() == if r.Applied? then With(mint, args) else old(Value())
      ensures old(WellConfigured(Value())) ==> WellConfigured(Value())
    {
      if (args.checkBlacklist || args.allowlistMode != Off) && args.issuerProgram == NO_KEY {
        return MissingIssuerProgram;
      }
      if args.requireSas && (args.sasCredential == NO_KEY || args.sasSchema == NO_KEY) {
        return MissingSasConfig;
      }
      if args.allowlistMode == BypassForPdas && !args.requireSas {
        return BypassNeedsSas;
      }
      authority := args.authority;
      issuerProgram := args.issuerProgram;
      checkBlacklist := args.checkBlacklist;
      allowlistMode := args.allowlistMode;
      requireSas := args.requireSas;
      sasCredential := args.sasCredential;
      sasSchema := args.sasSchema;
      minKycLevel := args.minKycLevel;
      return Applied;
    }
  }
}
