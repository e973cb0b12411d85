/**
 * The issuer registry as three programs read it: the gate (Borsh mirror), the transfer hook (the same mirror, other
 * checks) and the keeper (computed byte offsets).
 */
module Registry {
  import opened Bytes

  const BLACKLIST_DISC: seq<Byte> := [218, 179, 231, 40, 141, 25, 168, 189]
  const ALLOWLIST_DISC: seq<Byte> := [42, 59, 88, 1, 124, 138, 92, 236]

  /** The keeper's own copies. */
  const KEEPER_BLACKLIST_DISC: seq<Byte> := [218, 179, 231, 40, 141, 25, 168, 189]
  const KEEPER_ALLOWLIST_DISC: seq<Byte> := [42, 59, 88, 1, 124, 138, 92, 236]

  /** What the gate learns about one wallet. */
  datatype Entry = NoEntry | Inactive | Active

  /** What the keeper learns; `Bad` is the gate's BAD_REGISTRY_ENTRY. */
  datatype EntryRead = ReadNone | ReadInactive | ReadActive | ReadBad

  // ----- UTF-8, which only Borsh's String checks

  predicate Continuation(b: Byte) {
    0x80 <= b <= 0xBF
  }

  /** Length of the well-formed UTF-8 sequence at the head of `s`, or 0 (Unicode 15.0, table 3-7). */
  function Utf8Head(s: seq<Byte>): (n: nat)
    requires s != []
    ensures n <= 4 && n <= |s|
  {
    var b := s[0];
    if b <= 0x7F then 1
    else if 0xC2 <= b <= 0xDF then
      if |s| >= 2 && Continuation(s[1]) then 2 else 0
    else if 0xE0 <= b <= 0xEF then
      if |s| >= 3 && Continuation(s[1]) && Continuation(s[2])
         && (b == 0xE0 ==> s[1] >= 0xA0) && (b == 0xED ==> s[1] <= 0x9F) then 3 else 0
    else if 0xF0 <= b <= 0xF4 then
      if |s| >= 4 && Continuation(s[1]) && Continuation(s[2]) && Continuation(s[3])
         && (b == 0xF0 ==> s[1] >= 0x90) && (b == 0xF4 ==> s[1] <= 0x8F) then 4 else 0
    else 0
  }

  predicate Utf8(s: seq<Byte>) {
    s == [] || (Utf8Head(s) > 0 && Utf8(s[Utf8Head(s)..]))
  }

  // ----- Borsh: a cursor over `data`; every read returns the value and the next position, or None

  function ReadKey(data: seq<Byte>, at: nat): Option<(Address, nat)> {
    if at + 32 <= |data| then Some((KeyAt(data, at), at + 32)) else None
  }

  function ReadU32(data: seq<Byte>, at: nat): Option<(nat, nat)> {
    if at + 4 <= |data| then Some((LeNat(Slice(data, at, 4)), at + 4)) else None
  }

  function ReadI64(data: seq<Byte>, at: nat): Option<(I64, nat)> {
    if at + 8 <= |data| then Some((LeI64(Slice(data, at, 8)), at + 8)) else None
  }

  function ReadU8(data: seq<Byte>, at: nat): Option<(Byte, nat)> {
    if at < |data| then Some((data[at], at + 1)) else None
  }

  /** Borsh refuses a bool byte other than 0 and 1. */
  function ReadBool(data: seq<Byte>, at: nat): Option<(bool, nat)> {
    var (b, next) :- ReadU8(data, at);
    if b <= 1 then Some((b == 1, next)) else None
  }

  function ReadString(data: seq<Byte>, at: nat): Option<(seq<Byte>, nat)> {
    var (len, start) :- ReadU32(data, at);
    if start + len <= |data| && Utf8(Slice(data, start, len))
    then Some((Slice(data, start, len), start + len)) else None
  }

  datatype BlacklistEntry = BlacklistEntry(
    mint: Address, target: Address, reason: seq<Byte>, addedAt: I64, addedBy: Address, active: bool, bump: Byte)

  datatype AllowlistEntry = AllowlistEntry(mint: Address, wallet: Address, addedAt: I64, active: bool, bump: Byte)

  /** The mirror struct's Borsh decoder, after the 8-byte discriminator. Bytes past the last field are ignored. */
  function DecodeBlacklist(data: seq<Byte>): Option<BlacklistEntry> {
    var (mint, p1) :- ReadKey(data, 8);
    var (target, p2) :- ReadKey(data, p1);
    var (reason, p3) :- ReadString(data, p2);
    var (addedAt, p4) :- ReadI64(data, p3);
    var (addedBy, p5) :- ReadKey(data, p4);
    var (active, p6) :- ReadBool(data, p5);
    var (bump, p7) :- ReadU8(data, p6);
    Some(BlacklistEntry(mint, target, reason, addedAt, addedBy, active, bump))
  }

  function DecodeAllowlist(data: seq<Byte>): Option<AllowlistEntry> {
    var (mint, p1) :- ReadKey(data, 8);
    var (wallet, p2) :- ReadKey(data, p1);
    var (addedAt, p3) :- ReadI64(data, p2);
    var (active, p4) :- ReadBool(data, p3);
    var (bump, p5) :- ReadU8(data, p4);
    Some(AllowlistEntry(mint, wallet, addedAt, active, bump))
  }

  // ----- The gate

  /** None is the gate's BAD_REGISTRY_ENTRY error. */
  function GateReadBlacklist(info: Account, issuer: Address, mint: Address, wallet: Address): Option<Entry> {
    if info.data == [] then Some(NoEntry)
    else if info.owner != issuer then None
    else if !StartsWith(info.data, BLACKLIST_DISC) then None
    else
      var e :- DecodeBlacklist(info.data);
      if e.mint == mint && e.target == wallet then Some(if e.active then Active else Inactive) else None
  }

  function GateReadAllowlist(info: Account, issuer: Address, mint: Address, wallet: Address): Option<Entry> {
    if info.data == [] then Some(NoEntry)
    else if info.owner != issuer then None
    else if !StartsWith(info.data, ALLOWLIST_DISC) then None
    else
      var e :- DecodeAllowlist(info.data);
      if e.mint == mint && e.wallet == wallet then Some(if e.active then Active else Inactive) else None
  }

  // ----- The transfer hook

  datatype HookRead = Passes | Rejects | InvalidAccountData

  /** One blacklist check of the hook: no owner, discriminator or target check, and 1 to 8 bytes count as no entry. */
  function HookReadBlacklist(data: seq<Byte>, mint: Address): HookRead {
    if |data| <= 8 then Passes
    else match DecodeBlacklist(data)
      case None => InvalidAccountData
      case Some(e) =>
        if e.mint != mint then InvalidAccountData else if e.active then Rejects else Passes
  }

  // ----- The keeper

  function KeeperReadBlacklist(account: Option<Account>, issuer: Address, mint: Address, wallet: Address): EntryRead {
    if account.None? || account.value.data == [] then ReadNone
    else
      var data := account.value.data;
      if account.value.owner != issuer || !StartsWith(data, KEEPER_BLACKLIST_DISC) || |data| < 76 then ReadBad
      else if KeyAt(data, 8) != mint || KeyAt(data, 40) != wallet then ReadBad
      else
        var activeAt := 76 + LeNat(Slice(data, 72, 4)) + 8 + 32;
        if |data| < activeAt + 2 || data[activeAt] > 1 then ReadBad
        else if data[activeAt] == 1 then ReadActive else ReadInactive
  }

  function KeeperReadAllowlist(account: Option<Account>, issuer: Address, mint: Address, wallet: Address): EntryRead {
    if account.None? || account.value.data == [] then ReadNone
    else
      var data := account.value.data;
      var activeAt := 8 + 32 + 32 + 8;
      if account.value.owner != issuer || !StartsWith(data, KEEPER_ALLOWLIST_DISC) || |data| < activeAt + 2 then ReadBad
      else if KeyAt(data, 8) != mint || KeyAt(data, 40) != wallet || data[activeAt] > 1 then ReadBad
      else if data[activeAt] == 1 then ReadActive else ReadInactive
  }

  // ----- The two readers agree

  function AsRead(r: Option<Entry>): EntryRead {
    match r
    case None => ReadBad
    case Some(NoEntry) => ReadNone
    case Some(Inactive) => ReadInactive
    case Some(Active) => ReadActive
  }

  /** An absent account reaches the gate as an empty one. */
  function AsInfo(account: Option<Account>, system: Address): Account {
    if account.Some? then account.value else Account(system, [])
  }

  /** The stored reason lies inside the account and is text. */
  predicate ReasonIsText(data: seq<Byte>) {
    |data| >= 76 && 76 + LeNat(Slice(data, 72, 4)) <= |data| ==> Utf8(Slice(data, 76, LeNat(Slice(data, 72, 4))))
  }

  /**
   * The keeper's blacklist reader agrees with the gate's on every account, owner and byte content, exactly when the
   * stored reason is UTF-8 or the keeper already calls the account bad.
   */
  lemma BlacklistReadersAgree(account: Option<Account>, issuer: Address, mint: Address, wallet: Address,
                              system: Address)
    ensures KeeperReadBlacklist(account, issuer, mint, wallet)
            == AsRead(GateReadBlacklist(AsInfo(account, system), issuer, mint, wallet))
       <==> (account.Some? && !KeeperReadBlacklist(account, issuer, mint, wallet).ReadBad? ==>
               ReasonIsText(account.value.data))
    ensures account.Some? && !ReasonIsText(account.value.data)
            ==> GateReadBlacklist(AsInfo(account, system), issuer, mint, wallet).None?
  {
  }

  lemma AllowlistReadersAgree(account: Option<Account>, issuer: Address, mint: Address, wallet: Address,
                              system: Address)
    ensures KeeperReadAllowlist(account, issuer, mint, wallet)
            == AsRead(GateReadAllowlist(AsInfo(account, system), issuer, mint, wallet))
  {
  }

  // ----- Writing an entry and reading it back

  /** Anchor's account bytes: discriminator, then the fields in Borsh order. */
  function SerializeBlacklist(e: BlacklistEntry): (s: seq<Byte>)
    ensures |s| == 118 + |e.reason|
  {
    BLACKLIST_DISC + e.mint + e.target + LeBytes(|e.reason|, 4) + e.reason
    + I64Bytes(e.addedAt) + e.addedBy + [if e.active then 1 else 0] + [e.bump]
  }

  lemma SliceOfPrefix(data: seq<Byte>, s: seq<Byte>, n: nat, at: nat, len: nat)
    requires n <= |data| && n <= |s| && data[..n] == s[..n] && at + len <= n
    ensures Slice(data, at, len) == Slice(s, at, len)
  {
    assert data[at..at + len] == data[..n][at..at + len];
    assert s[at..at + len] == s[..n][at..at + len];
  }

  /** Where the fields lie in the entry itself. */
  lemma SerializedFields(e: BlacklistEntry)
    requires |e.reason| < 0x1_0000_0000
    ensures var s, r := SerializeBlacklist(e), |e.reason|;
      && Slice(s, 0, 8) == BLACKLIST_DISC && KeyAt(s, 8) == e.mint && KeyAt(s, 40) == e.target
      && Slice(s, 72, 4) == LeBytes(r, 4) && Slice(s, 76, r) == e.reason
      && Slice(s, 76 + r, 8) == I64Bytes(e.addedAt) && KeyAt(s, 84 + r) == e.addedBy
      && s[116 + r] == (if e.active then 1 else 0) && s[117 + r] == e.bump
  {
  }

  /** Where every field lands, in any bytes that start with the first `n` bytes of the serialized entry. */
  lemma BlacklistFields(e: BlacklistEntry, data: seq<Byte>, n: nat)
    requires |e.reason| < 0x1_0000_0000
    requires n <= |data| && n <= |SerializeBlacklist(e)| && data[..n] == SerializeBlacklist(e)[..n]
    ensures n >= 8 ==> StartsWith(data, BLACKLIST_DISC)
    ensures n >= 40 ==> KeyAt(data, 8) == e.mint
    ensures n >= 72 ==> KeyAt(data, 40) == e.target
    ensures n >= 76 ==> LeNat(Slice(data, 72, 4)) == |e.reason|
    ensures n >= 76 + |e.reason| ==> Slice(data, 76, |e.reason|) == e.reason
    ensures n >= 84 + |e.reason| ==> LeI64(Slice(data, 76 + |e.reason|, 8)) == e.addedAt
    ensures n >= 116 + |e.reason| ==> KeyAt(data, 84 + |e.reason|) == e.addedBy
    ensures n >= 117 + |e.reason| ==> data[116 + |e.reason|] == if e.active then 1 else 0
    ensures n >= 118 + |e.reason| ==> data[117 + |e.reason|] == e.bump
  {
    var s, r := SerializeBlacklist(e), |e.reason|;
    Pow256Values();
    LeRoundTrip(r, 4);
    I64RoundTrip(e.addedAt);
    SerializedFields(e);
    if n >= 8 { SliceOfPrefix(data, s, n, 0, 8); }
    if n >= 40 { SliceOfPrefix(data, s, n, 8, 32); }
    if n >= 72 { SliceOfPrefix(data, s, n, 40, 32); }
    if n >= 76 { SliceOfPrefix(data, s, n, 72, 4); }
    if n >= 76 + r { SliceOfPrefix(data, s, n, 76, r); }
    if n >= 84 + r { SliceOfPrefix(data, s, n, 76 + r, 8); }
    if n >= 116 + r { SliceOfPrefix(data, s, n, 84 + r, 32); }
    if n >= 117 + r { SliceOfPrefix(data, s, n, 116 + r, 1); }
    if n >= 118 + r { SliceOfPrefix(data, s, n, 117 + r, 1); }
  }

  /**
   * The three readers give one answer on a written entry, whatever the account holds behind it (the account is
   * allocated for the longest reason, so it usually holds more).
   */
  lemma BlacklistRoundTrip(e: BlacklistEntry, issuer: Address, tail: seq<Byte>)
    requires Utf8(e.reason) && |e.reason| < 0x1_0000_0000
    ensures var data := SerializeBlacklist(e) + tail;
      && DecodeBlacklist(data) == Some(e)
      && GateReadBlacklist(Account(issuer, data), issuer, e.mint, e.target)
           == Some(if e.active then Active else Inactive)
      && KeeperReadBlacklist(Some(Account(issuer, data)), issuer, e.mint, e.target)
         == (if e.active then ReadActive else ReadInactive)
      && HookReadBlacklist(data, e.mint) == (if e.active then Rejects else Passes)
  {
    var s := SerializeBlacklist(e);
    assert (s + tail)[..|s|] == s[..|s|];
    BlacklistFields(e, s + tail, |s|);
  }

  /**
   * A written entry cut anywhere before its end is refused by the gate and by the keeper; by the hook too, except that
   * a cut to at most 8 bytes counts as no entry there.
   */
  lemma BlacklistTruncation(e: BlacklistEntry, issuer: Address, n: nat)
    requires |e.reason| < 0x1_0000_0000
    requires 0 < n < |SerializeBlacklist(e)|
    ensures var data := SerializeBlacklist(e)[..n];
      && GateReadBlacklist(Account(issuer, data), issuer, e.mint, e.target).None?
      && KeeperReadBlacklist(Some(Account(issuer, data)), issuer, e.mint, e.target).ReadBad?
      && HookReadBlacklist(data, e.mint) == (if n <= 8 then Passes else InvalidAccountData)
  {
    var data := SerializeBlacklist(e)[..n];
    assert data[..n] == SerializeBlacklist(e)[..n];
    BlacklistFields(e, data, n);
    CutDecodesToNothing(e, data);
  }

  lemma CutDecodesToNothing(e: BlacklistEntry, data: seq<Byte>)
    requires |data| < 118 + |e.reason| && (|data| >= 76 ==> LeNat(Slice(data, 72, 4)) == |e.reason|)
    ensures DecodeBlacklist(data).None?
  {
    if |data| >= 76 {
      assert ReadString(data, 72).Some? ==> ReadString(data, 72).value.1 == 76 + |e.reason|;
    }
  }

  /**
   * The disagreement is real: an entry written with a reason that is not text (the bytes FF, say) is read as usual by
   * the keeper, and as a malformed account by the gate and the hook.
   */
  lemma NonTextReason(e: BlacklistEntry, issuer: Address)
    requires e.reason == [0xFF]
    ensures var data := SerializeBlacklist(e);
      && KeeperReadBlacklist(Some(Account(issuer, data)), issuer, e.mint, e.target)
         == (if e.active then ReadActive else ReadInactive)
      && GateReadBlacklist(Account(issuer, data), issuer, e.mint, e.target).None?
      && HookReadBlacklist(data, e.mint).InvalidAccountData?
  {
    var data := SerializeBlacklist(e);
    assert data[..|data|] == data;
    BlacklistFields(e, data, |data|);
  }

  function SerializeAllowlist(e: AllowlistEntry): (s: seq<Byte>)
    ensures |s| == 82
  {
    ALLOWLIST_DISC + e.mint + e.wallet + I64Bytes(e.addedAt) + [if e.active then 1 else 0] + [e.bump]
  }

  lemma AllowlistRoundTrip(e: AllowlistEntry, issuer: Address, tail: seq<Byte>)
    ensures var data := SerializeAllowlist(e) + tail;
      && DecodeAllowlist(data) == Some(e)
      && GateReadAllowlist(Account(issuer, data), issuer, e.mint, e.wallet)
           == Some(if e.active then Active else Inactive)
      && KeeperReadAllowlist(Some(Account(issuer, data)), issuer, e.mint, e.wallet)
         == (if e.active then ReadActive else ReadInactive)
  {
    var data := SerializeAllowlist(e) + tail;
    I64RoundTrip(e.addedAt);
    assert data[..8] == ALLOWLIST_DISC;
    assert KeyAt(data, 8) == e.mint && KeyAt(data, 40) == e.wallet;
    assert Slice(data, 72, 8) == I64Bytes(e.addedAt);
  }

  /** An entry of another mint or wallet, or of another program, is malformed to gate and keeper. */
  lemma EntryOfAnother(e: BlacklistEntry, program: Address, issuer: Address, mint: Address, wallet: Address,
                       tail: seq<Byte>)
    requires |e.reason| < 0x1_0000_0000
    requires program != issuer || mint != e.mint || wallet != e.target
    ensures var account := Account(program, SerializeBlacklist(e) + tail);
      && GateReadBlacklist(account, issuer, mint, wallet).None?
      && KeeperReadBlacklist(Some(account), issuer, mint, wallet).ReadBad?
    ensures Utf8(e.reason) && mint != e.mint ==>
      HookReadBlacklist(SerializeBlacklist(e) + tail, mint).InvalidAccountData?
  {
    var s := SerializeBlacklist(e);
    assert (s + tail)[..|s|] == s[..|s|];
    BlacklistFields(e, s + tail, |s|);
  }

  lemma AllowlistOfAnother(e: AllowlistEntry, program: Address, issuer: Address, mint: Address, wallet: Address,
                           tail: seq<Byte>)
    requires program != issuer || mint != e.mint || wallet != e.wallet
    ensures var account := Account(program, SerializeAllowlist(e) + tail);
      && GateReadAllowlist(account, issuer, mint, wallet).None?
      && KeeperReadAllowlist(Some(account), issuer, mint, wallet).ReadBad?
  {
    var data := SerializeAllowlist(e) + tail;
    AllowlistRoundTrip(e, issuer, tail);
    assert KeyAt(data, 8) == e.mint && KeyAt(data, 40) == e.wallet;
  }

  /** No account, or an empty one, is no entry; to the hook so are up to eight bytes of anything. */
  lemma NoAccountNoEntry(owner: Address, issuer: Address, mint: Address, wallet: Address, data: seq<Byte>)
    ensures GateReadBlacklist(Account(owner, []), issuer, mint, wallet) == Some(NoEntry)
    ensures GateReadAllowlist(Account(owner, []), issuer, mint, wallet) == Some(NoEntry)
    ensures KeeperReadBlacklist(None, issuer, mint, wallet).ReadNone?
    ensures KeeperReadAllowlist(None, issuer, mint, wallet).ReadNone?
    ensures |data| <= 8 ==> HookReadBlacklist(data, mint).Passes?
  {
  }
}
