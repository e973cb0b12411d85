/** The SAS attestation account as the gate and as the keeper read it. */
module Attestations {
  import opened Bytes

  datatype Credential = Missing | Expired | LevelTooLow | Valid

  const DATA: nat := 101
  const SIGNER_LEN: nat := 32

  /** `parse_attestation`; None is the gate's BAD_CREDENTIAL error. */
  function Parse(data: seq<Byte>, credential: Address, schema: Address, owner: Address, minKycLevel: Byte, now: I64)
    : Option<Credential>
  {
    if |data| < DATA || data[0] != 2 then None
    else if KeyAt(data, 1) != owner || KeyAt(data, 33) != credential || KeyAt(data, 65) != schema then None
    else
      var len := LeNat(Slice(data, 97, 4));
      var expiryAt := DATA + len + SIGNER_LEN;
      if |data| < expiryAt + 8 then None
      else
        var expiry := LeI64(Slice(data, expiryAt, 8));
        if expiry != 0 && expiry < now then Some(Expired)
        else if minKycLevel > 0 then
          if len < 1 then None else if data[DATA] < minKycLevel then Some(LevelTooLow) else Some(Valid)
        else Some(Valid)
  }

  function GateRead(info: Account, sasId: Address, credential: Address, schema: Address, owner: Address,
                    minKycLevel: Byte, now: I64): Option<Credential>
  {
    if info.data == [] then Some(Missing)
    else if info.owner != sasId then None
    else Parse(info.data, credential, schema, owner, minKycLevel, now)
  }

  /** The keeper keeps what it read and judges it later, against the clock of the day. */
  datatype AttestationRead =
    | ReadMissing
    | ReadBad
    | ReadPresent(expiry: I64, dataLen: nat, firstByte: Option<Byte>)

  function KeeperRead(account: Option<Account>, sasId: Address, credential: Address, schema: Address, holder: Address)
    : AttestationRead
  {
    if account.None? || account.value.data == [] then ReadMissing
    else
      var data := account.value.data;
      if account.value.owner != sasId || |data| < DATA || data[0] != 2 then ReadBad
      else if KeyAt(data, 1) != holder || KeyAt(data, 33) != credential || KeyAt(data, 65) != schema then ReadBad
      else
        var dataLen := LeNat(Slice(data, 97, 4));
        var expiryAt := DATA + dataLen + SIGNER_LEN;
        if |data| < expiryAt + 8 then ReadBad
        else ReadPresent(LeI64(Slice(data, expiryAt, 8)), dataLen, if dataLen >= 1 then Some(data[DATA]) else None)
  }

  /** None is the keeper's "bad". */
  function CredentialState(read: AttestationRead, minKycLevel: Byte, now: I64): Option<Credential> {
    match read
    case ReadMissing => Some(Missing)
    case ReadBad => None
    case ReadPresent(expiry, _, firstByte) =>
      if expiry != 0 && expiry < now then Some(Expired)
      else if minKycLevel > 0 && firstByte.None? then None
      else if minKycLevel > 0 && firstByte.value < minKycLevel then Some(LevelTooLow)
      else Some(Valid)
  }

  // ----- Writing an attestation and reading it back

  /** What an attestation account holds, in the order the SAS program writes it. */
  datatype Attestation = Attestation(
    nonce: Address, credential: Address, schema: Address, data: seq<Byte>, signer: Address, expiry: I64,
    tokenAccount: Address)

  /** Account type 2, the three keys, the length and the data, then signer, expiry and token account. */
  function Serialize(a: Attestation): (s: seq<Byte>)
    ensures |s| == 173 + |a.data|
  {
    [2] + a.nonce + a.credential + a.schema + LeBytes(|a.data|, 4) + a.data + a.signer + I64Bytes(a.expiry)
    + a.tokenAccount
  }

  /** SAS's own rule for a live attestation, then the level in the first data byte, if the policy asks for one. */
  function Judged(a: Attestation, minKycLevel: Byte, now: I64): Option<Credential> {
    if a.expiry != 0 && a.expiry < now then Some(Expired)
    else if minKycLevel == 0 then Some(Valid)
    else if a.data == [] then None
    else Some(if a.data[0] < minKycLevel then LevelTooLow else Valid)
  }

  /** Where every field lands, in any bytes that start with the first `n` bytes of the attestation. */
  lemma AttestationFields(a: Attestation, data: seq<Byte>, n: nat)
    requires |a.data| < 0x1_0000_0000
    requires n <= |data| && n <= |Serialize(a)| && data[..n] == Serialize(a)[..n]
    ensures n >= 101 ==>
      && data[0] == 2 && KeyAt(data, 1) == a.nonce && KeyAt(data, 33) == a.credential && KeyAt(data, 65) == a.schema
      && LeNat(Slice(data, 97, 4)) == |a.data|
    ensures n >= 101 + |a.data| && a.data != [] ==> data[101] == a.data[0]
    ensures n >= 141 + |a.data| ==> LeI64(Slice(data, 133 + |a.data|, 8)) == a.expiry
  {
    var s, len, at := Serialize(a), LeBytes(|a.data|, 4), I64Bytes(a.expiry);
    Pow256Values();
    LeRoundTrip(|a.data|, 4);
    I64RoundTrip(a.expiry);
    forall i | 0 <= i < n ensures data[i] == s[i] {
      assert data[i] == data[..n][i] == s[..n][i];
    }
    if n >= 101 {
      assert KeyAt(data, 1) == a.nonce && KeyAt(data, 33) == a.credential && KeyAt(data, 65) == a.schema;
      assert Slice(data, 97, 4) == len;
    }
    if n >= 141 + |a.data| {
      assert Slice(data, 133 + |a.data|, 8) == at;
    }
  }

  /**
   * Gate and keeper read what SAS wrote, whatever the account holds behind it: expired, below the level, without a
   * level byte or valid, at every clock and every required level.
   */
  lemma AttestationRoundTrip(a: Attestation, sasId: Address, minKycLevel: Byte, now: I64, tail: seq<Byte>)
    requires |a.data| < 0x1_0000_0000
    ensures var account := Account(sasId, Serialize(a) + tail);
      && GateRead(account, sasId, a.credential, a.schema, a.nonce, minKycLevel, now) == Judged(a, minKycLevel, now)
      && CredentialState(KeeperRead(Some(account), sasId, a.credential, a.schema, a.nonce), minKycLevel, now)
         == Judged(a, minKycLevel, now)
  {
    var s := Serialize(a);
    assert (s + tail)[..|s|] == s[..|s|];
    AttestationFields(a, s + tail, |s|);
  }

  /** An attestation of another program, holder, credential or schema is refused by both. */
  lemma AttestationOfAnother(a: Attestation, program: Address, sasId: Address, credential: Address, schema: Address,
                             owner: Address, minKycLevel: Byte, now: I64, tail: seq<Byte>)
    requires |a.data| < 0x1_0000_0000
    requires program != sasId || owner != a.nonce || credential != a.credential || schema != a.schema
    ensures var account := Account(program, Serialize(a) + tail);
      && GateRead(account, sasId, credential, schema, owner, minKycLevel, now).None?
      && KeeperRead(Some(account), sasId, credential, schema, owner).ReadBad?
  {
    var s := Serialize(a);
    assert (s + tail)[..|s|] == s[..|s|];
    AttestationFields(a, s + tail, |s|);
  }

  /** So is an account of SAS that is not an attestation. */
  lemma NotAnAttestation(a: Attestation, b: Byte, sasId: Address, minKycLevel: Byte, now: I64)
    requires b != 2
    ensures var account := Account(sasId, Serialize(a)[0 := b]);
      && GateRead(account, sasId, a.credential, a.schema, a.nonce, minKycLevel, now).None?
      && KeeperRead(Some(account), sasId, a.credential, a.schema, a.nonce).ReadBad?
  {
    assert Serialize(a)[0 := b][0] == b;
  }

  /** So is an attestation cut anywhere before its expiry ends; a cut after that loses nothing that is read. */
  lemma AttestationTruncation(a: Attestation, sasId: Address, minKycLevel: Byte, now: I64, n: nat)
    requires |a.data| < 0x1_0000_0000 && 0 < n <= |Serialize(a)|
    ensures var account := Account(sasId, Serialize(a)[..n]);
      var whole := n >= 141 + |a.data|;
      && GateRead(account, sasId, a.credential, a.schema, a.nonce, minKycLevel, now)
         == (if whole then Judged(a, minKycLevel, now) else None)
      && (KeeperRead(Some(account), sasId, a.credential, a.schema, a.nonce).ReadBad? <==> !whole)
  {
    var data := Serialize(a)[..n];
    assert data[..n] == Serialize(a)[..n];
    AttestationFields(a, data, n);
  }

  /** No account, or an empty one, is a missing credential to both. */
  lemma NoAttestation(owner: Address, sasId: Address, credential: Address, schema: Address, holder: Address,
                      minKycLevel: Byte, now: I64)
    ensures GateRead(Account(owner, []), sasId, credential, schema, holder, minKycLevel, now) == Some(Missing)
    ensures KeeperRead(None, sasId, credential, schema, holder) == ReadMissing
    ensures KeeperRead(Some(Account(owner, [])), sasId, credential, schema, holder) == ReadMissing
    ensures CredentialState(ReadMissing, minKycLevel, now) == Some(Missing)
  {
  }
}
