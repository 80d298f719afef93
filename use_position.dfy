/**
 * The position account decoder of app/src/hooks/usePosition.ts and the
 * decrypted record the hook builds from it, on the fetch path and in the
 * effect that re-decodes once the encryption key arrives.
 */
module UsePosition {
  import opened Bytes
  import opened Wrappers
  import opened Accounts
  import opened Encryption

  const POSITION_SIZE: nat := 8 + 32 + 32 + 32 + 32 + 8 + 1 + 1

  /** The position fields at their fixed offsets; `lastUpdate` is signed. */
  function PositionAt(data: seq<byte>): Position
    requires |data| >= POSITION_SIZE
  {
    Pow256Widths();
    Position(data[8..40], data[40..72], data[72..104], data[104..136],
             ToSigned64(FromLE(data[136..144])), data[144] == 1, data[145])
  }

  /**
   * `deserializePosition`: a running offset from 8; the first read past the
   * end throws, so exactly the accounts shorter than `POSITION_SIZE` fail.
   */
  method DeserializePosition(data: seq<byte>) returns (r: Option<Position>)
    ensures r == if |data| < POSITION_SIZE then None else Some(PositionAt(data))
  {
    Pow256Widths();
    var offset := 8;
    var owner := PublicKeyFrom(Subarray(data, offset, offset + 32));
    offset := offset + 32;
    var pool := PublicKeyFrom(Subarray(data, offset, offset + 32));
    offset := offset + 32;
    var encryptedCollateral := Subarray(data, offset, offset + 32);
    offset := offset + 32;
    var encryptedDebt := Subarray(data, offset, offset + 32);
    offset := offset + 32;
    var lastUpdate :- ReadInt64LE(data, offset);
    offset := offset + 8;
    var activeByte :- ReadUIntLE(data, offset, 1);
    offset := offset + 1;
    var bump :- ReadUIntLE(data, offset, 1);
    assert data[144..145] == [data[144]] && data[145..146] == [data[145]];
    r := Some(Position(owner, pool, encryptedCollateral, encryptedDebt, lastUpdate, activeByte == 1, bump));
  }

  /** Decoding the Anchor encoding of a position, with anything after it, gives it back. */
  lemma PositionRoundTrip(p: Position, discriminator: Discriminator, trailing: seq<byte>)
    ensures PositionAt(EncodePosition(p, discriminator) + trailing) == p
  {
    var e := EncodePosition(p, discriminator);
    var data := e + trailing;
    PositionLayout(p, discriminator);
    assert data[..POSITION_SIZE] == e;
    assert data[8..40] == e[8..40] && data[40..72] == e[40..72];
    assert data[72..104] == e[72..104] && data[104..136] == e[104..136];
    assert data[136..144] == e[136..144];
    Pow256Widths();
    FromLEToLE(ToUnsigned64(p.lastUpdate), 8);
  }

  /** Only bytes 8..146 are read. */
  lemma PositionReadsOnlyFields(a: seq<byte>, b: seq<byte>)
    requires |a| >= POSITION_SIZE && |b| >= POSITION_SIZE && a[8..POSITION_SIZE] == b[8..POSITION_SIZE]
    ensures PositionAt(a) == PositionAt(b)
  {
    forall i | 8 <= i < POSITION_SIZE
      ensures a[i] == b[i]
    {
      assert a[i] == a[8..POSITION_SIZE][i - 8] && b[i] == b[8..POSITION_SIZE][i - 8];
    }
    assert a[8..40] == b[8..40] && a[40..72] == b[40..72];
    assert a[72..104] == b[72..104] && a[104..136] == b[104..136] && a[136..144] == b[136..144];
  }

  /** Both ciphertexts are copied verbatim, and `isActive` is `data[144] === 1`. */
  lemma PositionFields(data: seq<byte>)
    requires |data| >= POSITION_SIZE
    ensures |PositionAt(data).encryptedCollateral| == 32 && |PositionAt(data).encryptedDebt| == 32
    ensures PositionAt(data).encryptedCollateral == data[72..104]
    ensures PositionAt(data).encryptedDebt == data[104..136]
    ensures PositionAt(data).isActive <==> data[144] == 1
  {
  }

  /** The decrypted view of a position (`DecodedPosition`); `lastUpdate` becomes milliseconds. */
  datatype DecodedPosition = DecodedPosition(
    owner: Pubkey,
    pool: Pubkey,
    collateral: u64,
    debt: u64,
    healthFactor: HealthFactor,
    lastUpdateMillis: int,
    isActive: bool)

  /** The record both decode paths build: nothing unless both ciphertexts decrypt. */
  function DecodeRecord(p: Position, keyPair: EncryptionKeyPair, pool: Pool, hash: Sha512): (d: Option<DecodedPosition>)
    ensures d.Some? <==>
      Plaintext(p.encryptedCollateral, keyPair, hash).Some? && Plaintext(p.encryptedDebt, keyPair, hash).Some?
    ensures d.Some? ==>
      Plaintext(p.encryptedCollateral, keyPair, hash) == Some(d.value.collateral) &&
      Plaintext(p.encryptedDebt, keyPair, hash) == Some(d.value.debt) &&
      d.value.owner == p.owner && d.value.pool == p.pool && d.value.isActive == p.isActive &&
      d.value.lastUpdateMillis == p.lastUpdate * 1000 &&
      d.value.healthFactor == ComputeHealthFactor(d.value.collateral, d.value.debt, pool.liquidationThreshold)
  {
    var collateral := Plaintext(p.encryptedCollateral, keyPair, hash);
    var debt := Plaintext(p.encryptedDebt, keyPair, hash);
    if collateral.None? || debt.None? then None
    else Some(DecodedPosition(p.owner, p.pool, collateral.value, debt.value,
                              ComputeHealthFactor(collateral.value, debt.value, pool.liquidationThreshold),
                              p.lastUpdate * 1000, p.isActive))
  }

  /** The shared decode step: two decryptions, then the record with the pool's threshold. */
  method Decode(p: Position, keyPair: EncryptionKeyPair, pool: Pool, hash: Sha512) returns (d: Option<DecodedPosition>)
    ensures d == DecodeRecord(p, keyPair, pool, hash)
  {
    var collateral := DecryptAmount(p.encryptedCollateral, keyPair, hash);
    var debt := DecryptAmount(p.encryptedDebt, keyPair, hash);
    if collateral.Some? && debt.Some? {
      var healthFactor := ComputeHealthFactor(collateral.value, debt.value, pool.liquidationThreshold);
      d := Some(DecodedPosition(p.owner, p.pool, collateral.value, debt.value, healthFactor,
                                p.lastUpdate * 1000, p.isActive));
    } else {
      d := None;
    }
  }

  /**
   * A position whose ciphertexts the client produced with fresh nonces
   * decodes to the amounts it encrypted, with the health factor of those
   * amounts; owner, pool and the flag are copied from the account.
   */
  lemma DecodeRecordOfEncrypted(p: Position, keyPair: EncryptionKeyPair, pool: Pool, hash: Sha512,
                                collateral: u64, debt: u64, nonce1: seq<byte>, nonce2: seq<byte>)
    requires |nonce1| == NONCE_LENGTH && !AllZero(nonce1) && |nonce2| == NONCE_LENGTH && !AllZero(nonce2)
    requires p.encryptedCollateral == Ciphertext(collateral, keyPair, nonce1, hash)
    requires p.encryptedDebt == Ciphertext(debt, keyPair, nonce2, hash)
    ensures DecodeRecord(p, keyPair, pool, hash) == Some(DecodedPosition(
      p.owner, p.pool, collateral, debt, ComputeHealthFactor(collateral, debt, pool.liquidationThreshold),
      p.lastUpdate * 1000, p.isActive))
  {
    RoundTripU64(collateral, keyPair, nonce1, hash);
    RoundTripU64(debt, keyPair, nonce2, hash);
    DecodeRecordOfPlaintexts(p, keyPair, pool, hash, collateral, debt);
  }

  lemma DecodeRecordOfPlaintexts(p: Position, keyPair: EncryptionKeyPair, pool: Pool, hash: Sha512, collateral: u64, debt: u64)
    requires Plaintext(p.encryptedCollateral, keyPair, hash) == Some(collateral)
    requires Plaintext(p.encryptedDebt, keyPair, hash) == Some(debt)
    ensures DecodeRecord(p, keyPair, pool, hash) == Some(DecodedPosition(
      p.owner, p.pool, collateral, debt, ComputeHealthFactor(collateral, debt, pool.liquidationThreshold),
      p.lastUpdate * 1000, p.isActive))
  {
  }

  /** The amounts alone, for callers that do not need the health factor. */
  lemma DecodedAmounts(p: Position, keyPair: EncryptionKeyPair, pool: Pool, hash: Sha512, collateral: u64, debt: u64)
    requires Plaintext(p.encryptedCollateral, keyPair, hash) == Some(collateral)
    requires Plaintext(p.encryptedDebt, keyPair, hash) == Some(debt)
    ensures DecodeRecord(p, keyPair, pool, hash).Some?
    ensures DecodeRecord(p, keyPair, pool, hash).value.collateral == collateral
    ensures DecodeRecord(p, keyPair, pool, hash).value.debt == debt
  {
    DecodeRecordOfPlaintexts(p, keyPair, pool, hash, collateral, debt);
  }

  /** A freshly opened position (both ciphertexts zero) decodes to zero amounts and infinite health. */
  lemma DecodeRecordOfEmpty(p: Position, keyPair: EncryptionKeyPair, pool: Pool, hash: Sha512)
    requires p.encryptedCollateral == Zeros(32) && p.encryptedDebt == Zeros(32)
    ensures DecodeRecord(p, keyPair, pool, hash).Some?
    ensures DecodeRecord(p, keyPair, pool, hash).value.collateral == 0
    ensures DecodeRecord(p, keyPair, pool, hash).value.debt == 0
    ensures DecodeRecord(p, keyPair, pool, hash).value.healthFactor == Infinity
  {
  }

  /** The state `usePosition` keeps. */
  class PositionHook {
    var position: Option<Position>
    var decodedPosition: Option<DecodedPosition>
    var failed: bool

    constructor ()
      ensures position == None && decodedPosition == None && !failed
    {
      position := None;
      decodedPosition := None;
      failed := false;
    }

    /**
     * `fetchPosition`, given the wallet key, what `getAccountInfo` returned,
     * and the encryption key and pool currently known. The decoded record is
     * replaced only when the key and pool are present and both amounts
     * decrypt; otherwise the previous one is kept.
     */
    method FetchPosition(publicKey: Option<Pubkey>, accountData: Option<seq<byte>>,
                         encryptionKey: Option<EncryptionKeyPair>, pool: Option<Pool>, hash: Sha512)
      modifies this
      ensures publicKey.None? ==> position == None && decodedPosition == None && failed == old(failed)
      ensures publicKey.Some? && accountData.None? ==> position == None && decodedPosition == None && !failed
      ensures publicKey.Some? && accountData.Some? && |accountData.value| < POSITION_SIZE ==>
        failed && position == old(position) && decodedPosition == old(decodedPosition)
      ensures publicKey.Some? && accountData.Some? && |accountData.value| >= POSITION_SIZE ==>
        !failed && position == Some(PositionAt(accountData.value)) &&
        decodedPosition ==
          if encryptionKey.None? || pool.None? then old(decodedPosition)
          else match DecodeRecord(position.value, encryptionKey.value, pool.value, hash)
               case Some(d) => Some(d)
               case None => old(decodedPosition)
    {
      if publicKey.None? {
        position := None;
        decodedPosition := None;
        return;
      }
      failed := false;
      if accountData.None? {
        position := None;
        decodedPosition := None;
        return;
      }
      var positionData := DeserializePosition(accountData.value);
      if positionData.None? {
        failed := true;
        return;
      }
      position := positionData;
      if encryptionKey.Some? && pool.Some? {
        var decoded := Decode(positionData.value, encryptionKey.value, pool.value, hash);
        if decoded.Some? {
          decodedPosition := decoded;
        }
      }
    }

    /** The effect that re-decodes the stored position when the key or pool changes. */
    method Redecode(encryptionKey: Option<EncryptionKeyPair>, pool: Option<Pool>, hash: Sha512)
      modifies this`decodedPosition
      ensures decodedPosition ==
        if encryptionKey.None? || position.None? || pool.None? then old(decodedPosition)
        else match DecodeRecord(position.value, encryptionKey.value, pool.value, hash)
             case Some(d) => Some(d)
             case None => old(decodedPosition)
    {
      if encryptionKey.Some? && position.Some? && pool.Some? {
        var decoded := Decode(position.value, encryptionKey.value, pool.value, hash);
        if decoded.Some? {
          decodedPosition := decoded;
        }
      }
    }
  }

  /**
   * The two paths agree: fetching with the key at hand yields the same record
   * as fetching without it and re-decoding once the key is available.
   */
  method FetchAndRedecodeAgree(publicKey: Pubkey, accountData: seq<byte>, encryptionKey: EncryptionKeyPair,
                               pool: Pool, hash: Sha512)
    returns (eager: Option<DecodedPosition>, deferred: Option<DecodedPosition>)
    ensures eager == deferred
    ensures |accountData| >= POSITION_SIZE ==>
      eager == DecodeRecord(PositionAt(accountData), encryptionKey, pool, hash)
  {
    var first := new PositionHook();
    first.FetchPosition(Some(publicKey), Some(accountData), Some(encryptionKey), Some(pool), hash);
    eager := first.decodedPosition;

    var second := new PositionHook();
    second.FetchPosition(Some(publicKey), Some(accountData), None, Some(pool), hash);
    second.Redecode(Some(encryptionKey), Some(pool), hash);
    deferred := second.decodedPosition;
  }
}
