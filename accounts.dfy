/**
 * The two account layouts of the on-chain program
 * (programs/shadow-lend/src/lib.rs, `Pool` and `Position`) and their Anchor
 * serialisation: an 8-byte account discriminator followed by the Borsh
 * encoding of the fields in declaration order.
 */
module Accounts {
  import opened Bytes

  type Pubkey = Bytes32

  /** Public pool state. */
  datatype Pool = Pool(
    authority: Pubkey,
    collateralMint: Pubkey,
    borrowMint: Pubkey,
    ltvRatio: u16,
    interestRate: u16,
    liquidationThreshold: u16,
    totalDeposits: u64,
    totalBorrows: u64,
    activePositions: u64,
    bump: u8,
    isActive: bool)

  /** A user's position; both amounts are stored only as 32-byte ciphertexts. */
  datatype Position = Position(
    owner: Pubkey,
    pool: Pubkey,
    encryptedCollateral: Bytes32,
    encryptedDebt: Bytes32,
    lastUpdate: i64,
    isActive: bool,
    bump: u8)

  /** The account discriminator Anchor prepends; its value is opaque here. */
  type Discriminator = s: seq<byte> | |s| == 8 witness Zeros(8)

  const DISCRIMINATOR_SIZE: nat := 8

  /** `8 + Pool::INIT_SPACE`. */
  const POOL_SPACE: nat := 8 + 32 + 32 + 32 + 2 + 2 + 2 + 8 + 8 + 8 + 1 + 1

  /** `8 + Position::INIT_SPACE`. */
  const POSITION_SPACE: nat := 8 + 32 + 32 + 32 + 32 + 8 + 1 + 1

  /**
   * `new PublicKey(bytes)` for at most 32 bytes: the bytes are read as a
   * big-endian number, so a short slice comes back zero-padded in front.
   */
  function PublicKeyFrom(bytes: seq<byte>): (key: Pubkey)
    requires |bytes| <= 32
    ensures |bytes| == 32 ==> key == bytes
  {
    Zeros(32 - |bytes|) + bytes
  }

  /** Borsh `bool`. */
  function BoolByte(b: bool): byte
  {
    if b then 1 else 0
  }

  /** Borsh `i64`: two's complement, little-endian. */
  function I64LE(x: i64): (r: seq<byte>)
    ensures |r| == 8
  {
    ToLE(ToUnsigned64(x), 8)
  }

  function EncodePool(p: Pool, discriminator: Discriminator): (data: seq<byte>)
    ensures |data| == POOL_SPACE
  {
    discriminator + p.authority + p.collateralMint + p.borrowMint
      + ToLE(p.ltvRatio, 2) + ToLE(p.interestRate, 2) + ToLE(p.liquidationThreshold, 2)
      + ToLE(p.totalDeposits, 8) + ToLE(p.totalBorrows, 8) + ToLE(p.activePositions, 8)
      + [p.bump] + [BoolByte(p.isActive)]
  }

  function EncodePosition(p: Position, discriminator: Discriminator): (data: seq<byte>)
    ensures |data| == POSITION_SPACE
  {
    discriminator + p.owner + p.pool + p.encryptedCollateral + p.encryptedDebt
      + I64LE(p.lastUpdate) + [BoolByte(p.isActive)] + [p.bump]
  }

  /** Where each pool field lives in the account data. */
  lemma PoolLayout(p: Pool, discriminator: Discriminator)
    ensures EncodePool(p, discriminator)[8..40] == p.authority
    ensures EncodePool(p, discriminator)[40..72] == p.collateralMint
    ensures EncodePool(p, discriminator)[72..104] == p.borrowMint
    ensures EncodePool(p, discriminator)[104..106] == ToLE(p.ltvRatio, 2)
    ensures EncodePool(p, discriminator)[106..108] == ToLE(p.interestRate, 2)
    ensures EncodePool(p, discriminator)[108..110] == ToLE(p.liquidationThreshold, 2)
    ensures EncodePool(p, discriminator)[110..118] == ToLE(p.totalDeposits, 8)
    ensures EncodePool(p, discriminator)[118..126] == ToLE(p.totalBorrows, 8)
    ensures EncodePool(p, discriminator)[126..134] == ToLE(p.activePositions, 8)
    ensures EncodePool(p, discriminator)[134] == p.bump
    ensures EncodePool(p, discriminator)[135] == BoolByte(p.isActive)
  {
    var d := EncodePool(p, discriminator);
    var s0 := discriminator + p.authority;
    var s1 := s0 + p.collateralMint;
    var s2 := s1 + p.borrowMint;
    var s3 := s2 + ToLE(p.ltvRatio, 2);
    var s4 := s3 + ToLE(p.interestRate, 2);
    var s5 := s4 + ToLE(p.liquidationThreshold, 2);
    var s6 := s5 + ToLE(p.totalDeposits, 8);
    var s7 := s6 + ToLE(p.totalBorrows, 8);
    var s8 := s7 + ToLE(p.activePositions, 8);
    assert d == s8 + [p.bump] + [BoolByte(p.isActive)];
    assert d[..134] == s8;
    assert s8[..126] == s7 && s7[..118] == s6 && s6[..110] == s5 && s5[..108] == s4;
    assert s4[..106] == s3 && s3[..104] == s2 && s2[..72] == s1 && s1[..40] == s0;
  }

  /** Where each position field lives in the account data. */
  lemma PositionLayout(p: Position, discriminator: Discriminator)
    ensures EncodePosition(p, discriminator)[8..40] == p.owner
    ensures EncodePosition(p, discriminator)[40..72] == p.pool
    ensures EncodePosition(p, discriminator)[72..104] == p.encryptedCollateral
    ensures EncodePosition(p, discriminator)[104..136] == p.encryptedDebt
    ensures EncodePosition(p, discriminator)[136..144] == I64LE(p.lastUpdate)
    ensures EncodePosition(p, discriminator)[144] == BoolByte(p.isActive)
    ensures EncodePosition(p, discriminator)[145] == p.bump
  {
    var d := EncodePosition(p, discriminator);
    var s0 := discriminator + p.owner;
    var s1 := s0 + p.pool;
    var s2 := s1 + p.encryptedCollateral;
    var s3 := s2 + p.encryptedDebt;
    var s4 := s3 + I64LE(p.lastUpdate);
    assert d == s4 + [BoolByte(p.isActive)] + [p.bump];
    assert d[..144] == s4;
    assert s4[..136] == s3 && s3[..104] == s2 && s2[..72] == s1 && s1[..40] == s0;
  }
}
