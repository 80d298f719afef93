/**
 * The instruction data the lending hook (app/src/hooks/useLending.ts) builds
 * for each action, the balances it encrypts, and the transaction status it
 * reports. The program side of the wire format is the Borsh layout of the
 * handler arguments in programs/shadow-lend/src/lib.rs.
 */
module UseLending {
  import opened Bytes
  import opened Wrappers
  import opened Accounts
  import opened Encryption
  import opened UsePosition
  import Ledger

  // ---------------------------------------------------------------------
  // Discriminators
  // ---------------------------------------------------------------------

  // The client's table (`DISCRIMINATORS` in useLending.ts).
  const OPEN_POSITION: Discriminator := [135, 128, 47, 77, 15, 152, 240, 49]
  const DEPOSIT_COLLATERAL: Discriminator := [138, 147, 160, 52, 220, 190, 117, 13]
  const BORROW: Discriminator := [228, 253, 131, 202, 207, 116, 166, 78]
  const REPAY: Discriminator := [234, 103, 67, 82, 247, 168, 156, 32]
  const WITHDRAW_COLLATERAL: Discriminator := [115, 135, 168, 106, 139, 214, 138, 150]
  const CLOSE_POSITION: Discriminator := [123, 134, 81, 0, 49, 68, 98, 98]

  /**
   * The program's selectors: the dispatcher that Anchor's `#[program]`
   * generates compares the first 8 bytes of the data with the first 8 bytes
   * of sha256("global:<handler name>"), written out here.
   */
  const PROGRAM_INITIALIZE_POOL: Discriminator := [95, 180, 10, 172, 84, 174, 232, 40]
  const PROGRAM_OPEN_POSITION: Discriminator := [135, 128, 47, 77, 15, 152, 240, 49]
  const PROGRAM_DEPOSIT_COLLATERAL: Discriminator := [156, 131, 142, 116, 146, 247, 162, 120]
  const PROGRAM_BORROW: Discriminator := [228, 253, 131, 202, 207, 116, 89, 18]
  const PROGRAM_REPAY: Discriminator := [234, 103, 67, 82, 208, 234, 219, 166]
  const PROGRAM_WITHDRAW_COLLATERAL: Discriminator := [115, 135, 168, 106, 139, 214, 138, 150]
  const PROGRAM_LIQUIDATE: Discriminator := [223, 179, 226, 125, 48, 46, 39, 74]
  const PROGRAM_CLOSE_POSITION: Discriminator := [123, 134, 81, 0, 49, 68, 98, 98]

  predicate IsProgramSelector(d: Discriminator)
  {
    d == PROGRAM_INITIALIZE_POOL || d == PROGRAM_OPEN_POSITION || d == PROGRAM_DEPOSIT_COLLATERAL ||
    d == PROGRAM_BORROW || d == PROGRAM_REPAY || d == PROGRAM_WITHDRAW_COLLATERAL ||
    d == PROGRAM_LIQUIDATE || d == PROGRAM_CLOSE_POSITION
  }

  /** The program's eight selectors differ already in their first byte. */
  lemma ProgramSelectorsDistinct()
    ensures PROGRAM_INITIALIZE_POOL[0] == 95 && PROGRAM_OPEN_POSITION[0] == 135
    ensures PROGRAM_DEPOSIT_COLLATERAL[0] == 156 && PROGRAM_BORROW[0] == 228 && PROGRAM_REPAY[0] == 234
    ensures PROGRAM_WITHDRAW_COLLATERAL[0] == 115 && PROGRAM_LIQUIDATE[0] == 223 && PROGRAM_CLOSE_POSITION[0] == 123
  {
  }

  /**
   * The client's table against the program's: open, withdraw and close agree;
   * deposit, borrow and repay are none of the program's selectors.
   */
  lemma SelectorsCompared()
    ensures OPEN_POSITION == PROGRAM_OPEN_POSITION && CLOSE_POSITION == PROGRAM_CLOSE_POSITION
    ensures WITHDRAW_COLLATERAL == PROGRAM_WITHDRAW_COLLATERAL
    ensures !IsProgramSelector(DEPOSIT_COLLATERAL) && !IsProgramSelector(BORROW) && !IsProgramSelector(REPAY)
  {
    ProgramSelectorsDistinct();
    assert DEPOSIT_COLLATERAL[0] == 138;
    assert BORROW[0] == 228 && BORROW[6] == 166 && PROGRAM_BORROW[6] == 89;
    assert REPAY[0] == 234 && REPAY[4] == 247 && PROGRAM_REPAY[4] == 208;
  }

  /** No two of the client's discriminators coincide. */
  lemma DiscriminatorsDistinct()
    ensures OPEN_POSITION != DEPOSIT_COLLATERAL && OPEN_POSITION != BORROW && OPEN_POSITION != REPAY
    ensures OPEN_POSITION != WITHDRAW_COLLATERAL && OPEN_POSITION != CLOSE_POSITION
    ensures DEPOSIT_COLLATERAL != BORROW && DEPOSIT_COLLATERAL != REPAY
    ensures DEPOSIT_COLLATERAL != WITHDRAW_COLLATERAL && DEPOSIT_COLLATERAL != CLOSE_POSITION
    ensures BORROW != REPAY && BORROW != WITHDRAW_COLLATERAL && BORROW != CLOSE_POSITION
    ensures REPAY != WITHDRAW_COLLATERAL && REPAY != CLOSE_POSITION
    ensures WITHDRAW_COLLATERAL != CLOSE_POSITION
  {
    assert OPEN_POSITION[0] == 135 && DEPOSIT_COLLATERAL[0] == 138 && BORROW[0] == 228;
    assert REPAY[0] == 234 && WITHDRAW_COLLATERAL[0] == 115 && CLOSE_POSITION[0] == 123;
  }

  // ---------------------------------------------------------------------
  // Wire format
  // ---------------------------------------------------------------------

  /** Deposit and repay: discriminator, `amount: u64`, a 32-byte ciphertext. */
  function AmountData(discriminator: Discriminator, amount: u64, ciphertext: Bytes32): seq<byte>
  {
    discriminator + ToLE(amount, 8) + ciphertext
  }

  /** Borrow and withdraw: as above, then `inco_proof: Vec<u8>` (a u32 length and the bytes). */
  function ProofData(discriminator: Discriminator, amount: u64, ciphertext: Bytes32, proof: seq<byte>): seq<byte>
    requires |proof| < TWO_32
  {
    discriminator + ToLE(amount, 8) + ciphertext + ToLE(|proof|, 4) + proof
  }

  /** A decoded instruction, as the program's dispatcher hands it to a handler. */
  datatype Instruction =
    | InitializePoolIx(collateralMint: Pubkey, borrowMint: Pubkey, ltvRatio: u16, interestRate: u16,
                       liquidationThreshold: u16)
    | OpenPositionIx
    | DepositCollateralIx(amount: u64, encryptedAmount: Bytes32)
    | BorrowIx(amount: u64, encryptedNewDebt: Bytes32, incoProof: seq<byte>)
    | RepayIx(amount: u64, encryptedNewDebt: Bytes32)
    | WithdrawCollateralIx(amount: u64, encryptedNewCollateral: Bytes32, incoProof: seq<byte>)
    | LiquidateIx(incoProof: seq<byte>)
    | ClosePositionIx

  /**
   * The program's reading of instruction data: the selector picks the handler
   * and its arguments follow in Borsh order; bytes after the last argument
   * are not read. Short data and an unknown selector are refused before any
   * handler runs.
   */
  function ParseInstruction(data: seq<byte>): (r: Option<Instruction>)
    ensures r.Some? ==> |data| >= 8
  {
    if |data| < 8 then None
    else
      var selector := data[..8];
      if selector == PROGRAM_OPEN_POSITION then Some(OpenPositionIx)
      else if selector == PROGRAM_CLOSE_POSITION then Some(ClosePositionIx)
      else if selector == PROGRAM_INITIALIZE_POOL then PoolConfigArgs(data)
      else if selector == PROGRAM_LIQUIDATE then
        var proof := VecArg(data, 8);
        if proof.None? then None else Some(LiquidateIx(proof.value))
      else if selector == PROGRAM_DEPOSIT_COLLATERAL || selector == PROGRAM_REPAY then
        var args := AmountArgs(data);
        if args.None? then None
        else if selector == PROGRAM_DEPOSIT_COLLATERAL then Some(DepositCollateralIx(args.value.0, args.value.1))
        else Some(RepayIx(args.value.0, args.value.1))
      else if selector == PROGRAM_BORROW || selector == PROGRAM_WITHDRAW_COLLATERAL then
        var args := AmountArgs(data);
        var proof := VecArg(data, 48);
        if args.None? || proof.None? then None
        else if selector == PROGRAM_BORROW then Some(BorrowIx(args.value.0, args.value.1, proof.value))
        else Some(WithdrawCollateralIx(args.value.0, args.value.1, proof.value))
      else None
  }

  /** Only the program's eight selectors reach a handler. */
  lemma OnlyProgramSelectorsParse(data: seq<byte>)
    ensures ParseInstruction(data).Some? ==> IsProgramSelector(data[..8])
  {
  }

  /** `initialize_pool`'s arguments: two public keys and three `u16` values. */
  function PoolConfigArgs(data: seq<byte>): (r: Option<Instruction>)
    ensures r.Some? ==> r.value.InitializePoolIx? && |data| >= 78
  {
    if |data| < 78 then None
    else
      Pow256Widths();
      Some(InitializePoolIx(data[8..40], data[40..72], FromLE(data[72..74]), FromLE(data[74..76]),
                            FromLE(data[76..78])))
  }

  /** `amount: u64` and a 32-byte ciphertext after the selector. */
  function AmountArgs(data: seq<byte>): (r: Option<(u64, Bytes32)>)
    ensures r.Some? ==> |data| >= 48
  {
    if |data| < 48 then None
    else
      Pow256Widths();
      Some((FromLE(data[8..16]), data[16..48]))
  }

  /** A Borsh `Vec<u8>` at `offset`: a `u32` length and that many bytes. */
  function VecArg(data: seq<byte>, offset: nat): (r: Option<seq<byte>>)
    ensures r.Some? ==> |data| >= offset + 4 + |r.value| && r.value == data[offset + 4..offset + 4 + |r.value|]
  {
    if |data| < offset + 4 then None
    else
      var length := FromLE(data[offset..offset + 4]);
      if |data| < offset + 4 + length then None else Some(data[offset + 4..offset + 4 + length])
  }

  /** The fields of amount data lie where the program reads them. */
  lemma AmountDataFields(discriminator: Discriminator, amount: u64, ciphertext: Bytes32)
    ensures |AmountData(discriminator, amount, ciphertext)| == 48
    ensures AmountData(discriminator, amount, ciphertext)[..8] == discriminator
    ensures AmountData(discriminator, amount, ciphertext)[8..16] == ToLE(amount, 8)
    ensures AmountData(discriminator, amount, ciphertext)[16..48] == ciphertext
  {
    var d := AmountData(discriminator, amount, ciphertext);
    assert d[..16] == discriminator + ToLE(amount, 8);
    assert d[..16][..8] == d[..8];
    assert d[..16][8..16] == d[8..16];
  }

  /** The fields of proof data lie where the program reads them. */
  lemma ProofDataFields(discriminator: Discriminator, amount: u64, ciphertext: Bytes32, proof: seq<byte>)
    requires |proof| < TWO_32
    ensures |ProofData(discriminator, amount, ciphertext, proof)| == 52 + |proof|
    ensures ProofData(discriminator, amount, ciphertext, proof)[..8] == discriminator
    ensures ProofData(discriminator, amount, ciphertext, proof)[8..16] == ToLE(amount, 8)
    ensures ProofData(discriminator, amount, ciphertext, proof)[16..48] == ciphertext
    ensures ProofData(discriminator, amount, ciphertext, proof)[48..52] == ToLE(|proof|, 4)
    ensures ProofData(discriminator, amount, ciphertext, proof)[52..] == proof
  {
    var d := ProofData(discriminator, amount, ciphertext, proof);
    var head := discriminator + ToLE(amount, 8) + ciphertext;
    assert d == head + ToLE(|proof|, 4) + proof;
    AmountDataFields(discriminator, amount, ciphertext);
    assert head == AmountData(discriminator, amount, ciphertext);
    assert d[..48] == head;
    assert d[..8] == head[..8] && d[8..16] == head[8..16] && d[16..48] == head[16..48];
    assert d[48..52] == ToLE(|proof|, 4);
  }

  /** The values the program reads from amount data. */
  lemma AmountDataReads(discriminator: Discriminator, amount: u64, ciphertext: Bytes32)
    ensures var d := AmountData(discriminator, amount, ciphertext);
      |d| == 48 && d[..8] == discriminator && FromLE(d[8..16]) == amount && d[16..48] == ciphertext
  {
    AmountDataFields(discriminator, amount, ciphertext);
    Pow256Widths();
    FromLEToLE(amount, 8);
  }

  /** Amount data under the program's deposit or repay selector reaches the handler with its arguments. */
  lemma ParseAmountData(amount: u64, ciphertext: Bytes32)
    ensures ParseInstruction(AmountData(PROGRAM_DEPOSIT_COLLATERAL, amount, ciphertext))
      == Some(DepositCollateralIx(amount, ciphertext))
    ensures ParseInstruction(AmountData(PROGRAM_REPAY, amount, ciphertext)) == Some(RepayIx(amount, ciphertext))
  {
    ProgramSelectorsDistinct();
    AmountDataReads(PROGRAM_DEPOSIT_COLLATERAL, amount, ciphertext);
    AmountDataReads(PROGRAM_REPAY, amount, ciphertext);
  }

  /** The values the program reads from proof data. */
  lemma ProofDataReads(discriminator: Discriminator, amount: u64, ciphertext: Bytes32, proof: seq<byte>)
    requires |proof| < TWO_32
    ensures var d := ProofData(discriminator, amount, ciphertext, proof);
      |d| == 52 + |proof| && d[..8] == discriminator && FromLE(d[8..16]) == amount && d[16..48] == ciphertext &&
      FromLE(d[48..52]) == |proof| && d[52..52 + |proof|] == proof
  {
    ProofDataFields(discriminator, amount, ciphertext, proof);
    var d := ProofData(discriminator, amount, ciphertext, proof);
    assert d[52..52 + |proof|] == d[52..];
    Pow256Widths();
    FromLEToLE(amount, 8);
    FromLEToLE(|proof|, 4);
  }

  /** Proof data under the program's borrow or withdraw selector reaches the handler, proof included. */
  lemma ParseProofData(amount: u64, ciphertext: Bytes32, proof: seq<byte>)
    requires |proof| < TWO_32
    ensures ParseInstruction(ProofData(PROGRAM_BORROW, amount, ciphertext, proof)) == Some(BorrowIx(amount, ciphertext, proof))
    ensures ParseInstruction(ProofData(PROGRAM_WITHDRAW_COLLATERAL, amount, ciphertext, proof))
      == Some(WithdrawCollateralIx(amount, ciphertext, proof))
  {
    ProgramSelectorsDistinct();
    ProofDataReads(PROGRAM_BORROW, amount, ciphertext, proof);
    ProofDataReads(PROGRAM_WITHDRAW_COLLATERAL, amount, ciphertext, proof);
  }

  /** The client's open and close data are the program's bare selectors. */
  lemma ParseBareData()
    ensures ParseInstruction(OPEN_POSITION) == Some(OpenPositionIx)
    ensures ParseInstruction(CLOSE_POSITION) == Some(ClosePositionIx)
  {
    SelectorsCompared();
    ProgramSelectorsDistinct();
    assert OPEN_POSITION[..8] == OPEN_POSITION && CLOSE_POSITION[..8] == CLOSE_POSITION;
  }

  /** As written, the program refuses the client's deposit, borrow and repay data before any handler runs. */
  lemma ClientSelectorsRefused(amount: u64, ciphertext: Bytes32, proof: seq<byte>)
    requires |proof| < TWO_32
    ensures ParseInstruction(AmountData(DEPOSIT_COLLATERAL, amount, ciphertext)) == None
    ensures ParseInstruction(AmountData(REPAY, amount, ciphertext)) == None
    ensures ParseInstruction(ProofData(BORROW, amount, ciphertext, proof)) == None
  {
    SelectorsCompared();
    OnlyProgramSelectorsParse(AmountData(DEPOSIT_COLLATERAL, amount, ciphertext));
    OnlyProgramSelectorsParse(AmountData(REPAY, amount, ciphertext));
    OnlyProgramSelectorsParse(ProofData(BORROW, amount, ciphertext, proof));
    AmountDataFields(DEPOSIT_COLLATERAL, amount, ciphertext);
    AmountDataFields(REPAY, amount, ciphertext);
    ProofDataFields(BORROW, amount, ciphertext, proof);
  }

  /** The program's selector for the instruction a client selector names. */
  function ProgramSelectorFor(clientSelector: Discriminator): Discriminator
  {
    if clientSelector == DEPOSIT_COLLATERAL then PROGRAM_DEPOSIT_COLLATERAL
    else if clientSelector == BORROW then PROGRAM_BORROW
    else if clientSelector == REPAY then PROGRAM_REPAY
    else clientSelector
  }

  /** Client data with the corrected selector in front and the same arguments after it. */
  function Reselect(data: seq<byte>): (corrected: seq<byte>)
    ensures |corrected| == |data|
  {
    if |data| < 8 then data else ProgramSelectorFor(data[..8]) + data[8..]
  }

  /** Reselecting amount data swaps the selector and keeps the arguments. */
  lemma ReselectAmountData(discriminator: Discriminator, amount: u64, ciphertext: Bytes32)
    ensures Reselect(AmountData(discriminator, amount, ciphertext))
      == AmountData(ProgramSelectorFor(discriminator), amount, ciphertext)
  {
    var data := AmountData(discriminator, amount, ciphertext);
    assert data[..8] == discriminator;
    assert data[8..] == ToLE(amount, 8) + ciphertext;
  }

  /** Reselecting proof data swaps the selector and keeps the arguments. */
  lemma ReselectProofData(discriminator: Discriminator, amount: u64, ciphertext: Bytes32, proof: seq<byte>)
    requires |proof| < TWO_32
    ensures Reselect(ProofData(discriminator, amount, ciphertext, proof))
      == ProofData(ProgramSelectorFor(discriminator), amount, ciphertext, proof)
  {
    var data := ProofData(discriminator, amount, ciphertext, proof);
    assert data[..8] == discriminator;
    assert data[8..] == ToLE(amount, 8) + ciphertext + ToLE(|proof|, 4) + proof;
  }

  /** Corrected deposit and repay data reach their handlers with the client's arguments. */
  lemma ReselectedAmountDataParses(amount: u64, ciphertext: Bytes32)
    ensures ParseInstruction(Reselect(AmountData(DEPOSIT_COLLATERAL, amount, ciphertext)))
      == Some(DepositCollateralIx(amount, ciphertext))
    ensures ParseInstruction(Reselect(AmountData(REPAY, amount, ciphertext))) == Some(RepayIx(amount, ciphertext))
  {
    DiscriminatorsDistinct();
    ParseAmountData(amount, ciphertext);
    ReselectAmountData(DEPOSIT_COLLATERAL, amount, ciphertext);
    ReselectAmountData(REPAY, amount, ciphertext);
  }

  /** Corrected borrow and withdraw data reach their handlers with the client's arguments and proof. */
  lemma ReselectedProofDataParses(amount: u64, ciphertext: Bytes32, proof: seq<byte>)
    requires |proof| < TWO_32
    ensures ParseInstruction(Reselect(ProofData(BORROW, amount, ciphertext, proof)))
      == Some(BorrowIx(amount, ciphertext, proof))
    ensures ParseInstruction(Reselect(ProofData(WITHDRAW_COLLATERAL, amount, ciphertext, proof)))
      == Some(WithdrawCollateralIx(amount, ciphertext, proof))
  {
    DiscriminatorsDistinct();
    SelectorsCompared();
    assert ProgramSelectorFor(BORROW) == PROGRAM_BORROW;
    assert ProgramSelectorFor(WITHDRAW_COLLATERAL) == PROGRAM_WITHDRAW_COLLATERAL;
    ReselectProofData(BORROW, amount, ciphertext, proof);
    ReselectProofData(WITHDRAW_COLLATERAL, amount, ciphertext, proof);
    ParseProofData(amount, ciphertext, proof);
  }

  /**
   * With the selectors corrected, every instruction the client builds reaches
   * the handler it names, with the client's arguments.
   */
  lemma ReselectedDataParses(amount: u64, ciphertext: Bytes32, proof: seq<byte>)
    requires |proof| < TWO_32
    ensures ParseInstruction(Reselect(OPEN_POSITION)) == Some(OpenPositionIx)
    ensures ParseInstruction(Reselect(AmountData(DEPOSIT_COLLATERAL, amount, ciphertext)))
      == Some(DepositCollateralIx(amount, ciphertext))
    ensures ParseInstruction(Reselect(ProofData(BORROW, amount, ciphertext, proof)))
      == Some(BorrowIx(amount, ciphertext, proof))
    ensures ParseInstruction(Reselect(AmountData(REPAY, amount, ciphertext))) == Some(RepayIx(amount, ciphertext))
    ensures ParseInstruction(Reselect(ProofData(WITHDRAW_COLLATERAL, amount, ciphertext, proof)))
      == Some(WithdrawCollateralIx(amount, ciphertext, proof))
    ensures ParseInstruction(Reselect(CLOSE_POSITION)) == Some(ClosePositionIx)
  {
    ReselectedAmountDataParses(amount, ciphertext);
    ReselectedProofDataParses(amount, ciphertext, proof);
    ReselectBareData();
    ParseBareData();
  }

  /** Open and close already carry the program's selectors. */
  lemma ReselectBareData()
    ensures Reselect(OPEN_POSITION) == OPEN_POSITION && Reselect(CLOSE_POSITION) == CLOSE_POSITION
  {
    DiscriminatorsDistinct();
    assert OPEN_POSITION[..8] == OPEN_POSITION && OPEN_POSITION[8..] == [];
    assert CLOSE_POSITION[..8] == CLOSE_POSITION && CLOSE_POSITION[8..] == [];
  }

  // ---------------------------------------------------------------------
  // Buffer assembly
  // ---------------------------------------------------------------------

  /** Why a builder throws before any transaction is sent. */
  datatype ClientError =
    | WalletNotConnected       // "Wallet not connected"
    | WalletOrPoolMissing      // "Wallet not connected or pool not loaded"
    | WalletOrPositionMissing  // "Wallet not connected or position not loaded"
    | NonPositiveAmount        // "Invalid amount"
    | AmountOutOfRange         // `writeBigUInt64LE` throws a RangeError

  /**
   * `Buffer.alloc(48)`, the discriminator at 0, `writeBigUInt64LE(amount, 8)`,
   * the ciphertext at 16. The write throws unless `0 <= amount < 2^64`.
   */
  method WriteAmountData(discriminator: Discriminator, amount: int, ciphertext: Bytes32)
    returns (r: Result<seq<byte>, ClientError>)
    ensures r == if amount < 0 || amount >= TWO_64 then Err(AmountOutOfRange)
                 else Ok(AmountData(discriminator, amount, ciphertext))
  {
    var data := new byte[48](_ => 0);
    assert data[..] == [] + Zeros(8) + Zeros(40);
    Write(data, 0, discriminator);
    OverwriteZeros([], discriminator, 8, Zeros(40));
    if amount < 0 || amount >= TWO_64 {
      return Err(AmountOutOfRange);
    }
    var le := ToLE(amount, 8);
    ZerosSplit(8, 32);
    assert data[..] == discriminator + Zeros(8) + Zeros(32);
    Write(data, 8, le);
    OverwriteZeros(discriminator, le, 8, Zeros(32));
    assert data[..] == (discriminator + le) + Zeros(32) + [];
    Write(data, 16, ciphertext);
    OverwriteZeros(discriminator + le, ciphertext, 32, []);
    assert data[..] == (discriminator + le) + ciphertext;
    r := Ok(data[..]);
  }

  /**
   * `Buffer.alloc(52 + proof.length)` filled at a running offset:
   * discriminator, amount, ciphertext, `writeUInt32LE(proof.length)`, proof.
   */
  method WriteProofData(discriminator: Discriminator, amount: int, ciphertext: Bytes32, proof: seq<byte>)
    returns (r: Result<seq<byte>, ClientError>)
    requires |proof| < TWO_32
    ensures r == if amount < 0 || amount >= TWO_64 then Err(AmountOutOfRange)
                 else Ok(ProofData(discriminator, amount, ciphertext, proof))
  {
    var n := |proof|;
    var data := new byte[52 + n](_ => 0);
    ZerosSplit(8, 44 + n);
    assert data[..] == [] + Zeros(8) + Zeros(44 + n);
    var offset := 0;
    Write(data, offset, discriminator);
    OverwriteZeros([], discriminator, 8, Zeros(44 + n));
    offset := offset + 8;
    if amount < 0 || amount >= TWO_64 {
      return Err(AmountOutOfRange);
    }
    var le := ToLE(amount, 8);
    ZerosSplit(8, 36 + n);
    assert data[..] == discriminator + Zeros(8) + Zeros(36 + n);
    Write(data, offset, le);
    OverwriteZeros(discriminator, le, 8, Zeros(36 + n));
    offset := offset + 8;
    var s1 := discriminator + le;
    ZerosSplit(32, 4 + n);
    assert data[..] == s1 + Zeros(32) + Zeros(4 + n);
    Write(data, offset, ciphertext);
    OverwriteZeros(s1, ciphertext, 32, Zeros(4 + n));
    offset := offset + 32;
    var s2 := s1 + ciphertext;
    assert data[..] == s2 + Zeros(4 + n);
    WriteVec(data, offset, s2, proof);
    r := Ok(data[..]);
  }

  /** The tail of `WriteProofData`: `writeUInt32LE(proof.length, offset)`, then the proof after it. */
  method WriteVec(data: array<byte>, offset: nat, written: seq<byte>, proof: seq<byte>)
    requires |proof| < TWO_32 && |written| == offset && data.Length == offset + 4 + |proof|
    requires data[..] == written + Zeros(4 + |proof|)
    modifies data
    ensures data[..] == written + ToLE(|proof|, 4) + proof
  {
    var n := |proof|;
    var length := ToLE(n, 4);
    ZerosSplit(4, n);
    assert data[..] == written + Zeros(4) + Zeros(n);
    Write(data, offset, length);
    OverwriteZeros(written, length, 4, Zeros(n));
    var s3 := written + length;
    assert data[..] == s3 + Zeros(n) + [];
    Write(data, offset + 4, proof);
    OverwriteZeros(s3, proof, n, []);
    assert data[..] == s3 + proof;
  }

  // ---------------------------------------------------------------------
  // New balances
  // ---------------------------------------------------------------------

  /** Borrow encrypts the decoded debt (0 when nothing is decoded) plus the amount. */
  function BorrowNewDebt(decodedPosition: Option<DecodedPosition>, amount: int): (newDebt: int)
    ensures decodedPosition.None? ==> newDebt == amount
    ensures decodedPosition.Some? ==> newDebt - amount == decodedPosition.value.debt
  {
    (if decodedPosition.Some? then decodedPosition.value.debt else 0) + amount
  }

  /** `current > amount ? current - amount : 0`: repay's new debt and withdraw's new collateral. */
  function ClampedSub(current: int, amount: int): (r: int)
    ensures r >= 0 && r >= current - amount
    ensures r == 0 || r == current - amount
  {
    if current > amount then current - amount else 0
  }

  /** The client's clamp agrees with the program's `saturating_sub` on u64 values. */
  lemma ClampedSubIsSaturatingSub(current: u64, amount: u64)
    ensures ClampedSub(current, amount) == Ledger.SaturatingSub(current, amount)
  {
  }

  /**
   * The ciphertext borrow sends decrypts, under the same key and with a fresh
   * nonce, to the new debt, reduced modulo 2^64 by `setBigUint64`.
   */
  lemma BorrowCiphertextDecrypts(decodedPosition: Option<DecodedPosition>, amount: int,
                                 keyPair: EncryptionKeyPair, nonce: seq<byte>, hash: Sha512)
    requires |nonce| == NONCE_LENGTH && !AllZero(nonce)
    ensures Plaintext(Ciphertext(BorrowNewDebt(decodedPosition, amount), keyPair, nonce, hash), keyPair, hash)
      == Some(BorrowNewDebt(decodedPosition, amount) % TWO_64)
    ensures 0 <= BorrowNewDebt(decodedPosition, amount) < TWO_64 ==>
      Plaintext(Ciphertext(BorrowNewDebt(decodedPosition, amount), keyPair, nonce, hash), keyPair, hash)
        == Some(BorrowNewDebt(decodedPosition, amount))
  {
    var newDebt := BorrowNewDebt(decodedPosition, amount);
    RoundTripFreshNonce(newDebt, keyPair, nonce, hash);
    if 0 <= newDebt < TWO_64 {
      assert newDebt % TWO_64 == newDebt;
    }
  }

  // ---------------------------------------------------------------------
  // The actions' instruction data
  // ---------------------------------------------------------------------

  /** `depositCollateral`: the guards, then the deposit amount itself is encrypted. */
  method DepositCollateralData(connected: bool, pool: Option<Pool>, amount: int,
                               keyPair: EncryptionKeyPair, nonce: seq<byte>, hash: Sha512)
    returns (r: Result<seq<byte>, ClientError>)
    requires |nonce| == NONCE_LENGTH
    ensures r == if !connected || pool.None? then Err(WalletOrPoolMissing)
                 else if amount <= 0 then Err(NonPositiveAmount)
                 else if amount >= TWO_64 then Err(AmountOutOfRange)
                 else Ok(AmountData(DEPOSIT_COLLATERAL, amount, Ciphertext(amount, keyPair, nonce, hash)))
  {
    if !connected || pool.None? {
      return Err(WalletOrPoolMissing);
    }
    if amount <= 0 {
      return Err(NonPositiveAmount);
    }
    var encryptedAmount := EncryptAmount(amount, keyPair, nonce, hash);
    r := WriteAmountData(DEPOSIT_COLLATERAL, amount, encryptedAmount);
  }

  /**
   * The collateral a deposit evidently means to store: the decoded collateral
   * (0 when nothing is decoded) plus the amount, as borrow does for debt.
   */
  function DepositNewCollateral(decodedPosition: Option<DecodedPosition>, amount: int): (newCollateral: int)
    ensures decodedPosition.None? ==> newCollateral == amount
    ensures decodedPosition.Some? ==> newCollateral - amount == decodedPosition.value.collateral
  {
    (if decodedPosition.Some? then decodedPosition.value.collateral else 0) + amount
  }

  /** `depositCollateral` with the running total encrypted instead of the amount alone. */
  method DepositCollateralDataCorrected(connected: bool, pool: Option<Pool>, decodedPosition: Option<DecodedPosition>,
                                        amount: int, keyPair: EncryptionKeyPair, nonce: seq<byte>, hash: Sha512)
    returns (r: Result<seq<byte>, ClientError>)
    requires |nonce| == NONCE_LENGTH
    ensures r == if !connected || pool.None? then Err(WalletOrPoolMissing)
                 else if amount <= 0 then Err(NonPositiveAmount)
                 else if amount >= TWO_64 then Err(AmountOutOfRange)
                 else Ok(AmountData(DEPOSIT_COLLATERAL, amount,
                                    Ciphertext(DepositNewCollateral(decodedPosition, amount), keyPair, nonce, hash)))
  {
    if !connected || pool.None? {
      return Err(WalletOrPoolMissing);
    }
    if amount <= 0 {
      return Err(NonPositiveAmount);
    }
    var newCollateral := DepositNewCollateral(decodedPosition, amount);
    var encryptedNewCollateral := EncryptAmount(newCollateral, keyPair, nonce, hash);
    r := WriteAmountData(DEPOSIT_COLLATERAL, amount, encryptedNewCollateral);
  }

  /** `borrow`: encrypts the running debt and attaches a borrow proof over the stored ciphertexts. */
  method BorrowData(connected: bool, pool: Option<Pool>, position: Option<Position>,
                    decodedPosition: Option<DecodedPosition>, amount: int,
                    keyPair: EncryptionKeyPair, nonce: seq<byte>, hash: Sha512)
    returns (r: Result<seq<byte>, ClientError>)
    requires |nonce| == NONCE_LENGTH
    ensures r == if !connected || pool.None? || position.None? then Err(WalletOrPositionMissing)
                 else if amount <= 0 then Err(NonPositiveAmount)
                 else if amount >= TWO_64 then Err(AmountOutOfRange)
                 else Ok(ProofData(BORROW, amount,
                                   Ciphertext(BorrowNewDebt(decodedPosition, amount), keyPair, nonce, hash),
                                   BorrowProof(position.value.encryptedCollateral, position.value.encryptedDebt,
                                               amount, pool.value.ltvRatio)))
  {
    if !connected || pool.None? || position.None? {
      return Err(WalletOrPositionMissing);
    }
    if amount <= 0 {
      return Err(NonPositiveAmount);
    }
    var newDebt := BorrowNewDebt(decodedPosition, amount);
    var encryptedNewDebt := EncryptAmount(newDebt, keyPair, nonce, hash);
    var proof := GenerateBorrowProof(position.value.encryptedCollateral, position.value.encryptedDebt,
                                     amount, pool.value.ltvRatio);
    r := WriteProofData(BORROW, amount, encryptedNewDebt, proof);
  }

  /** `repay`: encrypts the clamped remaining debt. */
  method RepayData(connected: bool, pool: Option<Pool>, decodedPosition: Option<DecodedPosition>, amount: int,
                   keyPair: EncryptionKeyPair, nonce: seq<byte>, hash: Sha512)
    returns (r: Result<seq<byte>, ClientError>)
    requires |nonce| == NONCE_LENGTH
    ensures r == if !connected || pool.None? || decodedPosition.None? then Err(WalletOrPositionMissing)
                 else if amount <= 0 then Err(NonPositiveAmount)
                 else if amount >= TWO_64 then Err(AmountOutOfRange)
                 else Ok(AmountData(REPAY, amount,
                                    Ciphertext(ClampedSub(decodedPosition.value.debt, amount), keyPair, nonce, hash)))
  {
    if !connected || pool.None? || decodedPosition.None? {
      return Err(WalletOrPositionMissing);
    }
    if amount <= 0 {
      return Err(NonPositiveAmount);
    }
    var newDebt := ClampedSub(decodedPosition.value.debt, amount);
    var encryptedNewDebt := EncryptAmount(newDebt, keyPair, nonce, hash);
    r := WriteAmountData(REPAY, amount, encryptedNewDebt);
  }

  /** `withdrawCollateral`: encrypts the clamped remaining collateral and attaches a withdrawal proof. */
  method WithdrawCollateralData(connected: bool, pool: Option<Pool>, position: Option<Position>,
                                decodedPosition: Option<DecodedPosition>, amount: int,
                                keyPair: EncryptionKeyPair, nonce: seq<byte>, hash: Sha512)
    returns (r: Result<seq<byte>, ClientError>)
    requires |nonce| == NONCE_LENGTH
    ensures r == if !connected || pool.None? || position.None? || decodedPosition.None? then Err(WalletOrPositionMissing)
                 else if amount <= 0 then Err(NonPositiveAmount)
                 else if amount >= TWO_64 then Err(AmountOutOfRange)
                 else Ok(ProofData(WITHDRAW_COLLATERAL, amount,
                                   Ciphertext(ClampedSub(decodedPosition.value.collateral, amount), keyPair, nonce, hash),
                                   WithdrawalProof(position.value.encryptedCollateral, position.value.encryptedDebt, amount)))
  {
    if !connected || pool.None? || position.None? || decodedPosition.None? {
      return Err(WalletOrPositionMissing);
    }
    if amount <= 0 {
      return Err(NonPositiveAmount);
    }
    var newCollateral := ClampedSub(decodedPosition.value.collateral, amount);
    var encryptedNewCollateral := EncryptAmount(newCollateral, keyPair, nonce, hash);
    var proof := GenerateWithdrawalProof(position.value.encryptedCollateral, position.value.encryptedDebt,
                                         amount, pool.value.ltvRatio);
    r := WriteProofData(WITHDRAW_COLLATERAL, amount, encryptedNewCollateral, proof);
  }

  /** `openPosition` and `closePosition` send the bare discriminator. */
  function BareData(connected: bool, discriminator: Discriminator): (r: Result<seq<byte>, ClientError>)
    ensures r.Err? <==> !connected
    ensures r.Ok? ==> r.value == discriminator && |r.value| == 8
  {
    if !connected then Err(WalletNotConnected) else Ok(discriminator)
  }

  // ---------------------------------------------------------------------
  // Transaction status
  // ---------------------------------------------------------------------

  datatype TxType = DepositTx | WithdrawTx | BorrowTx | RepayTx | LiquidateTx
  datatype TxStatus = Idle | Pending | Confirming | Success | Error

  /** `TransactionState`. */
  datatype TxState = TxState(txType: TxType, status: TxStatus, signature: Option<string>, error: Option<string>)

  /** What an awaited call threw: an `Error` carries a message, anything else does not. */
  datatype Thrown = ErrorObject(message: string) | OtherValue

  /** How one awaited RPC call ended. */
  datatype Outcome<T> = Done(value: T) | Threw(thrown: Thrown)

  /** The message the catch block records. */
  function ErrorMessage(thrown: Thrown): (message: string)
    ensures thrown.ErrorObject? ==> message == thrown.message
    ensures thrown.OtherValue? ==> message == "Transaction failed"
  {
    match thrown
    case ErrorObject(m) => m
    case OtherValue => "Transaction failed"
  }

  function Failed(txType: TxType, thrown: Thrown): TxState
  {
    TxState(txType, Error, None, Some(ErrorMessage(thrown)))
  }

  /**
   * The states `executeTransaction` sets, in order, for the outcomes of
   * `getLatestBlockhash`, `sendTransaction` and `confirmTransaction`.
   */
  function Steps(txType: TxType, blockhash: Outcome<()>, send: Outcome<string>, confirm: Outcome<()>): (s: seq<TxState>)
    ensures 2 <= |s| <= 3 && s[0] == TxState(txType, Pending, None, None)
    ensures s[|s| - 1].status == Success || s[|s| - 1].status == Error
  {
    [TxState(txType, Pending, None, None)] +
    if blockhash.Threw? then [Failed(txType, blockhash.thrown)]
    else [TxState(txType, Confirming, None, None)] +
         if send.Threw? then [Failed(txType, send.thrown)]
         else if confirm.Threw? then [Failed(txType, confirm.thrown)]
         else [TxState(txType, Success, Some(send.value), None)]
  }

  /**
   * The status moves pending, then confirming once a blockhash is in hand,
   * and ends in success with the signature exactly when all three calls
   * return; otherwise it ends in error with the thrown message.
   */
  lemma StepsShape(txType: TxType, blockhash: Outcome<()>, send: Outcome<string>, confirm: Outcome<()>)
    ensures var s := Steps(txType, blockhash, send, confirm);
      2 <= |s| <= 3 && s[0].status == Pending &&
      (forall i | 0 <= i < |s| :: s[i].txType == txType) &&
      (blockhash.Done? <==> s[1].status == Confirming) &&
      (s[|s| - 1].status == Success <==> blockhash.Done? && send.Done? && confirm.Done?) &&
      (s[|s| - 1].status == Success ==> s[|s| - 1].signature == Some(send.value)) &&
      (s[|s| - 1].status != Success ==> s[|s| - 1].status == Error && s[|s| - 1].error.Some?)
  {
  }

  /** The result of `executeTransaction`: the signature, or the value it rethrows. */
  function ExecutionResult(blockhash: Outcome<()>, send: Outcome<string>, confirm: Outcome<()>): Result<string, Thrown>
  {
    if blockhash.Threw? then Err(blockhash.thrown)
    else if send.Threw? then Err(send.thrown)
    else if confirm.Threw? then Err(confirm.thrown)
    else Ok(send.value)
  }

  /** The returned signature is the one in the final success state, and a rethrown value is the recorded error. */
  lemma ResultMatchesFinalState(txType: TxType, blockhash: Outcome<()>, send: Outcome<string>, confirm: Outcome<()>)
    ensures var s := Steps(txType, blockhash, send, confirm);
      var r := ExecutionResult(blockhash, send, confirm);
      (r.Ok? <==> s[|s| - 1].status == Success) &&
      (r.Ok? ==> s[|s| - 1].signature == Some(r.value)) &&
      (r.Err? ==> s[|s| - 1] == Failed(txType, r.error))
  {
  }

  /** A builder's failure, or what `executeTransaction` threw. */
  datatype Failure = BuildFailed(error: ClientError) | NotConnected | TransactionFailed(thrown: Thrown)

  /** The transaction state the hook exposes; `history` records every state it was set to. */
  class LendingHook {
    var txState: TxState
    ghost var history: seq<TxState>

    constructor ()
      ensures txState == TxState(DepositTx, Idle, None, None) && history == [txState]
    {
      txState := TxState(DepositTx, Idle, None, None);
      history := [txState];
    }

    /** `resetTxState`. */
    method ResetTxState()
      modifies this
      ensures txState == TxState(DepositTx, Idle, None, None) && history == old(history) + [txState]
    {
      txState := TxState(DepositTx, Idle, None, None);
      history := history + [txState];
    }

    method SetTxState(s: TxState)
      modifies this
      ensures txState == s && history == old(history) + [s]
    {
      txState := s;
      history := history + [s];
    }

    /**
     * `executeTransaction`: throws before touching the state when no wallet is
     * connected; otherwise steps through `Steps` and returns its result.
     * The refetch after success is not modelled (both hooks catch their own errors).
     */
    method ExecuteTransaction(connected: bool, txType: TxType,
                              blockhash: Outcome<()>, send: Outcome<string>, confirm: Outcome<()>)
      returns (r: Result<string, Failure>)
      modifies this
      ensures !connected ==> r == Err(NotConnected) && txState == old(txState) && history == old(history)
      ensures connected ==>
        history == old(history) + Steps(txType, blockhash, send, confirm) &&
        txState == history[|history| - 1] &&
        r == match ExecutionResult(blockhash, send, confirm)
             case Ok(signature) => Ok(signature)
             case Err(thrown) => Err(TransactionFailed(thrown))
    {
      if !connected {
        return Err(NotConnected);
      }
      SetTxState(TxState(txType, Pending, None, None));
      if blockhash.Threw? {
        SetTxState(Failed(txType, blockhash.thrown));
        return Err(TransactionFailed(blockhash.thrown));
      }
      SetTxState(TxState(txType, Confirming, None, None));
      if send.Threw? {
        SetTxState(Failed(txType, send.thrown));
        return Err(TransactionFailed(send.thrown));
      }
      if confirm.Threw? {
        SetTxState(Failed(txType, confirm.thrown));
        return Err(TransactionFailed(confirm.thrown));
      }
      SetTxState(TxState(txType, Success, Some(send.value), None));
      r := Ok(send.value);
    }

    /**
     * An action: the builder's data, then `executeTransaction` under the
     * status type of the instruction it sends. A builder that throws does so
     * before any status is set.
     */
    method Submit(built: Result<seq<byte>, ClientError>, connected: bool, txType: TxType,
                  blockhash: Outcome<()>, send: Outcome<string>, confirm: Outcome<()>)
      returns (r: Result<string, Failure>)
      requires built.Ok? ==> |built.value| >= 8 && txType == ActionTxType(built.value[..8])
      modifies this
      ensures built.Err? ==> r == Err(BuildFailed(built.error)) && txState == old(txState) && history == old(history)
      ensures built.Ok? && !connected ==> r == Err(NotConnected) && txState == old(txState) && history == old(history)
      ensures built.Ok? && connected ==>
        history == old(history) + Steps(txType, blockhash, send, confirm) &&
        txState == history[|history| - 1] &&
        r == (match ExecutionResult(blockhash, send, confirm)
              case Ok(signature) => Ok(signature)
              case Err(thrown) => Err(TransactionFailed(thrown))) &&
        (r.Ok? <==> txState.status == Success) &&
        txState.txType == ActionTxType(built.value[..8])
    {
      if built.Err? {
        return Err(BuildFailed(built.error));
      }
      r := ExecuteTransaction(connected, txType, blockhash, send, confirm);
      ResultMatchesFinalState(txType, blockhash, send, confirm);
      StepsShape(txType, blockhash, send, confirm);
    }
  }

  /** The status each action reports under: open counts as a deposit, close as a withdrawal. */
  function ActionTxType(discriminator: Discriminator): (t: TxType)
    ensures t != LiquidateTx
    ensures discriminator == OPEN_POSITION || discriminator == DEPOSIT_COLLATERAL ==> t == DepositTx
    ensures discriminator == BORROW ==> t == BorrowTx
    ensures discriminator == REPAY ==> t == RepayTx
    ensures discriminator == WITHDRAW_COLLATERAL || discriminator == CLOSE_POSITION ==> t == WithdrawTx
  {
    if discriminator == OPEN_POSITION || discriminator == DEPOSIT_COLLATERAL then DepositTx
    else if discriminator == BORROW then BorrowTx
    else if discriminator == REPAY then RepayTx
    else WithdrawTx
  }
}
