/**
 * The pool account decoder of app/src/hooks/usePool.ts and the public
 * statistics the hook derives from it.
 */
module UsePool {
  import opened Bytes
  import opened Wrappers
  import opened Accounts

  const POOL_SIZE: nat := 8 + 32 + 32 + 32 + 2 + 2 + 2 + 8 + 8 + 8 + 1 + 1

  /** The pool fields at their fixed offsets; the discriminator is skipped unchecked. */
  function PoolAt(data: seq<byte>): Pool
    requires |data| >= POOL_SIZE
  {
    Pow256Widths();
    Pool(data[8..40], data[40..72], data[72..104],
         FromLE(data[104..106]), FromLE(data[106..108]), FromLE(data[108..110]),
         FromLE(data[110..118]), FromLE(data[118..126]), FromLE(data[126..134]),
         data[134], data[135] == 1)
  }

  /**
   * `deserializePool`: walks a running offset from 8; a read past the end
   * throws (`None`), so exactly the accounts shorter than `POOL_SIZE` fail.
   */
  method DeserializePool(data: seq<byte>) returns (r: Option<Pool>)
    ensures r == if |data| < POOL_SIZE then None else Some(PoolAt(data))
  {
    Pow256Widths();
    var offset := 8;
    var authority := PublicKeyFrom(Subarray(data, offset, offset + 32));
    offset := offset + 32;
    var collateralMint := PublicKeyFrom(Subarray(data, offset, offset + 32));
    offset := offset + 32;
    var borrowMint := PublicKeyFrom(Subarray(data, offset, offset + 32));
    offset := offset + 32;
    var ltvRatio :- ReadUIntLE(data, offset, 2);
    offset := offset + 2;
    var interestRate :- ReadUIntLE(data, offset, 2);
    offset := offset + 2;
    var liquidationThreshold :- ReadUIntLE(data, offset, 2);
    offset := offset + 2;
    var totalDeposits :- ReadUIntLE(data, offset, 8);
    offset := offset + 8;
    var totalBorrows :- ReadUIntLE(data, offset, 8);
    offset := offset + 8;
    var activePositions :- ReadUIntLE(data, offset, 8);
    offset := offset + 8;
    var bump :- ReadUIntLE(data, offset, 1);
    offset := offset + 1;
    var activeByte :- ReadUIntLE(data, offset, 1);
    assert data[134..135] == [data[134]] && data[135..136] == [data[135]];
    r := Some(Pool(authority, collateralMint, borrowMint, ltvRatio, interestRate, liquidationThreshold,
                   totalDeposits, totalBorrows, activePositions, bump, activeByte == 1));
  }

  /** Decoding the Anchor encoding of a pool, with anything after it, gives the pool back. */
  lemma PoolRoundTrip(p: Pool, discriminator: Discriminator, trailing: seq<byte>)
    ensures PoolAt(EncodePool(p, discriminator) + trailing) == p
  {
    var e := EncodePool(p, discriminator);
    var data := e + trailing;
    PoolLayout(p, discriminator);
    assert data[..POOL_SIZE] == e;
    assert data[8..40] == e[8..40] && data[40..72] == e[40..72] && data[72..104] == e[72..104];
    assert data[104..106] == e[104..106] && data[106..108] == e[106..108] && data[108..110] == e[108..110];
    assert data[110..118] == e[110..118] && data[118..126] == e[118..126] && data[126..134] == e[126..134];
    Pow256Widths();
    FromLEToLE(p.ltvRatio, 2);
    FromLEToLE(p.interestRate, 2);
    FromLEToLE(p.liquidationThreshold, 2);
    FromLEToLE(p.totalDeposits, 8);
    FromLEToLE(p.totalBorrows, 8);
    FromLEToLE(p.activePositions, 8);
  }

  /** Only bytes 8..136 are read: the discriminator and any trailing bytes do not matter. */
  lemma PoolReadsOnlyFields(a: seq<byte>, b: seq<byte>)
    requires |a| >= POOL_SIZE && |b| >= POOL_SIZE && a[8..POOL_SIZE] == b[8..POOL_SIZE]
    ensures PoolAt(a) == PoolAt(b)
  {
    forall i | 8 <= i < POOL_SIZE
      ensures a[i] == b[i]
    {
      assert a[i] == a[8..POOL_SIZE][i - 8] && b[i] == b[8..POOL_SIZE][i - 8];
    }
    assert a[8..40] == b[8..40] && a[40..72] == b[40..72] && a[72..104] == b[72..104];
    assert a[104..106] == b[104..106] && a[106..108] == b[106..108] && a[108..110] == b[108..110];
    assert a[110..118] == b[110..118] && a[118..126] == b[118..126] && a[126..134] == b[126..134];
  }

  /**
   * `isActive` is `data[135] === 1`: any other byte reads as inactive, so a
   * byte that Borsh would reject (2..255) is silently taken as `false`.
   */
  lemma PoolActiveByte(data: seq<byte>)
    requires |data| >= POOL_SIZE
    ensures PoolAt(data).isActive <==> data[135] == 1
    ensures PoolAt(data).bump == data[134]
  {
  }

  /** Re-encoding what was decoded restores the account exactly when its flag byte is a valid Borsh bool. */
  lemma PoolReencode(data: seq<byte>)
    requires |data| >= POOL_SIZE
    ensures EncodePool(PoolAt(data), data[..8]) == data[..POOL_SIZE] <==> data[135] <= 1
  {
    var p := PoolAt(data);
    if data[135] <= 1 {
      PoolFieldsReencode(data);
      PoolSlicesGlue(data);
    } else {
      PoolLayout(p, data[..8]);
      assert EncodePool(p, data[..8])[135] != data[..POOL_SIZE][135];
    }
  }

  lemma PoolFieldsReencode(data: seq<byte>)
    requires |data| >= POOL_SIZE && data[135] <= 1
    ensures EncodePool(PoolAt(data), data[..8]) ==
      data[..8] + data[8..40] + data[40..72] + data[72..104]
        + data[104..106] + data[106..108] + data[108..110]
        + data[110..118] + data[118..126] + data[126..134]
        + data[134..135] + data[135..136]
  {
    ToLEFromLE(data[104..106]);
    ToLEFromLE(data[106..108]);
    ToLEFromLE(data[108..110]);
    ToLEFromLE(data[110..118]);
    ToLEFromLE(data[118..126]);
    ToLEFromLE(data[126..134]);
    assert [BoolByte(data[135] == 1)] == data[135..136];
    assert [data[134]] == data[134..135];
  }

  lemma PoolSlicesGlue(data: seq<byte>)
    requires |data| >= POOL_SIZE
    ensures data[..8] + data[8..40] + data[40..72] + data[72..104]
        + data[104..106] + data[106..108] + data[108..110]
        + data[110..118] + data[118..126] + data[126..134]
        + data[134..135] + data[135..136] == data[..POOL_SIZE]
  {
    Glue(data, 8, 40);
    Glue(data, 40, 72);
    Glue(data, 72, 104);
    Glue(data, 104, 106);
    Glue(data, 106, 108);
    Glue(data, 108, 110);
    Glue(data, 110, 118);
    Glue(data, 118, 126);
    Glue(data, 126, 134);
    Glue(data, 134, 135);
    Glue(data, 135, 136);
  }

  /** The public statistics; the three percentage fields are floats and are not modelled. */
  datatype ProtocolStats = ProtocolStats(totalValueLocked: nat, totalBorrowed: nat, activeLoans: nat)

  /** The state `usePool` keeps: the decoded pool, its stats, and whether the last fetch failed. */
  class PoolHook {
    var pool: Option<Pool>
    var stats: Option<ProtocolStats>
    var failed: bool

    constructor ()
      ensures pool == None && stats == None && !failed
    {
      pool := None;
      stats := None;
      failed := false;
    }

    /**
     * `fetchPool` given what `getAccountInfo` returned: no account clears the
     * pool; a decode failure sets the error and keeps the previous values;
     * otherwise the pool is stored and its counters copied into the stats.
     */
    method FetchPool(accountData: Option<seq<byte>>)
      modifies this
      ensures accountData.None? ==> pool == None && stats == None && !failed
      ensures accountData.Some? && |accountData.value| < POOL_SIZE ==>
        failed && pool == old(pool) && stats == old(stats)
      ensures accountData.Some? && |accountData.value| >= POOL_SIZE ==>
        !failed && pool == Some(PoolAt(accountData.value)) &&
        stats == Some(ProtocolStats(pool.value.totalDeposits, pool.value.totalBorrows, pool.value.activePositions))
    {
      failed := false;
      if accountData.None? {
        pool := None;
        stats := None;
        return;
      }
      var decoded := DeserializePool(accountData.value);
      if decoded.None? {
        failed := true;
        return;
      }
      var p := decoded.value;
      pool := Some(p);
      stats := Some(ProtocolStats(p.totalDeposits, p.totalBorrows, p.activePositions));
    }
  }
}
