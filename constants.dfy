/** `truncateAddress` of app/src/lib/constants.ts, with `String.prototype.slice` written out. */
module Constants {

  function Min(a: int, b: int): int { if a < b then a else b }
  function Max(a: int, b: int): int { if a < b then b else a }

  /** A `slice` bound: a negative one counts from the end, and both are clamped to the string. */
  function SliceBound(length: nat, k: int): (b: nat)
    ensures b <= length
  {
    if k < 0 then Max(length + k, 0) else Min(k, length)
  }

  /** `s.slice(start, end)`: empty when the clamped start is not before the clamped end. */
  function Slice(s: string, start: int, end: int): (r: string)
    ensures |r| <= |s|
  {
    var from := SliceBound(|s|, start);
    var to := SliceBound(|s|, end);
    if from >= to then "" else s[from..to]
  }

  /** `${address.slice(0, chars)}...${address.slice(-chars)}`; `chars` defaults to 4. */
  function TruncateAddress(address: string, chars: int := 4): (r: string)
    ensures 3 <= |r| <= 2 * |address| + 3
  {
    Slice(address, 0, chars) + "..." + Slice(address, -chars, |address|)
  }

  /** For `0 < chars <= |address|`: the first and last `chars` characters around "...". */
  lemma TruncateWithinLength(address: string, chars: int)
    requires 0 < chars <= |address|
    ensures TruncateAddress(address, chars) == address[..chars] + "..." + address[|address| - chars..]
    ensures |TruncateAddress(address, chars)| == 2 * chars + 3
  {
  }

  /** The default keeps four characters at each end of an address of at least four. */
  lemma TruncateDefault(address: string)
    requires |address| >= 4
    ensures TruncateAddress(address) == address[..4] + "..." + address[|address| - 4..]
    ensures |TruncateAddress(address)| == 11
  {
    TruncateWithinLength(address, 4);
  }

  /** `slice(-0)` is `slice(0)`, the whole string: zero characters still print the entire address. */
  lemma TruncateZero(address: string)
    ensures TruncateAddress(address, 0) == "..." + address
  {
    assert Slice(address, 0, |address|) == address;
  }

  /** With more characters than the address has, it appears twice. */
  lemma TruncateBeyondLength(address: string, chars: int)
    requires chars > |address|
    ensures TruncateAddress(address, chars) == address + "..." + address
  {
    assert address[0..|address|] == address;
  }

  /** A negative count drops `-chars` characters from the end, then shows the string from `-chars` on. */
  lemma TruncateNegative(address: string, chars: int)
    requires chars < 0 && -chars < |address|
    ensures TruncateAddress(address, chars) == address[..|address| + chars] + "..." + address[-chars..]
  {
  }
}
