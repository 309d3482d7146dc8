/** The packet checksum: `snooper::_checksum`. */
module Checksum {
  import opened Config

  /** Sum of the bytes of a packet, unbounded. */
  function Sum(bytes: seq<byte>): nat {
    if bytes == [] then 0 else Sum(bytes[..|bytes| - 1]) + bytes[|bytes| - 1]
  }

  /** What the receiver checks for: length, payload and checksum byte add up to 0 modulo 256. */
  predicate Balanced(payload: seq<byte>, check: byte) {
    (|payload| + Sum(payload) + check) % 256 == 0
  }

  /** The checksum byte of a payload. */
  function Of(payload: seq<byte>): (check: byte)
    ensures Balanced(payload, check)
  {
    var low := (|payload| + Sum(payload)) % 256;
    BalancingByte(|payload| + Sum(payload));
    if low == 0 then 0 else 256 - low
  }

  lemma BalancingByte(n: nat)
    ensures (n + (if n % 256 == 0 then 0 else 256 - n % 256)) % 256 == 0
  {
  }

  /** One byte, and only one, balances a payload. */
  lemma CheckIsUnique(payload: seq<byte>, check: byte)
    ensures Balanced(payload, check) <==> check == Of(payload)
  {
    var n, c := |payload| + Sum(payload), Of(payload);
    if Balanced(payload, check) {
      var k, m := (n + check) / 256, (n + c) / 256;
      assert check - c == 256 * (k - m);
    }
  }

  /** Replacing one byte changes the sum by the difference. */
  lemma {:induction false} SumUpdate(bytes: seq<byte>, i: nat, v: byte)
    requires i < |bytes|
    ensures Sum(bytes[i := v]) == Sum(bytes) - bytes[i] + v
  {
    var last := |bytes| - 1;
    if i == last {
      assert bytes[i := v][..last] == bytes[..last];
    } else {
      SumUpdate(bytes[..last], i, v);
      assert bytes[i := v][..last] == bytes[..last][i := v];
    }
  }

  /** Any single-byte error in the payload is visible in the checksum. */
  lemma DetectsOneByteError(payload: seq<byte>, i: nat, v: byte)
    requires i < |payload|
    ensures Of(payload[i := v]) == Of(payload) <==> v == payload[i]
  {
    SumUpdate(payload, i, v);
    var n, c := |payload| + Sum(payload), Of(payload);
    if Of(payload[i := v]) == c {
      var k, m := (n + c) / 256, (n - payload[i] + v + c) / 256;
      assert v - payload[i] == 256 * (m - k);
    }
  }

  /** The low 32 bits: what an unsigned addition leaves. */
  function Wrapped(x: nat): uint32 {
    x % UINT32_RANGE
  }

  /** The low byte: what `& 0xFF` and the cast to byte leave. */
  function LowByte(x: uint32): byte {
    x % 0x100
  }

  lemma WrapKeepsLowByte(x: nat)
    ensures (x % UINT32_RANGE) % 256 == x % 256
  {
    var hi, lo := x / UINT32_RANGE, x % UINT32_RANGE;
    assert x == hi * UINT32_RANGE + lo;
    assert x == 256 * (hi * 0x100_0000 + lo / 256) + lo % 256;
  }

  lemma WrapAdd(x: nat, b: nat)
    ensures (x % UINT32_RANGE + b) % UINT32_RANGE == (x + b) % UINT32_RANGE
  {
    SameRemainder(x + b, x % UINT32_RANGE + b, x / UINT32_RANGE);
  }

  lemma Empty(len: uint32)
    ensures Wrapped(len + Sum([])) == len
  {
  }

  lemma AddOne(bytes: seq<byte>, i: nat)
    requires i < |bytes|
    ensures Wrapped(Wrapped(|bytes| + Sum(bytes[..i])) + bytes[i]) == Wrapped(|bytes| + Sum(bytes[..i + 1]))
  {
    assert bytes[..i + 1][..i] == bytes[..i];
    WrapAdd(|bytes| + Sum(bytes[..i]), bytes[i]);
  }

  lemma OfWrapped(payload: seq<byte>)
    ensures LowByte(0x100 - LowByte(Wrapped(|payload| + Sum(payload)))) == Of(payload)
  {
    hide Sum, Balanced;
    WrapKeepsLowByte(|payload| + Sum(payload));
    Complement((|payload| + Sum(payload)) % 256);
  }

  lemma Complement(low: byte)
    ensures (0x100 - low) % 0x100 == if low == 0 then 0 else 256 - low
  {
  }

  /** `_checksum`: the accumulator is 32 bits wide and wraps, and the loop index is a signed int. */
  method Compute(byteArray: array<byte>, len: uint32) returns (check: byte)
    requires len <= byteArray.Length && len < 0x8000_0000
    ensures Balanced(byteArray[..len], check)
    ensures forall other: byte :: Balanced(byteArray[..len], other) ==> other == check
  {
    hide Wrapped, LowByte, Sum, Balanced, Of;
    ghost var bytes := byteArray[..len];
    var tempChecksum: uint32 := len;
    var i := 0;
    Empty(len);
    assert bytes[..0] == [];
    while i < len
      invariant 0 <= i <= len
      invariant tempChecksum == Wrapped(len + Sum(bytes[..i]))
    {
      AddOne(bytes, i);
      tempChecksum := Wrapped(tempChecksum + byteArray[i]);
      i := i + 1;
    }
    assert bytes[..len] == bytes;
    OfWrapped(bytes);
    tempChecksum := 0x100 - LowByte(tempChecksum);
    check := LowByte(tempChecksum);
    forall other: byte ensures Balanced(bytes, other) <==> other == check {
      CheckIsUnique(bytes, other);
    }
  }
}
