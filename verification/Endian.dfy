/** Byte order: `swap_endian` and the big-endian numbers of a packet. */
module Endian {
  import opened Config

  function Pow256(n: nat): (p: nat)
    ensures p > 0
  {
    if n == 0 then 1 else 256 * Pow256(n - 1)
  }

  /** Value of a byte string stored least significant byte first, as the ESP32 loads it. */
  function FromLittle(bytes: seq<byte>): nat {
    if bytes == [] then 0 else bytes[0] + 256 * FromLittle(bytes[1..])
  }

  /** Value of a byte string sent most significant byte first, as the accessory sends it. */
  function FromBig(bytes: seq<byte>): nat {
    if bytes == [] then 0 else 256 * FromBig(bytes[..|bytes| - 1]) + bytes[|bytes| - 1]
  }

  /** The `n` bytes of `u` in memory order of the ESP32. */
  function ToLittle(u: nat, n: nat): (bytes: seq<byte>)
    ensures |bytes| == n
  {
    if n == 0 then [] else [u % 256] + ToLittle(u / 256, n - 1)
  }

  function Reverse(bytes: seq<byte>): (r: seq<byte>)
    ensures |r| == |bytes|
    ensures forall k :: 0 <= k < |bytes| ==> r[k] == bytes[|bytes| - 1 - k]
  {
    seq(|bytes|, k requires 0 <= k < |bytes| => bytes[|bytes| - 1 - k])
  }

  lemma {:induction false} LittleFits(bytes: seq<byte>)
    ensures FromLittle(bytes) < Pow256(|bytes|)
  {
    if bytes != [] {
      LittleFits(bytes[1..]);
    }
  }

  /** Loading what was stored gives the value back. */
  lemma {:induction false} StoreThenLoad(u: nat, n: nat)
    requires u < Pow256(n)
    ensures FromLittle(ToLittle(u, n)) == u
  {
    if n > 0 {
      StoreThenLoad(u / 256, n - 1);
      assert ToLittle(u, n)[1..] == ToLittle(u / 256, n - 1);
    }
  }

  /** Storing what was loaded gives the bytes back. */
  lemma {:induction false} LoadThenStore(bytes: seq<byte>)
    ensures ToLittle(FromLittle(bytes), |bytes|) == bytes
  {
    if bytes != [] {
      LoadThenStore(bytes[1..]);
      var u := FromLittle(bytes);
      assert u % 256 == bytes[0] && u / 256 == FromLittle(bytes[1..]);
    }
  }

  /** Reversing the bytes turns a little-endian load into the big-endian value. */
  lemma {:induction false} ReversedLoadIsBig(bytes: seq<byte>)
    ensures FromLittle(Reverse(bytes)) == FromBig(bytes)
  {
    if bytes != [] {
      var front := bytes[..|bytes| - 1];
      assert Reverse(bytes)[1..] == Reverse(front);
      ReversedLoadIsBig(front);
    }
  }

  /** The value of `u` with its `n` bytes taken in the other order. */
  function Swapped(u: nat, n: nat): nat {
    FromBig(ToLittle(u, n))
  }

  /** Swapping stays within the width and is its own inverse, at every width. */
  lemma SwapIsInvolution(u: nat, n: nat)
    requires u < Pow256(n)
    ensures Swapped(u, n) < Pow256(n)
    ensures Swapped(Swapped(u, n), n) == u
  {
    var stored := ToLittle(u, n);
    ReversedLoadIsBig(stored);
    LittleFits(Reverse(stored));
    LoadThenStore(Reverse(stored));
    assert Reverse(Reverse(stored)) == stored;
    ReversedLoadIsBig(Reverse(stored));
    StoreThenLoad(u, n);
  }

  /** `swap_endian` for a type of `n` bytes: the union is two byte arrays, copied back to front. */
  method SwapEndian(u: nat, n: nat) returns (r: nat)
    requires u < Pow256(n)
    ensures r == Swapped(u, n) < Pow256(n)
  {
    var stored := ToLittle(u, n);
    var source := new byte[n](k requires 0 <= k < n => stored[k]);
    var dest := new byte[n];
    var k := 0;
    while k < n
      invariant 0 <= k <= n
      invariant source[..] == stored
      invariant forall j :: 0 <= j < k ==> dest[j] == source[n - j - 1]
    {
      dest[k] := source[n - k - 1];
      k := k + 1;
    }
    assert dest[..] == Reverse(stored);
    r := FromLittle(dest[..]);
    LittleFits(dest[..]);
    ReversedLoadIsBig(stored);
  }

  /** The number written `b3 b2 b1 b0`, most significant byte first. */
  function Word(b3: int, b2: int, b1: int, b0: int): int {
    0x100_0000 * b3 + 0x1_0000 * b2 + 0x100 * b1 + b0
  }

  lemma BigOfFour(wire: seq<byte>)
    requires |wire| == 4
    ensures FromBig(wire) == Word(wire[0], wire[1], wire[2], wire[3])
  {
    var three := wire[..3];
    var two := three[..2];
    var one := two[..1];
    assert FromBig(one[..0]) == 0;
    assert FromBig(one) == Word(0, 0, 0, wire[0]);
    assert FromBig(two) == Word(0, 0, wire[0], wire[1]);
    assert FromBig(three) == Word(0, wire[0], wire[1], wire[2]);
  }

  /** `swap_endian<uint32_t>(*(uint32_t *)&byteArray[at])`: a little-endian load, then a swap. */
  method ReadField(byteArray: seq<byte>, at: nat) returns (v: uint32)
    requires at + 4 <= |byteArray|
    ensures v == Word(byteArray[at], byteArray[at + 1], byteArray[at + 2], byteArray[at + 3])
    ensures v == 0x100_0000 * (byteArray[at] as int) + 0x1_0000 * (byteArray[at + 1] as int)
                 + 0x100 * (byteArray[at + 2] as int) + byteArray[at + 3]
  {
    var wire := byteArray[at..at + 4];
    LittleFits(wire);
    LoadThenStore(wire);
    assert Pow256(4) == UINT32_RANGE by {
      assert Pow256(1) == 256 && Pow256(2) == 0x1_0000 && Pow256(3) == 0x100_0000;
    }
    BigOfFour(wire);
    v := SwapEndian(FromLittle(wire), 4);
  }
}
