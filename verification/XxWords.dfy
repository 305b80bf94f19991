/** Words of 32 and 64 bits, as the two hashes use them. */
module XxWords {

  type Byte = bv8

  const W32: nat := 0x1_0000_0000
  const W64: nat := 0x1_0000_0000_0000_0000

  function Rot32(x: bv32, r: bv32): bv32
    requires 0 < r < 32
  {
    (x << r) | (x >> (32 - r))
  }

  function Rot64(x: bv64, r: bv64): bv64
    requires 0 < r < 64
  {
    (x << r) | (x >> (64 - r))
  }

  function Add32(x: bv32, y: bv32): bv32 {
    x + y
  }

  function Add64(x: bv64, y: bv64): bv64 {
    x + y
  }

  function Xor64(x: bv64, y: bv64): bv64 {
    x ^ y
  }

  function Wide(x: bv32): bv64 {
    x as bv64
  }

  function Wide8(x: Byte): bv64 {
    x as bv64
  }

  function Byte32(x: Byte): bv32 {
    x as bv32
  }

  lemma {:induction false} SameWide(x: bv32, y: bv32)
    requires Wide(x) == Wide(y)
    ensures x == y
  {
  }

  lemma {:induction false} SameWide8(x: Byte, y: Byte)
    requires Wide8(x) == Wide8(y) || Byte32(x) == Byte32(y)
    ensures x == y
  {
  }

  /** A length, cut to a word. */
  function Len32(n: nat): bv32 {
    (n % W32) as bv32
  }

  function Len64(n: nat): bv64 {
    (n % W64) as bv64
  }

  lemma {:induction false} LenOf32(n: nat)
    ensures Len32(n % W32) == Len32(n)
  {
  }

  lemma {:induction false} LenOf64(n: nat)
    ensures Len64(n % W64) == Len64(n)
  {
  }

  /** Four little-endian bytes as a word. */
  function Word32(b: seq<Byte>): bv32
    requires |b| == 4
  {
    (b[0] as bv32) | ((b[1] as bv32) << 8) | ((b[2] as bv32) << 16) | ((b[3] as bv32) << 24)
  }

  /** Eight little-endian bytes as a word. */
  function Word64(b: seq<Byte>): bv64
    requires |b| == 8
  {
    (Word32(b[..4]) as bv64) | ((Word32(b[4..]) as bv64) << 32)
  }

  /** Byte `i` of a word is byte `i` of the input. */
  lemma {:induction false} WordBytes(b: seq<Byte>)
    requires |b| == 4
    ensures (Word32(b) & 0xff) as bv8 == b[0] && ((Word32(b) >> 8) & 0xff) as bv8 == b[1]
    ensures ((Word32(b) >> 16) & 0xff) as bv8 == b[2] && ((Word32(b) >> 24) & 0xff) as bv8 == b[3]
  {
  }

  /** The low and the high half of a word are the words of the halves. */
  lemma {:induction false} WordHalves(b: seq<Byte>)
    requires |b| == 8
    ensures (Word64(b) & 0xffff_ffff) as bv32 == Word32(b[..4]) && (Word64(b) >> 32) as bv32 == Word32(b[4..])
  {
    hide Word32;
  }

  lemma {:induction false} SameWord32(a: seq<Byte>, b: seq<Byte>)
    requires |a| == |b| == 4 && Word32(a) == Word32(b)
    ensures a == b
  {
    hide Word32;
    WordBytes(a);
    WordBytes(b);
  }

  lemma {:induction false} SameWord64(a: seq<Byte>, b: seq<Byte>)
    requires |a| == |b| == 8 && Word64(a) == Word64(b)
    ensures a == b
  {
    hide Word64, Word32;
    WordHalves(a);
    WordHalves(b);
    SameWord32(a[..4], b[..4]);
    SameWord32(a[4..], b[4..]);
    assert a == a[..4] + a[4..] && b == b[..4] + b[4..];
  }

  // ----- Inputs that differ in one piece -----

  /** The first piece that the end of a hash takes of `n` bytes: a word, four bytes, or one. */
  function First(n: nat, word: nat): nat {
    if n >= word then word else if n >= 4 then 4 else 1
  }

  /** Cut into pieces, two inputs of one length differ in one piece at most. */
  ghost predicate OnePiece(a: seq<Byte>, b: seq<Byte>, word: nat)
    requires word > 0
    decreases |a|
  {
    |a| == |b| && (a == [] || OneOf(a, b, First(|a|, word), word))
  }

  ghost predicate OneOf(a: seq<Byte>, b: seq<Byte>, k: nat, word: nat)
    requires word > 0 && 0 < k <= |a| == |b|
    decreases |a|, 0
  {
    a[k..] == b[k..] || (a[..k] == b[..k] && OnePiece(a[k..], b[k..], word))
  }

  lemma {:induction false} Rejoin(a: seq<Byte>, b: seq<Byte>, k: nat)
    requires k <= |a| && k <= |b| && a[..k] == b[..k] && a[k..] == b[k..]
    ensures a == b
  {
    assert a == a[..k] + a[k..] && b == b[..k] + b[k..];
  }

  lemma {:induction false} AddMod(a: nat, b: nat, word: nat)
    requires word == W32 || word == W64
    ensures (a % word + b % word) % word == (a + b) % word == (a % word + b) % word
  {
  }

  /** All pieces one after another. */
  ghost function Flatten(pieces: seq<seq<Byte>>): seq<Byte> {
    if pieces == [] then [] else Flatten(pieces[..|pieces| - 1]) + pieces[|pieces| - 1]
  }
}
