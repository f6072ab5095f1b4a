/** Reading and writing multi-byte integers in byte sequences, and one sequence lying inside another. */
module Bytes {
  import opened Words

  function Be16(b: seq<u8>, i: nat): u16
    requires i + 2 <= |b|
  {
    b[i] as nat * 0x100 + b[i + 1]
  }

  function Be24(b: seq<u8>, i: nat): (r: u32)
    requires i + 3 <= |b|
    ensures r < TWO_24
  {
    b[i] as nat * 0x1_0000 + b[i + 1] as nat * 0x100 + b[i + 2]
  }

  function Be32(b: seq<u8>, i: nat): u32
    requires i + 4 <= |b|
  {
    b[i] as nat * 0x100_0000 + b[i + 1] as nat * 0x1_0000 + b[i + 2] as nat * 0x100 + b[i + 3]
  }

  function Le32(b: seq<u8>, i: nat): u32
    requires i + 4 <= |b|
  {
    b[i + 3] as nat * 0x100_0000 + b[i + 2] as nat * 0x1_0000 + b[i + 1] as nat * 0x100 + b[i]
  }

  /** Network order has the most significant byte first, the other order last. */
  lemma ByteOrder(b: seq<u8>, i: nat)
    requires i + 4 <= |b|
    ensures var b0: nat, b1: nat, b2: nat, b3: nat := b[i], b[i + 1], b[i + 2], b[i + 3];
      && Be16(b, i) == 256 * b0 + b1
      && Be24(b, i) == 256 * (256 * b0 + b1) + b2
      && Be32(b, i) == 256 * (256 * (256 * b0 + b1) + b2) + b3
      && Le32(b, i) == b0 + 256 * (b1 + 256 * (b2 + 256 * b3))
  {
  }

  /** Two bytes in network order, told apart. */
  lemma Word(b: seq<u8>, i: nat, hi: u8, lo: u8)
    requires i + 2 <= |b|
    ensures Be16(b, i) == hi * 0x100 + lo <==> b[i] == hi && b[i + 1] == lo
  {
  }

  /** The four digits of a 32-bit number in base 256. */
  lemma Digits(x: u32)
    ensures x / 0x100_0000 < 0x100
    ensures x == x / 0x100_0000 * 0x100_0000 + x / 0x1_0000 % 0x100 * 0x1_0000 + x / 0x100 % 0x100 * 0x100 + x % 0x100
  {
    var a := x / 0x100;
    var b := a / 0x100;
    assert x / 0x1_0000 == b && x / 0x100_0000 == b / 0x100;
  }

  function Put16(x: u16): (r: seq<u8>)
    ensures |r| == 2 && Be16(r, 0) == x
  {
    [x / 0x100, x % 0x100]
  }

  function Put24(x: u32): (r: seq<u8>)
    requires x < TWO_24
    ensures |r| == 3 && Be24(r, 0) == x
  {
    [x / 0x1_0000, x / 0x100 % 0x100, x % 0x100]
  }

  function Put32(x: u32): (r: seq<u8>)
    ensures |r| == 4 && Be32(r, 0) == x
  {
    Digits(x);
    [x / 0x100_0000, x / 0x1_0000 % 0x100, x / 0x100 % 0x100, x % 0x100]
  }

  function PutLe32(x: u32): (r: seq<u8>)
    ensures |r| == 4 && Le32(r, 0) == x
  {
    Digits(x);
    [x % 0x100, x / 0x100 % 0x100, x / 0x1_0000 % 0x100, x / 0x100_0000]
  }

  lemma SliceWords(a: seq<u8>, i: nat, b: seq<u8>, j: nat)
    requires i + 2 <= |a| && j + 2 <= |b| && a[i] == b[j] && a[i + 1] == b[j + 1]
    ensures Be16(a, i) == Be16(b, j)
  {
  }

  /** `part` lies in `b` at `at`. */
  ghost predicate Holds(b: seq<u8>, at: nat, part: seq<u8>) {
    at + |part| <= |b| && forall i :: 0 <= i < |part| ==> b[at + i] == part[i]
  }

  lemma PrefixHolds(b: seq<u8>, all: seq<u8>, at: nat, part: seq<u8>)
    requires b <= all && Holds(all, at, part) && at + |part| <= |b|
    ensures Holds(b, at, part)
  {
  }

  lemma FrontHolds(all: seq<u8>, at: nat, part: seq<u8>, rest: seq<u8>)
    requires Holds(all, at, part + rest)
    ensures Holds(all, at, part)
  {
    forall i | 0 <= i < |part| ensures all[at + i] == part[i] {
      assert all[at + i] == (part + rest)[i];
    }
  }
}
