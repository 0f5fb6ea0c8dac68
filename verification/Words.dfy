/** Bytes, big-endian words and padding: the arithmetic under every XDR item
    (sections 3, 4.1 to 4.5 and 4.9 to 4.11 of RFC 4506). */
module Words {

  type byte = x: int | 0 <= x < 0x100
  type u32 = x: int | 0 <= x < 0x1_0000_0000
  type u64 = x: int | 0 <= x < 0x1_0000_0000_0000_0000

  datatype Option<+T> = None | Some(value: T)

  datatype Result<+T, +E> = Ok(value: T) | Err(error: E)

  /** The bits of an integer seen as an unsigned 32-bit word: Go's `uint32(i)`. */
  function Wrap32(i: int): u32 { i % 0x1_0000_0000 }

  /** The bits of an integer seen as an unsigned 64-bit word: Go's `uint64(i)`. */
  function Wrap64(i: int): u64 { i % 0x1_0000_0000_0000_0000 }

  /** Go's conversion to a signed integer type of `span` values: keep the low bits,
      read the top one as the sign. */
  function Signed(i: int, span: int): int
    requires span > 0
  {
    var low := i % span;
    if low >= span / 2 then low - span else low
  }

  function WordBytes(w: u32): (b: seq<byte>)
    ensures |b| == 4
  {
    [w / 0x100_0000, w / 0x1_0000 % 0x100, w / 0x100 % 0x100, w % 0x100]
  }

  function WordAt(b: seq<byte>): u32
    requires |b| >= 4
  {
    var b0: int, b1: int, b2: int, b3: int := b[0], b[1], b[2], b[3];
    b0 * 0x100_0000 + b1 * 0x1_0000 + b2 * 0x100 + b3
  }

  function HyperBytes(h: u64): (b: seq<byte>)
    ensures |b| == 8
  {
    WordBytes(h / 0x1_0000_0000) + WordBytes(h % 0x1_0000_0000)
  }

  function HyperAt(b: seq<byte>): u64
    requires |b| >= 8
  {
    var hi: int, lo: int := WordAt(b), WordAt(b[4..]);
    hi * 0x1_0000_0000 + lo
  }

  lemma WordRoundTrip(w: u32, rest: seq<byte>)
    ensures WordAt(WordBytes(w) + rest) == w
  {
    var d := WordBytes(w);
    var b := d + rest;
    assert b[0] == d[0] && b[1] == d[1] && b[2] == d[2] && b[3] == d[3];
    Digits(w);
  }

  lemma Digits(w: int)
    ensures w == w / 0x100_0000 * 0x100_0000 + w / 0x1_0000 % 0x100 * 0x1_0000
              + w / 0x100 % 0x100 * 0x100 + w % 0x100
  {
    var a, b := w / 0x100, w / 0x1_0000;
    assert w == a * 0x100 + w % 0x100;
    assert a == b * 0x100 + a % 0x100;
    assert b == w / 0x100_0000 * 0x100 + b % 0x100;
  }

  lemma WordBytesAt(b: seq<byte>)
    requires |b| >= 4
    ensures WordBytes(WordAt(b)) == b[..4]
  {
    Undigits(b[0], b[1], b[2], b[3]);
  }

  lemma Undigits(b0: int, b1: byte, b2: byte, b3: byte)
    ensures var w: int := b0 * 0x100_0000 + b1 as int * 0x1_0000 + b2 as int * 0x100 + b3;
      && w / 0x100_0000 == b0 && w / 0x1_0000 % 0x100 == b1 && w / 0x100 % 0x100 == b2 && w % 0x100 == b3
  {
    var u: int := b0 * 0x100 + b1;
    var v: int := u * 0x100 + b2;
    var w: int := v * 0x100 + b3;
    assert w / 0x100 == v && w % 0x100 == b3;
    assert v / 0x100 == u && v % 0x100 == b2;
    assert w / 0x1_0000 == u && u % 0x100 == b1 && u / 0x100 == b0;
    assert w / 0x100_0000 == b0;
  }

  lemma WordOf(b0: byte, b1: byte, b2: byte, b3: byte)
    ensures var w: int := b0 as int * 0x100_0000 + b1 as int * 0x1_0000 + b2 as int * 0x100 + b3;
      0 <= w < 0x1_0000_0000 && WordBytes(w) == [b0, b1, b2, b3]
  {
    Undigits(b0, b1, b2, b3);
  }

  lemma HyperRoundTrip(h: u64, rest: seq<byte>)
    ensures HyperAt(HyperBytes(h) + rest) == h
  {
    var low := WordBytes(h % 0x1_0000_0000);
    WordRoundTrip(h / 0x1_0000_0000, low + rest);
    WordRoundTrip(h % 0x1_0000_0000, rest);
    assert HyperBytes(h) + rest == WordBytes(h / 0x1_0000_0000) + (low + rest);
    assert (HyperBytes(h) + rest)[4..] == low + rest;
  }

  lemma SplitHyper(hi: int, lo: u32)
    ensures (hi * 0x1_0000_0000 + lo) / 0x1_0000_0000 == hi
    ensures (hi * 0x1_0000_0000 + lo) % 0x1_0000_0000 == lo
  {
  }

  lemma HyperBytesAt(b: seq<byte>)
    requires |b| >= 8
    ensures HyperBytes(HyperAt(b)) == b[..8]
  {
    var hi: int, lo: int := WordAt(b), WordAt(b[4..]);
    SplitHyper(hi, lo);
    WordBytesAt(b);
    WordBytesAt(b[4..]);
    assert b[..8] == b[..4] + b[4..][..4];
  }

  /** The encoder's padding formula, `(4 - (len & 3)) & 3`. */
  function PadLen(len: nat): (p: nat)
    ensures p < 4 && (len + p) % 4 == 0
  {
    (4 - len % 4) % 4
  }

  /** The decoder's and the stream reader's formula, `((len + 3) & ^3) - len`. */
  function RoundUp(len: nat): nat
  {
    (len + 3) / 4 * 4
  }

  /** Both ends agree on the padding of every length. */
  lemma PaddingAgrees(len: nat)
    ensures RoundUp(len) == len + PadLen(len)
  {
  }

  function Zeros(n: nat): (z: seq<byte>)
    ensures |z| == n && forall i :: 0 <= i < n ==> z[i] == 0
  {
    seq(n, i => 0)
  }

  function Padded(bs: seq<byte>): (p: seq<byte>)
    ensures |p| == RoundUp(|bs|) && |p| % 4 == 0
    ensures p[..|bs|] == bs
  {
    PaddingAgrees(|bs|);
    bs + Zeros(PadLen(|bs|))
  }

  // ---------------------------------------------------------------- sequences and sets

  lemma Assoc<T>(a: seq<T>, b: seq<T>, c: seq<T>)
    ensures (a + b) + c == a + (b + c)
  {
  }

  lemma {:induction false} Smaller<T>(a: set<T>, b: set<T>)
    requires a <= b
    ensures |a| <= |b|
  {
    if a != {} {
      var x :| x in a;
      Smaller(a - {x}, b - {x});
    }
  }
}
