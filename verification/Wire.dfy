/** The wire format spelled out, item by item as RFC 4506 has it: big-endian words, the scalars of each type,
    optional data, opaque data and strings, and sequences of items one behind the other. */
module Wire {
  import opened Words
  import opened Types
  import opened Codecs
  import opened Maps

  // ---------------------------------------------------------------- words

  /** The most significant byte comes first (sections 4.1 and 4.5). */
  lemma WordIsBigEndian(w: u32)
    ensures var b := WordBytes(w);
      |b| == 4 && b[0] as int * 16777216 + b[1] as int * 65536 + b[2] as int * 256 + b[3] == w
  {
    Digits(w);
  }

  lemma HyperIsBigEndian(h: u64)
    ensures var b := HyperBytes(h);
      && |b| == 8
      && (b[0] as int * 16777216 + b[1] as int * 65536 + b[2] as int * 256 + b[3]) * 4294967296
         + (b[4] as int * 16777216 + b[5] as int * 65536 + b[6] as int * 256 + b[7]) == h
  {
    hide WordBytes;
    var hi, lo := h / 4294967296, h % 4294967296;
    WordIsBigEndian(hi);
    WordIsBigEndian(lo);
    assert HyperBytes(h)[0] == WordBytes(hi)[0] && HyperBytes(h)[4] == WordBytes(lo)[0];
    assert HyperBytes(h)[1] == WordBytes(hi)[1] && HyperBytes(h)[5] == WordBytes(lo)[1];
    assert HyperBytes(h)[2] == WordBytes(hi)[2] && HyperBytes(h)[6] == WordBytes(lo)[2];
    assert HyperBytes(h)[3] == WordBytes(hi)[3] && HyperBytes(h)[7] == WordBytes(lo)[3];
  }

  // ---------------------------------------------------------------- scalars

  /** A false bool is the word 0, a true one the word 1 (section 4.4). */
  lemma BoolsWritten()
    ensures EncodePrim(Bool, VBool(false)) == [0, 0, 0, 0] && EncodePrim(Bool, VBool(true)) == [0, 0, 0, 1]
  {
  }

  /** The integers each type holds, and the word or hyper it is written as: n itself, or its two's complement. */
  predicate IntegerOf(p: Prim, n: int)
  {
    match p
    case Int8 => -128 <= n <= 127
    case Int16 => -32768 <= n <= 32767
    case Int32 => -2147483648 <= n <= 2147483647
    case Hyper => -9223372036854775808 <= n <= 9223372036854775807
    case Uint8 => 0 <= n <= 255
    case Uint16 => 0 <= n <= 65535
    case Uint32 => 0 <= n <= 4294967295
    case Float => 0 <= n <= 4294967295
    case Uhyper => 0 <= n <= 18446744073709551615
    case Double => 0 <= n <= 18446744073709551615
    case _ => false
  }

  predicate IsLong(p: Prim) { p == Hyper || p == Uhyper || p == Double }

  lemma NumbersWritten(p: Prim, n: int)
    requires p != Bool && p != Complex64 && p != Complex128
    ensures PrimTyped(p, VNum(n)) <==> IntegerOf(p, n)
    ensures IntegerOf(p, n) && IsLong(p) ==>
      EncodePrim(p, VNum(n)) == HyperBytes(if n >= 0 then n else n + 18446744073709551616)
    ensures IntegerOf(p, n) && !IsLong(p) ==> EncodePrim(p, VNum(n)) == WordBytes(if n >= 0 then n else n + 4294967296)
  {
    hide WordBytes, HyperBytes;
    if IntegerOf(p, n) {
      if n < 0 { Complement(n); } else { Itself(n); }
    }
  }

  lemma Complement(n: int)
    requires n < 0
    ensures n >= -2147483648 ==> Wrap32(n) == n + 4294967296
    ensures n >= -9223372036854775808 ==> Wrap64(n) == n + 18446744073709551616
  {
  }

  lemma Itself(n: nat)
    ensures n < 4294967296 ==> Wrap32(n) == n
    ensures n < 18446744073709551616 ==> Wrap64(n) == n
  {
  }

  /** A complex number is its real part and then its imaginary part. */
  lemma ComplexWritten(re: nat, im: nat)
    ensures PrimTyped(Complex64, VPair(re, im)) <==> re <= 4294967295 && im <= 4294967295
    ensures PrimTyped(Complex128, VPair(re, im)) <==> re <= 18446744073709551615 && im <= 18446744073709551615
    ensures PrimTyped(Complex64, VPair(re, im)) ==>
      EncodePrim(Complex64, VPair(re, im)) == WordBytes(re) + WordBytes(im)
    ensures PrimTyped(Complex128, VPair(re, im)) ==>
      EncodePrim(Complex128, VPair(re, im)) == HyperBytes(re) + HyperBytes(im)
  {
  }

  /** Where input ends before a word: nothing left is the end of the stream, a part of it an unexpected end. */
  lemma WordMissing(input: seq<byte>)
    ensures |input| == 0 ==> DecodeWord(input) == Err(EndOfInput)
    ensures 0 < |input| < 4 ==> DecodeWord(input) == Err(UnexpectedEnd)
    ensures |input| >= 4 ==> DecodeWord(input) == Ok((WordAt(input[..4]), input[4..]))
  {
  }

  /** Only the words 0 and 1 are bools. */
  lemma BoolsRead(input: seq<byte>)
    requires |input| >= 4
    ensures DecodePrim(Bool, input)
         == if input[..4] == [0, 0, 0, 0] then Ok((VBool(false), input[4..]))
            else if input[..4] == [0, 0, 0, 1] then Ok((VBool(true), input[4..]))
            else Err(InvalidValue)
  {
    WordBytesAt(input[..4]);
    BoolsWritten();
  }

  // ---------------------------------------------------------------- pointers and opaque data

  /** Optional data is the word 0, or the word 1 and the data (section 4.19); a nil pointer that is not optional
      cannot be written. */
  lemma PointersWritten<R>(g: Graph<R>, n: Node<R>, w: Value)
    ensures n.PtrCodec? ==>
      EncodeBy(g, n, VNil) == Failed(NilPointer) && EncodeBy(g, n, VRef(w)) == Encode(g, n.elem, w)
    ensures n.OptCodec? ==> EncodeBy(g, n, VNil) == Done([0, 0, 0, 0])
    ensures n.OptCodec? && Target(g, n.elem).PtrCodec? ==>
      EncodeBy(g, n, VRef(w)) == After([0, 0, 0, 1], Encode(g, Target(g, n.elem).elem, w))
  {
    hide Encode;
    BoolsWritten();
  }

  /** Zeros fill the last unit of four bytes (section 3). */
  predicate IsPadded(b: seq<byte>, p: seq<byte>)
  {
    && |b| <= |p| < |b| + 4 && |p| % 4 == 0
    && p[..|b|] == b && forall i :: |b| <= i < |p| ==> p[i] == 0
  }

  lemma PaddingWritten(b: seq<byte>)
    ensures IsPadded(b, Padded(b))
  {
  }

  /** Fixed-length data is written without its length, which must be the declared one (sections 4.9 and 4.11). */
  lemma FixedWritten<R>(g: Graph<R>, n: Node<R>, b: seq<byte>)
    ensures n.FixedStringCodec? ==>
      EncodeBy(g, n, VStr(b)) == if |b| == n.len then Done(Padded(b)) else Failed(LengthIncorrect)
    ensures n.OpaqueArrayCodec? && |b| == n.count ==> EncodeBy(g, n, VList(FromBytes(b))) == Done(Padded(b))
  {
    SameBytes(b);
  }

  lemma SameBytes(b: seq<byte>)
    ensures ToBytes(FromBytes(b)) == b
  {
    var r := ToBytes(FromBytes(b));
    assert forall i :: 0 <= i < |b| ==> r[i] == FromBytes(b)[i].n;
  }

  /** Variable-length data is written behind its length, if that is not more than the maximum (sections 4.10
      and 4.11). */
  lemma VariableWritten<R>(g: Graph<R>, n: Node<R>, b: seq<byte>)
    requires n.VarStringCodec? || n.OpaqueSliceCodec?
    ensures var out := EncodeBy(g, n, if n.VarStringCodec? then VStr(b) else VList(FromBytes(b)));
      if |b| > n.max then out == Failed(LengthError(|b|, n.max)) else out == Done(WordBytes(|b|) + Padded(b))
  {
    SameBytes(b);
  }

  // ---------------------------------------------------------------- sequences of items

  /** Pieces one behind the other. */
  function Joined(pieces: seq<seq<byte>>): seq<byte> { if pieces == [] then [] else pieces[0] + Joined(pieces[1..]) }

  /** All items have been written, each as its codec does, codecs taking turns. */
  ghost predicate Pieces<R>(g: Graph<R>, a: R, b: R, vs: seq<Value>, pieces: seq<seq<byte>>)
  {
    |pieces| == |vs| && forall i :: 0 <= i < |vs| ==> Encode(g, if i % 2 == 0 then a else b, vs[i]) == Done(pieces[i])
  }

  /** Items are written one behind the other, in order, with nothing in between. */
  lemma {:induction false} ItemsWritten<R>(g: Graph<R>, a: R, b: R, vs: seq<Value>, pieces: seq<seq<byte>>)
    requires Pieces(g, a, b, vs, pieces)
    ensures EncodeItems(g, a, b, vs) == Done(Joined(pieces))
    decreases vs
  {
    hide Encode;
    if vs != [] {
      forall i | 0 <= i < |vs[1..]| ensures Encode(g, if i % 2 == 0 then b else a, vs[1..][i]) == Done(pieces[1..][i]) {
        assert Encode(g, if (i + 1) % 2 == 0 then a else b, vs[i + 1]) == Done(pieces[i + 1]);
      }
      ItemsWritten(g, b, a, vs[1..], pieces[1..]);
      assert Encode(g, if 0 % 2 == 0 then a else b, vs[0]) == Done(pieces[0]);
    }
  }

  /** Arrays are their elements; slices and maps come behind their count, maps as keys and elements by turns
      (sections 4.12 and 4.13). */
  lemma ListsWritten<R>(g: Graph<R>, n: Node<R>, vs: seq<Value>, pieces: seq<seq<byte>>)
    ensures n.ArrayCodec? && |vs| == n.count && Pieces(g, n.elem, n.elem, vs, pieces) ==>
      EncodeBy(g, n, VList(vs)) == Done(Joined(pieces))
    ensures n.SliceCodec? && |vs| <= n.max && Pieces(g, n.elem, n.elem, vs, pieces) ==>
      EncodeBy(g, n, VList(vs)) == Done(WordBytes(|vs|) + Joined(pieces))
    ensures n.SliceCodec? && |vs| > n.max ==> EncodeBy(g, n, VList(vs)) == Failed(LengthError(|vs|, n.max))
    ensures n.MapCodec? && |vs| % 2 == 0 && |vs| / 2 <= n.max && Pieces(g, n.key, n.elem, vs, pieces) ==>
      EncodeBy(g, n, VDict(vs)) == Done(WordBytes(|vs| / 2) + Joined(pieces))
    ensures n.MapCodec? && |vs| % 2 == 0 && |vs| / 2 > n.max ==>
      EncodeBy(g, n, VDict(vs)) == Failed(LengthError(|vs| / 2, n.max))
  {
    hide Pieces, EncodeItems, WordBytes;
    if n.MapCodec? {
      if Pieces(g, n.key, n.elem, vs, pieces) { ItemsWritten(g, n.key, n.elem, vs, pieces); }
    } else if n.ArrayCodec? || n.SliceCodec? {
      if Pieces(g, n.elem, n.elem, vs, pieces) { ItemsWritten(g, n.elem, n.elem, vs, pieces); }
    }
  }

  /** The fields have been written, each as its codec does. */
  ghost predicate FieldPieces<R>(g: Graph<R>, fields: seq<Field<R>>, vals: seq<Value>, pieces: seq<seq<byte>>)
  {
    |pieces| == |fields|
    && forall i :: 0 <= i < |fields| ==>
         fields[i].index < |vals| && Encode(g, fields[i].codec, vals[fields[i].index]) == Done(pieces[i])
  }

  /** A struct is its fields one behind the other (section 4.14). */
  lemma {:induction false} FieldsWritten<R>(g: Graph<R>, name: string, fields: seq<Field<R>>, vals: seq<Value>,
                                            pieces: seq<seq<byte>>)
    requires FieldPieces(g, fields, vals, pieces)
    ensures EncodeFields(g, name, fields, vals) == Done(Joined(pieces))
    decreases |fields|
  {
    hide Encode;
    if fields != [] {
      forall i | 0 <= i < |fields[1..]|
        ensures fields[1..][i].index < |vals|
        ensures Encode(g, fields[1..][i].codec, vals[fields[1..][i].index]) == Done(pieces[1..][i])
      {
        assert fields[1..][i] == fields[i + 1] && pieces[1..][i] == pieces[i + 1];
      }
      FieldsWritten(g, name, fields[1..], vals, pieces[1..]);
    }
  }

  lemma StructWritten<R>(g: Graph<R>, n: Node<R>, vals: seq<Value>, pieces: seq<seq<byte>>)
    requires n.StructCodec? && |vals| == n.width && FieldPieces(g, n.fields, vals, pieces)
    ensures EncodeBy(g, n, VRec(vals)) == Done(Joined(pieces))
  {
    hide EncodeFields, FieldPieces;
    FieldsWritten(g, n.name, n.fields, vals, pieces);
  }

  // ---------------------------------------------------------------- maps

  /** A map that is read has the keys that were sent, each with the value of the last entry sent for it. */
  lemma MapsRead<R>(g: Graph<R>, n: Node<R>, input: seq<byte>, depth: nat, i: nat)
    requires n.MapCodec? && depth > 0 && DecodeBy(g, n, input, depth).Ok?
    ensures |input| >= 4 && WordAt(input[..4]) <= n.max
    ensures var sent := DecodeItems(g, n.key, n.elem, 2 * WordAt(input[..4]), input[4..], depth - 1);
      var (m, rest) := DecodeBy(g, n, input, depth).value;
      && sent.Ok? && rest == sent.value.1 && m.VDict? && DistinctKeys(m.kv)
      && (forall k :: HasKey(m.kv, k) <==> HasKey(sent.value.0, k))
      && (i < Size(sent.value.0) && IsLast(sent.value.0, i) ==>
            HasEntry(m.kv, KeyOf(sent.value.0, i), ElemOf(sent.value.0, i)))
  {
    hide DecodeItems, Merge, IsLast, HasEntry, DistinctKeys, HasKey;
    var sent := DecodeItems(g, n.key, n.elem, 2 * WordAt(input[..4]), input[4..], depth - 1).value.0;
    MergeKeepsKeys(sent);
    if i < Size(sent) && IsLast(sent, i) { LastEntryWins(sent, i); }
  }
}
