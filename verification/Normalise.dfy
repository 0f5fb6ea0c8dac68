/** Decoding then encoding normalises the input and changes nothing else. */
module Normalise {
  import opened Words
  import Types
  import opened Codecs
  import opened RoundTrips

  /** What normalisation does to a byte: nothing; zero it, as padding; or set it, as a high byte of an 8- or
      16-bit integer whose first low byte is `ahead` bytes on, to zero or to that byte's sign. */
  datatype Mark = Exact | Pad | High(signed: bool, ahead: nat)

  function Exacts(n: nat): (m: seq<Mark>)
    ensures |m| == n && forall i :: 0 <= i < n ==> m[i] == Exact
  {
    seq(n, i => Exact)
  }

  function PaddedMarks(n: nat): (m: seq<Mark>)
    ensures |m| == RoundUp(n) && forall i :: 0 <= i < |m| ==> m[i] == if i < n then Exact else Pad
  {
    seq(RoundUp(n), i => if i < n then Exact else Pad)
  }

  function PrimMarks(p: Prim): seq<Mark>
  {
    if p.Int8? || p.Uint8? then [High(p.Int8?, 3), High(p.Int8?, 2), High(p.Int8?, 1), Exact]
    else if p.Int16? || p.Uint16? then [High(p.Int16?, 2), High(p.Int16?, 1), Exact, Exact]
    else if p.Complex128? then Exacts(16)
    else if p.Complex64? || IsHyper(p) then Exacts(8)
    else Exacts(4)
  }

  // ---------------------------------------------------------------- the marks of a value

  function Marks<R(==)>(g: Graph<R>, r: R, v: Value): seq<Mark>
    decreases v, 3
  {
    MarksBy(g, Target(g, r), v)
  }

  function MarksBy<R(==)>(g: Graph<R>, n: Node<R>, v: Value): seq<Mark>
    decreases v, if n.OptCodec? then 2 else 1
  {
    match n
    case PrimCodec(p) => PrimMarks(p)
    case OptCodec(elem) =>
      if v.VRef? && !Target(g, elem).OptCodec? then Exacts(4) + MarksBy(g, Target(g, elem), v) else Exacts(4)
    case PtrCodec(elem) => if v.VRef? then Marks(g, elem, v.target) else []
    case FixedStringCodec(_) => if v.VStr? then PaddedMarks(|v.s|) else []
    case VarStringCodec(_) => if v.VStr? then Exacts(4) + PaddedMarks(|v.s|) else []
    case OpaqueArrayCodec(_) => if v.VList? then PaddedMarks(|v.elems|) else []
    case OpaqueSliceCodec(_) => if v.VList? then Exacts(4) + PaddedMarks(|v.elems|) else []
    case ArrayCodec(_, elem) => if v.VList? then MarksItems(g, elem, elem, v.elems) else []
    case SliceCodec(_, elem) => if v.VList? then Exacts(4) + MarksItems(g, elem, elem, v.elems) else []
    case StructCodec(_, _, fields) => if v.VRec? then MarksFields(g, fields, v.fields) else []
    case UnionCodec(_, _, sw, kind, body, cases, default) =>
      if !(v.VRec? && sw.index < |v.fields|) then [] else
      (match SwitchKey(kind, v.fields[sw.index])
       case None => []
       case Some(key) =>
         var arm := Arm(cases, default, key);
         if arm !in body then []
         else MarksFields(g, [sw], v.fields) + MarksFields(g, [body[arm]], v.fields))
    case _ => []
  }

  function MarksItems<R(==)>(g: Graph<R>, a: R, b: R, vs: seq<Value>): seq<Mark>
    decreases vs, 4
  {
    if vs == [] then [] else Marks(g, a, vs[0]) + MarksItems(g, b, a, vs[1..])
  }

  function MarksFields<R(==)>(g: Graph<R>, fields: seq<Field<R>>, vals: seq<Value>): seq<Mark>
    decreases vals, 1 + |fields|
  {
    if fields == [] then []
    else if fields[0].index >= |vals| then []
    else Marks(g, fields[0].codec, vals[fields[0].index]) + MarksFields(g, fields[1..], vals)
  }

  // ---------------------------------------------------------------- bodies that break off

  /** The body of a variable-length opaque or string, and its padding, are all there. */
  predicate BodyPresent(input: seq<byte>)
  {
    match DecodeWord(input)
    case Err(_) => true
    case Ok((l, rest)) => |rest| >= RoundUp(l)
  }

  /** No variable-length opaque or string that the decoder meets breaks off. */
  predicate Unbroken<R(==)>(g: Graph<R>, r: R, input: seq<byte>, depth: nat)
    decreases depth, 4
  {
    UnbrokenBy(g, Target(g, r), input, depth)
  }

  predicate UnbrokenBy<R(==)>(g: Graph<R>, n: Node<R>, input: seq<byte>, depth: nat)
    decreases depth, if n.OptCodec? then 3 else 2
  {
    if IsComposite(n) && depth == 0 then true else
    match n
    case VarStringCodec(_) => BodyPresent(input)
    case OpaqueSliceCodec(_) => BodyPresent(input)
    case OptCodec(elem) =>
      (match DecodeBool(input)
       case Err(_) => true
       case Ok((nonNil, rest)) =>
         nonNil && !Target(g, elem).OptCodec? ==> UnbrokenBy(g, Target(g, elem), rest, depth))
    case PtrCodec(elem) => Unbroken(g, elem, input, depth - 1)
    case ArrayCodec(len, elem) => UnbrokenItems(g, elem, elem, len, input, depth - 1)
    case SliceCodec(max, elem) =>
      (match DecodeWord(input)
       case Err(_) => true
       case Ok((l, more)) => l <= max ==> UnbrokenItems(g, elem, elem, l, more, depth - 1))
    case MapCodec(max, key, elem) =>
      (match DecodeWord(input)
       case Err(_) => true
       case Ok((l, more)) => l <= max ==> UnbrokenItems(g, key, elem, 2 * l, more, depth - 1))
    case StructCodec(_, _, fields) => UnbrokenFields(g, fields, input, depth - 1)
    case UnionCodec(_, _, sw, kind, body, cases, default) =>
      && Unbroken(g, sw.codec, input, depth - 1)
      && (match Decode(g, sw.codec, input, depth - 1)
          case Err(_) => true
          case Ok((v, more)) =>
            match SwitchKey(kind, v)
            case None => true
            case Some(key) =>
              var arm := Arm(cases, default, key);
              arm in body ==> Unbroken(g, body[arm].codec, more, depth - 1))
    case _ => true
  }

  predicate UnbrokenItems<R(==)>(g: Graph<R>, a: R, b: R, n: nat, input: seq<byte>, depth: nat)
    decreases depth, 5, n
  {
    n > 0 ==>
      && Unbroken(g, a, input, depth)
      && (match Decode(g, a, input, depth)
          case Err(_) => true
          case Ok((_, more)) => UnbrokenItems(g, b, a, n - 1, more, depth))
  }

  predicate UnbrokenFields<R(==)>(g: Graph<R>, fields: seq<Field<R>>, input: seq<byte>, depth: nat)
    decreases depth, 6, |fields|
  {
    fields != [] ==>
      && Unbroken(g, fields[0].codec, input, depth)
      && (match Decode(g, fields[0].codec, input, depth)
          case Err(_) => true
          case Ok((_, more)) => UnbrokenFields(g, fields[1..], more, depth))
  }

  // ---------------------------------------------------------------- comparing input and output

  /** The normalised byte at position `i`; what the input breaks off before reads as zeros. */
  function TidyByte(input: seq<byte>, marks: seq<Mark>, i: nat): byte
    requires i < |marks|
  {
    match marks[i]
    case Exact => if i < |input| then input[i] else 0
    case Pad => 0
    case High(signed, ahead) => if signed && i + ahead < |input| && input[i + ahead] >= 0x80 then 0xFF else 0
  }

  function Tidy(input: seq<byte>, marks: seq<Mark>): (out: seq<byte>)
    ensures |out| == |marks|
    ensures forall i {:trigger out[i]} :: 0 <= i < |marks| ==> out[i] == TidyByte(input, marks, i)
  {
    seq(|marks|, i requires 0 <= i < |marks| => TidyByte(input, marks, i))
  }

  /** `out` is `input`, up to `rest`, normalised. If not `whole`, the input broke off inside the body of its
      last item, `out` is longer, and nothing is left. */
  ghost predicate Tidied(input: seq<byte>, rest: seq<byte>, out: seq<byte>, marks: seq<Mark>, whole: bool)
  {
    && out == Tidy(input, marks)
    && (whole <==> |marks| <= |input|)
    && (if whole then rest == input[|marks|..] else rest == [] && input != [])
  }

  lemma TidyConcat(input: seq<byte>, m1: seq<Mark>, m2: seq<Mark>)
    requires |m1| <= |input|
    ensures Tidy(input, m1 + m2) == Tidy(input, m1) + Tidy(input[|m1|..], m2)
  {
    hide TidyByte;
    var mid, l, r := input[|m1|..], Tidy(input, m1 + m2), Tidy(input, m1) + Tidy(input[|m1|..], m2);
    forall i | 0 <= i < |m1 + m2| ensures l[i] == r[i] {
      ByteConcat(input, m1, m2, i);
      if i >= |m1| { assert r[i] == Tidy(mid, m2)[i - |m1|]; }
    }
  }

  lemma ByteConcat(input: seq<byte>, m1: seq<Mark>, m2: seq<Mark>, i: nat)
    requires |m1| <= |input| && i < |m1 + m2|
    ensures TidyByte(input, m1 + m2, i)
         == if i < |m1| then TidyByte(input, m1, i) else TidyByte(input[|m1|..], m2, i - |m1|)
  {
  }

  lemma TidiedConcat(input: seq<byte>, mid: seq<byte>, rest: seq<byte>, o1: seq<byte>, m1: seq<Mark>, w1: bool,
                     o2: seq<byte>, m2: seq<Mark>, w2: bool)
    requires Tidied(input, mid, o1, m1, w1) && Tidied(mid, rest, o2, m2, w2)
    ensures Tidied(input, rest, o1 + o2, m1 + m2, w1 && w2)
  {
    hide TidyByte;
    if w1 {
      TidyConcat(input, m1, m2);
    } else {
      assert m2 == [] && o2 == [];
      assert o1 + o2 == o1 && m1 + m2 == m1;
    }
  }

  lemma WordTidied(input: seq<byte>)
    requires DecodeWord(input).Ok?
    ensures var (w, rest) := DecodeWord(input).value;
      rest == input[4..] && WordBytes(w) == input[..4] && Tidied(input, rest, WordBytes(w), Exacts(4), true)
  {
    WordBytesAt(input[..4]);
  }

  lemma HyperTidied(input: seq<byte>)
    requires DecodeHyper(input).Ok?
    ensures var (h, rest) := DecodeHyper(input).value; Tidied(input, rest, HyperBytes(h), Exacts(8), true)
  {
    HyperBytesAt(input[..8]);
  }

  /** The low bytes of a word are its remainders. */
  lemma LowBytes(x: u32)
    ensures x % 0x100 == WordBytes(x)[3]
    ensures x % 0x1_0000 == WordBytes(x)[2] as int * 0x100 + WordBytes(x)[3]
  {
    var y: int := x;
    var u, v := y / 0x100, y / 0x1_0000;
    assert y == u * 0x100 + y % 0x100;
    assert u == v * 0x100 + u % 0x100;
    Rest(y, v, u % 0x100 * 0x100 + y % 0x100);
  }

  lemma Rest(y: int, q: int, r: int)
    requires y == q * 0x1_0000 + r && 0 <= r < 0x1_0000
    ensures y % 0x1_0000 == r
  {
  }

  lemma Negative(n: int)
    requires -0x1_0000_0000 <= n < 0
    ensures Wrap32(n) == n + 0x1_0000_0000
  {
  }

  /** An octet's word: the low byte, under its own sign. */
  lemma OctetTidied(signed: bool, x: u32)
    ensures var n := if signed then Signed(x, 0x100) else x % 0x100;
      var lo := WordBytes(x)[3]; var ext := if signed && lo >= 0x80 then 0xFF else 0;
      WordBytes(Wrap32(n)) == [ext, ext, ext, lo]
  {
    hide WordBytes, Wrap32;
    LowBytes(x);
    var lo: int := WordBytes(x)[3];
    if signed && lo >= 0x80 {
      Negative(lo - 0x100);
      WordOf(0xFF, 0xFF, 0xFF, lo);
    } else {
      Unwrapped(lo);
      WordOf(0, 0, 0, lo);
    }
  }

  lemma Unwrapped(n: u32)
    ensures Wrap32(n) == n
  {
  }

  /** A short's word: the two low bytes, under the sign of the higher. */
  lemma ShortTidied(signed: bool, x: u32)
    ensures var n := if signed then Signed(x, 0x1_0000) else x % 0x1_0000;
      var hi, lo := WordBytes(x)[2], WordBytes(x)[3]; var ext := if signed && hi >= 0x80 then 0xFF else 0;
      WordBytes(Wrap32(n)) == [ext, ext, hi, lo]
  {
    hide WordBytes, Wrap32;
    LowBytes(x);
    var hi: int, lo: int := WordBytes(x)[2], WordBytes(x)[3];
    var low := hi * 0x100 + lo;
    if signed && hi >= 0x80 {
      Negative(low - 0x1_0000);
      WordOf(0xFF, 0xFF, hi, lo);
    } else {
      Unwrapped(low);
      WordOf(0, 0, hi, lo);
    }
  }

  lemma NarrowInRange(p: Prim, w: u32)
    requires !p.Bool? && !IsComplex(p) && !IsHyper(p)
    ensures InRange(p, Narrow(p, w))
  {
  }

  lemma NarrowTidied(p: Prim, w: u32)
    requires !p.Bool? && !IsComplex(p) && !IsHyper(p)
    ensures WordBytes(Wrap32(Narrow(p, w))) == Tidy(WordBytes(w), PrimMarks(p))
  {
    hide WordBytes;
    if p.Int8? || p.Uint8? {
      OctetTidied(p.Int8?, w);
    } else if p.Int16? || p.Uint16? {
      ShortTidied(p.Int16?, w);
    } else {
      assert Wrap32(Narrow(p, w)) == w;
    }
  }

  /** A word's normalised form is decided by its own four bytes. */
  lemma TidyWord(p: Prim, input: seq<byte>)
    requires !p.Bool? && !IsComplex(p) && !IsHyper(p) && |input| >= 4
    ensures |PrimMarks(p)| == 4 && Tidy(input, PrimMarks(p)) == Tidy(input[..4], PrimMarks(p))
  {
  }

  lemma ComplexTidied(p: Prim, input: seq<byte>)
    requires IsComplex(p) && DecodePrim(p, input).Ok?
    ensures var (v, rest) := DecodePrim(p, input).value;
      PrimTyped(p, v) && Tidied(input, rest, EncodePrim(p, v), PrimMarks(p), true)
  {
    var (v, rest) := DecodePrim(p, input).value;
    if p.Complex64? {
      var mid := DecodeWord(input).value.1;
      WordTidied(input);
      WordTidied(mid);
      TidiedConcat(input, mid, rest, WordBytes(v.re), Exacts(4), true, WordBytes(v.im), Exacts(4), true);
      assert Exacts(4) + Exacts(4) == Exacts(8);
    } else {
      var mid := DecodeHyper(input).value.1;
      HyperTidied(input);
      HyperTidied(mid);
      TidiedConcat(input, mid, rest, HyperBytes(v.re), Exacts(8), true, HyperBytes(v.im), Exacts(8), true);
      assert Exacts(8) + Exacts(8) == Exacts(16);
    }
  }

  lemma PrimTidied(p: Prim, input: seq<byte>)
    requires DecodePrim(p, input).Ok?
    ensures var (v, rest) := DecodePrim(p, input).value;
      PrimTyped(p, v) && Tidied(input, rest, EncodePrim(p, v), PrimMarks(p), true)
  {
    if IsComplex(p) {
      ComplexTidied(p, input);
    } else if p.Bool? {
      WordTidied(input);
    } else if IsHyper(p) {
      HyperTidied(input);
      SignedWraps(DecodeHyper(input).value.0);
    } else {
      WordTidied(input);
      NarrowInRange(p, DecodeWord(input).value.0);
      NarrowTidied(p, DecodeWord(input).value.0);
      TidyWord(p, input);
    }
  }

  lemma SignedWraps(h: u64)
    ensures Wrap64(h) == h && Wrap64(Signed(h, 0x1_0000_0000_0000_0000)) == h
    ensures InRange(Types.Hyper, Signed(h, 0x1_0000_0000_0000_0000))
  {
  }

  lemma FixedTidied(len: nat, input: seq<byte>)
    requires DecodeFixed(len, input).Ok?
    ensures var (s, rest) := DecodeFixed(len, input).value;
      |s| == len && Tidied(input, rest, Padded(s), PaddedMarks(len), true)
  {
    PaddingAgrees(len);
  }

  lemma OpaqueTidied(max: u32, input: seq<byte>)
    requires DecodeOpaque(max, input).Ok?
    ensures var (s, rest) := DecodeOpaque(max, input).value;
      |s| <= max && EncodeOpaque(s, max).err == None
      && Tidied(input, rest, EncodeOpaque(s, max).bytes, Exacts(4) + PaddedMarks(|s|), BodyPresent(input))
  {
    var (l, more) := DecodeWord(input).value;
    var (s, rest) := DecodeOpaque(max, input).value;
    WordTidied(input);
    PaddingAgrees(l);
    assert |s| == l;
    BodyTidied(s, more);
    TidyConcat(input, Exacts(4), PaddedMarks(l));
  }

  /** A body that may break off: what is missing reads as zeros. */
  lemma BodyTidied(s: seq<byte>, more: seq<byte>)
    requires s == if |more| >= RoundUp(|s|) then more[..|s|] else (more + Zeros(|s|))[..|s|]
    ensures Padded(s) == Tidy(more, PaddedMarks(|s|))
  {
    PaddingAgrees(|s|);
    var l, r := Padded(s), Tidy(more, PaddedMarks(|s|));
    forall i | 0 <= i < |l| ensures l[i] == r[i] {}
  }

  // ---------------------------------------------------------------- the law

  /** Field positions do not collide: what `makeStructCodec` builds. */
  ghost predicate WellIndexed<R>(n: Node<R>)
  {
    match n
    case StructCodec(_, _, fields) =>
      forall i, j :: 0 <= i < j < |fields| ==> fields[i].index != fields[j].index
    case UnionCodec(_, _, sw, _, body, _, _) => forall a :: a in body ==> body[a].index != sw.index
    case _ => true
  }

  /** Not a map, shaped as the compiler makes it, and referring to codecs of `part` only. */
  ghost predicate RegularNode<R>(g: Graph<R>, part: set<R>, n: Node<R>)
  {
    && WellIndexed(n) && !n.MapCodec? && RefersWithin(n, part)
    && (n.OptCodec? ==> Pointerlike(Target(g, n.elem)))
  }

  /** From the codecs of `part` no map is reached, whatever else is in the graph. */
  ghost predicate Regular<R>(g: Graph<R>, part: set<R>) { forall r :: r in part ==> RegularNode(g, part, Target(g, r)) }

  ghost predicate FieldsWithin<R>(fields: seq<Field<R>>, part: set<R>) { forall f :: f in fields ==> f.codec in part }

  lemma TargetRegular<R>(g: Graph<R>, part: set<R>, r: R)
    requires Regular(g, part) && r in part
    ensures RegularNode(g, part, Target(g, r))
  {
  }

  /** All a decoded value promises when it is encoded again by the same codec. */
  ghost predicate Normal<R>(g: Graph<R>, n: Node<R>, v: Value, input: seq<byte>, rest: seq<byte>, whole: bool)
  {
    && EncodeBy(g, n, v).err == None
    && CanonBy(g, n, v) == v
    && Tidied(input, rest, EncodeBy(g, n, v).bytes, MarksBy(g, n, v), whole)
  }

  lemma {:induction false} DecodedIsNormal<R>(g: Graph<R>, part: set<R>, n: Node<R>, input: seq<byte>, depth: nat)
    requires Regular(g, part) && RegularNode(g, part, n)
    requires DecodeBy(g, n, input, depth).Ok?
    ensures var (v, rest) := DecodeBy(g, n, input, depth).value;
      Normal(g, n, v, input, rest, UnbrokenBy(g, n, input, depth))
    decreases depth, if n.OptCodec? then 3 else 2
  {
    if n.OptCodec? {
      OptNormal(g, part, n, input, depth);
    } else if n.PtrCodec? {
      TargetRegular(g, part, n.elem);
      DecodedIsNormal(g, part, Target(g, n.elem), input, depth - 1);
    } else if n.ArrayCodec? || n.SliceCodec? {
      ListNormal(g, part, n, input, depth);
    } else if n.StructCodec? {
      FieldsNormal(g, part, n.name, n.fields, Untouched(n.width), input, depth - 1);
    } else if n.UnionCodec? {
      UnionNormal(g, part, n, input, depth);
    } else {
      LeafNormal(g, n, input, depth);
    }
  }

  lemma LeafNormal<R>(g: Graph<R>, n: Node<R>, input: seq<byte>, depth: nat)
    requires !IsComposite(n) && !n.OptCodec? && DecodeBy(g, n, input, depth).Ok?
    ensures var (v, rest) := DecodeBy(g, n, input, depth).value;
      Normal(g, n, v, input, rest, UnbrokenBy(g, n, input, depth))
  {
    match n
    case PrimCodec(p) => PrimTidied(p, input);
    case FixedStringCodec(len) => FixedTidied(len, input);
    case VarStringCodec(max) => OpaqueTidied(max, input);
    case OpaqueArrayCodec(len) => OctetsNormal(g, n, input, depth);
    case OpaqueSliceCodec(max) => OctetsNormal(g, n, input, depth);
    case ErrorCodec(_) =>
    case DeferredCodec(_) =>
  }

  lemma OctetsNormal<R>(g: Graph<R>, n: Node<R>, input: seq<byte>, depth: nat)
    requires (n.OpaqueArrayCodec? || n.OpaqueSliceCodec?) && DecodeBy(g, n, input, depth).Ok?
    ensures var (v, rest) := DecodeBy(g, n, input, depth).value;
      Normal(g, n, v, input, rest, UnbrokenBy(g, n, input, depth))
  {
    if n.OpaqueArrayCodec? {
      FixedTidied(n.count, input);
      BytesForth(DecodeFixed(n.count, input).value.0);
    } else {
      OpaqueTidied(n.max, input);
      BytesForth(DecodeOpaque(n.max, input).value.0);
    }
  }

  lemma BytesForth(s: seq<byte>)
    ensures ToBytes(FromBytes(s)) == s
  {
    var r := ToBytes(FromBytes(s));
    assert forall i :: 0 <= i < |s| ==> r[i] == FromBytes(s)[i].n == s[i];
  }

  lemma {:induction false} OptNormal<R>(g: Graph<R>, part: set<R>, n: Node<R>, input: seq<byte>, depth: nat)
    requires Regular(g, part) && RegularNode(g, part, n) && n.OptCodec? && DecodeBy(g, n, input, depth).Ok?
    ensures var (v, rest) := DecodeBy(g, n, input, depth).value;
      Normal(g, n, v, input, rest, UnbrokenBy(g, n, input, depth))
    decreases depth, 3, 0
  {
    WordTidied(input);
    var t, more := Target(g, n.elem), input[4..];
    if DecodeBool(input).value.0 {
      TargetRegular(g, part, n.elem);
      DecodedIsNormal(g, part, t, more, depth);
      var (v, rest) := DecodeBy(g, t, more, depth).value;
      TidiedConcat(input, more, rest, WordBytes(1), Exacts(4), true,
                   EncodeBy(g, t, v).bytes, MarksBy(g, t, v), UnbrokenBy(g, t, more, depth));
    }
  }

  lemma {:induction false} ListNormal<R>(g: Graph<R>, part: set<R>, n: Node<R>, input: seq<byte>, depth: nat)
    requires Regular(g, part) && RegularNode(g, part, n) && (n.ArrayCodec? || n.SliceCodec?)
    requires DecodeBy(g, n, input, depth).Ok?
    ensures var (v, rest) := DecodeBy(g, n, input, depth).value;
      Normal(g, n, v, input, rest, UnbrokenBy(g, n, input, depth))
    decreases depth, 0
  {
    if n.ArrayCodec? {
      ItemsNormal(g, part, n.elem, n.count, input, depth - 1);
    } else {
      var (l, more) := DecodeWord(input).value;
      var (vs, rest) := DecodeItems(g, n.elem, n.elem, l, more, depth - 1).value;
      WordTidied(input);
      ItemsNormal(g, part, n.elem, l, more, depth - 1);
      TidiedConcat(input, more, rest, WordBytes(l), Exacts(4), true,
                   EncodeItems(g, n.elem, n.elem, vs).bytes, MarksItems(g, n.elem, n.elem, vs),
                   UnbrokenItems(g, n.elem, n.elem, l, more, depth - 1));
    }
  }

  lemma {:induction false} ItemsNormal<R>(g: Graph<R>, part: set<R>, a: R, n: nat, input: seq<byte>, depth: nat)
    requires Regular(g, part) && a in part && DecodeItems(g, a, a, n, input, depth).Ok?
    ensures var (vs, rest) := DecodeItems(g, a, a, n, input, depth).value;
      && EncodeItems(g, a, a, vs).err == None && CanonItems(g, a, a, vs) == vs
      && Tidied(input, rest, EncodeItems(g, a, a, vs).bytes, MarksItems(g, a, a, vs),
          UnbrokenItems(g, a, a, n, input, depth))
    decreases depth, 5, n
  {
    if n == 0 {
      assert input[0..] == input;
    } else {
      var (v, more) := Decode(g, a, input, depth).value;
      var (vs, rest) := DecodeItems(g, a, a, n - 1, more, depth).value;
      TargetRegular(g, part, a);
      DecodedIsNormal(g, part, Target(g, a), input, depth);
      ItemsNormal(g, part, a, n - 1, more, depth);
      TidiedConcat(input, more, rest, Encode(g, a, v).bytes, Marks(g, a, v), Unbroken(g, a, input, depth),
                   EncodeItems(g, a, a, vs).bytes, MarksItems(g, a, a, vs), UnbrokenItems(g, a, a, n - 1, more, depth));
      assert ([v] + vs)[1..] == vs;
    }
  }

  /** Decoding into slots leaves the slots of no listed field as they were. */
  lemma {:induction false} OtherSlotsKept<R>(g: Graph<R>, name: string, fields: seq<Field<R>>, acc: seq<Value>,
                                             input: seq<byte>, depth: nat, i: nat)
    requires DecodeFields(g, name, fields, acc, input, depth).Ok? && i < |acc|
    requires forall f :: f in fields ==> f.index != i
    ensures DecodeFields(g, name, fields, acc, input, depth).value.0[i] == acc[i]
    decreases |fields|
  {
    if fields != [] {
      var (acc', more) := DecodeField(g, name, NoNote, fields[0], acc, input, depth).value;
      OtherSlotsKept(g, name, fields[1..], acc', more, depth, i);
    }
  }

  lemma {:induction false} FieldsNormal<R>(g: Graph<R>, part: set<R>, name: string, fields: seq<Field<R>>,
                                           acc: seq<Value>, input: seq<byte>, depth: nat)
    requires Regular(g, part) && FieldsWithin(fields, part) && DecodeFields(g, name, fields, acc, input, depth).Ok?
    requires forall i, j :: 0 <= i < j < |fields| ==> fields[i].index != fields[j].index
    ensures var (vals, rest) := DecodeFields(g, name, fields, acc, input, depth).value;
      && EncodeFields(g, name, fields, vals).err == None && CanonFields(g, fields, vals, acc) == vals
      && Tidied(input, rest, EncodeFields(g, name, fields, vals).bytes, MarksFields(g, fields, vals),
          UnbrokenFields(g, fields, input, depth))
    decreases depth, 6, |fields|
  {
    if fields == [] {
      assert input[0..] == input;
    } else {
      var f := fields[0];
      var (w, more) := Decode(g, f.codec, input, depth).value;
      var acc' := acc[f.index := w];
      var (vals, rest) := DecodeFields(g, name, fields[1..], acc', more, depth).value;
      FieldNormal(g, part, f, input, depth);
      OtherSlotsKept(g, name, fields[1..], acc', more, depth, f.index);
      FieldsNormal(g, part, name, fields[1..], acc', more, depth);
      FieldsStep(g, name, fields, vals, acc, w);
      TidiedConcat(input, more, rest, Encode(g, f.codec, w).bytes, Marks(g, f.codec, w),
                   Unbroken(g, f.codec, input, depth),
                   EncodeFields(g, name, fields[1..], vals).bytes, MarksFields(g, fields[1..], vals),
                   UnbrokenFields(g, fields[1..], more, depth));
    }
  }

  lemma {:induction false} FieldNormal<R>(g: Graph<R>, part: set<R>, f: Field<R>, input: seq<byte>, depth: nat)
    requires Regular(g, part) && f.codec in part && Decode(g, f.codec, input, depth).Ok?
    ensures var (w, rest) := Decode(g, f.codec, input, depth).value;
      && Encode(g, f.codec, w).err == None && Canon(g, f.codec, w) == w
      && Tidied(input, rest, Encode(g, f.codec, w).bytes, Marks(g, f.codec, w), Unbroken(g, f.codec, input, depth))
    decreases depth, 4
  {
    TargetRegular(g, part, f.codec);
    DecodedIsNormal(g, part, Target(g, f.codec), input, depth);
  }

  /** How the first field's value enters the functions over all fields. */
  lemma FieldsStep<R>(g: Graph<R>, name: string, fields: seq<Field<R>>, vals: seq<Value>, acc: seq<Value>, w: Value)
    requires fields != [] && |acc| == |vals| && fields[0].index < |vals| && vals[fields[0].index] == w
    requires Encode(g, fields[0].codec, w).err == None && Canon(g, fields[0].codec, w) == w
    ensures var f, more := fields[0], EncodeFields(g, name, fields[1..], vals);
      && EncodeFields(g, name, fields, vals) == After(Encode(g, f.codec, w).bytes, more)
      && CanonFields(g, fields, vals, acc) == CanonFields(g, fields[1..], vals, acc[f.index := w])
      && MarksFields(g, fields, vals) == Marks(g, f.codec, w) + MarksFields(g, fields[1..], vals)
  {
  }

  lemma {:induction false} UnionNormal<R>(g: Graph<R>, part: set<R>, n: Node<R>, input: seq<byte>, depth: nat)
    requires Regular(g, part) && RegularNode(g, part, n) && n.UnionCodec? && DecodeBy(g, n, input, depth).Ok?
    ensures var (v, rest) := DecodeBy(g, n, input, depth).value;
      Normal(g, n, v, input, rest, UnbrokenBy(g, n, input, depth))
    decreases depth, 0
  {
    hide Regular, RegularNode, WellIndexed, DecodeBy, EncodeBy, UnbrokenBy, MarksBy, CanonBy, Decode, Encode,
        Unbroken, Marks, Canon, Tidied;
    UnionRegular(g, part, n);
    var v, rest, s, w, more, f := UnionParts(g, n, input, depth);
    FieldNormal(g, part, n.switch, input, depth - 1);
    FieldNormal(g, part, f, more, depth - 1);
    UnionAgain(g, n, v, s, w, f);
    UnionUnbroken(g, n, input, depth, s, more, f);
    TidiedConcat(input, more, rest, Encode(g, n.switch.codec, s).bytes, Marks(g, n.switch.codec, s),
                 Unbroken(g, n.switch.codec, input, depth - 1),
                 Encode(g, f.codec, w).bytes, Marks(g, f.codec, w), Unbroken(g, f.codec, more, depth - 1));
  }

  lemma UnionRegular<R>(g: Graph<R>, part: set<R>, n: Node<R>)
    requires RegularNode(g, part, n) && n.UnionCodec?
    ensures WellIndexed(n) && n.switch.codec in part && forall a :: a in n.body ==> n.body[a].codec in part
  {
  }

  lemma UnionUnbroken<R>(g: Graph<R>, n: Node<R>, input: seq<byte>, depth: nat, s: Value, more: seq<byte>, f: Field<R>)
    requires n.UnionCodec? && depth > 0 && Decode(g, n.switch.codec, input, depth - 1) == Ok((s, more))
    requires SwitchKey(n.kind, s).Some?
    requires var arm := Arm(n.cases, n.default, SwitchKey(n.kind, s).value); arm in n.body && f == n.body[arm]
    ensures UnbrokenBy(g, n, input, depth)
         == (Unbroken(g, n.switch.codec, input, depth - 1) && Unbroken(g, f.codec, more, depth - 1))
  {
    hide Decode, Unbroken;
  }

  /** The pieces of a decoded union: switch, arm, and what lay between them. */
  lemma UnionParts<R>(g: Graph<R>, n: Node<R>, input: seq<byte>, depth: nat)
    returns (v: Value, rest: seq<byte>, s: Value, w: Value, more: seq<byte>, f: Field<R>)
    requires WellIndexed(n) && n.UnionCodec? && DecodeBy(g, n, input, depth).Ok?
    ensures depth > 0
    ensures DecodeBy(g, n, input, depth) == Ok((v, rest))
    ensures Decode(g, n.switch.codec, input, depth - 1) == Ok((s, more))
    ensures Decode(g, f.codec, more, depth - 1) == Ok((w, rest))
    ensures n.switch.index < n.width && f.index < n.width
    ensures v == VRec(Untouched(n.width)[n.switch.index := s][f.index := w])
    ensures SwitchKey(n.kind, s).Some?
    ensures var arm := Arm(n.cases, n.default, SwitchKey(n.kind, s).value); arm in n.body && f == n.body[arm]
  {
    hide Decode;
    s, more := Decode(g, n.switch.codec, input, depth - 1).value.0, Decode(g, n.switch.codec, input, depth - 1).value.1;
    f := n.body[Arm(n.cases, n.default, SwitchKey(n.kind, s).value)];
    w, rest := Decode(g, f.codec, more, depth - 1).value.0, Decode(g, f.codec, more, depth - 1).value.1;
    v := DecodeBy(g, n, input, depth).value.0;
  }

  lemma UnionAgain<R>(g: Graph<R>, n: Node<R>, v: Value, s: Value, w: Value, f: Field<R>)
    requires n.UnionCodec? && WellIndexed(n) && n.switch.index < n.width && f.index < n.width
    requires v == VRec(Untouched(n.width)[n.switch.index := s][f.index := w])
    requires SwitchKey(n.kind, s).Some?
    requires var arm := Arm(n.cases, n.default, SwitchKey(n.kind, s).value); arm in n.body && f == n.body[arm]
    requires Encode(g, n.switch.codec, s).err == None && Canon(g, n.switch.codec, s) == s
    requires Encode(g, f.codec, w).err == None && Canon(g, f.codec, w) == w
    ensures EncodeBy(g, n, v) == Done(Encode(g, n.switch.codec, s).bytes + Encode(g, f.codec, w).bytes)
    ensures CanonBy(g, n, v) == v
    ensures MarksBy(g, n, v) == Marks(g, n.switch.codec, s) + Marks(g, f.codec, w)
  {
    var vals := v.fields;
    assert vals[n.switch.index] == s && vals[f.index] == w;
    OneField(g, n.switch, vals);
    OneField(g, f, vals);
  }

  lemma OneField<R>(g: Graph<R>, f: Field<R>, vals: seq<Value>)
    requires f.index < |vals|
    ensures MarksFields(g, [f], vals) == Marks(g, f.codec, vals[f.index])
  {
    assert [f][1..] == [];
    assert MarksFields(g, [f][1..], vals) == [];
  }

  /** The normalisation law, for codecs from which no map is reached: whatever decodes encodes again, to the
      input with its padding zeroed and its narrow integers extended under their own signs. The two have the
      same length if and only if no variable-length opaque or string on the way breaks off; one that does reads
      as if filled up with zeros, and the input ends there. */
  lemma NormalisationLaw<R>(g: Graph<R>, part: set<R>, r: R, input: seq<byte>, depth: nat)
    requires Regular(g, part) && r in part && Decode(g, r, input, depth).Ok?
    ensures var (v, rest) := Decode(g, r, input, depth).value; var out := Encode(g, r, v);
      && out.err == None && out.bytes == Tidy(input, Marks(g, r, v))
      && (Unbroken(g, r, input, depth) <==> |input| == |out.bytes| + |rest|)
      && (if Unbroken(g, r, input, depth) then rest == input[|out.bytes|..] else rest == [] && |out.bytes| > |input|)
  {
    TargetRegular(g, part, r);
    DecodedIsNormal(g, part, Target(g, r), input, depth);
  }

  /** Normalising twice is normalising once: the normalised bytes decode to the very same value. */
  lemma NormalisationIsIdempotent<R>(g: Graph<R>, part: set<R>, r: R, input: seq<byte>, depth: nat, rest: seq<byte>,
                                     again: nat)
    requires Regular(g, part) && r in part && Decode(g, r, input, depth).Ok?
    requires again >= Height(Decode(g, r, input, depth).value.0)
    ensures var v := Decode(g, r, input, depth).value.0;
      Decode(g, r, Encode(g, r, v).bytes + rest, again) == Ok((v, rest))
  {
    TargetRegular(g, part, r);
    DecodedIsNormal(g, part, Target(g, r), input, depth);
    RoundTrip(g, r, Decode(g, r, input, depth).value.0, rest, again);
  }

  /** The exception in the law is real: one byte of a promised four decodes without error, and the
      value encodes to more bytes than were read. */
  lemma TruncatedBodyGrows()
    ensures var g: Graph<nat> := map[0 := OpaqueSliceCodec(8)];
      && Decode(g, 0, WordBytes(4) + [7], 0).Ok?
      && Decode(g, 0, WordBytes(4) + [7], 0).value.1 == [] && !Unbroken(g, 0, WordBytes(4) + [7], 0)
      && |Encode(g, 0, Decode(g, 0, WordBytes(4) + [7], 0).value.0).bytes| == 8
  {
    var g: Graph<nat> := map[0 := OpaqueSliceCodec(8)];
    WordBack(4, [7]);
    var s := DecodeOpaque(8, WordBytes(4) + [7]).value.0;
    assert |s| == 4;
    BytesForth(s);
  }
}
