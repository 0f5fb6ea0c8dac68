/** Decoding undoes encoding, on every codec graph, with any bytes left over. */
module RoundTrips {
  import opened Words
  import opened Codecs

  // ---------------------------------------------------------------- what a round trip keeps

  /** `v` as a decoder into a fresh target would report it: skipped fields and inactive union arms
      untouched, map entries stored one by one. */
  function Canon<R(==)>(g: Graph<R>, r: R, v: Value): Value
    decreases v, 3
  {
    CanonBy(g, Target(g, r), v)
  }

  function CanonBy<R(==)>(g: Graph<R>, n: Node<R>, v: Value): Value
    decreases v, if n.OptCodec? then 2 else 1
  {
    match n
    case OptCodec(elem) =>
      if v.VRef? && !Target(g, elem).OptCodec? then CanonBy(g, Target(g, elem), v) else v
    case PtrCodec(elem) => if v.VRef? then VRef(Canon(g, elem, v.target)) else v
    case ArrayCodec(_, elem) => if v.VList? then VList(CanonItems(g, elem, elem, v.elems)) else v
    case SliceCodec(_, elem) => if v.VList? then VList(CanonItems(g, elem, elem, v.elems)) else v
    case MapCodec(_, key, elem) =>
      if v.VDict? && |v.kv| % 2 == 0 then VDict(Merge(CanonItems(g, key, elem, v.kv))) else v
    case StructCodec(_, width, fields) =>
      if v.VRec? then VRec(CanonFields(g, fields, v.fields, Untouched(|v.fields|))) else v
    case UnionCodec(_, width, sw, kind, body, cases, default) =>
      if !(v.VRec? && sw.index < |v.fields|) then v else
      var head := CanonField(g, sw, v.fields, Untouched(|v.fields|));
      (match SwitchKey(kind, v.fields[sw.index])
       case None => v
       case Some(key) =>
         var arm := Arm(cases, default, key);
         if arm !in body then v else VRec(CanonField(g, body[arm], v.fields, head)))
    case _ => v
  }

  function CanonItems<R(==)>(g: Graph<R>, a: R, b: R, vs: seq<Value>): (res: seq<Value>)
    ensures |res| == |vs|
    decreases vs, 4
  {
    if vs == [] then [] else [Canon(g, a, vs[0])] + CanonItems(g, b, a, vs[1..])
  }

  function CanonField<R(==)>(g: Graph<R>, f: Field<R>, vals: seq<Value>, acc: seq<Value>): (res: seq<Value>)
    requires |vals| == |acc|
    ensures |res| == |acc|
    decreases vals, 0
  {
    if f.index >= |vals| then acc else acc[f.index := Canon(g, f.codec, vals[f.index])]
  }

  function CanonFields<R(==)>(g: Graph<R>, fields: seq<Field<R>>, vals: seq<Value>, acc: seq<Value>): (res: seq<Value>)
    requires |vals| == |acc|
    ensures |res| == |acc|
    decreases vals, 1 + |fields|
  {
    if fields == [] then acc else CanonFields(g, fields[1..], vals, CanonField(g, fields[0], vals, acc))
  }

  /** How deeply composite values nest. */
  function Height(v: Value): nat
  {
    match v
    case VList(vs) => 1 + MaxHeight(vs)
    case VRef(w) => 1 + Height(w)
    case VRec(vs) => 1 + MaxHeight(vs)
    case VDict(vs) => 1 + MaxHeight(vs)
    case _ => 0
  }

  function MaxHeight(vs: seq<Value>): (h: nat)
    ensures forall v :: v in vs ==> Height(v) <= h
  {
    if vs == [] then 0 else
    var h, t := Height(vs[0]), MaxHeight(vs[1..]);
    if h > t then h else t
  }

  // ---------------------------------------------------------------- leaves

  lemma ReadBack(b: seq<byte>, rest: seq<byte>)
    ensures ReadFull(b + rest, |b|) == Ok((b, rest))
  {
    assert (b + rest)[..|b|] == b && (b + rest)[|b|..] == rest;
  }

  lemma WordBack(w: u32, rest: seq<byte>)
    ensures DecodeWord(WordBytes(w) + rest) == Ok((w, rest))
  {
    ReadBack(WordBytes(w), rest);
    WordRoundTrip(w, []);
    assert WordBytes(w) + [] == WordBytes(w);
  }

  lemma HyperBack(h: u64, rest: seq<byte>)
    ensures DecodeHyper(HyperBytes(h) + rest) == Ok((h, rest))
  {
    ReadBack(HyperBytes(h), rest);
    HyperRoundTrip(h, []);
    assert HyperBytes(h) + [] == HyperBytes(h);
  }

  lemma NarrowWraps(p: Prim, n: int)
    requires InRange(p, n) && !IsHyper(p) && !IsComplex(p)
    ensures Narrow(p, Wrap32(n)) == n
  {
  }

  lemma ComplexBack(p: Prim, v: Value, rest: seq<byte>)
    requires IsComplex(p) && PrimTyped(p, v)
    ensures DecodePrim(p, EncodePrim(p, v) + rest) == Ok((v, rest))
  {
    if p.Complex64? {
      var re, im := WordBytes(v.re), WordBytes(v.im);
      assert (re + im) + rest == re + (im + rest);
      WordBack(v.re, im + rest);
      WordBack(v.im, rest);
    } else {
      var re, im := HyperBytes(v.re), HyperBytes(v.im);
      assert (re + im) + rest == re + (im + rest);
      HyperBack(v.re, im + rest);
      HyperBack(v.im, rest);
    }
  }

  lemma PrimBack(p: Prim, v: Value, rest: seq<byte>)
    requires PrimTyped(p, v)
    ensures DecodePrim(p, EncodePrim(p, v) + rest) == Ok((v, rest))
  {
    if p.Bool? {
      WordBack(if v.b then 1 else 0, rest);
    } else if IsComplex(p) {
      ComplexBack(p, v, rest);
    } else if IsHyper(p) {
      HyperBack(Wrap64(v.n), rest);
      HyperNarrows(p, v.n);
    } else {
      SmallBack(p, v, rest);
    }
  }

  lemma HyperNarrows(p: Prim, n: int)
    requires InRange(p, n) && IsHyper(p)
    ensures if p.Hyper? then Signed(Wrap64(n), 0x1_0000_0000_0000_0000) == n else Wrap64(n) == n
  {
  }

  lemma SmallBack(p: Prim, v: Value, rest: seq<byte>)
    requires PrimTyped(p, v) && !p.Bool? && !IsComplex(p) && !IsHyper(p)
    ensures DecodePrim(p, EncodePrim(p, v) + rest) == Ok((v, rest))
  {
    var w := Wrap32(v.n);
    WordBack(w, rest);
    NarrowWraps(p, v.n);
    assert EncodePrim(p, v) == WordBytes(w);
  }

  lemma FixedBack(bs: seq<byte>, rest: seq<byte>)
    ensures DecodeFixed(|bs|, Padded(bs) + rest) == Ok((bs, rest))
  {
    var pad := Zeros(PadLen(|bs|));
    assert Padded(bs) + rest == bs + (pad + rest);
    ReadBack(bs, pad + rest);
    ReadBack(pad, rest);
    if PadLen(|bs|) == 0 { assert pad + rest == rest; }
  }

  lemma OpaqueBack(bs: seq<byte>, max: u32, rest: seq<byte>)
    requires |bs| <= max
    ensures DecodeOpaque(max, EncodeOpaque(bs, max).bytes + rest) == Ok((bs, rest))
  {
    var p := Padded(bs);
    assert EncodeOpaque(bs, max).bytes + rest == WordBytes(|bs|) + (p + rest);
    WordBack(|bs|, p + rest);
    if bs == [] {
      assert p + rest == rest;
    } else {
      assert (p + rest)[..|bs|] == bs;
      assert (p + rest)[RoundUp(|bs|)..] == rest;
    }
  }

  lemma BytesBack(vs: seq<Value>)
    requires AllBytes(vs)
    ensures FromBytes(ToBytes(vs)) == vs
  {
    var r := FromBytes(ToBytes(vs));
    assert forall i :: 0 <= i < |vs| ==> r[i] == VNum(vs[i].n) && vs[i] in vs;
  }

  // ---------------------------------------------------------------- the round trip

  /** Section 3 and 4 of RFC 4506: what was encoded without error decodes to the same value, up to the
      places a decoder leaves alone, and consumes exactly the encoding. */
  lemma {:induction false} RoundTrip<R>(g: Graph<R>, r: R, v: Value, rest: seq<byte>, depth: nat)
    requires Encode(g, r, v).err == None && depth >= Height(v)
    ensures Decode(g, r, Encode(g, r, v).bytes + rest, depth) == Ok((Canon(g, r, v), rest))
    decreases v, 3
  {
    RoundTripBy(g, Target(g, r), v, rest, depth);
  }

  lemma {:induction false} RoundTripBy<R>(g: Graph<R>, n: Node<R>, v: Value, rest: seq<byte>, depth: nat)
    requires EncodeBy(g, n, v).err == None && depth >= Height(v)
    ensures DecodeBy(g, n, EncodeBy(g, n, v).bytes + rest, depth) == Ok((CanonBy(g, n, v), rest))
    decreases v, if n.OptCodec? then 2 else 1
  {
    hide DecodeItems, EncodeItems, CanonItems, DecodePrim, EncodePrim, DecodeOpaque, EncodeOpaque, DecodeFixed;
    if n.OptCodec? {
      if v.VNil? {
        WordBack(0, rest);
      } else {
        var t := Target(g, n.elem);
        Assoc(WordBytes(1), EncodeBy(g, t, v).bytes, rest);
        WordBack(1, EncodeBy(g, t, v).bytes + rest);
        RoundTripBy(g, t, v, rest, depth);
      }
    } else if n.PtrCodec? {
      RoundTrip(g, n.elem, v.target, rest, depth - 1);
    } else if n.UnionCodec? {
      UnionBack(g, n, v, rest, depth);
    } else if n.StructCodec? {
      FieldsBack(g, n.name, n.fields, v.fields, Untouched(n.width), rest, depth - 1);
    } else if IsComposite(n) {
      ListBack(g, n, v, rest, depth);
    } else {
      LeafBack(g, n, v, rest, depth);
    }
  }

  lemma LeafBack<R>(g: Graph<R>, n: Node<R>, v: Value, rest: seq<byte>, depth: nat)
    requires EncodeBy(g, n, v).err == None && !IsComposite(n) && !n.OptCodec?
    ensures DecodeBy(g, n, EncodeBy(g, n, v).bytes + rest, depth) == Ok((CanonBy(g, n, v), rest))
  {
    match n
    case PrimCodec(p) => PrimBack(p, v, rest);
    case FixedStringCodec(_) => FixedBack(v.s, rest);
    case VarStringCodec(max) => OpaqueBack(v.s, max, rest);
    case OpaqueArrayCodec(_) => FixedBack(ToBytes(v.elems), rest); BytesBack(v.elems);
    case OpaqueSliceCodec(max) => OpaqueBack(ToBytes(v.elems), max, rest); BytesBack(v.elems);
    case ErrorCodec(_) =>
    case DeferredCodec(_) =>
  }

  lemma {:induction false} ListBack<R>(g: Graph<R>, n: Node<R>, v: Value, rest: seq<byte>, depth: nat)
    requires n.ArrayCodec? || n.SliceCodec? || n.MapCodec?
    requires EncodeBy(g, n, v).err == None && depth >= Height(v)
    ensures DecodeBy(g, n, EncodeBy(g, n, v).bytes + rest, depth) == Ok((CanonBy(g, n, v), rest))
    decreases v, 0
  {
    hide DecodeItems, EncodeItems, CanonItems, DecodeWord, Merge, DecodeFields, DecodeField;
    match n
    case ArrayCodec(_, elem) => ItemsBack(g, elem, elem, v.elems, rest, depth - 1);
    case SliceCodec(_, elem) => CountedBack(g, elem, elem, |v.elems|, v.elems, rest, depth - 1);
    case MapCodec(_, key, elem) => CountedBack(g, key, elem, |v.kv| / 2, v.kv, rest, depth - 1);
  }

  lemma {:induction false} CountedBack<R>(g: Graph<R>, a: R, b: R, count: u32, vs: seq<Value>, rest: seq<byte>,
                                          depth: nat)
    requires EncodeItems(g, a, b, vs).err == None && depth >= MaxHeight(vs)
    ensures var body := EncodeItems(g, a, b, vs).bytes;
      && DecodeWord(WordBytes(count) + body + rest) == Ok((count, body + rest))
      && DecodeItems(g, a, b, |vs|, body + rest, depth) == Ok((CanonItems(g, a, b, vs), rest))
    decreases vs, 5
  {
    var body := EncodeItems(g, a, b, vs).bytes;
    assert WordBytes(count) + body + rest == WordBytes(count) + (body + rest);
    WordBack(count, body + rest);
    ItemsBack(g, a, b, vs, rest, depth);
  }

  lemma {:induction false} ItemsBack<R>(g: Graph<R>, a: R, b: R, vs: seq<Value>, rest: seq<byte>, depth: nat)
    requires EncodeItems(g, a, b, vs).err == None && depth >= MaxHeight(vs)
    ensures DecodeItems(g, a, b, |vs|, EncodeItems(g, a, b, vs).bytes + rest, depth)
         == Ok((CanonItems(g, a, b, vs), rest))
    decreases vs, 4
  {
    if vs == [] {
      assert [] + rest == rest;
    } else {
      var first, more := Encode(g, a, vs[0]).bytes, EncodeItems(g, b, a, vs[1..]).bytes;
      assert first + more + rest == first + (more + rest);
      RoundTrip(g, a, vs[0], more + rest, depth);
      ItemsBack(g, b, a, vs[1..], rest, depth);
    }
  }

  lemma {:induction false} FieldBack<R>(g: Graph<R>, name: string, note: Note, f: Field<R>, vals: seq<Value>,
                                        acc: seq<Value>, rest: seq<byte>, depth: nat)
    requires |vals| == |acc| && depth >= MaxHeight(vals)
    requires EncodeField(g, name, note, f, vals).err == None
    ensures DecodeField(g, name, note, f, acc, EncodeField(g, name, note, f, vals).bytes + rest, depth)
         == Ok((CanonField(g, f, vals, acc), rest))
    decreases vals, 0
  {
    RoundTrip(g, f.codec, vals[f.index], rest, depth);
  }

  lemma {:induction false} FieldsBack<R>(g: Graph<R>, name: string, fields: seq<Field<R>>, vals: seq<Value>,
                                         acc: seq<Value>, rest: seq<byte>, depth: nat)
    requires |vals| == |acc| && depth >= MaxHeight(vals)
    requires EncodeFields(g, name, fields, vals).err == None
    ensures DecodeFields(g, name, fields, acc, EncodeFields(g, name, fields, vals).bytes + rest, depth)
         == Ok((CanonFields(g, fields, vals, acc), rest))
    decreases vals, 1 + |fields|
  {
    if fields == [] {
      assert [] + rest == rest;
    } else {
      var first := EncodeField(g, name, NoNote, fields[0], vals).bytes;
      var more := EncodeFields(g, name, fields[1..], vals).bytes;
      assert first + more + rest == first + (more + rest);
      FieldBack(g, name, NoNote, fields[0], vals, acc, more + rest, depth);
      FieldsBack(g, name, fields[1..], vals, CanonField(g, fields[0], vals, acc), rest, depth);
    }
  }

  lemma {:induction false} UnionBack<R>(g: Graph<R>, n: Node<R>, v: Value, rest: seq<byte>, depth: nat)
    requires n.UnionCodec? && EncodeBy(g, n, v).err == None && depth >= Height(v)
    ensures DecodeBy(g, n, EncodeBy(g, n, v).bytes + rest, depth) == Ok((CanonBy(g, n, v), rest))
    decreases v, 0
  {
    var UnionCodec(name, width, sw, kind, body, cases, default) := n;
    var vals, acc := v.fields, Untouched(width);
    var key := SwitchKey(kind, vals[sw.index]).value;
    var f := body[Arm(cases, default, key)];
    var head := EncodeField(g, name, AtSwitch, sw, vals).bytes;
    var tail := EncodeField(g, name, AtArm(key), f, vals).bytes;
    assert head + tail + rest == head + (tail + rest);
    FieldBack(g, name, AtSwitch, sw, vals, acc, tail + rest, depth - 1);
    var acc' := CanonField(g, sw, vals, acc);
    SwitchSurvives(g, sw, kind, vals, depth);
    FieldBack(g, name, AtArm(key), f, vals, acc', rest, depth - 1);
  }

  /** The decoder computes the arm from the decoded switch; it is the encoder's arm. */
  lemma SwitchSurvives<R>(g: Graph<R>, sw: Field<R>, kind: SwitchKind, vals: seq<Value>, depth: nat)
    requires sw.index < |vals| && SwitchKey(kind, vals[sw.index]).Some?
    ensures Canon(g, sw.codec, vals[sw.index]) == vals[sw.index]
  {
  }

  // ---------------------------------------------------------------- consequences

  /** Encodings are injective and prefix-free: equal streams hold equal values and equal remainders. */
  lemma EncodingsAreUnambiguous<R>(g: Graph<R>, r: R, v: Value, w: Value, more: seq<byte>, rest: seq<byte>)
    requires Encode(g, r, v).err == None && Encode(g, r, w).err == None
    requires Encode(g, r, v).bytes + more == Encode(g, r, w).bytes + rest
    ensures Canon(g, r, v) == Canon(g, r, w) && more == rest
    ensures Encode(g, r, v).bytes == Encode(g, r, w).bytes
  {
    var depth := Height(v) + Height(w);
    RoundTrip(g, r, v, more, depth);
    RoundTrip(g, r, w, rest, depth);
    var n := |Encode(g, r, v).bytes|;
    assert (Encode(g, r, v).bytes + more)[..n] == Encode(g, r, v).bytes;
  }

  lemma LeafWhole<R>(g: Graph<R>, n: Node<R>, v: Value)
    requires !IsComposite(n) && !n.OptCodec?
    ensures |EncodeBy(g, n, v).bytes| % 4 == 0
  {
  }

  /** Everything written is whole 4-byte units (section 3 of RFC 4506), also when encoding stops early. */
  lemma {:induction false} WholeUnits<R>(g: Graph<R>, n: Node<R>, v: Value)
    ensures |EncodeBy(g, n, v).bytes| % 4 == 0
    decreases v, if n.OptCodec? then 2 else 1
  {
    hide EncodeItems, EncodeFields, EncodeField, EncodePrim, EncodeOpaque;
    match n
    case OptCodec(elem) =>
      if v.VRef? && !Target(g, elem).OptCodec? { WholeUnits(g, Target(g, elem), v); }
    case PtrCodec(elem) => if v.VRef? { WholeUnits(g, Target(g, elem), v.target); }
    case ArrayCodec(_, elem) => if v.VList? { WholeItems(g, elem, elem, v.elems); }
    case SliceCodec(_, elem) => if v.VList? { WholeItems(g, elem, elem, v.elems); }
    case MapCodec(_, key, elem) => if v.VDict? { WholeItems(g, key, elem, v.kv); }
    case StructCodec(name, _, fields) => if v.VRec? { WholeFields(g, name, fields, v.fields); }
    case UnionCodec(_, _, _, _, _, _, _) => if v.VRec? { WholeUnion(g, n, v); }
    case _ => LeafWhole(g, n, v);
  }

  lemma {:induction false} WholeUnion<R>(g: Graph<R>, n: Node<R>, v: Value)
    requires n.UnionCodec? && v.VRec?
    ensures |EncodeBy(g, n, v).bytes| % 4 == 0
    decreases v, 0
  {
    var UnionCodec(name, width, sw, kind, body, cases, default) := n;
    if sw.index < |v.fields| {
      WholeField(g, name, AtSwitch, sw, v.fields);
      var key := SwitchKey(kind, v.fields[sw.index]);
      if key.Some? && Arm(cases, default, key.value) in body {
        WholeField(g, name, AtArm(key.value), body[Arm(cases, default, key.value)], v.fields);
      }
    }
  }

  lemma {:induction false} WholeItems<R>(g: Graph<R>, a: R, b: R, vs: seq<Value>)
    ensures |EncodeItems(g, a, b, vs).bytes| % 4 == 0
    decreases vs, 4
  {
    hide EncodeBy, Target;
    if vs != [] {
      WholeUnits(g, Target(g, a), vs[0]);
      WholeItems(g, b, a, vs[1..]);
    }
  }

  lemma {:induction false} WholeField<R>(g: Graph<R>, name: string, note: Note, f: Field<R>, vals: seq<Value>)
    ensures |EncodeField(g, name, note, f, vals).bytes| % 4 == 0
    decreases vals, 0
  {
    hide EncodeBy, Target;
    if f.index < |vals| { WholeUnits(g, Target(g, f.codec), vals[f.index]); }
  }

  lemma {:induction false} WholeFields<R>(g: Graph<R>, name: string, fields: seq<Field<R>>, vals: seq<Value>)
    ensures |EncodeFields(g, name, fields, vals).bytes| % 4 == 0
    decreases vals, 1 + |fields|
  {
    hide EncodeField;
    if fields != [] {
      WholeField(g, name, NoNote, fields[0], vals);
      WholeFields(g, name, fields[1..], vals);
    }
  }

  // ---------------------------------------------------------------- arms

  function KindFor(p: Prim): SwitchKind
  {
    if p.Bool? then BoolSwitch else if p.Int32? then IntSwitch else UintSwitch
  }

  /** For every switch type the case key taken from the in-memory switch is the discriminant word on
      the wire, negative values included (section 4.15 of RFC 4506): as written, */
  lemma ArmAgreesWhenWriting(p: Prim, v: Value)
    requires (p.Bool? || p.Int32? || p.Uint32?) && PrimTyped(p, v)
    ensures SwitchKey(KindFor(p), v).Some?
    ensures EncodePrim(p, v) == WordBytes(SwitchKey(KindFor(p), v).value)
  {
  }

  /** and as read, so that encoder and decoder select the same arm of the same table. */
  lemma ArmAgreesWhenReading(p: Prim, input: seq<byte>)
    requires (p.Bool? || p.Int32? || p.Uint32?) && DecodePrim(p, input).Ok?
    ensures SwitchKey(KindFor(p), DecodePrim(p, input).value.0) == Some(WordAt(input[..4]))
  {
    if p.Int32? {
      var w: int := WordAt(input[..4]);
      assert Wrap32(Signed(w, 0x1_0000_0000)) == w;
    }
  }
}
