/** Writing: the encoder's primitives, which build each item in a scratch buffer and append it to the
    writer, and the codecs' encode loops, which write what `Codecs.Encode` says. */
module Writers {
  import opened Words
  import opened Codecs

  /** An `io.Writer` whose writes succeed. */
  class Writer {
    var out: seq<byte>

    constructor ()
      ensures out == []
    {
      out := [];
    }

    method Write(b: seq<byte>)
      modifies this
      ensures out == old(out) + b
    {
      out := out + b;
    }
  }

  /** Go's `byte(i >> (8 * k))` for each k, most significant first, spells the two's complement word. */
  lemma ShiftedBytes(i: int)
    ensures [i / 0x100_0000 % 0x100, i / 0x1_0000 % 0x100, i / 0x100 % 0x100, i % 0x100] == WordBytes(Wrap32(i))
  {
    Digits(i);
    Undigits(i / 0x100_0000 % 0x100, i / 0x1_0000 % 0x100, i / 0x100 % 0x100, i % 0x100);
    assert i / 0x100_0000 == i / 0x100_0000 / 0x100 * 0x100 + i / 0x100_0000 % 0x100;
    var w := i / 0x100_0000 % 0x100 * 0x100_0000 + i / 0x1_0000 % 0x100 * 0x1_0000
               + i / 0x100 % 0x100 * 0x100 + i % 0x100;
    assert i == i / 0x100_0000 / 0x100 * 0x1_0000_0000 + w;
    Remainder(i, i / 0x100_0000 / 0x100, w);
  }

  lemma Remainder(i: int, q: int, w: u32)
    requires i == q * 0x1_0000_0000 + w
    ensures i % 0x1_0000_0000 == w
  {
  }

  /** The high word of a 64-bit integer's two's complement is its floor division by 2 to the 32. */
  lemma ShiftedHyper(i: int)
    ensures HyperBytes(Wrap64(i)) == WordBytes(Wrap32(i / 0x1_0000_0000)) + WordBytes(Wrap32(i))
  {
    hide WordBytes;
    var q, r: int := i / 0x1_0000_0000_0000_0000, Wrap64(i);
    var a, b := r / 0x1_0000_0000, r % 0x1_0000_0000;
    assert i == (q * 0x1_0000_0000 + a) * 0x1_0000_0000 + b;
    SplitHyper(q * 0x1_0000_0000 + a, b);
    SplitHyper(q, a);
  }

  class Encoder {
    const w: Writer
    const scratch: array<byte>

    ghost predicate Valid()
      reads this
    {
      scratch.Length == 8
    }

    constructor (w: Writer)
      ensures Valid() && this.w == w && fresh(scratch)
    {
      this.w := w;
      scratch := new byte[8](i => 0);
    }

    method EncodeInt(i: int)
      requires Valid()
      modifies w, scratch
      ensures w.out == old(w.out) + WordBytes(Wrap32(i))
    {
      scratch[0] := i / 0x100_0000 % 0x100;
      scratch[1] := i / 0x1_0000 % 0x100;
      scratch[2] := i / 0x100 % 0x100;
      scratch[3] := i % 0x100;
      ShiftedBytes(i);
      assert scratch[..4] == [scratch[0], scratch[1], scratch[2], scratch[3]];
      w.Write(scratch[..4]);
    }

    method EncodeHyper(i: int)
      requires Valid()
      modifies w, scratch
      ensures w.out == old(w.out) + HyperBytes(Wrap64(i))
    {
      var hi := i / 0x1_0000_0000;
      scratch[0] := hi / 0x100_0000 % 0x100;
      scratch[1] := hi / 0x1_0000 % 0x100;
      scratch[2] := hi / 0x100 % 0x100;
      scratch[3] := hi % 0x100;
      scratch[4] := i / 0x100_0000 % 0x100;
      scratch[5] := i / 0x1_0000 % 0x100;
      scratch[6] := i / 0x100 % 0x100;
      scratch[7] := i % 0x100;
      ShiftedBytes(hi);
      ShiftedBytes(i);
      ShiftedHyper(i);
      assert scratch[..8] == [scratch[0], scratch[1], scratch[2], scratch[3]]
                           + [scratch[4], scratch[5], scratch[6], scratch[7]];
      w.Write(scratch[..8]);
    }

    method EncodeBool(b: bool)
      requires Valid()
      modifies w, scratch
      ensures w.out == old(w.out) + WordBytes(if b then 1 else 0)
    {
      EncodeInt(if b then 1 else 0);
    }

    /** The bytes, and zeros up to a multiple of four. */
    method EncodeFixedOpaque(buf: seq<byte>)
      requires Valid()
      modifies w
      ensures w.out == old(w.out) + Padded(buf)
    {
      w.Write(buf);
      var padding := (4 - |buf| % 4) % 4;
      w.Write(Zeros(padding));
      assert old(w.out) + buf + Zeros(padding) == old(w.out) + Padded(buf);
    }

    method EncodeOpaque(buf: seq<byte>) returns (err: Option<Error>)
      requires Valid()
      modifies w, scratch
      ensures |buf| < 0x1_0000_0000 ==> err == None && w.out == old(w.out) + (WordBytes(|buf|) + Padded(buf))
      ensures |buf| >= 0x1_0000_0000 ==> err == Some(LengthError(|buf|, 0xFFFF_FFFF)) && w.out == old(w.out)
    {
      hide WordBytes, Padded;
      if |buf| > 0xFFFF_FFFF { return Some(LengthError(|buf|, 0xFFFF_FFFF)); }
      EncodeInt(|buf|);
      ghost var mid := w.out;
      EncodeFixedOpaque(buf);
      assert old(w.out) + WordBytes(|buf|) + Padded(buf) == old(w.out) + (WordBytes(|buf|) + Padded(buf));
      return None;
    }

    /** The codecs' own check, against the limit of the type. */
    method EncodeLimited(buf: seq<byte>, max: u32) returns (err: Option<Error>)
      requires Valid()
      modifies w, scratch
      ensures Wrote(Codecs.EncodeOpaque(buf, max), old(w.out), w.out, err)
    {
      if |buf| > max { return Some(LengthError(|buf|, max)); }
      err := EncodeOpaque(buf);
    }

    /** The real part, then the imaginary part. */
    method EncodeComplex(p: Prim, v: Value)
      requires Valid() && PrimTyped(p, v) && IsComplex(p)
      modifies w, scratch
      ensures w.out == old(w.out) + Codecs.EncodePrim(p, v)
    {
      hide WordBytes, HyperBytes;
      ghost var re, im;
      if p.Complex64? {
        assert Wrap32(v.re) == v.re && Wrap32(v.im) == v.im;
        EncodeInt(v.re);
        EncodeInt(v.im);
        re, im := WordBytes(v.re), WordBytes(v.im);
      } else {
        assert Wrap64(v.re) == v.re && Wrap64(v.im) == v.im;
        EncodeHyper(v.re);
        EncodeHyper(v.im);
        re, im := HyperBytes(v.re), HyperBytes(v.im);
      }
      assert old(w.out) + re + im == old(w.out) + (re + im);
    }

    method EncodePrim(p: Prim, v: Value)
      requires Valid() && PrimTyped(p, v)
      modifies w, scratch
      ensures w.out == old(w.out) + Codecs.EncodePrim(p, v)
    {
      hide WordBytes, HyperBytes;
      if p.Bool? {
        EncodeBool(v.b);
      } else if IsComplex(p) {
        EncodeComplex(p, v);
      } else if IsHyper(p) {
        EncodeHyper(v.n);
      } else {
        EncodeInt(v.n);
      }
    }

    // -------------------------------------------------------------- codecs

    method Encode<R(==)>(g: Graph<R>, ref: R, v: Value) returns (err: Option<Error>)
      requires Valid()
      modifies w, scratch
      ensures Wrote(Codecs.Encode(g, ref, v), old(w.out), w.out, err)
      decreases v, 3
    {
      err := EncodeBy(g, Target(g, ref), v);
    }

    method EncodeBy<R(==)>(g: Graph<R>, n: Node<R>, v: Value) returns (err: Option<Error>)
      requires Valid()
      modifies w, scratch
      ensures Wrote(Codecs.EncodeBy(g, n, v), old(w.out), w.out, err)
      decreases v, if n.OptCodec? then 2 else 1
    {
      hide Codecs.EncodeItems, Codecs.EncodePrim, Codecs.EncodeOpaque, WordBytes, Padded;
      err := None;
      match n
      case ErrorCodec(why) => err := Some(Unsupported(why));
      case DeferredCodec(_) => err := Some(Blocked);
      case PrimCodec(p) => if PrimTyped(p, v) { EncodePrim(p, v); } else { err := Some(IllTyped); }
      case OptCodec(elem) =>
        if v.VNil? {
          EncodeBool(false);
        } else if v.VRef? && !Target(g, elem).OptCodec? {
          EncodeBool(true);
          ghost var mid := w.out;
          err := EncodeBy(g, Target(g, elem), v);
          WroteAfter(WordBytes(1), Codecs.EncodeBy(g, Target(g, elem), v), old(w.out), mid, w.out, err);
        } else {
          err := Some(IllTyped);
        }
      case PtrCodec(elem) =>
        if v.VNil? { err := Some(NilPointer); }
        else if v.VRef? { err := Encode(g, elem, v.target); }
        else { err := Some(IllTyped); }
      case FixedStringCodec(len) =>
        if !v.VStr? { err := Some(IllTyped); }
        else if |v.s| == len { EncodeFixedOpaque(v.s); }
        else { err := Some(LengthIncorrect); }
      case VarStringCodec(max) =>
        if v.VStr? { err := EncodeLimited(v.s, max); } else { err := Some(IllTyped); }
      case OpaqueArrayCodec(len) =>
        if v.VList? && |v.elems| == len && AllBytes(v.elems) { EncodeFixedOpaque(ToBytes(v.elems)); }
        else { err := Some(IllTyped); }
      case OpaqueSliceCodec(max) =>
        if v.VList? && AllBytes(v.elems) { err := EncodeLimited(ToBytes(v.elems), max); }
        else { err := Some(IllTyped); }
      case ArrayCodec(len, elem) =>
        if v.VList? && |v.elems| == len { err := EncodeElems(g, elem, v.elems); } else { err := Some(IllTyped); }
      case SliceCodec(max, elem) =>
        if !v.VList? { return Some(IllTyped); }
        if |v.elems| > max { return Some(LengthError(|v.elems|, max)); }
        EncodeInt(|v.elems|);
        ghost var mid := w.out;
        err := EncodeElems(g, elem, v.elems);
        WroteAfter(WordBytes(|v.elems|), EncodeItems(g, elem, elem, v.elems), old(w.out), mid, w.out, err);
      case MapCodec(max, key, elem) =>
        if !(v.VDict? && |v.kv| % 2 == 0) { return Some(IllTyped); }
        if |v.kv| / 2 > max { return Some(LengthError(|v.kv| / 2, max)); }
        EncodeInt(|v.kv| / 2);
        ghost var mid := w.out;
        err := EncodeEntries(g, key, elem, v.kv);
        WroteAfter(WordBytes(|v.kv| / 2), EncodeItems(g, key, elem, v.kv), old(w.out), mid, w.out, err);
      case StructCodec(name, width, fields) =>
        if v.VRec? && |v.fields| == width { err := EncodeStruct(g, name, fields, v.fields); }
        else { err := Some(IllTyped); }
      case UnionCodec(_, _, _, _, _, _, _) => err := EncodeUnion(g, n, v);
    }

    /** The index loop of the array and slice codecs. */
    method EncodeElems<R(==)>(g: Graph<R>, elem: R, vs: seq<Value>) returns (err: Option<Error>)
      requires Valid()
      modifies w, scratch
      ensures Wrote(EncodeItems(g, elem, elem, vs), old(w.out), w.out, err)
      decreases vs, 4
    {
      hide Codecs.Encode;
      var i := 0;
      err := None;
      assert vs[0..] == vs;
      while i < |vs|
        invariant i <= |vs| && err == None
        invariant Continues(EncodeItems(g, elem, elem, vs), EncodeItems(g, elem, elem, vs[i..]), old(w.out), w.out)
      {
        assert vs[i..][0] == vs[i] && vs[i..][1..] == vs[i + 1..];
        err := Encode(g, elem, vs[i]);
        if err.Some? { return; }
        i := i + 1;
      }
      WroteAll(EncodeItems(g, elem, elem, vs), EncodeItems(g, elem, elem, []), old(w.out), w.out);
    }

    /** The map iterator's loop, over the entries in the order it yields them. */
    method EncodeEntries<R(==)>(g: Graph<R>, key: R, elem: R, kv: seq<Value>) returns (err: Option<Error>)
      requires Valid() && |kv| % 2 == 0
      modifies w, scratch
      ensures Wrote(EncodeItems(g, key, elem, kv), old(w.out), w.out, err)
      decreases kv, 4
    {
      hide Codecs.Encode, EncodeItems;
      var i := 0;
      err := None;
      assert kv[0..] == kv;
      while i < |kv|
        invariant i <= |kv| && i % 2 == 0 && err == None
        invariant Continues(EncodeItems(g, key, elem, kv), EncodeItems(g, key, elem, kv[i..]), old(w.out), w.out)
      {
        TwoItems(g, key, elem, kv, i);
        err := Encode(g, key, kv[i]);
        if err.Some? { return; }
        err := Encode(g, elem, kv[i + 1]);
        if err.Some? { return; }
        i := i + 2;
      }
      assert kv[i..] == [];
      NoItems(g, key, elem);
      WroteAll(EncodeItems(g, key, elem, kv), EncodeItems(g, key, elem, []), old(w.out), w.out);
    }

    method EncodeField<R(==)>(g: Graph<R>, name: string, note: Note, f: Field<R>, vals: seq<Value>)
      returns (err: Option<Error>)
      requires Valid()
      modifies w, scratch
      ensures Wrote(Codecs.EncodeField(g, name, note, f, vals), old(w.out), w.out, err)
      decreases vals, 0
    {
      if f.index >= |vals| { return Some(IllTyped); }
      err := Encode(g, f.codec, vals[f.index]);
      if err.Some? { err := Some(WithFieldError(err.value, PathStep(name, f.name, note))); }
    }

    /** The field loop of the struct codec. */
    method EncodeStruct<R(==)>(g: Graph<R>, name: string, fields: seq<Field<R>>, vals: seq<Value>)
      returns (err: Option<Error>)
      requires Valid()
      modifies w, scratch
      ensures Wrote(EncodeFields(g, name, fields, vals), old(w.out), w.out, err)
      decreases vals, 1
    {
      hide Codecs.EncodeField;
      var i := 0;
      err := None;
      assert fields[0..] == fields;
      while i < |fields|
        invariant i <= |fields| && err == None
        invariant Continues(EncodeFields(g, name, fields, vals), EncodeFields(g, name, fields[i..], vals),
                            old(w.out), w.out)
      {
        assert fields[i..][0] == fields[i] && fields[i..][1..] == fields[i + 1..];
        err := EncodeField(g, name, NoNote, fields[i], vals);
        if err.Some? { return; }
        i := i + 1;
      }
      WroteAll(EncodeFields(g, name, fields, vals), EncodeFields(g, name, [], vals), old(w.out), w.out);
    }

    /** The switch, then the arm it selects. */
    method EncodeUnion<R(==)>(g: Graph<R>, n: Node<R>, v: Value) returns (err: Option<Error>)
      requires Valid() && n.UnionCodec?
      modifies w, scratch
      ensures Wrote(Codecs.EncodeBy(g, n, v), old(w.out), w.out, err)
      decreases v, 0
    {
      hide Codecs.EncodeField;
      if !(v.VRec? && |v.fields| == n.width && n.switch.index < n.width) { return Some(IllTyped); }
      err := EncodeField(g, n.name, AtSwitch, n.switch, v.fields);
      if err.Some? { return; }
      var key := SwitchKey(n.kind, v.fields[n.switch.index]);
      if key == None { return Some(IllTyped); }
      var arm := Arm(n.cases, n.default, key.value);
      if arm !in n.body { return Some(WithFieldError(ArmUndefined, PathStep(n.name, "?", AtArm(arm)))); }
      err := EncodeField(g, n.name, AtArm(key.value), n.body[arm], v.fields);
    }
  }

  /** `out` became what `spec` says, and so did the error. */
  predicate Wrote(spec: Written, before: seq<byte>, out: seq<byte>, err: Option<Error>)
  {
    out == before + spec.bytes && err == spec.err
  }

  /** After writing part of `whole`, `rest` is what is left to write. */
  predicate Continues(whole: Written, rest: Written, before: seq<byte>, out: seq<byte>)
  {
    before + whole.bytes == out + rest.bytes && whole.err == rest.err
  }

  lemma WroteAll(whole: Written, rest: Written, before: seq<byte>, out: seq<byte>)
    requires Continues(whole, rest, before, out) && rest == Done([])
    ensures Wrote(whole, before, out, None)
  {
  }

  lemma WroteAfter(first: seq<byte>, spec: Written, before: seq<byte>, mid: seq<byte>, out: seq<byte>,
                   err: Option<Error>)
    requires mid == before + first && Wrote(spec, mid, out, err)
    ensures Wrote(After(first, spec), before, out, err)
  {
  }

  lemma NoItems<R>(g: Graph<R>, a: R, b: R)
    ensures EncodeItems(g, a, b, []) == Done([])
  {
  }

  /** What the next key and element of a map write. */
  lemma TwoItems<R>(g: Graph<R>, a: R, b: R, vs: seq<Value>, i: nat)
    requires i + 1 < |vs|
    ensures var x, y := Codecs.Encode(g, a, vs[i]), Codecs.Encode(g, b, vs[i + 1]);
      EncodeItems(g, a, b, vs[i..])
      == if x.err.Some? then x else if y.err.Some? then After(x.bytes, y)
         else After(x.bytes + y.bytes, EncodeItems(g, a, b, vs[i + 2..]))
  {
    hide Codecs.Encode;
    assert vs[i..][0] == vs[i] && vs[i..][1..] == vs[i + 1..];
    assert vs[i + 1..][0] == vs[i + 1] && vs[i + 1..][1..] == vs[i + 2..];
  }
}
