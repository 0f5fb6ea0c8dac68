/** The offset-based (`unsafe`) form of the codecs over flat memory. Encoding writes the bytes the reflective
    form writes for the value in memory; decoding takes what the reflective form takes and leaves the value
    it gives, writing only the target's own cells and fresh allocations. */
module Unsafe {
  import opened Words
  import opened Codecs
  import opened Memory
  import opened Landing
  import Streams
  import Writers

  /** The heap: everything below `|mem|` is allocated. */
  class Heap {
    var mem: Mem

    constructor (mem: Mem)
      ensures this.mem == mem
    {
      this.mem := mem;
    }

    /** `reflect.New` and `reflect.MakeSlice`: fresh zeroed cells. */
    method Alloc(n: nat) returns (p: Addr)
      modifies this
      ensures p == |old(mem)| && |mem| == p + n && mem[..p] == old(mem)
    {
      p := |mem|;
      mem := mem + seq(n, i => Zeroed);
    }

    method Put(p: Addr, c: Cell)
      requires p < |mem|
      modifies this
      ensures mem == old(mem)[p := c]
    {
      mem := mem[p := c];
    }

    /** A `[]byte` header over the cells at `p`. */
    method Bytes(p: Addr, n: nat, ghost vs: seq<Value>) returns (s: seq<byte>)
      requires HoldsBytes(mem, p, vs) && n == |vs|
      ensures s == ToBytes(vs)
    {
      s := [];
      var i := 0;
      while i < n
        invariant i <= n && |s| == i && forall j :: 0 <= j < i ==> s[j] == vs[j].n
      {
        assert mem[p + i] == Bits(vs[i].n) && vs[i] in vs;
        s := s + [mem[p + i].n];
        i := i + 1;
      }
    }

    /** Stores bytes at `p`, one cell each. */
    method Fill(p: Addr, s: seq<byte>)
      requires p + |s| <= |mem|
      modifies this
      ensures |mem| == |old(mem)| && HoldsBytes(mem, p, FromBytes(s))
      ensures forall a :: 0 <= a < |mem| && !(p <= a < p + |s|) ==> mem[a] == old(mem)[a]
    {
      var i := 0;
      while i < |s|
        invariant i <= |s| && |mem| == |old(mem)|
        invariant forall j :: 0 <= j < i ==> mem[p + j] == Bits(s[j])
        invariant forall a :: 0 <= a < |mem| && !(p <= a < p + i) ==> mem[a] == old(mem)[a]
      {
        mem := mem[p + i := Bits(s[i])];
        i := i + 1;
      }
    }
  }

  // ---------------------------------------------------------------- encoding

  /** The case key, read from the switch's own cell as a bool, or as a `uint32` whatever the type there. */
  function SwitchWord(kind: SwitchKind, c: Cell): u32
  {
    if kind.BoolSwitch? then (if c == Flag(true) then 1 else 0)
    else if c.Bits? then c.n % 0x1_0000_0000 else 0
  }

  /** Aliasing a signed switch as unsigned gives the case key of its value. */
  lemma SwitchWordIsKey<R(!new)>(g: Graph<R>, lay: Lay<R>, mem: Mem, r: R, p: Addr, vals: seq<Value>, lo: Addr,
                          hi: Addr)
    requires LaidOut(g, lay, r) && Target(g, r).UnionCodec?
    requires HoldsField(g, lay, mem, r, p, Target(g, r).switch, vals, lo, hi)
    requires Target(g, Target(g, r).switch.codec).PrimCodec?
    ensures var n := Target(g, r);
      && n.switch.index < |vals| && FieldAt(lay, r, p, n.switch) < |mem|
      && SwitchKey(n.kind, vals[n.switch.index]) == Some(SwitchWord(n.kind, mem[FieldAt(lay, r, p, n.switch)]))
  {
    var n := Target(g, r);
    assert Holds(g, lay, mem, n.switch.codec, FieldAt(lay, r, p, n.switch), vals[n.switch.index], lo, hi);
    StoredIsKey(Target(g, n.switch.codec).prim, n.kind, vals[n.switch.index]);
  }

  lemma StoredIsKey(p: Prim, kind: SwitchKind, v: Value)
    requires PrimTyped(p, v) && SwitchFits<nat>(PrimCodec(p), kind)
    ensures SwitchKey(kind, v) == Some(SwitchWord(kind, Stored(p, v)))
  {
  }

  /** A switch that encodes or decodes without error has a primitive codec. */
  lemma SwitchIsPrim<R(!new)>(g: Graph<R>, lay: Lay<R>, r: R, v: Value, input: seq<byte>, depth: nat)
    requires LaidOut(g, lay, r) && Target(g, r).UnionCodec?
    ensures var sw := Target(g, r).switch.codec;
      Codecs.Encode(g, sw, v).err.None? || Codecs.Decode(g, sw, input, depth).Ok? ==> Target(g, sw).PrimCodec?
  {
    var n := Target(g, Target(g, r).switch.codec);
    assert n.ErrorCodec? || n.DeferredCodec? ==> EncodeBy(g, n, v).err.Some? && DecodeBy(g, n, input, depth).Err?;
  }

  /** `encodeUnsafe` of codec `r` at `p`, where memory holds `v`. */
  method Encode<R(==, !new)>(g: Graph<R>, lay: Lay<R>, h: Heap, e: Writers.Encoder, r: R, p: Addr, ghost v: Value)
    returns (err: Option<Error>)
    requires e.Valid() && WellLaid(g, lay) && Holds(g, lay, h.mem, r, p, v, 0, |h.mem|)
    modifies e.w, e.scratch
    ensures Writers.Wrote(Codecs.Encode(g, r, v), old(e.w.out), e.w.out, err)
    decreases v, if Target(g, r).OptCodec? then 3 else 2
  {
    hide Codecs.EncodeItems, Codecs.EncodePrim, Codecs.EncodeOpaque, WordBytes, Padded, Codecs.EncodeFields;
    hide HoldsAll, HoldsField, HoldsFields, HoldsBytes, LaidOut, InRange, Stored, Loaded;
    err := None;
    assert LaidOut(g, lay, r);
    match Target(g, r)
    case ErrorCodec(why) => err := Some(Unsupported(why));
    case DeferredCodec(_) => err := Some(Blocked);
    case PrimCodec(prim) =>
      LoadedIsStored(prim, v);
      e.EncodePrim(prim, Loaded(prim, h.mem[p]));
    case OptCodec(elem) =>
      var isNil := h.mem[p] == Null;
      e.EncodeBool(!isNil);
      if isNil { return; }
      ghost var mid := e.w.out;
      err := Encode(g, lay, h, e, elem, p, v);
      Writers.WroteAfter(WordBytes(1), Codecs.Encode(g, elem, v), old(e.w.out), mid, e.w.out, err);
    case PtrCodec(elem) =>
      if h.mem[p] == Null { return Some(NilPointer); }
      err := Encode(g, lay, h, e, elem, h.mem[p].at, v.target);
    case FixedStringCodec(len) =>
      if |h.mem[p].s| != len { return Some(LengthIncorrect); }
      e.EncodeFixedOpaque(h.mem[p].s);
    case VarStringCodec(max) => err := e.EncodeLimited(h.mem[p].s, max);
    case OpaqueArrayCodec(count) =>
      var s := h.Bytes(p, count, v.elems);
      BytesHeld(h.mem, p, v.elems);
      e.EncodeFixedOpaque(s);
    case OpaqueSliceCodec(max) =>
      var s := h.Bytes(h.mem[p].data, h.mem[p].len, v.elems);
      BytesHeld(h.mem, h.mem[p].data, v.elems);
      err := e.EncodeLimited(s, max);
    case ArrayCodec(count, elem) => err := EncodeElems(g, lay, h, e, elem, p, count, v.elems);
    case SliceCodec(max, elem) =>
      var len := h.mem[p].len;
      if len > max { return Some(LengthError(len, max)); }
      e.EncodeInt(len);
      ghost var mid := e.w.out;
      err := EncodeElems(g, lay, h, e, elem, h.mem[p].data, len, v.elems);
      Writers.WroteAfter(WordBytes(len), EncodeItems(g, elem, elem, v.elems), old(e.w.out), mid, e.w.out, err);
    case MapCodec(max, key, elem) =>
      // maps have no unsafe form: the wrapper calls the reflective codec
      err := e.EncodeBy(g, Target(g, r), VDict(h.mem[p].kv));
    case StructCodec(name, _, fields) => err := EncodeStruct(g, lay, h, e, r, p, v);
    case UnionCodec(_, _, _, _, _, _, _) => err := EncodeUnion(g, lay, h, e, r, p, v);
  }

  lemma BytesHeld(mem: Mem, p: Addr, vs: seq<Value>)
    requires HoldsBytes(mem, p, vs)
    ensures AllBytes(vs)
  {
  }

  /** The stride loop of arrays and slices. */
  method EncodeElems<R(==, !new)>(g: Graph<R>, lay: Lay<R>, h: Heap, e: Writers.Encoder, elem: R, p: Addr, n: nat,
                            ghost vs: seq<Value>)
    returns (err: Option<Error>)
    requires e.Valid() && WellLaid(g, lay) && n == |vs| && HoldsAll(g, lay, h.mem, elem, p, vs, 0, |h.mem|)
    modifies e.w, e.scratch
    ensures Writers.Wrote(EncodeItems(g, elem, elem, vs), old(e.w.out), e.w.out, err)
    decreases vs, 1
  {
    hide Codecs.Encode, Holds, WellLaid;
    var i := 0;
    err := None;
    assert vs[0..] == vs;
    while i < n
      invariant i <= n && err == None
      invariant Writers.Continues(EncodeItems(g, elem, elem, vs), EncodeItems(g, elem, elem, vs[i..]), old(e.w.out),
          e.w.out)
    {
      assert vs[i..][0] == vs[i] && vs[i..][1..] == vs[i + 1..];
      err := Encode(g, lay, h, e, elem, At(p, i, Size(lay, elem)), vs[i]);
      if err.Some? { return; }
      i := i + 1;
    }
    Writers.WroteAll(EncodeItems(g, elem, elem, vs), EncodeItems(g, elem, elem, []), old(e.w.out), e.w.out);
  }

  method EncodeField<R(==, !new)>(g: Graph<R>, lay: Lay<R>, h: Heap, e: Writers.Encoder, r: R, p: Addr, name: string,
                            note: Note, f: Field<R>, ghost vals: seq<Value>)
    returns (err: Option<Error>)
    requires e.Valid() && WellLaid(g, lay) && HoldsField(g, lay, h.mem, r, p, f, vals, 0, |h.mem|)
    modifies e.w, e.scratch
    ensures Writers.Wrote(Codecs.EncodeField(g, name, note, f, vals), old(e.w.out), e.w.out, err)
    decreases vals, 0
  {
    hide Holds, WellLaid;
    err := Encode(g, lay, h, e, f.codec, FieldAt(lay, r, p, f), vals[f.index]);
    if err.Some? { err := Some(WithFieldError(err.value, PathStep(name, f.name, note))); }
  }

  /** The field loop of structs, at the fields' offsets. */
  method EncodeStruct<R(==, !new)>(g: Graph<R>, lay: Lay<R>, h: Heap, e: Writers.Encoder, r: R, p: Addr, ghost v: Value)
    returns (err: Option<Error>)
    requires e.Valid() && WellLaid(g, lay) && Target(g, r).StructCodec? && v.VRec?
    requires HoldsFields(g, lay, h.mem, r, p, Target(g, r).fields, v.fields, 0, |h.mem|)
    modifies e.w, e.scratch
    ensures Writers.Wrote(EncodeFields(g, Target(g, r).name, Target(g, r).fields, v.fields),
                          old(e.w.out), e.w.out, err)
    decreases v, 1
  {
    hide Codecs.EncodeField, HoldsField, WellLaid, Holds;
    var n := Target(g, r);
    var name, fields := n.name, n.fields;
    var i := 0;
    err := None;
    assert fields[0..] == fields;
    while i < |fields|
      invariant i <= |fields| && err == None
      invariant Writers.Continues(EncodeFields(g, name, fields, v.fields), EncodeFields(g, name, fields[i..], v.fields),
                                  old(e.w.out), e.w.out)
    {
      assert fields[i..][0] == fields[i] && fields[i..][1..] == fields[i + 1..];
      err := EncodeField(g, lay, h, e, r, p, name, NoNote, fields[i], v.fields);
      if err.Some? { return; }
      i := i + 1;
    }
    Writers.WroteAll(EncodeFields(g, name, fields, v.fields), EncodeFields(g, name, [], v.fields), old(e.w.out),
        e.w.out);
  }

  /** The switch, the word read back from its cell, and the arm. */
  method EncodeUnion<R(==, !new)>(g: Graph<R>, lay: Lay<R>, h: Heap, e: Writers.Encoder, r: R, p: Addr, ghost v: Value)
    returns (err: Option<Error>)
    requires e.Valid() && WellLaid(g, lay) && Target(g, r).UnionCodec? && Holds(g, lay, h.mem, r, p, v, 0, |h.mem|)
    modifies e.w, e.scratch
    ensures Writers.Wrote(Codecs.Encode(g, r, v), old(e.w.out), e.w.out, err)
    decreases v, 1
  {
    hide HoldsField, WellLaid, LaidOut, Holds;
    var n := Target(g, r);
    LaysOut(g, lay, r);
    UnionHeld(g, lay, h.mem, r, p, v, 0, |h.mem|);
    SwitchIndex(g, lay, h.mem, r, p, n.switch, v.fields, 0, |h.mem|);
    err := EncodeField(g, lay, h, e, r, p, n.name, AtSwitch, n.switch, v.fields);
    if err.Some? { return; }
    SwitchIsPrim(g, lay, r, v.fields[n.switch.index], [], 0);
    SwitchWordIsKey(g, lay, h.mem, r, p, v.fields, 0, |h.mem|);
    var swVal := SwitchWord(n.kind, h.mem[FieldAt(lay, r, p, n.switch)]);
    var arm := Arm(n.cases, n.default, swVal);
    if arm !in n.body { return Some(WithFieldError(ArmUndefined, PathStep(n.name, "?", AtArm(arm)))); }
    ghost var mid := e.w.out;
    err := EncodeField(g, lay, h, e, r, p, n.name, AtArm(swVal), n.body[arm], v.fields);
    assert mid + Codecs.EncodeField(g, n.name, AtArm(swVal), n.body[arm], v.fields).bytes == e.w.out;
  }

  lemma UnionHeld<R(!new)>(g: Graph<R>, lay: Lay<R>, mem: Mem, r: R, p: Addr, v: Value, lo: Addr, hi: Addr)
    requires Target(g, r).UnionCodec? && Holds(g, lay, mem, r, p, v, lo, hi)
    ensures var n := Target(g, r);
      && v.VRec? && |v.fields| == n.width && HoldsField(g, lay, mem, r, p, n.switch, v.fields, lo, hi)
      && (n.switch.index < n.width && SwitchKey(n.kind, v.fields[n.switch.index]).Some? ==>
            (var arm := Arm(n.cases, n.default, SwitchKey(n.kind, v.fields[n.switch.index]).value);
             arm in n.body ==> HoldsField(g, lay, mem, r, p, n.body[arm], v.fields, lo, hi)))
  {
  }

  lemma LaysOut<R(!new)>(g: Graph<R>, lay: Lay<R>, r: R)
    requires WellLaid(g, lay)
    ensures LaidOut(g, lay, r)
  {
  }

  // ---------------------------------------------------------------- decoding

  /** `decodeUnsafe` of codec `r` into the cells at `p`. */
  method Decode<R(==, !new)>(g: Graph<R>, lay: Lay<R>, h: Heap, d: Streams.Decoder, r: R, p: Addr, depth: nat)
    returns (err: Option<Error>)
    requires WellLaid(g, lay) && p + Size(lay, r) <= |h.mem|
    modifies h, d.r
    ensures Decoded(g, lay, r, p, Codecs.Decode(g, r, old(d.r.data), depth), old(h.mem), h.mem, err, d.r.data)
    decreases depth, if Target(g, r).OptCodec? then 5 else 3
  {
    hide Codecs.DecodeItems, Codecs.DecodePrim, Codecs.DecodeOpaque, DecodeFixed, DecodeWord, Merge, Landed, LaidOut,
        WellLaid;
    hide Codecs.DecodeFields, Codecs.DecodeField;
    var n := Target(g, r);
    if IsComposite(n) && depth == 0 { return Some(TooDeep); }
    match n
    case ErrorCodec(why) => err := Some(Unsupported(why));
    case DeferredCodec(_) => err := Some(Blocked);
    case OptCodec(elem) => err := DecodeOpt(g, lay, h, d, r, p, depth);
    case PtrCodec(elem) => err := DecodePtr(g, lay, h, d, r, p, depth);
    case ArrayCodec(count, elem) => err := DecodeArray(g, lay, h, d, r, p, depth);
    case SliceCodec(max, elem) => err := DecodeSlice(g, lay, h, d, r, p, depth);
    case StructCodec(_, _, _) => err := DecodeStruct(g, lay, h, d, r, p, depth);
    case UnionCodec(_, _, _, _, _, _, _) => err := DecodeUnion(g, lay, h, d, r, p, depth);
    case OpaqueArrayCodec(_) => err := DecodeBytes(g, lay, h, d, r, p, depth);
    case OpaqueSliceCodec(_) => err := DecodeBytes(g, lay, h, d, r, p, depth);
    case _ => err := DecodeCell(g, lay, h, d, r, p, depth);
  }

  /** Codecs whose value is one cell: primitives, strings, and maps, which have no unsafe form. */
  method DecodeCell<R(==, !new)>(g: Graph<R>, lay: Lay<R>, h: Heap, d: Streams.Decoder, r: R, p: Addr, depth: nat)
    returns (err: Option<Error>)
    requires WellLaid(g, lay) && p + Size(lay, r) <= |h.mem| && (Target(g, r).MapCodec? ==> depth > 0)
    requires var n := Target(g, r); n.PrimCodec? || n.FixedStringCodec? || n.VarStringCodec? || n.MapCodec?
    modifies h, d.r
    ensures Decoded(g, lay, r, p, Codecs.Decode(g, r, old(d.r.data), depth), old(h.mem), h.mem, err, d.r.data)
  {
    hide Codecs.DecodeItems, Codecs.DecodePrim, Codecs.DecodeOpaque, DecodeFixed, Landed, LaidOut, WellLaid, Merge;
    var v;
    v, err := d.DecodeBy(g, Target(g, r), depth);
    OneCell(g, lay, r);
    if err.Some? { return; }
    CellIsTyped(g, Target(g, r), old(d.r.data), depth);
    CellLands(g, lay, r, p, v, old(d.r.data), depth, h.mem);
    h.Put(p, CellOf(Target(g, r), v));
  }

  lemma OneCell<R(!new)>(g: Graph<R>, lay: Lay<R>, r: R)
    requires WellLaid(g, lay)
    ensures var n := Target(g, r);
      (n.PrimCodec? || n.FixedStringCodec? || n.VarStringCodec? || n.MapCodec? || n.PtrCodec? || n.SliceCodec?
       || n.OpaqueSliceCodec?) ==> Size(lay, r) == 1
  {
    assert LaidOut(g, lay, r);
  }

  lemma CellLands<R(!new)>(g: Graph<R>, lay: Lay<R>, r: R, p: Addr, v: Value, input: seq<byte>, depth: nat, mem: Mem)
    requires WellLaid(g, lay) && p < |mem|
    requires var n := Target(g, r); n.PrimCodec? || n.FixedStringCodec? || n.VarStringCodec? || n.MapCodec?
    requires DecodeBy(g, Target(g, r), input, depth).Ok? && DecodeBy(g, Target(g, r), input, depth).value.0 == v
    ensures OneCelled(Target(g, r), v) && Landed(g, lay, r, p, v, mem, mem[p := CellOf(Target(g, r), v)])
  {
    hide Codecs.DecodeItems, Codecs.DecodePrim, Codecs.DecodeOpaque, DecodeFixed, InRange, WellLaid, LaidOut,
        DecodeWord;
    hide PrimTyped, Stored;
    OneCell(g, lay, r);
    CellIsTyped(g, Target(g, r), input, depth);
  }

  /** Values of one cell. */
  predicate OneCelled<R>(n: Node<R>, v: Value)
  {
    match n
    case PrimCodec(prim) => PrimTyped(prim, v)
    case MapCodec(_, _, _) => v.VDict?
    case _ => v.VStr?
  }

  function CellOf<R>(n: Node<R>, v: Value): Cell
    requires OneCelled(n, v)
  {
    match n
    case PrimCodec(prim) => Stored(prim, v)
    case MapCodec(_, _, _) => Dict(v.kv)
    case _ => Text(v.s)
  }

  lemma CellIsTyped<R>(g: Graph<R>, n: Node<R>, input: seq<byte>, depth: nat)
    requires n.PrimCodec? || n.FixedStringCodec? || n.VarStringCodec? || n.MapCodec?
    requires DecodeBy(g, n, input, depth).Ok?
    ensures OneCelled(n, DecodeBy(g, n, input, depth).value.0)
  {
    hide Codecs.DecodeItems, Codecs.DecodePrim, Codecs.DecodeOpaque, DecodeFixed, InRange, DecodeWord, PrimTyped;
    if n.PrimCodec? { DecodedIsTyped(n.prim, input); }
  }

  /** Opaque arrays in place; opaque slices in fresh cells. */
  method DecodeBytes<R(==, !new)>(g: Graph<R>, lay: Lay<R>, h: Heap, d: Streams.Decoder, r: R, p: Addr, depth: nat)
    returns (err: Option<Error>)
    requires WellLaid(g, lay) && p + Size(lay, r) <= |h.mem|
    requires Target(g, r).OpaqueArrayCodec? || Target(g, r).OpaqueSliceCodec?
    modifies h, d.r
    ensures Decoded(g, lay, r, p, Codecs.Decode(g, r, old(d.r.data), depth), old(h.mem), h.mem, err, d.r.data)
  {
    hide Codecs.DecodeOpaque, DecodeFixed, Landed, WellLaid, HoldsBytes;
    LaysOut(g, lay, r);
    match Target(g, r)
    case OpaqueArrayCodec(count) =>
      var buf := new byte[count](i => 0);
      err := d.DecodeFixedOpaque(buf);
      if err.Some? { return; }
      h.Fill(p, buf[..]);
      ArrayBytesLand(g, lay, r, p, buf[..], old(h.mem), h.mem);
    case OpaqueSliceCodec(max) =>
      var s;
      s, err := d.DecodeOpaque(max);
      if err.Some? { return; }
      var q := h.Alloc(|s|);
      ghost var mid := h.mem;
      h.Fill(q, s);
      ghost var filled := h.mem;
      h.Put(p, Header(q, |s|));
      SliceBytesLand(g, lay, r, p, s, old(h.mem), mid, filled);
  }

  lemma ArrayBytesLand<R(!new)>(g: Graph<R>, lay: Lay<R>, r: R, p: Addr, s: seq<byte>, mem: Mem, mem': Mem)
    requires LaidOut(g, lay, r) && Target(g, r) == OpaqueArrayCodec(|s|) && p + |s| <= |mem| == |mem'|
    requires HoldsBytes(mem', p, FromBytes(s))
    requires forall a :: 0 <= a < |mem| && !(p <= a < p + |s|) ==> mem'[a] == mem[a]
    ensures Landed(g, lay, r, p, VList(FromBytes(s)), mem, mem')
  {
    hide HoldsBytes, FromBytes;
    assert Holds(g, lay, mem', r, p, VList(FromBytes(s)), |mem|, |mem'|);
  }

  lemma SliceBytesLand<R(!new)>(g: Graph<R>, lay: Lay<R>, r: R, p: Addr, s: seq<byte>, mem: Mem, mid: Mem, filled: Mem)
    requires LaidOut(g, lay, r) && Target(g, r).OpaqueSliceCodec? && p < |mem|
    requires |mid| == |mem| + |s| == |filled| && mid[..|mem|] == mem && HoldsBytes(filled, |mem|, FromBytes(s))
    requires forall a :: 0 <= a < |mid| && !(|mem| <= a < |mem| + |s|) ==> filled[a] == mid[a]
    ensures Landed(g, lay, r, p, VList(FromBytes(s)), mem, filled[p := Header(|mem|, |s|)])
  {
    hide HoldsBytes, FromBytes, Landed, Holds;
    var mem', vs := filled[p := Header(|mem|, |s|)], FromBytes(s);
    forall a | 0 <= a < |mem| && a != p ensures mem'[a] == mem[a] { assert mid[..|mem|][a] == mid[a]; }
    BytesKept(filled, mem', |mem|, vs);
    SliceHolds(g, lay, r, p, vs, mem', |mem|, |mem'|);
    HeaderLands(g, lay, r, p, VList(vs), mem, mem');
  }

  lemma HeaderLands<R>(g: Graph<R>, lay: Lay<R>, r: R, p: Addr, v: Value, mem: Mem, mem': Mem)
    requires Size(lay, r) == 1 && Target(g, r).OpaqueSliceCodec? && |mem| <= |mem'|
    requires Holds(g, lay, mem', r, p, v, |mem|, |mem'|)
    requires forall a :: 0 <= a < |mem| && a != p ==> mem'[a] == mem[a]
    ensures Landed(g, lay, r, p, v, mem, mem')
  {
    hide Holds;
    OwnCell(g, lay, r, p, v);
  }

  lemma BytesKept(mem: Mem, mem': Mem, p: Addr, vs: seq<Value>)
    requires HoldsBytes(mem, p, vs) && |mem| == |mem'|
    requires forall a :: p <= a < |mem| ==> mem'[a] == mem[a]
    ensures HoldsBytes(mem', p, vs)
  {
  }

  lemma SliceHolds<R>(g: Graph<R>, lay: Lay<R>, r: R, p: Addr, vs: seq<Value>, mem: Mem, lo: Addr, hi: Addr)
    requires Target(g, r).OpaqueSliceCodec? && Size(lay, r) == 1 && p < |mem| && lo + |vs| <= hi <= |mem|
    requires mem[p] == Header(lo, |vs|) && HoldsBytes(mem, lo, vs)
    ensures Holds(g, lay, mem, r, p, VList(vs), lo, hi)
  {
    hide HoldsBytes;
  }

  method DecodeOpt<R(==, !new)>(g: Graph<R>, lay: Lay<R>, h: Heap, d: Streams.Decoder, r: R, p: Addr, depth: nat)
    returns (err: Option<Error>)
    requires WellLaid(g, lay) && p + Size(lay, r) <= |h.mem| && Target(g, r).OptCodec?
    modifies h, d.r
    ensures Decoded(g, lay, r, p, Codecs.Decode(g, r, old(d.r.data), depth), old(h.mem), h.mem, err, d.r.data)
    decreases depth, 4
  {
    hide Codecs.DecodeBool, Landed, WellLaid, Holds;
    LaysOut(g, lay, r);
    var elem := Target(g, r).elem;
    var notNil;
    notNil, err := d.DecodeBool();
    if err.Some? { return; }
    if notNil {
      ghost var more := d.r.data;
      err := Decode(g, lay, h, d, elem, p, depth);
      if err.None? { OptLands(g, lay, r, p, more, depth, old(h.mem), h.mem); }
    } else {
      h.Put(p, Null);
      NilLands(g, lay, r, p, old(h.mem));
    }
  }

  lemma NilLands<R(!new)>(g: Graph<R>, lay: Lay<R>, r: R, p: Addr, mem: Mem)
    requires LaidOut(g, lay, r) && Target(g, r).OptCodec? && p < |mem|
    ensures Landed(g, lay, r, p, VNil, mem, mem[p := Null])
  {
  }

  lemma OptLands<R(!new)>(g: Graph<R>, lay: Lay<R>, r: R, p: Addr, input: seq<byte>, depth: nat, mem: Mem, mem': Mem)
    requires LaidOut(g, lay, r) && Target(g, r).OptCodec?
    requires var elem := Target(g, r).elem; var res := Codecs.Decode(g, elem, input, depth);
      res.Ok? && Landed(g, lay, elem, p, res.value.0, mem, mem')
    ensures var elem := Target(g, r).elem;
      Landed(g, lay, r, p, Codecs.Decode(g, elem, input, depth).value.0, mem, mem')
  {
    var elem := Target(g, r).elem;
    var v := DecodeBy(g, Target(g, elem), input, depth).value.0;
    assert Target(g, elem).PtrCodec? && v.VRef?;
    assert Holds(g, lay, mem', elem, p, v, |mem|, |mem'|);
  }

  method DecodePtr<R(==, !new)>(g: Graph<R>, lay: Lay<R>, h: Heap, d: Streams.Decoder, r: R, p: Addr, depth: nat)
    returns (err: Option<Error>)
    requires WellLaid(g, lay) && p + Size(lay, r) <= |h.mem| && Target(g, r).PtrCodec? && depth > 0
    modifies h, d.r
    ensures Decoded(g, lay, r, p, Codecs.Decode(g, r, old(d.r.data), depth), old(h.mem), h.mem, err, d.r.data)
    decreases depth, 2
  {
    hide Landed, WellLaid, Holds;
    OneCell(g, lay, r);
    var elem := Target(g, r).elem;
    var q := h.Alloc(Size(lay, elem));
    ghost var grown := h.mem;
    h.Put(p, Ref(q));
    ghost var mid := h.mem;
    err := Decode(g, lay, h, d, elem, q, depth - 1);
    Grown(old(h.mem), grown, p, Ref(q));
    if err.None? {
      PtrLands(g, lay, r, p, Codecs.Decode(g, elem, old(d.r.data), depth - 1).value.0, old(h.mem), mid, h.mem);
    }
  }

  /** Fresh cells at the end, and one cell overwritten. */
  lemma Grown(mem: Mem, grown: Mem, p: Addr, c: Cell)
    requires p < |mem| <= |grown| && grown[..|mem|] == mem
    ensures forall a :: 0 <= a < |mem| && a != p ==> grown[p := c][a] == mem[a]
  {
    forall a | 0 <= a < |mem| && a != p ensures grown[p := c][a] == mem[a] { assert grown[..|mem|][a] == grown[a]; }
  }

  lemma PtrLands<R(!new)>(g: Graph<R>, lay: Lay<R>, r: R, p: Addr, v: Value, mem: Mem, mid: Mem, mem': Mem)
    requires WellLaid(g, lay) && Target(g, r).PtrCodec? && p < |mem|
    requires |mid| == |mem| + Size(lay, Target(g, r).elem) && mid[p] == Ref(|mem|)
    requires forall a :: 0 <= a < |mem| && a != p ==> mid[a] == mem[a]
    requires Landed(g, lay, Target(g, r).elem, |mem|, v, mid, mem')
    ensures Landed(g, lay, r, p, VRef(v), mem, mem')
  {
    hide WellLaid, Touches;
    var elem, q := Target(g, r).elem, |mem|;
    OneCell(g, lay, r);
    forall a | 0 <= a < |mem| ensures mem'[a] == mid[a] {
      if Touches(g, lay, elem, q, v, a) { TouchesInside(g, lay, mem', elem, q, v, |mid|, |mem'|, a); }
    }
    HoldsKept(g, lay, mem', mem', elem, q, v, |mid|, |mem'|, |mem|, |mem'|);
    OwnCell(g, lay, r, p, VRef(v));
  }

  /** One-cell values touch just that cell. */
  lemma OwnCell<R>(g: Graph<R>, lay: Lay<R>, r: R, p: Addr, v: Value)
    requires Size(lay, r) == 1 && (Target(g, r).PtrCodec? || Target(g, r).SliceCodec? || Target(g, r).OpaqueSliceCodec?)
    ensures forall a :: Touches(g, lay, r, p, v, a) <==> a == p
  {
  }

  // ---------------------------------------------------------------- arrays and slices

  /** The stride loop. */
  method DecodeElems<R(==, !new)>(g: Graph<R>, lay: Lay<R>, h: Heap, d: Streams.Decoder, elem: R, p: Addr, n: nat,
                       depth: nat)
    returns (err: Option<Error>)
    requires WellLaid(g, lay) && At(p, n, Size(lay, elem)) <= |h.mem|
    modifies h, d.r
    ensures match DecodeItems(g, elem, elem, n, old(d.r.data), depth)
            case Ok((vs, rest)) =>
              err == None && d.r.data == rest && ItemsLanded(g, lay, elem, p, vs, old(h.mem), h.mem)
            case Err(e) => err == Some(e) && OnlyWithin(old(h.mem), h.mem, p, At(p, n, Size(lay, elem)))
    decreases depth, 6
  {
    hide Codecs.Decode, WellLaid, Holds, Landed, ItemsLanded, At;
    err := None;
    ghost var vs: seq<Value> := [];
    ghost var mem := h.mem;
    var i := 0;
    Streams.PrependNothing([], DecodeItems(g, elem, elem, n, d.r.data, depth));
    NothingLanded(g, lay, elem, p, mem);
    while i < n
      invariant i <= n && err == None && |vs| == i && |mem| <= |h.mem|
      invariant DecodeItems(g, elem, elem, n, old(d.r.data), depth)
             == Streams.Prepend(vs, DecodeItems(g, elem, elem, n - i, d.r.data, depth))
      invariant ItemsLanded(g, lay, elem, p, vs, mem, h.mem)
    {
      ghost var rest, mem1 := d.r.data, h.mem;
      StrideInside(p, i, n, Size(lay, elem));
      err := Decode(g, lay, h, d, elem, At(p, i, Size(lay, elem)), depth);
      if err.Some? {
        ItemsWithin(g, lay, elem, p, vs, mem, mem1);
        ItemFailed(p, i, n, Size(lay, elem), mem, mem1, h.mem);
        return;
      }
      ghost var v := Codecs.Decode(g, elem, rest, depth).value.0;
      Streams.PrependFurther(vs, v, DecodeItems(g, elem, elem, n - i - 1, d.r.data, depth));
      assert DecodeItems(g, elem, elem, n - i, rest, depth)
          == Streams.Prepend([v], DecodeItems(g, elem, elem, n - i - 1, d.r.data, depth));
      ItemStep(g, lay, elem, p, vs, v, mem, mem1, h.mem);
      ItemsGrow(g, lay, elem, p, vs + [v], mem, h.mem);
      vs := vs + [v];
      i := i + 1;
    }
    Streams.PrependNothing(vs, DecodeItems(g, elem, elem, 0, d.r.data, depth));
  }

  lemma NothingLanded<R>(g: Graph<R>, lay: Lay<R>, elem: R, p: Addr, mem: Mem)
    ensures ItemsLanded(g, lay, elem, p, [], mem, mem)
  {
  }

  lemma ItemsGrow<R>(g: Graph<R>, lay: Lay<R>, elem: R, p: Addr, vs: seq<Value>, mem: Mem, mem': Mem)
    requires ItemsLanded(g, lay, elem, p, vs, mem, mem')
    ensures |mem| <= |mem'|
  {
  }

  lemma ItemFailed(p: Addr, i: nat, n: nat, stride: nat, mem: Mem, mem1: Mem, mem2: Mem)
    requires i < n && OnlyWithin(mem, mem1, p, At(p, i, stride))
    requires OnlyWithin(mem1, mem2, At(p, i, stride), At(p, i, stride) + stride)
    ensures OnlyWithin(mem, mem2, p, At(p, n, stride))
  {
    hide At;
    StrideInside(p, i, n, stride);
  }

  method DecodeArray<R(==, !new)>(g: Graph<R>, lay: Lay<R>, h: Heap, d: Streams.Decoder, r: R, p: Addr, depth: nat)
    returns (err: Option<Error>)
    requires WellLaid(g, lay) && p + Size(lay, r) <= |h.mem| && Target(g, r).ArrayCodec? && depth > 0
    modifies h, d.r
    ensures Decoded(g, lay, r, p, Codecs.Decode(g, r, old(d.r.data), depth), old(h.mem), h.mem, err, d.r.data)
    decreases depth, 2
  {
    hide Codecs.DecodeItems, WellLaid, Holds, ItemsLanded, Landed;
    var n := Target(g, r);
    LaysOut(g, lay, r);
    WholeArray(p, n.count, Size(lay, n.elem));
    err := DecodeElems(g, lay, h, d, n.elem, p, n.count, depth - 1);
    if err.None? {
      ArrayLands(g, lay, r, p, DecodeItems(g, n.elem, n.elem, n.count, old(d.r.data), depth - 1).value.0,
                 old(h.mem), h.mem);
    }
  }

  lemma ArrayLands<R(!new)>(g: Graph<R>, lay: Lay<R>, r: R, p: Addr, vs: seq<Value>, mem: Mem, mem': Mem)
    requires Target(g, r).ArrayCodec? && |vs| == Target(g, r).count && p + Size(lay, r) <= |mem|
    requires ItemsLanded(g, lay, Target(g, r).elem, p, vs, mem, mem')
    ensures Landed(g, lay, r, p, VList(vs), mem, mem')
  {
    hide HoldsAll, TouchesItems;
  }

  method DecodeSlice<R(==, !new)>(g: Graph<R>, lay: Lay<R>, h: Heap, d: Streams.Decoder, r: R, p: Addr, depth: nat)
    returns (err: Option<Error>)
    requires WellLaid(g, lay) && p + Size(lay, r) <= |h.mem| && Target(g, r).SliceCodec? && depth > 0
    modifies h, d.r
    ensures Decoded(g, lay, r, p, Codecs.Decode(g, r, old(d.r.data), depth), old(h.mem), h.mem, err, d.r.data)
    decreases depth, 2
  {
    hide DecodeWord, WellLaid, Holds, ItemsLanded, Landed;
    var n := Target(g, r);
    var elem := n.elem;
    OneCell(g, lay, r);
    var l;
    l, err := d.DecodeUnsignedInt();
    if err.Some? { return; }
    if l == 0 {
      h.Put(p, Header(0, 0));
      EmptyLands(g, lay, r, p, old(h.mem));
      assert DecodeItems(g, elem, elem, 0, d.r.data, depth - 1) == Ok(([], d.r.data));
      return;
    }
    if l > n.max { return Some(LengthError(l, n.max)); }
    var q := h.Alloc(l * Size(lay, elem));
    ghost var grown := h.mem;
    h.Put(p, Header(q, l));
    ghost var mid, more := h.mem, d.r.data;
    Grown(old(h.mem), grown, p, Header(q, l));
    WholeArray(q, l, Size(lay, elem));
    err := DecodeElems(g, lay, h, d, elem, q, l, depth - 1);
    if err.None? {
      SliceLands(g, lay, r, p, DecodeItems(g, elem, elem, l, more, depth - 1).value.0, old(h.mem), mid, h.mem);
    }
  }

  lemma EmptyLands<R(!new)>(g: Graph<R>, lay: Lay<R>, r: R, p: Addr, mem: Mem)
    requires Target(g, r).SliceCodec? && Size(lay, r) == 1 && p < |mem|
    ensures Landed(g, lay, r, p, VList([]), mem, mem[p := Header(0, 0)])
  {
    assert HoldsAll(g, lay, mem[p := Header(0, 0)], Target(g, r).elem, 0, [], |mem|, |mem|);
    OwnCell(g, lay, r, p, VList([]));
  }

  lemma SliceLands<R(!new)>(g: Graph<R>, lay: Lay<R>, r: R, p: Addr, vs: seq<Value>, mem: Mem, mid: Mem, mem': Mem)
    requires WellLaid(g, lay) && Target(g, r).SliceCodec? && p < |mem|
    requires |mid| == At(|mem|, |vs|, Size(lay, Target(g, r).elem)) && |mem| <= |mid| && mid[p] == Header(|mem|, |vs|)
    requires forall a :: 0 <= a < |mem| && a != p ==> mid[a] == mem[a]
    requires ItemsLanded(g, lay, Target(g, r).elem, |mem|, vs, mid, mem')
    ensures Landed(g, lay, r, p, VList(vs), mem, mem')
  {
    hide WellLaid, TouchesItems, HoldsAll, At;
    var elem, q := Target(g, r).elem, |mem|;
    OneCell(g, lay, r);
    forall a | 0 <= a < |mem| ensures mem'[a] == mid[a] {
      if TouchesItems(g, lay, elem, q, vs, a) { ItemsInside(g, lay, mem', elem, q, vs, |mid|, |mem'|, a); }
    }
    AllKept(g, lay, mem', mem', elem, q, vs, |mid|, |mem'|, |mem|, |mem'|);
    OwnCell(g, lay, r, p, VList(vs));
  }

  // ---------------------------------------------------------------- structs and unions

  /** One field, decoded at its offset after the fields `fs`. */
  method DecodeField<R(==, !new)>(g: Graph<R>, lay: Lay<R>, h: Heap, d: Streams.Decoder, r: R, p: Addr, name: string,
                            note: Note, f: Field<R>, ghost fs: seq<Field<R>>, ghost vals: seq<Value>,
                            ghost mem: Mem, depth: nat)
    returns (err: Option<Error>, ghost vals': seq<Value>)
    requires WellLaid(g, lay) && p + Size(lay, r) <= |mem| && FieldsFit(lay, r, |vals|, fs, f)
    requires FieldsLanded(g, lay, r, p, fs, vals, mem, h.mem)
    modifies h, d.r
    ensures |vals'| == |vals|
    ensures match Codecs.DecodeField(g, name, note, f, vals, old(d.r.data), depth)
            case Ok((vs, rest)) =>
              err == None && d.r.data == rest && vals' == vs && FieldsLanded(g, lay, r, p, fs + [f], vs, mem, h.mem)
            case Err(e) => err == Some(e) && OnlyWithin(mem, h.mem, p, p + Size(lay, r))
    decreases depth, 6
  {
    hide Codecs.Decode, WellLaid, Holds, HoldsField, Landed, Touches, TouchesFields;
    ghost var mem1, input := h.mem, d.r.data;
    FieldsWithin(g, lay, r, p, fs, vals, mem, mem1);
    err := Decode(g, lay, h, d, f.codec, FieldAt(lay, r, p, f), depth);
    vals' := vals;
    if err.Some? {
      FieldFailed(g, lay, r, p, f, |vals|, mem, mem1, h.mem);
      err := Some(WithFieldError(err.value, PathStep(name, f.name, note)));
    } else {
      ghost var v := Codecs.Decode(g, f.codec, input, depth).value.0;
      FieldStep(g, lay, r, p, fs, f, vals, v, mem, mem1, h.mem);
      vals' := vals[f.index := v];
    }
  }

  lemma NoFieldsLanded<R>(g: Graph<R>, lay: Lay<R>, r: R, p: Addr, vals: seq<Value>, mem: Mem)
    ensures FieldsLanded(g, lay, r, p, [], vals, mem, mem)
  {
  }

  /** The field loop of structs. */
  method DecodeStruct<R(==, !new)>(g: Graph<R>, lay: Lay<R>, h: Heap, d: Streams.Decoder, r: R, p: Addr, depth: nat)
    returns (err: Option<Error>)
    requires WellLaid(g, lay) && p + Size(lay, r) <= |h.mem| && Target(g, r).StructCodec? && depth > 0
    modifies h, d.r
    ensures Decoded(g, lay, r, p, Codecs.Decode(g, r, old(d.r.data), depth), old(h.mem), h.mem, err, d.r.data)
    decreases depth, 2
  {
    hide Codecs.DecodeField, WellLaid, Holds, FieldsLanded, Landed, Apart, FieldInside;
    var n := Target(g, r);
    var name, fields := n.name, n.fields;
    ghost var vals, mem := Untouched(n.width), h.mem;
    LaysOut(g, lay, r);
    err := None;
    var i := 0;
    assert fields[0..] == fields && fields[..0] == [];
    NoFieldsLanded(g, lay, r, p, vals, mem);
    while i < |fields|
      invariant i <= |fields| && err == None && |vals| == n.width
      invariant DecodeFields(g, name, fields, Untouched(n.width), old(d.r.data), depth - 1)
             == DecodeFields(g, name, fields[i..], vals, d.r.data, depth - 1)
      invariant FieldsLanded(g, lay, r, p, fields[..i], vals, mem, h.mem)
    {
      assert fields[i..][0] == fields[i] && fields[i..][1..] == fields[i + 1..];
      assert fields[..i] + [fields[i]] == fields[..i + 1];
      err, vals := DecodeField(g, lay, h, d, r, p, name, NoNote, fields[i], fields[..i], vals, mem, depth - 1);
      if err.Some? { return; }
      i := i + 1;
    }
    assert fields[..i] == fields;
    StructLands(g, lay, r, p, vals, mem, h.mem);
  }

  lemma StructLands<R(!new)>(g: Graph<R>, lay: Lay<R>, r: R, p: Addr, vals: seq<Value>, mem: Mem, mem': Mem)
    requires Target(g, r).StructCodec? && |vals| == Target(g, r).width && p + Size(lay, r) <= |mem|
    requires FieldsLanded(g, lay, r, p, Target(g, r).fields, vals, mem, mem')
    ensures Landed(g, lay, r, p, VRec(vals), mem, mem')
  {
    hide HoldsField, TouchesFields;
    var v := VRec(vals);
    assert HoldsFields(g, lay, mem', r, p, Target(g, r).fields, v.fields, |mem|, |mem'|);
    assert Holds(g, lay, mem', r, p, v, |mem|, |mem'|);
    assert forall a :: Touches(g, lay, r, p, v, a) <==> TouchesFields(g, lay, r, p, Target(g, r).fields, v.fields, a);
  }

  lemma UnionFits<R(!new)>(g: Graph<R>, lay: Lay<R>, r: R)
    requires LaidOut(g, lay, r) && Target(g, r).UnionCodec?
    ensures var n := Target(g, r);
      && FieldsFit(lay, r, n.width, [], n.switch) && FieldInside(lay, r, n.width, n.switch)
      && forall a :: a in n.body ==>
           FieldsFit(lay, r, n.width, [n.switch], n.body[a]) && n.body[a].index != n.switch.index
  {
  }

  /** After the switch is decoded, the word in its cell is the case key of the value decoded. */
  lemma SwitchDecoded<R(!new)>(g: Graph<R>, lay: Lay<R>, r: R, p: Addr, input: seq<byte>, depth: nat, vals: seq<Value>,
                         mem: Mem, mem': Mem)
    requires LaidOut(g, lay, r) && Target(g, r).UnionCodec?
    requires var n := Target(g, r);
      && FieldsLanded(g, lay, r, p, [n.switch], vals, mem, mem')
      && var res := Codecs.DecodeField(g, n.name, AtSwitch, n.switch, Untouched(n.width), input, depth);
         res.Ok? && res.value.0 == vals
    ensures var n := Target(g, r);
      && n.switch.index < |vals| == n.width && FieldAt(lay, r, p, n.switch) < |mem'|
      && SwitchKey(n.kind, vals[n.switch.index]) == Some(SwitchWord(n.kind, mem'[FieldAt(lay, r, p, n.switch)]))
  {
    hide LaidOut, HoldsField, SwitchKey, TouchesFields, SwitchWord;
    var n := Target(g, r);
    SwitchIsPrim(g, lay, r, VUnset, input, depth);
    assert HoldsField(g, lay, mem', r, p, [n.switch][0], vals, |mem|, |mem'|);
    SwitchWordIsKey(g, lay, mem', r, p, vals, |mem|, |mem'|);
  }

  lemma TwoFields<R>(g: Graph<R>, lay: Lay<R>, r: R, p: Addr, f: Field<R>, h: Field<R>, vals: seq<Value>, a: Addr)
    ensures TouchesFields(g, lay, r, p, [f, h], vals, a)
       <==> TouchesField(g, lay, r, p, f, vals, a) || TouchesField(g, lay, r, p, h, vals, a)
  {
    hide TouchesField;
    assert [f, h][..1] == [f] && [f][..0] == [];
    assert TouchesFields(g, lay, r, p, [f], vals, a) <==> TouchesField(g, lay, r, p, f, vals, a);
  }

  lemma UnionLands<R(!new)>(g: Graph<R>, lay: Lay<R>, r: R, p: Addr, arm: int, key: u32, before: seq<Value>,
                            vals: seq<Value>, mem: Mem, mem': Mem)
    requires Target(g, r).UnionCodec? && p + Size(lay, r) <= |mem|
    requires var n := Target(g, r);
      && |vals| == n.width == |before| && n.switch.index < n.width && before[n.switch.index] == vals[n.switch.index]
      && SwitchKey(n.kind, before[n.switch.index]) == Some(key) && arm == Arm(n.cases, n.default, key) && arm in n.body
      && FieldsLanded(g, lay, r, p, [n.switch, n.body[arm]], vals, mem, mem')
    ensures Landed(g, lay, r, p, VRec(vals), mem, mem')
  {
    hide HoldsField, TouchesField;
    var n := Target(g, r);
    var fs := [n.switch, n.body[arm]];
    assert HoldsField(g, lay, mem', r, p, fs[0], vals, |mem|, |mem'|);
    assert HoldsField(g, lay, mem', r, p, fs[1], vals, |mem|, |mem'|);
    var v := VRec(vals);
    assert Holds(g, lay, mem', r, p, v, |mem|, |mem'|);
    forall a | TouchesFields(g, lay, r, p, fs, vals, a) ensures Touches(g, lay, r, p, v, a) {
      TwoFields(g, lay, r, p, n.switch, n.body[arm], vals, a);
      assert TouchesField(g, lay, r, p, n.switch, v.fields, a) || TouchesField(g, lay, r, p, n.body[arm], v.fields, a);
    }
  }

  /** The switch, the word read back from its cell, and the arm; other arms stay as they are. */
  method DecodeUnion<R(==, !new)>(g: Graph<R>, lay: Lay<R>, h: Heap, d: Streams.Decoder, r: R, p: Addr, depth: nat)
    returns (err: Option<Error>)
    requires WellLaid(g, lay) && p + Size(lay, r) <= |h.mem| && Target(g, r).UnionCodec? && depth > 0
    modifies h, d.r
    ensures Decoded(g, lay, r, p, Codecs.Decode(g, r, old(d.r.data), depth), old(h.mem), h.mem, err, d.r.data)
    decreases depth, 2
  {
    hide Codecs.DecodeField, WellLaid, Holds, HoldsField, FieldsLanded, Landed, Apart, FieldInside, SwitchKey, LaidOut;
    var n := Target(g, r);
    var sw := n.switch;
    ghost var vals, mem := Untouched(n.width), h.mem;
    LaysOut(g, lay, r);
    UnionFits(g, lay, r);
    NoFieldsLanded(g, lay, r, p, vals, mem);
    ghost var input := d.r.data;
    err, vals := DecodeField(g, lay, h, d, r, p, n.name, AtSwitch, sw, [], vals, mem, depth - 1);
    if err.Some? { return; }
    assert [] + [sw] == [sw];
    SwitchDecoded(g, lay, r, p, input, depth - 1, vals, mem, h.mem);
    FieldsWithin(g, lay, r, p, [sw], vals, mem, h.mem);
    var swVal := SwitchWord(n.kind, h.mem[FieldAt(lay, r, p, sw)]);
    var arm := Arm(n.cases, n.default, swVal);
    if arm !in n.body { return Some(WithFieldError(ArmUndefined, PathStep(n.name, "?", AtArm(arm)))); }
    ghost var before := vals;
    err, vals := DecodeField(g, lay, h, d, r, p, n.name, AtArm(swVal), n.body[arm], [sw], vals, mem, depth - 1);
    if err.Some? { return; }
    assert [sw] + [n.body[arm]] == [sw, n.body[arm]];
    UnionLands(g, lay, r, p, arm, swVal, before, vals, mem, h.mem);
  }

  /** Decoding a union leaves the cells of every arm but the selected one as they were. */
  lemma InactiveArmsKept<R(!new)>(g: Graph<R>, lay: Lay<R>, r: R, p: Addr, v: Value, mem: Mem, mem': Mem, b: nat,
                           a: Addr)
    requires WellLaid(g, lay) && Target(g, r).UnionCodec? && p + Size(lay, r) <= |mem|
    requires Landed(g, lay, r, p, v, mem, mem')
    requires var n := Target(g, r);
      && v.VRec? && n.switch.index < |v.fields| && b in n.body
        && FieldAt(lay, r, p, n.body[b]) <= a < FieldAt(lay, r, p, n.body[b]) + Size(lay, n.body[b].codec)
      && SwitchKey(n.kind, v.fields[n.switch.index]) != None
      && Arm(n.cases, n.default, SwitchKey(n.kind, v.fields[n.switch.index]).value) != b
    ensures a < |mem| && mem'[a] == mem[a]
  {
    hide WellLaid, HoldsField, TouchesField, Apart, FieldInside;
    var n := Target(g, r);
    LaysOut(g, lay, r);
    UnionHeld(g, lay, mem', r, p, v, |mem|, |mem'|);
    var arm := Arm(n.cases, n.default, SwitchKey(n.kind, v.fields[n.switch.index]).value);
    ArmsApart(g, lay, r, arm, b);
    InsideMemory(lay, r, p, n.width, n.body[b], a, |mem|);
    FieldMisses(g, lay, mem', r, p, n.switch, n.body[b], v.fields, |mem|, |mem'|, a);
    if arm in n.body { FieldMisses(g, lay, mem', r, p, n.body[arm], n.body[b], v.fields, |mem|, |mem'|, a); }
  }

  lemma ArmsApart<R(!new)>(g: Graph<R>, lay: Lay<R>, r: R, arm: int, b: nat)
    requires LaidOut(g, lay, r) && Target(g, r).UnionCodec? && b in Target(g, r).body && arm != b
    ensures var n := Target(g, r);
      && FieldInside(lay, r, n.width, n.switch) && FieldInside(lay, r, n.width, n.body[b])
      && Apart(lay, r, n.switch, n.body[b])
      && (arm in n.body ==> FieldInside(lay, r, n.width, n.body[arm]) && Apart(lay, r, n.body[arm], n.body[b]))
  {
  }

  /** Decoding a field touches no cell of a field apart from it. */
  lemma FieldMisses<R(!new)>(g: Graph<R>, lay: Lay<R>, mem: Mem, r: R, p: Addr, f: Field<R>, h: Field<R>,
                             vals: seq<Value>, lo: Addr, hi: Addr, a: Addr)
    requires WellLaid(g, lay) && HoldsField(g, lay, mem, r, p, f, vals, lo, hi) && FieldInside(lay, r, |vals|, f)
    requires Apart(lay, r, f, h) && FieldAt(lay, r, p, h) <= a < FieldAt(lay, r, p, h) + Size(lay, h.codec)
    ensures !TouchesField(g, lay, r, p, f, vals, a)
  {
    hide WellLaid, HoldsField, TouchesField, FieldInside;
    if TouchesField(g, lay, r, p, f, vals, a) { OneInside(g, lay, mem, r, p, f, vals, lo, hi, a); }
  }

  lemma InsideMemory<R>(lay: Lay<R>, r: R, p: Addr, width: nat, f: Field<R>, a: Addr, n: nat)
    requires FieldInside(lay, r, width, f) && p + Size(lay, r) <= n
    requires a < FieldAt(lay, r, p, f) + Size(lay, f.codec)
    ensures a < n
  {
  }
}
