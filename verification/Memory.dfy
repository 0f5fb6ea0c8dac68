/** Flat memory, the layout of the values each codec handles, and what it means for memory to hold a
    value: what the offset-based (`unsafe`) form of the codecs relies on. */
module Memory {
  import opened Words
  import opened Codecs
  import Types

  type Addr = nat

  /** What one address holds. Scalars, strings, pointers, slice headers and maps take one cell each; an
      integer is in memory as its two's complement bits, whatever type reads them back. */
  datatype Cell =
    | Zeroed
    | Flag(b: bool)
    | Bits(n: nat)
    | Parts(re: nat, im: nat)   // the bits of a complex number
    | Text(s: seq<byte>)
    | Null
    | Ref(at: Addr)
    | Header(data: Addr, len: nat)
    | Dict(kv: seq<Value>)

  type Mem = seq<Cell>

  // ---------------------------------------------------------------- scalars in memory

  /** How many values an integer type has. */
  function Span(p: Prim): (n: nat)
    ensures n > 0
  {
    match p
    case Int8 => 0x100
    case Uint8 => 0x100
    case Int16 => 0x1_0000
    case Uint16 => 0x1_0000
    case _ => if IsHyper(p) then 0x1_0000_0000_0000_0000 else 0x1_0000_0000
  }

  predicate IsSigned(p: Prim) { p.Int8? || p.Int16? || p.Int32? || p.Hyper? }

  /** `*(*T)(ptr) = v`. */
  function Stored(p: Prim, v: Value): Cell
    requires PrimTyped(p, v)
  {
    if p.Bool? then Flag(v.b)
    else if IsComplex(p) then Parts(v.re, v.im)
    else Bits(v.n % Span(p))
  }

  /** `*(*T)(ptr)`: the bits there, read as the type says. */
  function Loaded(p: Prim, c: Cell): Value
  {
    if p.Bool? then VBool(c == Flag(true))
    else if IsComplex(p) then (if c.Parts? then VPair(c.re, c.im) else VUnset)
    else if !c.Bits? then VUnset
    else if IsSigned(p) then VNum(Signed(c.n, Span(p)))
    else VNum(c.n)
  }

  lemma LoadedIsStored(p: Prim, v: Value)
    requires PrimTyped(p, v)
    ensures Loaded(p, Stored(p, v)) == v
  {
    hide Signed;
    if v.VNum? {
      TypeFits(p, v.n);
      BitsBack(v.n, Span(p));
    }
  }

  /** A scalar takes the bits of its type's width and no more. */
  lemma StoredInWidth(p: Prim, v: Value)
    requires PrimTyped(p, v) && v.VNum?
    ensures Stored(p, v).Bits?
    ensures p == Types.Int8 || p == Types.Uint8 ==> Stored(p, v).n == v.n % 256
    ensures p == Types.Int16 || p == Types.Uint16 ==> Stored(p, v).n == v.n % 65536
    ensures p == Types.Int32 || p == Types.Uint32 || p == Types.Float ==> Stored(p, v).n == v.n % 4294967296
    ensures p == Types.Hyper || p == Types.Uhyper || p == Types.Double ==>
      Stored(p, v).n == v.n % 18446744073709551616
  {
  }

  lemma TypeFits(p: Prim, n: int)
    requires !p.Bool? && !IsComplex(p) && InRange(p, n)
    ensures Span(p) % 2 == 0
    ensures if IsSigned(p) then -(Span(p) / 2) <= n < Span(p) / 2 else 0 <= n < Span(p)
  {
  }

  lemma BitsBack(n: int, span: int)
    requires span > 0 && span % 2 == 0
    ensures -(span / 2) <= n < span / 2 ==> Signed(n % span, span) == n
    ensures 0 <= n < span ==> n % span == n
  {
    var half: int := span / 2;
    assert span == half + half;
    if 0 <= n < span {
      Inside(n, span);
    } else if -(span / 2) <= n < 0 {
      Below(n, span);
      Inside(n + span, span);
    }
  }

  lemma Inside(n: int, span: int)
    requires 0 <= n < span
    ensures n % span == n
  {
  }

  lemma Below(n: int, span: int)
    requires -span <= n < 0
    ensures n % span == n + span
  {
  }

  // ---------------------------------------------------------------- layouts

  /** The size of the type behind each codec, and the offsets of the fields of struct types. */
  datatype Lay<!R> = Lay(sizes: map<R, nat>, offsets: map<R, seq<nat>>)

  function Size<R(==)>(lay: Lay<R>, r: R): nat { if r in lay.sizes then lay.sizes[r] else 0 }

  function Offset<R(==)>(lay: Lay<R>, r: R, i: nat): nat
  {
    if r in lay.offsets && i < |lay.offsets[r]| then lay.offsets[r][i] else 0
  }

  /** The address of element `i`. */
  function At(p: Addr, i: nat, stride: nat): Addr { p + i * stride }

  /** The address of a field. */
  function FieldAt<R(==)>(lay: Lay<R>, r: R, p: Addr, f: Field<R>): Addr { p + Offset(lay, r, f.index) }

  predicate FieldInside<R(==)>(lay: Lay<R>, r: R, width: nat, f: Field<R>)
  {
    f.index < width && Offset(lay, r, f.index) + Size(lay, f.codec) <= Size(lay, r)
  }

  predicate Apart<R(==)>(lay: Lay<R>, r: R, f: Field<R>, h: Field<R>)
  {
    && f.index != h.index
    && (Offset(lay, r, f.index) + Size(lay, f.codec) <= Offset(lay, r, h.index)
        || Offset(lay, r, h.index) + Size(lay, h.codec) <= Offset(lay, r, f.index))
  }

  /** Elements are a stride apart, fields lie inside their struct and do not overlap. */
  ghost predicate LaidOut<R>(g: Graph<R>, lay: Lay<R>, r: R)
  {
    match Target(g, r)
    case ErrorCodec(_) => true
    case DeferredCodec(_) => true
    case OptCodec(elem) => Size(lay, r) == 1 && Size(lay, elem) == 1 && Pointerlike(Target(g, elem))
    case OpaqueArrayCodec(count) => Size(lay, r) == count
    case ArrayCodec(count, elem) => Size(lay, r) == count * Size(lay, elem)
    case StructCodec(_, width, fields) =>
      && (forall i :: 0 <= i < |fields| ==> FieldInside(lay, r, width, fields[i]))
      && (forall i, j :: 0 <= i < j < |fields| ==> Apart(lay, r, fields[i], fields[j]))
    case UnionCodec(_, width, sw, kind, body, _, _) =>
      && FieldInside(lay, r, width, sw) && SwitchFits(Target(g, sw.codec), kind)
      && (forall a :: a in body ==> FieldInside(lay, r, width, body[a]) && Apart(lay, r, sw, body[a]))
      && (forall a, b :: a in body && b in body && a != b ==> Apart(lay, r, body[a], body[b]))
    case _ => Size(lay, r) == 1
  }

  ghost predicate WellLaid<R(!new)>(g: Graph<R>, lay: Lay<R>) { forall r :: LaidOut(g, lay, r) }

  // ---------------------------------------------------------------- holding a value

  /** Memory at `p` holds `v`, with everything behind pointers and slices inside [lo, hi). Fields that the
      codec does not visit, such as inactive arms, are not constrained. */
  ghost predicate Holds<R>(g: Graph<R>, lay: Lay<R>, mem: Mem, r: R, p: Addr, v: Value, lo: Addr, hi: Addr)
    decreases v, if Target(g, r).OptCodec? then 1 else 0
  {
    && p + Size(lay, r) <= |mem| && hi <= |mem|
    && match Target(g, r)
       case ErrorCodec(_) => true
       case DeferredCodec(_) => true
       case PrimCodec(prim) => p < |mem| && PrimTyped(prim, v) && mem[p] == Stored(prim, v)
       case OptCodec(elem) =>
         if v.VNil? then p < |mem| && mem[p] == Null
         else
           && v.VRef? && p < |mem| && mem[p].Ref? && !Target(g, elem).OptCodec?
           && Holds(g, lay, mem, elem, p, v, lo, hi)
       case PtrCodec(elem) =>
         && p < |mem|
         && (if v.VNil? then mem[p] == Null
             else
               && v.VRef? && mem[p].Ref? && lo <= mem[p].at && mem[p].at + Size(lay, elem) <= hi
               && Holds(g, lay, mem, elem, mem[p].at, v.target, lo, hi))
       case FixedStringCodec(_) => v.VStr? && p < |mem| && mem[p] == Text(v.s)
       case VarStringCodec(_) => v.VStr? && p < |mem| && mem[p] == Text(v.s)
       case OpaqueArrayCodec(count) => v.VList? && |v.elems| == count && HoldsBytes(mem, p, v.elems)
       case OpaqueSliceCodec(_) =>
         && v.VList? && p < |mem| && mem[p].Header? && mem[p].len == |v.elems|
         && (v.elems != [] ==> lo <= mem[p].data && mem[p].data + |v.elems| <= hi)
         && HoldsBytes(mem, mem[p].data, v.elems)
       case ArrayCodec(count, elem) =>
         v.VList? && |v.elems| == count && HoldsAll(g, lay, mem, elem, p, v.elems, lo, hi)
       case SliceCodec(_, elem) =>
         && v.VList? && p < |mem| && mem[p].Header? && mem[p].len == |v.elems|
         && (v.elems != [] ==> lo <= mem[p].data && At(mem[p].data, |v.elems|, Size(lay, elem)) <= hi)
         && HoldsAll(g, lay, mem, elem, mem[p].data, v.elems, lo, hi)
       case MapCodec(_, _, _) => v.VDict? && |v.kv| % 2 == 0 && p < |mem| && mem[p] == Dict(v.kv)
       case StructCodec(_, width, fields) =>
         v.VRec? && |v.fields| == width && HoldsFields(g, lay, mem, r, p, fields, v.fields, lo, hi)
       case UnionCodec(_, width, sw, kind, body, cases, default) =>
         && v.VRec? && |v.fields| == width && HoldsField(g, lay, mem, r, p, sw, v.fields, lo, hi)
         && (sw.index < width && SwitchKey(kind, v.fields[sw.index]).Some? ==>
               (var arm := Arm(cases, default, SwitchKey(kind, v.fields[sw.index]).value);
                arm in body ==> HoldsField(g, lay, mem, r, p, body[arm], v.fields, lo, hi)))
  }

  predicate HoldsBytes(mem: Mem, p: Addr, vs: seq<Value>)
  {
    AllBytes(vs) && (vs != [] ==> p + |vs| <= |mem|) && forall i :: 0 <= i < |vs| ==> mem[p + i] == Bits(vs[i].n)
  }

  ghost predicate HoldsAll<R>(g: Graph<R>, lay: Lay<R>, mem: Mem, elem: R, p: Addr, vs: seq<Value>, lo: Addr, hi: Addr)
    decreases vs, 2
  {
    forall i :: 0 <= i < |vs| ==> Holds(g, lay, mem, elem, At(p, i, Size(lay, elem)), vs[i], lo, hi)
  }

  ghost predicate HoldsField<R>(g: Graph<R>, lay: Lay<R>, mem: Mem, r: R, p: Addr, f: Field<R>, vals: seq<Value>,
                                    lo: Addr, hi: Addr)
    decreases vals, 2
  {
    f.index < |vals| && Holds(g, lay, mem, f.codec, FieldAt(lay, r, p, f), vals[f.index], lo, hi)
  }

  ghost predicate HoldsFields<R>(g: Graph<R>, lay: Lay<R>, mem: Mem, r: R, p: Addr, fields: seq<Field<R>>,
                                     vals: seq<Value>, lo: Addr, hi: Addr)
    decreases vals, 3
  {
    forall i :: 0 <= i < |fields| ==> HoldsField(g, lay, mem, r, p, fields[i], vals, lo, hi)
  }

  // ---------------------------------------------------------------- frames

  predicate Same(mem: Mem, mem': Mem, lo: Addr, hi: Addr)
  {
    forall a :: lo <= a < hi && a < |mem| ==> a < |mem'| && mem'[a] == mem[a]
  }

  /** Memory goes on holding a value while its own cells and the region behind it stay as they are. */
  lemma {:induction false} HoldsKept<R(!new)>(g: Graph<R>, lay: Lay<R>, mem: Mem, mem': Mem, r: R, p: Addr, v: Value,
                                        lo: Addr, hi: Addr, lo': Addr, hi': Addr)
    requires WellLaid(g, lay) && Holds(g, lay, mem, r, p, v, lo, hi)
    requires Same(mem, mem', p, p + Size(lay, r)) && Same(mem, mem', lo, hi)
    requires |mem| <= |mem'| && lo' <= lo && hi <= hi' <= |mem'|
    ensures Holds(g, lay, mem', r, p, v, lo', hi')
    decreases v, if Target(g, r).OptCodec? then 1 else 0
  {
    hide HoldsAll, HoldsFields, HoldsField, FieldInside, Apart, At, SwitchFits, InRange, Stored, PrimTyped;
    assert LaidOut(g, lay, r);
    match Target(g, r) {
      case OptCodec(elem) =>
        if !v.VNil? { HoldsKept(g, lay, mem, mem', elem, p, v, lo, hi, lo', hi'); }
      case PtrCodec(elem) =>
        if !v.VNil? { HoldsKept(g, lay, mem, mem', elem, mem[p].at, v.target, lo, hi, lo', hi'); }
      case ArrayCodec(count, elem) =>
        WholeArray(p, count, Size(lay, elem));
        AllKept(g, lay, mem, mem', elem, p, v.elems, lo, hi, lo', hi');
      case SliceCodec(_, elem) => AllKept(g, lay, mem, mem', elem, mem[p].data, v.elems, lo, hi, lo', hi');
      case StructCodec(_, _, fields) =>
        forall i | 0 <= i < |fields| ensures HoldsField(g, lay, mem', r, p, fields[i], v.fields, lo', hi') {
          FieldOf(g, lay, mem, r, p, v.fields, lo, hi, i);
          FieldKept(g, lay, mem, mem', r, p, fields[i], v.fields, lo, hi, lo', hi');
        }
        AllFields(g, lay, mem', r, p, fields, v.fields, lo', hi');
      case UnionCodec(_, _, sw, kind, body, cases, default) =>
        UnionInside(g, lay, r);
        FieldKept(g, lay, mem, mem', r, p, sw, v.fields, lo, hi, lo', hi');
        SwitchIndex(g, lay, mem, r, p, sw, v.fields, lo, hi);
        var key := SwitchKey(kind, v.fields[sw.index]);
        if key.Some? && Arm(cases, default, key.value) in body {
          FieldKept(g, lay, mem, mem', r, p, body[Arm(cases, default, key.value)], v.fields, lo, hi, lo', hi');
        }
      case _ =>
    }
  }

  lemma WholeArray(p: Addr, count: nat, stride: nat)
    ensures At(p, count, stride) == p + count * stride
  {
  }

  lemma SwitchIndex<R>(g: Graph<R>, lay: Lay<R>, mem: Mem, r: R, p: Addr, f: Field<R>, vals: seq<Value>, lo: Addr,
                       hi: Addr)
    requires HoldsField(g, lay, mem, r, p, f, vals, lo, hi)
    ensures f.index < |vals|
  {
  }

  lemma UnionInside<R>(g: Graph<R>, lay: Lay<R>, r: R)
    requires LaidOut(g, lay, r) && Target(g, r).UnionCodec?
    ensures var n := Target(g, r);
      FieldInside(lay, r, n.width, n.switch) && forall a :: a in n.body ==> FieldInside(lay, r, n.width, n.body[a])
  {
  }

  lemma FieldOf<R>(g: Graph<R>, lay: Lay<R>, mem: Mem, r: R, p: Addr, vals: seq<Value>, lo: Addr, hi: Addr, i: nat)
    requires Target(g, r).StructCodec? && i < |Target(g, r).fields| && LaidOut(g, lay, r)
    requires HoldsFields(g, lay, mem, r, p, Target(g, r).fields, vals, lo, hi)
    ensures HoldsField(g, lay, mem, r, p, Target(g, r).fields[i], vals, lo, hi)
    ensures FieldInside(lay, r, Target(g, r).width, Target(g, r).fields[i])
  {
  }

  lemma AllFields<R>(g: Graph<R>, lay: Lay<R>, mem: Mem, r: R, p: Addr, fields: seq<Field<R>>, vals: seq<Value>,
                     lo: Addr, hi: Addr)
    requires forall i :: 0 <= i < |fields| ==> HoldsField(g, lay, mem, r, p, fields[i], vals, lo, hi)
    ensures HoldsFields(g, lay, mem, r, p, fields, vals, lo, hi)
  {
  }

  lemma FieldKept<R(!new)>(g: Graph<R>, lay: Lay<R>, mem: Mem, mem': Mem, r: R, p: Addr, f: Field<R>, vals: seq<Value>,
                     lo: Addr, hi: Addr, lo': Addr, hi': Addr)
    requires WellLaid(g, lay) && HoldsField(g, lay, mem, r, p, f, vals, lo, hi) && FieldInside(lay, r, |vals|, f)
    requires Same(mem, mem', p, p + Size(lay, r)) && Same(mem, mem', lo, hi)
    requires |mem| <= |mem'| && lo' <= lo && hi <= hi' <= |mem'|
    ensures HoldsField(g, lay, mem', r, p, f, vals, lo', hi')
    decreases vals, 0
  {
    hide Holds, WellLaid;
    HoldsKept(g, lay, mem, mem', f.codec, FieldAt(lay, r, p, f), vals[f.index], lo, hi, lo', hi');
  }

  lemma AllKept<R(!new)>(g: Graph<R>, lay: Lay<R>, mem: Mem, mem': Mem, elem: R, p: Addr, vs: seq<Value>,
                   lo: Addr, hi: Addr, lo': Addr, hi': Addr)
    requires WellLaid(g, lay) && HoldsAll(g, lay, mem, elem, p, vs, lo, hi)
    requires vs != [] ==> Same(mem, mem', p, At(p, |vs|, Size(lay, elem)))
    requires Same(mem, mem', lo, hi)
    requires |mem| <= |mem'| && lo' <= lo && hi <= hi' <= |mem'|
    ensures HoldsAll(g, lay, mem', elem, p, vs, lo', hi')
    decreases vs, 0
  {
    hide Holds, WellLaid, At;
    forall i | 0 <= i < |vs| ensures Holds(g, lay, mem', elem, At(p, i, Size(lay, elem)), vs[i], lo', hi') {
      StrideInside(p, i, |vs|, Size(lay, elem));
      HoldsKept(g, lay, mem, mem', elem, At(p, i, Size(lay, elem)), vs[i], lo, hi, lo', hi');
    }
  }

  lemma StrideInside(p: Addr, i: nat, n: nat, stride: nat)
    requires i < n
    ensures p <= At(p, i, stride) && At(p, i, stride) + stride == At(p, i + 1, stride) <= At(p, n, stride)
  {
    Multiply(i + 1, n, stride);
  }

  lemma Multiply(a: nat, b: nat, c: nat)
    requires a <= b
    ensures a * c <= b * c
  {
  }

  // ---------------------------------------------------------------- what decoding touches

  /** Decoding `v` writes the cell at `a` of its own target: all of them, but for fields it leaves alone. */
  ghost predicate Touches<R>(g: Graph<R>, lay: Lay<R>, r: R, p: Addr, v: Value, a: Addr)
    decreases v
  {
    match Target(g, r)
    case ArrayCodec(_, elem) => v.VList? && TouchesItems(g, lay, elem, p, v.elems, a)
    case StructCodec(_, _, fields) => v.VRec? && TouchesFields(g, lay, r, p, fields, v.fields, a)
    case UnionCodec(_, _, sw, kind, body, cases, default) =>
      && v.VRec?
      && (TouchesField(g, lay, r, p, sw, v.fields, a)
          || (sw.index < |v.fields| && SwitchKey(kind, v.fields[sw.index]).Some?
              && (var arm := Arm(cases, default, SwitchKey(kind, v.fields[sw.index]).value);
                  arm in body && TouchesField(g, lay, r, p, body[arm], v.fields, a))))
    case _ => p <= a < p + Size(lay, r)
  }

  ghost predicate TouchesField<R>(g: Graph<R>, lay: Lay<R>, r: R, p: Addr, f: Field<R>, vals: seq<Value>, a: Addr)
    decreases vals, 0
  {
    f.index < |vals| && Touches(g, lay, f.codec, FieldAt(lay, r, p, f), vals[f.index], a)
  }

  ghost predicate TouchesFields<R>(g: Graph<R>, lay: Lay<R>, r: R, p: Addr, fields: seq<Field<R>>, vals: seq<Value>,
                                   a: Addr)
    decreases vals, 1 + |fields|
  {
    fields != [] && (TouchesFields(g, lay, r, p, fields[..|fields| - 1], vals, a)
                     || TouchesField(g, lay, r, p, fields[|fields| - 1], vals, a))
  }

  ghost predicate TouchesItems<R>(g: Graph<R>, lay: Lay<R>, elem: R, p: Addr, vs: seq<Value>, a: Addr)
    decreases vs
  {
    vs != [] && (TouchesItems(g, lay, elem, p, vs[..|vs| - 1], a)
                 || Touches(g, lay, elem, At(p, |vs| - 1, Size(lay, elem)), vs[|vs| - 1], a))
  }
}
