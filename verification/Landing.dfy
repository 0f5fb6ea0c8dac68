/** Where decoded values land in memory: what a successful decode leaves, and how the decodes of fields and
    elements, one after the other, add up. */
module Landing {
  import opened Words
  import opened Codecs
  import opened Memory

  /** Allocated cells outside [lo, hi) are as they were. */
  ghost predicate OnlyWithin(mem: Mem, mem': Mem, lo: Addr, hi: Addr)
  {
    |mem| <= |mem'| && forall a :: 0 <= a < |mem| && !(lo <= a < hi) ==> mem'[a] == mem[a]
  }

  /** Decoding `v` at `p` turned `mem` into `mem'`: the value is there, what is behind it is fresh, and of
      what was allocated before only the cells the value covers have changed. */
  ghost predicate Landed<R>(g: Graph<R>, lay: Lay<R>, r: R, p: Addr, v: Value, mem: Mem, mem': Mem)
  {
    && |mem| <= |mem'| && Holds(g, lay, mem', r, p, v, |mem|, |mem'|)
    && forall a :: 0 <= a < |mem| && !Touches(g, lay, r, p, v, a) ==> mem'[a] == mem[a]
  }

  /** A decode that fails may leave anything in its own cells, and nothing elsewhere. */
  ghost predicate Decoded<R>(g: Graph<R>, lay: Lay<R>, r: R, p: Addr, spec: Reading<Value>, mem: Mem, mem': Mem,
                             err: Option<Error>, left: seq<byte>)
  {
    match spec
    case Ok((v, rest)) => err == None && left == rest && Landed(g, lay, r, p, v, mem, mem')
    case Err(e) => err == Some(e) && OnlyWithin(mem, mem', p, p + Size(lay, r))
  }

  // ---------------------------------------------------------------- touched cells lie inside

  lemma {:induction false} TouchesInside<R(!new)>(g: Graph<R>, lay: Lay<R>, mem: Mem, r: R, p: Addr, v: Value,
                                            lo: Addr, hi: Addr, a: Addr)
    requires WellLaid(g, lay) && Holds(g, lay, mem, r, p, v, lo, hi) && Touches(g, lay, r, p, v, a)
    ensures p <= a < p + Size(lay, r)
    decreases v, 0
  {
    hide HoldsAll, HoldsFields, HoldsField, FieldInside, Apart, At, SwitchFits, InRange, TouchesField, TouchesFields,
        TouchesItems;
    assert LaidOut(g, lay, r);
    match Target(g, r) {
      case ArrayCodec(count, elem) =>
        WholeArray(p, count, Size(lay, elem));
        ItemsInside(g, lay, mem, elem, p, v.elems, lo, hi, a);
      case StructCodec(_, _, fields) =>
        FieldsHeld(g, lay, mem, r, p, v.fields, lo, hi);
        FieldsInside(g, lay, mem, r, p, fields, v.fields, lo, hi, a);
      case UnionCodec(_, _, sw, kind, body, cases, default) =>
        UnionInside(g, lay, r);
        if TouchesField(g, lay, r, p, sw, v.fields, a) {
          OneInside(g, lay, mem, r, p, sw, v.fields, lo, hi, a);
        } else {
          var arm := Arm(cases, default, SwitchKey(kind, v.fields[sw.index]).value);
          OneInside(g, lay, mem, r, p, body[arm], v.fields, lo, hi, a);
        }
      case _ =>
    }
  }

  lemma FieldsHeld<R>(g: Graph<R>, lay: Lay<R>, mem: Mem, r: R, p: Addr, vals: seq<Value>, lo: Addr, hi: Addr)
    requires Target(g, r).StructCodec? && LaidOut(g, lay, r)
    requires HoldsFields(g, lay, mem, r, p, Target(g, r).fields, vals, lo, hi)
    ensures var fields := Target(g, r).fields;
      && (forall i :: 0 <= i < |fields| ==> HoldsField(g, lay, mem, r, p, fields[i], vals, lo, hi))
      && (forall i :: 0 <= i < |fields| ==> FieldInside(lay, r, Target(g, r).width, fields[i]))
  {
  }

  lemma OneInside<R(!new)>(g: Graph<R>, lay: Lay<R>, mem: Mem, r: R, p: Addr, f: Field<R>, vals: seq<Value>,
                     lo: Addr, hi: Addr, a: Addr)
    requires WellLaid(g, lay) && HoldsField(g, lay, mem, r, p, f, vals, lo, hi) && FieldInside(lay, r, |vals|, f)
    requires TouchesField(g, lay, r, p, f, vals, a)
    ensures FieldAt(lay, r, p, f) <= a < FieldAt(lay, r, p, f) + Size(lay, f.codec)
    ensures p <= a < p + Size(lay, r)
    decreases vals, 0
  {
    hide Holds, WellLaid, Touches;
    TouchesInside(g, lay, mem, f.codec, FieldAt(lay, r, p, f), vals[f.index], lo, hi, a);
  }

  lemma {:induction false} FieldsInside<R(!new)>(g: Graph<R>, lay: Lay<R>, mem: Mem, r: R, p: Addr,
                                                 fields: seq<Field<R>>, vals: seq<Value>, lo: Addr, hi: Addr, a: Addr)
    requires WellLaid(g, lay)
    requires forall i :: 0 <= i < |fields| ==> HoldsField(g, lay, mem, r, p, fields[i], vals, lo, hi)
    requires forall i :: 0 <= i < |fields| ==> FieldInside(lay, r, |vals|, fields[i])
    requires TouchesFields(g, lay, r, p, fields, vals, a)
    ensures p <= a < p + Size(lay, r)
    decreases vals, 1 + |fields|
  {
    hide HoldsField, WellLaid, Touches, TouchesField, FieldInside;
    var n := |fields| - 1;
    if TouchesField(g, lay, r, p, fields[n], vals, a) {
      OneInside(g, lay, mem, r, p, fields[n], vals, lo, hi, a);
    } else {
      FieldsInside(g, lay, mem, r, p, fields[..n], vals, lo, hi, a);
    }
  }

  lemma {:induction false} ItemsInside<R(!new)>(g: Graph<R>, lay: Lay<R>, mem: Mem, elem: R, p: Addr, vs: seq<Value>,
                                          lo: Addr, hi: Addr, a: Addr)
    requires WellLaid(g, lay) && HoldsAll(g, lay, mem, elem, p, vs, lo, hi) && TouchesItems(g, lay, elem, p, vs, a)
    ensures p <= a < At(p, |vs|, Size(lay, elem))
    decreases vs, 1
  {
    hide Holds, WellLaid, Touches, At;
    var n := |vs| - 1;
    StrideInside(p, n, n + 1, Size(lay, elem));
    StrideInside(p, 0, n + 1, Size(lay, elem));
    if Touches(g, lay, elem, At(p, n, Size(lay, elem)), vs[n], a) {
      TouchesInside(g, lay, mem, elem, At(p, n, Size(lay, elem)), vs[n], lo, hi, a);
      if n > 0 { StrideInside(p, 0, n, Size(lay, elem)); }
    } else {
      ItemsInside(g, lay, mem, elem, p, vs[..n], lo, hi, a);
    }
  }

  // ---------------------------------------------------------------- fields, one after the other

  /** The fields `fs` of the struct at `p` have been decoded into `vals`. */
  ghost predicate FieldsLanded<R>(g: Graph<R>, lay: Lay<R>, r: R, p: Addr, fs: seq<Field<R>>, vals: seq<Value>,
                                  mem: Mem, mem': Mem)
  {
    && |mem| <= |mem'|
    && (forall i :: 0 <= i < |fs| ==> HoldsField(g, lay, mem', r, p, fs[i], vals, |mem|, |mem'|))
    && (forall a :: 0 <= a < |mem| && !TouchesFields(g, lay, r, p, fs, vals, a) ==> mem'[a] == mem[a])
  }

  ghost predicate FieldsFit<R>(lay: Lay<R>, r: R, width: nat, fs: seq<Field<R>>, f: Field<R>)
  {
    && FieldInside(lay, r, width, f)
    && (forall i :: 0 <= i < |fs| ==> FieldInside(lay, r, width, fs[i]) && Apart(lay, r, fs[i], f))
  }

  lemma FieldStep<R(!new)>(g: Graph<R>, lay: Lay<R>, r: R, p: Addr, fs: seq<Field<R>>, f: Field<R>, vals: seq<Value>,
                     v: Value, mem: Mem, mem1: Mem, mem2: Mem)
    requires WellLaid(g, lay) && FieldsFit(lay, r, |vals|, fs, f) && p + Size(lay, r) <= |mem|
    requires FieldsLanded(g, lay, r, p, fs, vals, mem, mem1)
    requires Landed(g, lay, f.codec, FieldAt(lay, r, p, f), v, mem1, mem2)
    ensures FieldsLanded(g, lay, r, p, fs + [f], vals[f.index := v], mem, mem2)
  {
    hide WellLaid, HoldsField, TouchesField, TouchesFields, Touches;
    var vals', all := vals[f.index := v], fs + [f];
    forall i | 0 <= i < |all| ensures HoldsField(g, lay, mem2, r, p, all[i], vals', |mem|, |mem2|) {
      if i < |fs| {
        EarlierKept(g, lay, r, p, fs[i], f, vals, v, mem, mem1, mem2);
      } else {
        LastHeld(g, lay, r, p, f, vals, v, mem, mem1, mem2);
      }
    }
    forall a | 0 <= a < |mem| && !TouchesFields(g, lay, r, p, all, vals', a) ensures mem2[a] == mem[a] {
      TouchesMore(g, lay, r, p, fs, f, vals, v, a);
    }
  }

  lemma LastHeld<R(!new)>(g: Graph<R>, lay: Lay<R>, r: R, p: Addr, f: Field<R>, vals: seq<Value>, v: Value,
                    mem: Mem, mem1: Mem, mem2: Mem)
    requires WellLaid(g, lay) && f.index < |vals| && |mem| <= |mem1|
    requires Landed(g, lay, f.codec, FieldAt(lay, r, p, f), v, mem1, mem2)
    ensures HoldsField(g, lay, mem2, r, p, f, vals[f.index := v], |mem|, |mem2|)
  {
    hide Holds, WellLaid, Touches;
    HoldsKept(g, lay, mem2, mem2, f.codec, FieldAt(lay, r, p, f), v, |mem1|, |mem2|, |mem|, |mem2|);
  }

  lemma EarlierKept<R(!new)>(g: Graph<R>, lay: Lay<R>, r: R, p: Addr, h: Field<R>, f: Field<R>, vals: seq<Value>,
                             v: Value, mem: Mem, mem1: Mem, mem2: Mem)
    requires WellLaid(g, lay) && p + Size(lay, r) <= |mem| <= |mem1|
    requires FieldInside(lay, r, |vals|, h) && FieldInside(lay, r, |vals|, f) && Apart(lay, r, h, f)
    requires HoldsField(g, lay, mem1, r, p, h, vals, |mem|, |mem1|)
    requires Landed(g, lay, f.codec, FieldAt(lay, r, p, f), v, mem1, mem2)
    ensures HoldsField(g, lay, mem2, r, p, h, vals[f.index := v], |mem|, |mem2|)
  {
    hide Holds, WellLaid, Touches;
    var q := FieldAt(lay, r, p, f);
    forall a | 0 <= a < |mem1| && !(q <= a < q + Size(lay, f.codec)) ensures mem2[a] == mem1[a] {
      if Touches(g, lay, f.codec, q, v, a) { TouchesInside(g, lay, mem2, f.codec, q, v, |mem1|, |mem2|, a); }
    }
    HoldsKept(g, lay, mem1, mem2, h.codec, FieldAt(lay, r, p, h), vals[h.index], |mem|, |mem1|, |mem|, |mem2|);
  }

  lemma TouchesMore<R(!new)>(g: Graph<R>, lay: Lay<R>, r: R, p: Addr, fs: seq<Field<R>>, f: Field<R>, vals: seq<Value>,
                       v: Value, a: Addr)
    requires f.index < |vals| && forall i :: 0 <= i < |fs| ==> fs[i].index != f.index
    ensures TouchesFields(g, lay, r, p, fs + [f], vals[f.index := v], a)
       <==> TouchesFields(g, lay, r, p, fs, vals, a) || Touches(g, lay, f.codec, FieldAt(lay, r, p, f), v, a)
  {
    hide Touches;
    assert (fs + [f])[..|fs|] == fs;
    OtherSlots(g, lay, r, p, fs, f.index, vals, v, a);
  }

  lemma {:induction false} OtherSlots<R(!new)>(g: Graph<R>, lay: Lay<R>, r: R, p: Addr, fs: seq<Field<R>>, k: nat,
                                         vals: seq<Value>, v: Value, a: Addr)
    requires k < |vals| && forall i :: 0 <= i < |fs| ==> fs[i].index != k
    ensures TouchesFields(g, lay, r, p, fs, vals[k := v], a) == TouchesFields(g, lay, r, p, fs, vals, a)
    decreases |fs|
  {
    hide Touches;
    if fs != [] { OtherSlots(g, lay, r, p, fs[..|fs| - 1], k, vals, v, a); }
  }

  /** Until now only cells of the struct have changed. */
  lemma FieldsWithin<R(!new)>(g: Graph<R>, lay: Lay<R>, r: R, p: Addr, fs: seq<Field<R>>, vals: seq<Value>, mem: Mem,
                        mem1: Mem)
    requires WellLaid(g, lay) && FieldsLanded(g, lay, r, p, fs, vals, mem, mem1)
    requires forall i :: 0 <= i < |fs| ==> FieldInside(lay, r, |vals|, fs[i])
    ensures OnlyWithin(mem, mem1, p, p + Size(lay, r))
  {
    hide WellLaid, HoldsField, TouchesFields, FieldInside;
    forall a | 0 <= a < |mem| && !(p <= a < p + Size(lay, r)) ensures mem1[a] == mem[a] {
      if TouchesFields(g, lay, r, p, fs, vals, a) {
        FieldsInside(g, lay, mem1, r, p, fs, vals, |mem|, |mem1|, a);
      }
    }
  }

  /** A field that fails spoils its own cells at most. */
  lemma FieldFailed<R(!new)>(g: Graph<R>, lay: Lay<R>, r: R, p: Addr, f: Field<R>, width: nat, mem: Mem, mem1: Mem,
                             mem2: Mem)
    requires FieldInside(lay, r, width, f)
    requires OnlyWithin(mem, mem1, p, p + Size(lay, r))
    requires OnlyWithin(mem1, mem2, FieldAt(lay, r, p, f), FieldAt(lay, r, p, f) + Size(lay, f.codec))
    ensures OnlyWithin(mem, mem2, p, p + Size(lay, r))
  {
  }

  // ---------------------------------------------------------------- elements, one after the other

  ghost predicate ItemsLanded<R>(g: Graph<R>, lay: Lay<R>, elem: R, p: Addr, vs: seq<Value>, mem: Mem, mem': Mem)
  {
    && |mem| <= |mem'| && HoldsAll(g, lay, mem', elem, p, vs, |mem|, |mem'|)
    && (forall a :: 0 <= a < |mem| && !TouchesItems(g, lay, elem, p, vs, a) ==> mem'[a] == mem[a])
  }

  lemma ItemStep<R(!new)>(g: Graph<R>, lay: Lay<R>, elem: R, p: Addr, vs: seq<Value>, v: Value, mem: Mem, mem1: Mem,
                    mem2: Mem)
    requires WellLaid(g, lay) && At(p, |vs| + 1, Size(lay, elem)) <= |mem|
    requires ItemsLanded(g, lay, elem, p, vs, mem, mem1)
    requires Landed(g, lay, elem, At(p, |vs|, Size(lay, elem)), v, mem1, mem2)
    ensures ItemsLanded(g, lay, elem, p, vs + [v], mem, mem2)
  {
    hide WellLaid, Holds, Touches, At;
    var q, all := At(p, |vs|, Size(lay, elem)), vs + [v];
    StrideInside(p, |vs|, |vs| + 1, Size(lay, elem));
    forall a | 0 <= a < |mem1| && !(q <= a < q + Size(lay, elem)) ensures mem2[a] == mem1[a] {
      if Touches(g, lay, elem, q, v, a) { TouchesInside(g, lay, mem2, elem, q, v, |mem1|, |mem2|, a); }
    }
    AllKept(g, lay, mem1, mem2, elem, p, vs, |mem|, |mem1|, |mem|, |mem2|);
    HoldsKept(g, lay, mem2, mem2, elem, q, v, |mem1|, |mem2|, |mem|, |mem2|);
    assert all[..|vs|] == vs;
  }

  lemma ItemsWithin<R(!new)>(g: Graph<R>, lay: Lay<R>, elem: R, p: Addr, vs: seq<Value>, mem: Mem, mem1: Mem)
    requires WellLaid(g, lay) && ItemsLanded(g, lay, elem, p, vs, mem, mem1)
    ensures OnlyWithin(mem, mem1, p, At(p, |vs|, Size(lay, elem)))
  {
    hide WellLaid, HoldsAll, TouchesItems, At;
    forall a | 0 <= a < |mem| && !(p <= a < At(p, |vs|, Size(lay, elem))) ensures mem1[a] == mem[a] {
      if TouchesItems(g, lay, elem, p, vs, a) { ItemsInside(g, lay, mem1, elem, p, vs, |mem|, |mem1|, a); }
    }
  }

  // ---------------------------------------------------------------- leaves

  /** What a primitive codec decodes is a value of its type. */
  lemma DecodedIsTyped(prim: Prim, input: seq<byte>)
    requires DecodePrim(prim, input).Ok?
    ensures PrimTyped(prim, DecodePrim(prim, input).value.0)
  {
    hide WordAt, HyperAt;
  }
}
