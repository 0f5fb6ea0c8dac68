/** What a type and a tag mean on the wire, without codecs; and the proof that compiled codecs,
    followed through deferred ones, mean just that. */
module Meaning {
  import opened Words
  import opened Types
  import opened Tags
  import opened TagParser
  import opened Codecs
  import opened Structs
  import opened Shapes
  import opened Compiler

  // ---------------------------------------------------------------- direct semantics of encoding

  function TypedEncode(tbl: Table, t: TypeId, tag: Tag, v: Value): Written
    decreases v, 1
  {
    if KindOf(tag) == OPT then
      if v.VNil? then Done(WordBytes(0))
      else if !v.VRef? then Failed(IllTyped)
      else if Lookup(tbl, t).Pointer? then
        After(WordBytes(1), TypedEncode(tbl, Lookup(tbl, t).elem, Tail(tag), v.target))
      else After(WordBytes(1), Failed(Unsupported(InvalidType)))
    else
      match Lookup(tbl, t)
      case Pointer(elem) =>
        if v.VNil? then Failed(NilPointer)
        else if v.VRef? then TypedEncode(tbl, elem, Tail(tag), v.target)
        else Failed(IllTyped)
      case String =>
        if Tail(tag) != [] then Failed(Unsupported(StringTags))
        else if KindOf(tag) == LEN then
          if !v.VStr? then Failed(IllTyped)
          else if |v.s| == OnlyValue(tag) then Done(Padded(v.s))
          else Failed(LengthIncorrect)
        else if KindOf(tag) == NOOP || KindOf(tag) == MAX_LEN then
          if v.VStr? then EncodeOpaque(v.s, Limit(tag)) else Failed(IllTyped)
        else Failed(Unsupported(InvalidTag))
      case Array(len, elem) =>
        if KindOf(tag) != NOOP then Failed(Unsupported(InvalidTag))
        else if !(v.VList? && |v.elems| == len) then Failed(IllTyped)
        else if KindOf(Tail(tag)) == OPAQUE then
          if AllBytes(v.elems) then Done(Padded(ToBytes(v.elems))) else Failed(IllTyped)
        else TypedItems(tbl, Key(elem, Tail(tag)), Key(elem, Tail(tag)), v.elems)
      case Slice(elem) =>
        if KindOf(tag) != NOOP && KindOf(tag) != MAX_LEN then Failed(Unsupported(InvalidTag))
        else if !v.VList? then Failed(IllTyped)
        else if KindOf(Tail(tag)) == OPAQUE then
          if AllBytes(v.elems) then EncodeOpaque(ToBytes(v.elems), Limit(tag)) else Failed(IllTyped)
        else if |v.elems| > Limit(tag) then Failed(LengthError(|v.elems|, Limit(tag)))
        else After(WordBytes(|v.elems|), TypedItems(tbl, Key(elem, Tail(tag)), Key(elem, Tail(tag)), v.elems))
      case Map(k, elem) =>
        if KindOf(tag) != NOOP && KindOf(tag) != MAX_LEN then Failed(Unsupported(InvalidTag))
        else if !(v.VDict? && |v.kv| % 2 == 0) then Failed(IllTyped)
        else if |v.kv| / 2 > Limit(tag) then Failed(LengthError(|v.kv| / 2, Limit(tag)))
        else After(WordBytes(|v.kv| / 2), TypedItems(tbl, Key(k, []), Key(elem, Tail(tag)), v.kv))
      case _ =>
        if tag != [] then Failed(Unsupported(InvalidTag)) else UntaggedEncode(tbl, Lookup(tbl, t), v)
  }

  /** Types that admit no tag: primitives, structs and unions. */
  function UntaggedEncode(tbl: Table, ty: Type, v: Value): Written
    decreases v, 0
  {
    if ty.Basic? then
      if PrimTyped(ty.prim, v) then Done(EncodePrim(ty.prim, v)) else Failed(IllTyped)
    else if !ty.Struct? then Failed(Unsupported(InvalidType))
    else
      var l := LayoutOf(tbl, ty.fields);
      if l.Broken? then Failed(Unsupported(l.why))
      else if !(v.VRec? && |v.fields| == |ty.fields|) then Failed(IllTyped)
      else if l.Plain? then TypedFields(tbl, ty.name, l.slots, v.fields)
      else if l.Union? then
        if l.switch.index >= |v.fields| then Failed(IllTyped) else
        var head := TypedField(tbl, ty.name, AtSwitch, l.switch, v.fields);
        if head.err.Some? then head else
        match SwitchKey(l.kind, v.fields[l.switch.index])
        case None => Written(head.bytes, Some(IllTyped))
        case Some(key) =>
          var arm := Arm(l.cases, l.default, key);
          if arm !in l.body then
            Written(head.bytes, Some(WithFieldError(ArmUndefined, PathStep(ty.name, "?", AtArm(arm)))))
          else After(head.bytes, TypedField(tbl, ty.name, AtArm(key), l.body[arm], v.fields))
      else Done([])
  }

  function TypedItems(tbl: Table, a: Key, b: Key, vs: seq<Value>): Written
    decreases vs, 2
  {
    if vs == [] then Done([]) else
    var first := TypedEncode(tbl, a.t, a.tag, vs[0]);
    if first.err.Some? then first else After(first.bytes, TypedItems(tbl, b, a, vs[1..]))
  }

  function TypedField(tbl: Table, name: string, note: Note, s: Slot, vals: seq<Value>): Written
    decreases vals, 0
  {
    if s.index >= |vals| then Failed(IllTyped) else
    var w := TypedEncode(tbl, s.t, s.tag, vals[s.index]);
    if w.err.None? then w else Written(w.bytes, Some(WithFieldError(w.err.value, PathStep(name, s.name, note))))
  }

  function TypedFields(tbl: Table, name: string, slots: seq<Slot>, vals: seq<Value>): Written
    decreases vals, 1 + |slots|
  {
    if slots == [] then Done([]) else
    var first := TypedField(tbl, name, NoNote, slots[0], vals);
    if first.err.Some? then first else After(first.bytes, TypedFields(tbl, name, slots[1..], vals))
  }

  // ---------------------------------------------------------------- direct semantics of decoding

  function TypedDecode(tbl: Table, t: TypeId, tag: Tag, input: seq<byte>, depth: nat): Reading<Value>
    decreases depth, 1
  {
    if KindOf(tag) == OPT then
      match DecodeBool(input)
      case Err(e) => Err(e)
      case Ok((nonNil, rest)) =>
        if !nonNil then Ok((VNil, rest))
        else if Lookup(tbl, t).Pointer? then TypedPointee(tbl, Lookup(tbl, t).elem, Tail(tag), rest, depth)
        else Err(Unsupported(InvalidType))
    else
      match Lookup(tbl, t)
      case Pointer(elem) => TypedPointee(tbl, elem, Tail(tag), input, depth)
      case String =>
        if Tail(tag) != [] then Err(Unsupported(StringTags))
        else if KindOf(tag) == LEN then OnValue(DecodeFixed(OnlyValue(tag), input), s => VStr(s))
        else if KindOf(tag) == NOOP || KindOf(tag) == MAX_LEN then
          OnValue(DecodeOpaque(Limit(tag), input), s => VStr(s))
        else Err(Unsupported(InvalidTag))
      case Array(len, elem) =>
        if KindOf(tag) != NOOP then Err(Unsupported(InvalidTag))
        else if KindOf(Tail(tag)) == OPAQUE then OnValue(DecodeFixed(len, input), s => VList(FromBytes(s)))
        else if depth == 0 then Err(TooDeep)
        else OnValue(TypedReadItems(tbl, Key(elem, Tail(tag)), Key(elem, Tail(tag)), len, input, depth - 1),
                     vs => VList(vs))
      case Slice(elem) =>
        if KindOf(tag) != NOOP && KindOf(tag) != MAX_LEN then Err(Unsupported(InvalidTag))
        else if KindOf(Tail(tag)) == OPAQUE then
          OnValue(DecodeOpaque(Limit(tag), input), s => VList(FromBytes(s)))
        else
          TypedCounted(tbl, Limit(tag), Key(elem, Tail(tag)), Key(elem, Tail(tag)), false, input, depth)
      case Map(k, elem) =>
        if KindOf(tag) != NOOP && KindOf(tag) != MAX_LEN then Err(Unsupported(InvalidTag))
        else TypedCounted(tbl, Limit(tag), Key(k, []), Key(elem, Tail(tag)), true, input, depth)
      case _ =>
        if tag != [] then Err(Unsupported(InvalidTag)) else UntaggedDecode(tbl, Lookup(tbl, t), input, depth)
  }

  function OnValue<T>(res: Reading<T>, f: T -> Value): Reading<Value>
  {
    match res
    case Err(e) => Err(e)
    case Ok((x, rest)) => Ok((f(x), rest))
  }

  function TypedPointee(tbl: Table, elem: TypeId, tag: Tag, input: seq<byte>, depth: nat): Reading<Value>
    decreases depth, 0
  {
    if depth == 0 then Err(TooDeep)
    else OnValue(TypedDecode(tbl, elem, tag, input, depth - 1), v => VRef(v))
  }

  function TypedCounted(tbl: Table, max: u32, a: Key, b: Key, pairs: bool, input: seq<byte>, depth: nat): Reading<Value>
    decreases depth, 0
  {
    if depth == 0 then Err(TooDeep) else
    match DecodeWord(input)
    case Err(e) => Err(e)
    case Ok((l, more)) =>
      if l > max then Err(LengthError(l, max))
      else if !pairs then OnValue(TypedReadItems(tbl, a, b, l, more, depth - 1), vs => VList(vs))
      else
        match TypedReadItems(tbl, a, b, 2 * l, more, depth - 1)
        case Err(e) => Err(e)
        case Ok((kv, rest)) => Ok((VDict(Merge(kv)), rest))
  }

  function UntaggedDecode(tbl: Table, ty: Type, input: seq<byte>, depth: nat): Reading<Value>
    decreases depth, 0
  {
    if ty.Basic? then DecodePrim(ty.prim, input)
    else if !ty.Struct? then Err(Unsupported(InvalidType))
    else
      var l, none := LayoutOf(tbl, ty.fields), Untouched(|ty.fields|);
      if l.Broken? then Err(Unsupported(l.why))
      else if depth == 0 then Err(TooDeep)
      else if l.Plain? then
        OnValue(TypedReadFields(tbl, ty.name, l.slots, none, input, depth - 1), vals => VRec(vals))
      else if l.Union? then
        match TypedReadField(tbl, ty.name, AtSwitch, l.switch, none, input, depth - 1)
        case Err(e) => Err(e)
        case Ok((vals, more)) =>
          match SwitchKey(l.kind, vals[l.switch.index])
          case None => Err(IllTyped)
          case Some(key) =>
            var arm := Arm(l.cases, l.default, key);
            if arm !in l.body then Err(WithFieldError(ArmUndefined, PathStep(ty.name, "?", AtArm(arm))))
            else OnValue(TypedReadField(tbl, ty.name, AtArm(key), l.body[arm], vals, more, depth - 1),
                vals => VRec(vals))
      else Ok((VRec(none), input))
  }

  function TypedReadItems(tbl: Table, a: Key, b: Key, n: nat, input: seq<byte>, depth: nat)
    : (res: Reading<seq<Value>>)
    ensures res.Ok? ==> |res.value.0| == n
    decreases depth, 2, n
  {
    if n == 0 then Ok(([], input)) else
    match TypedDecode(tbl, a.t, a.tag, input, depth)
    case Err(e) => Err(e)
    case Ok((v, more)) =>
      match TypedReadItems(tbl, b, a, n - 1, more, depth)
      case Err(e) => Err(e)
      case Ok((vs, rest)) => Ok(([v] + vs, rest))
  }

  function TypedReadField(tbl: Table, name: string, note: Note, s: Slot, vals: seq<Value>, input: seq<byte>, depth: nat)
    : (res: Reading<seq<Value>>)
    ensures res.Ok? ==> s.index < |vals| && |res.value.0| == |vals|
    decreases depth, 2
  {
    if s.index >= |vals| then Err(IllTyped) else
    match TypedDecode(tbl, s.t, s.tag, input, depth)
    case Err(e) => Err(WithFieldError(e, PathStep(name, s.name, note)))
    case Ok((v, rest)) => Ok((vals[s.index := v], rest))
  }

  function TypedReadFields(tbl: Table, name: string, slots: seq<Slot>, vals: seq<Value>, input: seq<byte>, depth: nat)
    : (res: Reading<seq<Value>>)
    ensures res.Ok? ==> |res.value.0| == |vals|
    decreases depth, 3, |slots|
  {
    if slots == [] then Ok((vals, input)) else
    match TypedReadField(tbl, name, NoNote, slots[0], vals, input, depth)
    case Err(e) => Err(e)
    case Ok((vals', more)) => TypedReadFields(tbl, name, slots[1..], vals', more, depth)
  }

  // ---------------------------------------------------------------- resolved caches

  /** No build is under way: what holds whenever a call to the compiler has returned. */
  ghost predicate Ready(tbl: Table, s: Snapshot)
  {
    ClosedTable(tbl) && SwitchesSupported(tbl) && Sound(tbl, s) && s.pending == {}
  }

  /** Between builds no reference leads to an unresolved codec, so no call ever waits; each leads to
      the node its key calls for. */
  lemma EveryCodecResolved(tbl: Table, s: Snapshot, r: nat)
    requires Ready(tbl, s) && r in s.store
    ensures !Target(s.store, r).DeferredCodec?
    ensures r in s.origin && s.origin[r] in Universe(tbl)
    ensures Matches(s.origin, Target(s.store, r), ShapeOf(tbl, s.origin[r]))
  {
    assert NodeSound(tbl, s, r);
    if s.store[r].DeferredCodec? {
      var c := s.store[r].final.value;
      assert NodeSound(tbl, s, c);
    }
  }

  /** `r` refers to a codec made for `k`, in caches at rest. */
  ghost predicate Reaches(tbl: Table, s: Snapshot, r: nat, k: Key)
  {
    Ready(tbl, s) && RefIs(s.origin, r, k)
  }

  lemma ReachesNode(tbl: Table, s: Snapshot, r: nat, k: Key)
    requires Reaches(tbl, s, r, k)
    ensures r in s.store && !Target(s.store, r).DeferredCodec? && GoodTag(tbl, k.t, k.tag)
    ensures Matches(s.origin, Target(s.store, r), ShapeOf(tbl, k))
  {
    EveryCodecResolved(tbl, s, r);
  }

  lemma StrippedTag(tbl: Table, t: TypeId, tag: Tag)
    requires GoodTag(tbl, t, tag) && KindOf(tag) == OPT
    ensures KindOf(StripOpt(tag)) == NOOP && Tail(StripOpt(tag)) == Tail(tag)
    ensures Lookup(tbl, t).Pointer? || (Lookup(tbl, t).Interface? && StripOpt(tag) == [])
  {
    KeysStayCanonical(tag);
    if !Lookup(tbl, t).Pointer? {
      TrimIsUnique([BLANK_ENTRY], []);
      assert [BLANK_ENTRY] + [] == [BLANK_ENTRY];
    }
  }

  /** The optional's codec leads to a pointer codec for the same type, and on to the pointee. */
  lemma OptionalReaches(tbl: Table, s: Snapshot, n: Node<nat>, k: Key)
    requires Ready(tbl, s) && Matches(s.origin, n, ShapeOf(tbl, k)) && GoodTag(tbl, k.t, k.tag) && KindOf(k.tag) == OPT
    ensures n.OptCodec?
    ensures var p := Target(s.store, n.elem);
      if Lookup(tbl, k.t).Pointer? then
        p.PtrCodec? && Reaches(tbl, s, p.elem, Key(Lookup(tbl, k.t).elem, Tail(k.tag)))
      else p == ErrorCodec(InvalidType)
  {
    hide Ready, StripOpt, Tail;
    var stripped := StripOpt(k.tag);
    StrippedTag(tbl, k.t, k.tag);
    ReachesNode(tbl, s, n.elem, Key(k.t, stripped));
  }

  /** What a container's codec is, and where its element codecs lead. */
  lemma ContainerReaches(tbl: Table, s: Snapshot, n: Node<nat>, k: Key)
    requires Ready(tbl, s) && Matches(s.origin, n, ShapeOf(tbl, k)) && KindOf(k.tag) != OPT
    requires HasElem(Lookup(tbl, k.t))
    ensures var ty := Lookup(tbl, k.t); var e := Key(ty.elem, Tail(k.tag));
      if ty.Pointer? then n.PtrCodec? && Reaches(tbl, s, n.elem, e)
      else if KindOf(k.tag) != NOOP && (ty.Array? || KindOf(k.tag) != MAX_LEN) then n == ErrorCodec(InvalidTag)
      else if ty.Map? then
        n.MapCodec? && n.max == Limit(k.tag) && Reaches(tbl, s, n.key, Key(ty.key, [])) && Reaches(tbl, s, n.elem, e)
      else if KindOf(Tail(k.tag)) == OPAQUE then
        n == if ty.Array? then OpaqueArrayCodec(ty.len) else OpaqueSliceCodec(Limit(k.tag))
      else if ty.Array? then n.ArrayCodec? && n.count == ty.len && Reaches(tbl, s, n.elem, e)
      else n.SliceCodec? && n.max == Limit(k.tag) && Reaches(tbl, s, n.elem, e)
  {
    hide Ready, FieldsAre, BodiesAre, FieldIs;
  }

  /** The fields of a compiled struct or union stand for the slots of its layout. */
  lemma StructReaches(tbl: Table, s: Snapshot, n: Node<nat>, ty: Type)
    requires Ready(tbl, s) && ty.Struct? && Matches(s.origin, n, UntaggedShape(tbl, ty))
    ensures match LayoutOf(tbl, ty.fields)
      case Plain(slots) =>
        n.StructCodec? && n.name == ty.name && n.width == |ty.fields| && SlotsAre(s.origin, n.fields, slots)
      case Union(sw, kind, body, cases, default) =>
        && n.UnionCodec? && n.name == ty.name && n.width == |ty.fields| && n.kind == kind && n.cases == cases
        && n.default == default && FieldIs(s.origin, n.switch, SlotField(sw)) && ArmsAre(s.origin, n.body, body)
      case Broken(why) => n == ErrorCodec(why)
      case _ => n == StructCodec(ty.name, |ty.fields|, [])
  {
    var l := LayoutOf(tbl, ty.fields);
    if l.Plain? {
      var shape := StructShape(ty.name, |ty.fields|, l);
      assert forall i :: 0 <= i < |l.slots| ==> shape.fields[i] == SlotField(l.slots[i]);
    }
  }

  // ---------------------------------------------------------------- compilation preserves meaning

  /** Encoding with a compiled codec is encoding by type and tag, for every value: the same bytes, and
      on failure the same error with the same path, after the same bytes. */
  lemma {:induction false} EncodingMeans(tbl: Table, s: Snapshot, r: nat, k: Key, v: Value)
    requires Reaches(tbl, s, r, k)
    ensures Encode(s.store, r, v) == TypedEncode(tbl, k.t, k.tag, v)
    decreases v, 3
  {
    hide Ready, GoodTag, Matches, ShapeOf;
    ReachesNode(tbl, s, r, k);
    NodeMeans(tbl, s, Target(s.store, r), k, v);
  }

  lemma {:induction false} NodeMeans(tbl: Table, s: Snapshot, n: Node<nat>, k: Key, v: Value)
    requires Ready(tbl, s) && GoodTag(tbl, k.t, k.tag) && Matches(s.origin, n, ShapeOf(tbl, k))
    ensures EncodeBy(s.store, n, v) == TypedEncode(tbl, k.t, k.tag, v)
    decreases v, 2
  {
    hide Ready, GoodTag;
    var ty := Lookup(tbl, k.t);
    if KindOf(k.tag) == OPT {
      OptMeans(tbl, s, n, k, v);
    } else if HasElem(ty) {
      ListMeans(tbl, s, n, k, v);
    } else if ty.String? {
      StringMeans(tbl, s, n, k, v);
    } else {
      LeafMeans(tbl, s, n, k, v);
    }
  }

  lemma StringMeans(tbl: Table, s: Snapshot, n: Node<nat>, k: Key, v: Value)
    requires Lookup(tbl, k.t).String? && KindOf(k.tag) != OPT && Matches(s.origin, n, StringShape(k.tag))
    ensures EncodeBy(s.store, n, v) == TypedEncode(tbl, k.t, k.tag, v)
  {
    hide UntaggedEncode, EncodeOpaque;
  }

  lemma {:induction false} LeafMeans(tbl: Table, s: Snapshot, n: Node<nat>, k: Key, v: Value)
    requires Ready(tbl, s) && Matches(s.origin, n, ShapeOf(tbl, k))
    requires KindOf(k.tag) != OPT && !HasElem(Lookup(tbl, k.t)) && !Lookup(tbl, k.t).String?
    ensures EncodeBy(s.store, n, v) == TypedEncode(tbl, k.t, k.tag, v)
    decreases v, 1
  {
    hide Ready, UntaggedShape, UntaggedEncode;
    if k.tag == [] { UntaggedMeans(tbl, s, n, Lookup(tbl, k.t), v); }
  }

  lemma {:induction false} OptMeans(tbl: Table, s: Snapshot, n: Node<nat>, k: Key, v: Value)
    requires Ready(tbl, s) && GoodTag(tbl, k.t, k.tag) && Matches(s.origin, n, ShapeOf(tbl, k)) && KindOf(k.tag) == OPT
    ensures EncodeBy(s.store, n, v) == TypedEncode(tbl, k.t, k.tag, v)
    decreases v, 1
  {
    hide Ready, GoodTag, Matches, ShapeOf, UntaggedEncode;
    OptionalReaches(tbl, s, n, k);
    var ty := Lookup(tbl, k.t);
    if v.VRef? && ty.Pointer? {
      EncodingMeans(tbl, s, Target(s.store, n.elem).elem, Key(ty.elem, Tail(k.tag)), v.target);
    }
  }

  lemma {:induction false} ListMeans(tbl: Table, s: Snapshot, n: Node<nat>, k: Key, v: Value)
    requires Ready(tbl, s) && Matches(s.origin, n, ShapeOf(tbl, k)) && KindOf(k.tag) != OPT
    requires HasElem(Lookup(tbl, k.t))
    ensures EncodeBy(s.store, n, v) == TypedEncode(tbl, k.t, k.tag, v)
    decreases v, 0
  {
    hide Ready, Reaches, Matches, ShapeOf, UntaggedEncode, EncodeFields, TypedFields;
    hide EncodeField, TypedField, TypedItems, EncodeItems, EncodePrim, Limit, OnlyValue;
    ContainerReaches(tbl, s, n, k);
    var ty := Lookup(tbl, k.t);
    var e := Key(ty.elem, Tail(k.tag));
    if n.PtrCodec? {
      if v.VRef? { EncodingMeans(tbl, s, n.elem, e, v.target); }
    } else if n.ArrayCodec? || n.SliceCodec? {
      if v.VList? { ItemsMean(tbl, s, n.elem, n.elem, e, e, v.elems); }
    } else if n.MapCodec? && v.VDict? {
      ItemsMean(tbl, s, n.key, n.elem, Key(ty.key, []), e, v.kv);
    }
  }

  lemma {:induction false} ItemsMean(tbl: Table, s: Snapshot, a: nat, b: nat, ka: Key, kb: Key, vs: seq<Value>)
    requires Reaches(tbl, s, a, ka) && Reaches(tbl, s, b, kb)
    ensures EncodeItems(s.store, a, b, vs) == TypedItems(tbl, ka, kb, vs)
    decreases vs, 4
  {
    hide Reaches;
    if vs != [] {
      EncodingMeans(tbl, s, a, ka, vs[0]);
      ItemsMean(tbl, s, b, a, kb, ka, vs[1..]);
    }
  }

  lemma {:induction false} FieldMeans(tbl: Table, s: Snapshot, name: string, note: Note, f: Field<nat>, slot: Slot,
                                      vals: seq<Value>)
    requires Ready(tbl, s) && FieldIs(s.origin, f, SlotField(slot))
    ensures EncodeField(s.store, name, note, f, vals) == TypedField(tbl, name, note, slot, vals)
    decreases vals, 0
  {
    hide Ready;
    if f.index < |vals| { EncodingMeans(tbl, s, f.codec, Key(slot.t, slot.tag), vals[f.index]); }
  }

  lemma {:induction false} FieldsMean(tbl: Table, s: Snapshot, name: string, fs: seq<Field<nat>>, slots: seq<Slot>,
                                      vals: seq<Value>)
    requires Ready(tbl, s) && SlotsAre(s.origin, fs, slots)
    ensures EncodeFields(s.store, name, fs, vals) == TypedFields(tbl, name, slots, vals)
    decreases vals, 1 + |fs|
  {
    hide Ready;
    if fs != [] {
      FieldMeans(tbl, s, name, NoNote, fs[0], slots[0], vals);
      FieldsMean(tbl, s, name, fs[1..], slots[1..], vals);
    }
  }

  lemma {:induction false} UntaggedMeans(tbl: Table, s: Snapshot, n: Node<nat>, ty: Type, v: Value)
    requires Ready(tbl, s) && Matches(s.origin, n, UntaggedShape(tbl, ty))
    ensures EncodeBy(s.store, n, v) == UntaggedEncode(tbl, ty, v)
    decreases v, 0, 1
  {
    hide Ready, LayoutOf, StructShape;
    if ty.Struct? {
      StructReaches(tbl, s, n, ty);
      var l := LayoutOf(tbl, ty.fields);
      if v.VRec? && |v.fields| == |ty.fields| {
        if l.Plain? {
          FieldsMean(tbl, s, ty.name, n.fields, l.slots, v.fields);
        } else if l.Union? {
          UnionMeans(tbl, s, n, ty, v);
        }
      }
    }
  }

  lemma {:induction false} UnionMeans(tbl: Table, s: Snapshot, n: Node<nat>, ty: Type, v: Value)
    requires Ready(tbl, s) && ty.Struct? && Matches(s.origin, n, UntaggedShape(tbl, ty))
    requires LayoutOf(tbl, ty.fields).Union? && v.VRec? && |v.fields| == |ty.fields|
    ensures EncodeBy(s.store, n, v) == UntaggedEncode(tbl, ty, v)
    decreases v, 0, 0
  {
    hide Ready, LayoutOf, StructShape, UntaggedShape, Matches;
    StructReaches(tbl, s, n, ty);
    var l := LayoutOf(tbl, ty.fields);
    FieldMeans(tbl, s, ty.name, AtSwitch, n.switch, l.switch, v.fields);
    if l.switch.index < |v.fields| {
      var key := SwitchKey(l.kind, v.fields[l.switch.index]);
      if key.Some? && Arm(l.cases, l.default, key.value) in n.body {
        var arm := Arm(l.cases, l.default, key.value);
        FieldMeans(tbl, s, ty.name, AtArm(key.value), n.body[arm], l.body[arm], v.fields);
      }
    }
  }

  /** Decoding with a compiled codec is decoding by type and tag, on every input and stack bound. */
  lemma {:induction false} DecodingMeans(tbl: Table, s: Snapshot, r: nat, k: Key, input: seq<byte>, depth: nat)
    requires Reaches(tbl, s, r, k)
    ensures Decode(s.store, r, input, depth) == TypedDecode(tbl, k.t, k.tag, input, depth)
    decreases depth, 3
  {
    hide Ready, GoodTag, Matches, ShapeOf;
    ReachesNode(tbl, s, r, k);
    NodeDecodes(tbl, s, Target(s.store, r), k, input, depth);
  }

  lemma {:induction false} NodeDecodes(tbl: Table, s: Snapshot, n: Node<nat>, k: Key, input: seq<byte>, depth: nat)
    requires Ready(tbl, s) && GoodTag(tbl, k.t, k.tag) && Matches(s.origin, n, ShapeOf(tbl, k))
    ensures DecodeBy(s.store, n, input, depth) == TypedDecode(tbl, k.t, k.tag, input, depth)
    decreases depth, 2
  {
    hide Ready, GoodTag, Matches, ShapeOf, DecodeBy, TypedDecode;
    var ty := Lookup(tbl, k.t);
    if KindOf(k.tag) == OPT {
      OptDecodes(tbl, s, n, k, input, depth);
    } else if ty.Pointer? {
      PointerDecodes(tbl, s, n, k, input, depth);
    } else if ty.Array? || ty.Slice? || ty.Map? {
      ListDecodes(tbl, s, n, k, input, depth);
    } else {
      PlainDecodes(tbl, s, n, k, input, depth);
    }
  }

  lemma {:induction false} OptDecodes(tbl: Table, s: Snapshot, n: Node<nat>, k: Key, input: seq<byte>, depth: nat)
    requires Ready(tbl, s) && GoodTag(tbl, k.t, k.tag) && Matches(s.origin, n, ShapeOf(tbl, k)) && KindOf(k.tag) == OPT
    ensures DecodeBy(s.store, n, input, depth) == TypedDecode(tbl, k.t, k.tag, input, depth)
    decreases depth, 1
  {
    hide Ready, Reaches, GoodTag, Matches, ShapeOf, UntaggedDecode, DecodeFields, DecodeItems, DecodeField, DecodePrim;
    OptionalReaches(tbl, s, n, k);
    var ty := Lookup(tbl, k.t);
    if ty.Pointer? && DecodeBool(input).Ok? {
      PointeeMeans(tbl, s, Target(s.store, n.elem), Key(ty.elem, Tail(k.tag)), DecodeBool(input).value.1, depth);
    }
  }

  lemma {:induction false} PointerDecodes(tbl: Table, s: Snapshot, n: Node<nat>, k: Key, input: seq<byte>, depth: nat)
    requires Ready(tbl, s) && Matches(s.origin, n, ShapeOf(tbl, k)) && KindOf(k.tag) != OPT && Lookup(tbl, k.t).Pointer?
    ensures DecodeBy(s.store, n, input, depth) == TypedDecode(tbl, k.t, k.tag, input, depth)
    decreases depth, 1
  {
    hide Ready, Reaches, Matches, ShapeOf, DecodeBy;
    ContainerReaches(tbl, s, n, k);
    PointeeMeans(tbl, s, n, Key(Lookup(tbl, k.t).elem, Tail(k.tag)), input, depth);
  }

  /** Strings, and types that admit no tag. */
  lemma {:induction false} PlainDecodes(tbl: Table, s: Snapshot, n: Node<nat>, k: Key, input: seq<byte>, depth: nat)
    requires Ready(tbl, s) && Matches(s.origin, n, ShapeOf(tbl, k)) && KindOf(k.tag) != OPT
      && !HasElem(Lookup(tbl, k.t))
    ensures DecodeBy(s.store, n, input, depth) == TypedDecode(tbl, k.t, k.tag, input, depth)
    decreases depth, 1, 1
  {
    hide Ready, UntaggedShape, UntaggedDecode, FieldsAre, BodiesAre, DecodeItems, DecodeFields, DecodeField, DecodePrim;
    var ty := Lookup(tbl, k.t);
    if !ty.String? && k.tag == [] { UntaggedDecodes(tbl, s, n, ty, input, depth); }
  }

  lemma {:induction false} PointeeMeans(tbl: Table, s: Snapshot, n: Node<nat>, k: Key, input: seq<byte>, depth: nat)
    requires n.PtrCodec? && Reaches(tbl, s, n.elem, k)
    ensures DecodeBy(s.store, n, input, depth) == TypedPointee(tbl, k.t, k.tag, input, depth)
    decreases depth, 0
  {
    hide Reaches, TypedDecode, DecodeFields, DecodeItems, DecodeField, DecodePrim;
    if depth > 0 { DecodingMeans(tbl, s, n.elem, k, input, depth - 1); }
  }

  lemma {:induction false} ListDecodes(tbl: Table, s: Snapshot, n: Node<nat>, k: Key, input: seq<byte>, depth: nat)
    requires Ready(tbl, s) && Matches(s.origin, n, ShapeOf(tbl, k)) && KindOf(k.tag) != OPT
    requires Lookup(tbl, k.t).Array? || Lookup(tbl, k.t).Slice? || Lookup(tbl, k.t).Map?
    ensures DecodeBy(s.store, n, input, depth) == TypedDecode(tbl, k.t, k.tag, input, depth)
    decreases depth, 1
  {
    hide Ready, Reaches, Matches, ShapeOf, UntaggedDecode, DecodeFields, TypedReadFields, TypedCounted, DecodeItems;
    hide DecodeField, TypedReadField, DecodePrim, DecodeFixed, DecodeOpaque, Limit, OnlyValue;
    ContainerReaches(tbl, s, n, k);
    var ty := Lookup(tbl, k.t);
    var e := Key(ty.elem, Tail(k.tag));
    if n.ArrayCodec? {
      if depth > 0 { ItemsDecode(tbl, s, n.elem, n.elem, e, e, n.count, input, depth - 1); }
    } else if n.SliceCodec? {
      CountedDecodes(tbl, s, n, n.elem, n.elem, e, e, input, depth);
    } else if n.MapCodec? {
      CountedDecodes(tbl, s, n, n.key, n.elem, Key(ty.key, []), e, input, depth);
    }
  }

  lemma {:induction false} CountedDecodes(tbl: Table, s: Snapshot, n: Node<nat>, a: nat, b: nat, ka: Key, kb: Key,
                                          input: seq<byte>, depth: nat)
    requires (n.SliceCodec? && a == b == n.elem && ka == kb) || (n.MapCodec? && a == n.key && b == n.elem)
    requires Reaches(tbl, s, a, ka) && Reaches(tbl, s, b, kb)
    ensures DecodeBy(s.store, n, input, depth) == TypedCounted(tbl, n.max, ka, kb, n.MapCodec?, input, depth)
    decreases depth, 0
  {
    hide Reaches, DecodeItems, TypedReadItems, DecodeWord, Merge;
    if depth > 0 && DecodeWord(input).Ok? {
      var (l, more) := DecodeWord(input).value;
      ItemsDecode(tbl, s, a, b, ka, kb, if n.MapCodec? then 2 * l else l, more, depth - 1);
    }
  }

  lemma {:induction false} ItemsDecode(tbl: Table, s: Snapshot, a: nat, b: nat, ka: Key, kb: Key, n: nat,
                                       input: seq<byte>, depth: nat)
    requires Reaches(tbl, s, a, ka) && Reaches(tbl, s, b, kb)
    ensures DecodeItems(s.store, a, b, n, input, depth) == TypedReadItems(tbl, ka, kb, n, input, depth)
    decreases depth, 4, n
  {
    hide Reaches;
    if n > 0 {
      DecodingMeans(tbl, s, a, ka, input, depth);
      var first := Decode(s.store, a, input, depth);
      if first.Ok? { ItemsDecode(tbl, s, b, a, kb, ka, n - 1, first.value.1, depth); }
    }
  }

  lemma {:induction false} FieldDecodes(tbl: Table, s: Snapshot, name: string, note: Note, f: Field<nat>, slot: Slot,
                                        vals: seq<Value>, input: seq<byte>, depth: nat)
    requires Ready(tbl, s) && FieldIs(s.origin, f, SlotField(slot))
    ensures DecodeField(s.store, name, note, f, vals, input, depth)
         == TypedReadField(tbl, name, note, slot, vals, input, depth)
    decreases depth, 4
  {
    hide Ready;
    DecodingMeans(tbl, s, f.codec, Key(slot.t, slot.tag), input, depth);
  }

  lemma {:induction false} FieldsDecode(tbl: Table, s: Snapshot, name: string, fs: seq<Field<nat>>, slots: seq<Slot>,
                                        vals: seq<Value>, input: seq<byte>, depth: nat)
    requires Ready(tbl, s) && SlotsAre(s.origin, fs, slots)
    ensures DecodeFields(s.store, name, fs, vals, input, depth) == TypedReadFields(tbl, name, slots, vals, input, depth)
    decreases depth, 5, |fs|
  {
    hide Ready;
    if fs != [] {
      FieldDecodes(tbl, s, name, NoNote, fs[0], slots[0], vals, input, depth);
      var first := DecodeField(s.store, name, NoNote, fs[0], vals, input, depth);
      if first.Ok? { FieldsDecode(tbl, s, name, fs[1..], slots[1..], first.value.0, first.value.1, depth); }
    }
  }

  lemma {:induction false} UntaggedDecodes(tbl: Table, s: Snapshot, n: Node<nat>, ty: Type, input: seq<byte>,
                                           depth: nat)
    requires Ready(tbl, s) && Matches(s.origin, n, UntaggedShape(tbl, ty))
    ensures DecodeBy(s.store, n, input, depth) == UntaggedDecode(tbl, ty, input, depth)
    decreases depth, 1, 0
  {
    hide Ready, LayoutOf, StructShape, DecodeItems, DecodeField, DecodePrim, TypedReadField, TypedReadFields;
    if ty.Struct? {
      StructReaches(tbl, s, n, ty);
      var l := LayoutOf(tbl, ty.fields);
      if depth > 0 {
        if l.Plain? {
          FieldsDecode(tbl, s, ty.name, n.fields, l.slots, Untouched(|ty.fields|), input, depth - 1);
        } else if l.Union? {
          UnionDecodes(tbl, s, n, ty, input, depth);
        }
      }
    }
  }

  lemma {:induction false} UnionDecodes(tbl: Table, s: Snapshot, n: Node<nat>, ty: Type, input: seq<byte>, depth: nat)
    requires Ready(tbl, s) && ty.Struct? && Matches(s.origin, n, UntaggedShape(tbl, ty)) && depth > 0
    requires LayoutOf(tbl, ty.fields).Union?
    ensures DecodeBy(s.store, n, input, depth) == UntaggedDecode(tbl, ty, input, depth)
    decreases depth, 0
  {
    hide Ready, LayoutOf, StructShape, UntaggedShape, Matches, DecodeField, TypedReadField, DecodeFields,
        TypedReadFields;
    hide DecodeItems, DecodePrim, FieldIs, SwitchKey;
    StructReaches(tbl, s, n, ty);
    var l, none := LayoutOf(tbl, ty.fields), Untouched(|ty.fields|);
    FieldDecodes(tbl, s, ty.name, AtSwitch, n.switch, l.switch, none, input, depth - 1);
    var head := DecodeField(s.store, ty.name, AtSwitch, n.switch, none, input, depth - 1);
    if head.Ok? {
      var (vals, more) := head.value;
      var key := SwitchKey(l.kind, vals[l.switch.index]);
      if key.Some? && Arm(l.cases, l.default, key.value) in n.body {
        var arm := Arm(l.cases, l.default, key.value);
        FieldDecodes(tbl, s, ty.name, AtArm(key.value), n.body[arm], l.body[arm], vals, more, depth - 1);
      }
    }
  }
}
