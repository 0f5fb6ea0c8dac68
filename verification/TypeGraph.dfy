/** The type graph: every key of a table with the shape it compiles to. Compiled graphs follow it, and it means
    what types and tags say. */
module TypeGraph {
  import opened Words
  import opened Types
  import opened Tags
  import opened TagParser
  import opened Codecs
  import opened Structs
  import opened Shapes
  import opened Compiler
  import opened Meaning
  import opened Asks
  import opened Progress
  import opened Cycles
  import Compiled
  import Laid
  import Termination

  ghost function KeyGraph(tbl: Table): Graph<Key> { map k | k in Universe(tbl) :: ShapeOf(tbl, k) }

  lemma KeyTarget(tbl: Table, k: Key)
    requires k in Universe(tbl)
    ensures Target(KeyGraph(tbl), k) == ShapeOf(tbl, k)
  {
    hide Universe, ShapeOf;
    ShapeNotDeferred(tbl, k);
  }

  // ---------------------------------------------------------------- graphs that follow the type graph

  /** The codec made for a key is the shape of the key, or, if `wait`, still unresolved. */
  ghost predicate FollowsAt(tbl: Table, origin: map<nat, Key>, g: Graph<nat>, wait: bool, r: nat)
    requires r in origin
  {
    && origin[r] in Universe(tbl)
    && if Target(g, r).DeferredCodec? then wait else Matches(origin, Target(g, r), ShapeOf(tbl, origin[r]))
  }

  ghost predicate FollowsTypes(tbl: Table, origin: map<nat, Key>, g: Graph<nat>, wait: bool)
  {
    forall r {:trigger FollowsAt(tbl, origin, g, wait, r)} :: r in origin ==> FollowsAt(tbl, origin, g, wait, r)
  }

  /** The call stops at an unresolved deferred codec, where the source waits. */
  predicate Stops(e: Option<Error>) { e.Some? && UnderOf(e.value) == Blocked }

  /** What was written is the same, or part of it when the call has to wait. */
  predicate Alike(wait: bool, w: Written, t: Written)
  {
    w == t || (wait && Stops(w.err) && w.bytes <= t.bytes)
  }

  predicate ReadAlike<T(==)>(wait: bool, a: Reading<T>, b: Reading<T>)
  {
    a == b || (wait && a.Err? && Stops(Some(a.error)))
  }

  lemma FollowedNode(tbl: Table, origin: map<nat, Key>, g: Graph<nat>, wait: bool, r: nat, k: Key)
    requires FollowsTypes(tbl, origin, g, wait) && RefIs(origin, r, k)
    ensures k in Universe(tbl) && Target(KeyGraph(tbl), k) == ShapeOf(tbl, k)
    ensures if Target(g, r).DeferredCodec? then wait else Matches(origin, Target(g, r), Target(KeyGraph(tbl), k))
    ensures !Target(KeyGraph(tbl), k).DeferredCodec?
  {
    hide Universe, ShapeOf, Matches;
    assert FollowsAt(tbl, origin, g, wait, r);
    KeyTarget(tbl, k);
    ShapeNotDeferred(tbl, k);
  }

  /** An optional stands in front of no other optional. */
  lemma NoOptOfOpt(tbl: Table, k: Key)
    requires k in Universe(tbl) && ShapeOf(tbl, k).OptCodec?
    ensures !ShapeOf(tbl, ShapeOf(tbl, k).elem).OptCodec?
  {
    hide Universe, GoodTag, ShapeOf, StripOpt;
    UniverseIsGood(tbl, k.t, k.tag);
    OptShape(tbl, k);
    OptShape(tbl, ShapeOf(tbl, k).elem);
    StrippedTag(tbl, k.t, k.tag);
  }

  lemma OptShape(tbl: Table, k: Key)
    ensures ShapeOf(tbl, k).OptCodec? <==> KindOf(k.tag) == OPT
    ensures ShapeOf(tbl, k).OptCodec? ==> ShapeOf(tbl, k).elem == Key(k.t, StripOpt(k.tag))
  {
    hide StripOpt;
  }

  lemma {:induction false} EncodeFollows(tbl: Table, origin: map<nat, Key>, g: Graph<nat>, wait: bool, r: nat, k: Key,
                                         v: Value)
    requires FollowsTypes(tbl, origin, g, wait) && RefIs(origin, r, k)
    ensures Alike(wait, Encode(g, r, v), Encode(KeyGraph(tbl), k, v))
    decreases v, 3
  {
    hide FollowsTypes, Matches, KeyGraph, ShapeOf, Target, EncodeBy;
    FollowedNode(tbl, origin, g, wait, r, k);
    if Target(g, r).DeferredCodec? {
      DeferredStops(g, Target(g, r), v);
    } else {
      NodeFollows(tbl, origin, g, wait, r, k, v);
    }
  }

  lemma DeferredStops(g: Graph<nat>, n: Node<nat>, v: Value)
    requires n.DeferredCodec?
    ensures EncodeBy(g, n, v) == Failed(Blocked)
  {
  }

  lemma {:induction false} NodeFollows(tbl: Table, origin: map<nat, Key>, g: Graph<nat>, wait: bool, r: nat, k: Key,
                                       v: Value)
    requires FollowsTypes(tbl, origin, g, wait) && RefIs(origin, r, k) && !Target(g, r).DeferredCodec?
    ensures Alike(wait, EncodeBy(g, Target(g, r), v), EncodeBy(KeyGraph(tbl), Target(KeyGraph(tbl), k), v))
    decreases v, 2
  {
    hide FollowsTypes, KeyGraph, ShapeOf, EncodeItems, EncodeFields, EncodeField, EncodePrim, EncodeOpaque, FieldsAre,
        BodiesAre;
    FollowedNode(tbl, origin, g, wait, r, k);
    var n, m, kg := Target(g, r), Target(KeyGraph(tbl), k), KeyGraph(tbl);
    if m.OptCodec? {
      OptFollows(tbl, origin, g, wait, r, k, v);
    } else if m.PtrCodec? {
      if v.VRef? { EncodeFollows(tbl, origin, g, wait, n.elem, m.elem, v.target); }
    } else if m.StructCodec? {
      if v.VRec? { FieldsFollow(tbl, origin, g, wait, n.name, n.fields, m.fields, v.fields); }
    } else if m.UnionCodec? {
      UnionFollows(tbl, origin, g, wait, r, k, v);
    } else if m.ArrayCodec? || m.SliceCodec? || m.MapCodec? {
      ListFollows(tbl, origin, g, wait, r, k, v);
    }
  }

  lemma {:induction false} ListFollows(tbl: Table, origin: map<nat, Key>, g: Graph<nat>, wait: bool, r: nat, k: Key,
                                       v: Value)
    requires FollowsTypes(tbl, origin, g, wait) && RefIs(origin, r, k) && !Target(g, r).DeferredCodec?
    requires var m := Target(KeyGraph(tbl), k); m.ArrayCodec? || m.SliceCodec? || m.MapCodec?
    ensures Alike(wait, EncodeBy(g, Target(g, r), v), EncodeBy(KeyGraph(tbl), Target(KeyGraph(tbl), k), v))
    decreases v, 1
  {
    hide FollowsTypes, KeyGraph, ShapeOf, EncodeItems;
    FollowedNode(tbl, origin, g, wait, r, k);
    var n, m := Target(g, r), Target(KeyGraph(tbl), k);
    if v.VDict? && m.MapCodec? {
      ItemsFollow(tbl, origin, g, wait, n.key, n.elem, m.key, m.elem, v.kv);
    } else if v.VList? && !m.MapCodec? {
      ItemsFollow(tbl, origin, g, wait, n.elem, n.elem, m.elem, m.elem, v.elems);
    }
  }

  lemma {:induction false} OptFollows(tbl: Table, origin: map<nat, Key>, g: Graph<nat>, wait: bool, r: nat, k: Key,
                                      v: Value)
    requires FollowsTypes(tbl, origin, g, wait) && RefIs(origin, r, k)
    requires Target(g, r).OptCodec? && Target(KeyGraph(tbl), k).OptCodec?
    ensures Alike(wait, EncodeBy(g, Target(g, r), v), EncodeBy(KeyGraph(tbl), Target(KeyGraph(tbl), k), v))
    decreases v, 1
  {
    hide FollowsTypes, KeyGraph, ShapeOf, EncodeBy, Alike;
    FollowedNode(tbl, origin, g, wait, r, k);
    var n, m, kg := Target(g, r), Target(KeyGraph(tbl), k), KeyGraph(tbl);
    NoOptOfOpt(tbl, k);
    FollowedNode(tbl, origin, g, wait, n.elem, m.elem);
    if v.VRef? && !Target(g, n.elem).DeferredCodec? { OptElemFollows(tbl, origin, g, wait, n.elem, m.elem, v); }
    OptAlike(g, kg, n, m, wait, v);
  }

  lemma OptAlike(g: Graph<nat>, kg: Graph<Key>, n: Node<nat>, m: Node<Key>, wait: bool, v: Value)
    requires n.OptCodec? && m.OptCodec? && !Target(kg, m.elem).OptCodec?
    requires var t := Target(g, n.elem);
      if t.DeferredCodec? then wait
      else !t.OptCodec? && (v.VRef? ==> Alike(wait, EncodeBy(g, t, v), EncodeBy(kg, Target(kg, m.elem), v)))
    ensures Alike(wait, EncodeBy(g, n, v), EncodeBy(kg, m, v))
  {
    hide Target;
    if v.VRef? {
      var t := Target(g, n.elem);
      if t.DeferredCodec? { assert EncodeBy(g, t, v) == Failed(Blocked); }
    }
  }

  /** The codec behind an optional, on the same value. */
  lemma {:induction false} OptElemFollows(tbl: Table, origin: map<nat, Key>, g: Graph<nat>, wait: bool, r: nat, k: Key,
                                          v: Value)
    requires FollowsTypes(tbl, origin, g, wait) && RefIs(origin, r, k) && !Target(g, r).DeferredCodec?
    requires !Target(KeyGraph(tbl), k).OptCodec? && !Target(g, r).OptCodec? && v.VRef?
    ensures Alike(wait, EncodeBy(g, Target(g, r), v), EncodeBy(KeyGraph(tbl), Target(KeyGraph(tbl), k), v))
    decreases v, 0
  {
    hide FollowsTypes, KeyGraph, ShapeOf, EncodeItems, EncodeFields, EncodeField, EncodePrim, EncodeOpaque, FieldsAre,
        BodiesAre;
    FollowedNode(tbl, origin, g, wait, r, k);
    var n, m := Target(g, r), Target(KeyGraph(tbl), k);
    if m.PtrCodec? { EncodeFollows(tbl, origin, g, wait, n.elem, m.elem, v.target); }
  }

  lemma {:induction false} ItemsFollow(tbl: Table, origin: map<nat, Key>, g: Graph<nat>, wait: bool, a: nat, b: nat,
                                       ka: Key, kb: Key, vs: seq<Value>)
    requires FollowsTypes(tbl, origin, g, wait) && RefIs(origin, a, ka) && RefIs(origin, b, kb)
    ensures Alike(wait, EncodeItems(g, a, b, vs), EncodeItems(KeyGraph(tbl), ka, kb, vs))
    decreases vs, 4
  {
    hide FollowsTypes, KeyGraph, Encode;
    if vs != [] {
      EncodeFollows(tbl, origin, g, wait, a, ka, vs[0]);
      ItemsFollow(tbl, origin, g, wait, b, a, kb, ka, vs[1..]);
    }
  }

  lemma {:induction false} FieldFollows(tbl: Table, origin: map<nat, Key>, g: Graph<nat>, wait: bool, name: string,
                                        note: Note, f: Field<nat>, h: Field<Key>, vals: seq<Value>)
    requires FollowsTypes(tbl, origin, g, wait) && FieldIs(origin, f, h)
    ensures Alike(wait, EncodeField(g, name, note, f, vals), EncodeField(KeyGraph(tbl), name, note, h, vals))
    decreases vals, 0
  {
    hide FollowsTypes, KeyGraph, Encode;
    if f.index < |vals| { EncodeFollows(tbl, origin, g, wait, f.codec, h.codec, vals[f.index]); }
  }

  lemma {:induction false} FieldsFollow(tbl: Table, origin: map<nat, Key>, g: Graph<nat>, wait: bool, name: string,
                                        fs: seq<Field<nat>>, hs: seq<Field<Key>>, vals: seq<Value>)
    requires FollowsTypes(tbl, origin, g, wait) && FieldsAre(origin, fs, hs)
    ensures Alike(wait, EncodeFields(g, name, fs, vals), EncodeFields(KeyGraph(tbl), name, hs, vals))
    decreases vals, 1 + |fs|
  {
    hide FollowsTypes, KeyGraph, EncodeField, FieldIs;
    if fs != [] {
      FieldFollows(tbl, origin, g, wait, name, NoNote, fs[0], hs[0], vals);
      assert FieldsAre(origin, fs[1..], hs[1..]);
      FieldsFollow(tbl, origin, g, wait, name, fs[1..], hs[1..], vals);
    }
  }

  /** A union's encoding, from what its switch and the selected arm write. */
  function UnionWritten<R>(n: Node<R>, vals: seq<Value>, head: Written, arm: Written): Written
    requires n.UnionCodec? && n.switch.index < |vals|
  {
    if head.err.Some? then head else
    match SwitchKey(n.kind, vals[n.switch.index])
    case None => Written(head.bytes, Some(IllTyped))
    case Some(key) =>
      var a := Arm(n.cases, n.default, key);
      if a !in n.body then Written(head.bytes, Some(WithFieldError(ArmUndefined, PathStep(n.name, "?", AtArm(a)))))
      else After(head.bytes, arm)
  }

  function ArmWritten<R(==)>(g: Graph<R>, n: Node<R>, vals: seq<Value>): Written
    requires n.UnionCodec? && n.switch.index < |vals|
  {
    var key := SwitchKey(n.kind, vals[n.switch.index]);
    if key.None? || Arm(n.cases, n.default, key.value) !in n.body then Failed(IllTyped) else
    EncodeField(g, n.name, AtArm(key.value), n.body[Arm(n.cases, n.default, key.value)], vals)
  }

  lemma UnionIsWritten<R>(g: Graph<R>, n: Node<R>, v: Value)
    requires n.UnionCodec? && v.VRec? && |v.fields| == n.width && n.switch.index < n.width
    ensures EncodeBy(g, n, v)
         == UnionWritten(n, v.fields, EncodeField(g, n.name, AtSwitch, n.switch, v.fields), ArmWritten(g, n, v.fields))
  {
    hide Encode;
  }

  lemma WrittenAlike<R, S>(wait: bool, n: Node<R>, m: Node<S>, vals: seq<Value>, head: Written, head': Written,
                     arm: Written, arm': Written)
    requires n.UnionCodec? && m.UnionCodec? && n.switch.index == m.switch.index < |vals|
    requires n.body.Keys == m.body.Keys && n.name == m.name && n.kind == m.kind && n.cases == m.cases
      && n.default == m.default
    requires Alike(wait, head, head') && Alike(wait, arm, arm')
    ensures Alike(wait, UnionWritten(n, vals, head, arm), UnionWritten(m, vals, head', arm'))
  {
  }

  lemma {:induction false} UnionFollows(tbl: Table, origin: map<nat, Key>, g: Graph<nat>, wait: bool, r: nat, k: Key,
                                        v: Value)
    requires FollowsTypes(tbl, origin, g, wait) && RefIs(origin, r, k)
    requires Target(g, r).UnionCodec? && Target(KeyGraph(tbl), k).UnionCodec?
    ensures Alike(wait, EncodeBy(g, Target(g, r), v), EncodeBy(KeyGraph(tbl), Target(KeyGraph(tbl), k), v))
    decreases v, 0
  {
    hide FollowsTypes, KeyGraph, ShapeOf, EncodeField, FieldIs, Matches, Target, UnionWritten;
    FollowedNode(tbl, origin, g, wait, r, k);
    var n, m, kg := Target(g, r), Target(KeyGraph(tbl), k), KeyGraph(tbl);
    SwitchIs(origin, n, m);
    if v.VRec? && |v.fields| == n.width && n.switch.index < n.width {
      FieldFollows(tbl, origin, g, wait, n.name, AtSwitch, n.switch, m.switch, v.fields);
      var key := SwitchKey(n.kind, v.fields[n.switch.index]);
      if key.Some? && Arm(n.cases, n.default, key.value) in n.body {
        var a: nat := Arm(n.cases, n.default, key.value);
        FieldFollows(tbl, origin, g, wait, n.name, AtArm(key.value), n.body[a], m.body[a], v.fields);
      }
      UnionIsWritten(g, n, v);
      UnionIsWritten(kg, m, v);
      WrittenAlike(wait, n, m, v.fields, EncodeField(g, n.name, AtSwitch, n.switch, v.fields),
                   EncodeField(kg, n.name, AtSwitch, m.switch, v.fields), ArmWritten(g, n, v.fields),
                   ArmWritten(kg, m, v.fields));
    }
  }

  lemma SwitchIs(origin: map<nat, Key>, n: Node<nat>, m: Node<Key>)
    requires Matches(origin, n, m) && m.UnionCodec?
    ensures n.UnionCodec? && FieldIs(origin, n.switch, m.switch) && n.switch.index == m.switch.index
    ensures n.name == m.name && n.width == m.width && n.kind == m.kind && n.cases == m.cases && n.default == m.default
    ensures n.body.Keys == m.body.Keys && forall a :: a in n.body ==> FieldIs(origin, n.body[a], m.body[a])
  {
  }

  // ---------------------------------------------------------------- decoding follows the type graph

  lemma {:induction false} DecodeFollows(tbl: Table, origin: map<nat, Key>, g: Graph<nat>, wait: bool, r: nat, k: Key,
                                         input: seq<byte>, d: nat)
    requires FollowsTypes(tbl, origin, g, wait) && RefIs(origin, r, k)
    ensures ReadAlike(wait, Decode(g, r, input, d), Decode(KeyGraph(tbl), k, input, d))
    decreases d, if Target(g, r).OptCodec? then 3 else 2
  {
    hide FollowsTypes, Matches, KeyGraph, ShapeOf, DecodeBy;
    FollowedNode(tbl, origin, g, wait, r, k);
    var n := Target(g, r);
    if n.DeferredCodec? {
      DeferredReadStops(g, n, input, d);
    } else if IsComposite(n) {
      CompositeReads(tbl, origin, g, wait, r, k, input, d);
    } else if n.OptCodec? {
      OptReads(tbl, origin, g, wait, r, k, input, d);
    } else {
      LeafReads(tbl, origin, g, n, Target(KeyGraph(tbl), k), input, d);
    }
  }

  lemma DeferredReadStops(g: Graph<nat>, n: Node<nat>, input: seq<byte>, d: nat)
    requires n.DeferredCodec?
    ensures DecodeBy(g, n, input, d) == Err(Blocked)
  {
  }

  lemma LeafReads(tbl: Table, origin: map<nat, Key>, g: Graph<nat>, n: Node<nat>, m: Node<Key>, input: seq<byte>,
                  d: nat)
    requires Matches(origin, n, m) && !IsComposite(n) && !n.OptCodec? && !n.DeferredCodec?
    ensures DecodeBy(g, n, input, d) == DecodeBy(KeyGraph(tbl), m, input, d)
  {
    hide KeyGraph, DecodePrim, DecodeOpaque, DecodeFixed;
  }

  lemma {:induction false} OptReads(tbl: Table, origin: map<nat, Key>, g: Graph<nat>, wait: bool, r: nat, k: Key,
                                    input: seq<byte>, d: nat)
    requires FollowsTypes(tbl, origin, g, wait) && RefIs(origin, r, k) && Target(g, r).OptCodec?
    ensures ReadAlike(wait, Decode(g, r, input, d), Decode(KeyGraph(tbl), k, input, d))
    decreases d, 3, 0
  {
    hide FollowsTypes, KeyGraph, ShapeOf, DecodeBool;
    FollowedNode(tbl, origin, g, wait, r, k);
    var n, m := Target(g, r), Target(KeyGraph(tbl), k);
    NoOptOfOpt(tbl, k);
    FollowedNode(tbl, origin, g, wait, n.elem, m.elem);
    NotOpt(origin, Target(g, n.elem), Target(KeyGraph(tbl), m.elem));
    var b := DecodeBool(input);
    if b.Ok? && b.value.0 { DecodeFollows(tbl, origin, g, wait, n.elem, m.elem, b.value.1, d); }
  }

  lemma NotOpt(origin: map<nat, Key>, n: Node<nat>, m: Node<Key>)
    requires n.DeferredCodec? || Matches(origin, n, m)
    requires !m.OptCodec?
    ensures !n.OptCodec?
  {
  }

  lemma {:induction false} CompositeReads(tbl: Table, origin: map<nat, Key>, g: Graph<nat>, wait: bool, r: nat, k: Key,
                                          input: seq<byte>, d: nat)
    requires FollowsTypes(tbl, origin, g, wait) && RefIs(origin, r, k) && IsComposite(Target(g, r))
    ensures ReadAlike(wait, Decode(g, r, input, d), Decode(KeyGraph(tbl), k, input, d))
    decreases d, 1
  {
    hide FollowsTypes, KeyGraph, ShapeOf, DecodeItems, DecodeFields, DecodeField, Merge, FieldsAre, BodiesAre,
        DecodeWord;
    FollowedNode(tbl, origin, g, wait, r, k);
    var n, m := Target(g, r), Target(KeyGraph(tbl), k);
    if d > 0 {
      if n.PtrCodec? {
        DecodeFollows(tbl, origin, g, wait, n.elem, m.elem, input, d - 1);
      } else if n.ArrayCodec? {
        ItemsRead(tbl, origin, g, wait, n.elem, n.elem, m.elem, m.elem, n.count, input, d - 1);
      } else if n.StructCodec? {
        FieldsRead(tbl, origin, g, wait, n.name, n.fields, m.fields, Untouched(n.width), input, d - 1);
      } else if n.UnionCodec? {
        UnionReads(tbl, origin, g, wait, r, k, input, d);
      } else {
        CountedReads(tbl, origin, g, wait, r, k, input, d);
      }
    }
  }

  /** The items that follow a count. */
  function CountedItems<R(==)>(g: Graph<R>, n: Node<R>, w: Reading<u32>, d: nat): Reading<seq<Value>>
    requires n.SliceCodec? || n.MapCodec?
  {
    match w
    case Err(_) => Err(IllTyped)
    case Ok((l, more)) =>
      if n.SliceCodec? then DecodeItems(g, n.elem, n.elem, l, more, d)
      else DecodeItems(g, n.key, n.elem, 2 * l, more, d)
  }

  /** What a slice or map gives, from its count and its items. */
  function CountedFrom(isMap: bool, max: u32, w: Reading<u32>, items: Reading<seq<Value>>): Reading<Value>
  {
    match w
    case Err(e) => Err(e)
    case Ok((l, _)) =>
      if l > max then Err(LengthError(l, max)) else
      match items
      case Err(e) => Err(e)
      case Ok((vs, rest)) =>
        Ok((if !isMap then VList(vs) else if |vs| % 2 == 0 then VDict(Merge(vs)) else VUnset, rest))
  }

  lemma CountedIs<R>(g: Graph<R>, n: Node<R>, input: seq<byte>, d: nat)
    requires (n.SliceCodec? || n.MapCodec?) && d > 0
    ensures DecodeBy(g, n, input, d)
         == CountedFrom(n.MapCodec?, n.max, DecodeWord(input), CountedItems(g, n, DecodeWord(input), d - 1))
  {
    hide DecodeItems, Merge, DecodeWord;
  }

  lemma CountedAlike(wait: bool, isMap: bool, max: u32, w: Reading<u32>, items: Reading<seq<Value>>,
                     items': Reading<seq<Value>>)
    requires ReadAlike(wait, items, items')
    ensures ReadAlike(wait, CountedFrom(isMap, max, w, items), CountedFrom(isMap, max, w, items'))
  {
    hide Merge;
  }

  lemma {:induction false} CountedReads(tbl: Table, origin: map<nat, Key>, g: Graph<nat>, wait: bool, r: nat, k: Key,
                                        input: seq<byte>, d: nat)
    requires FollowsTypes(tbl, origin, g, wait) && RefIs(origin, r, k) && d > 0
    requires Target(g, r).SliceCodec? || Target(g, r).MapCodec?
    ensures ReadAlike(wait, Decode(g, r, input, d), Decode(KeyGraph(tbl), k, input, d))
    decreases d, 0
  {
    hide FollowsTypes, KeyGraph, ShapeOf, DecodeItems, DecodeWord, DecodeBy, ReadAlike, CountedFrom;
    FollowedNode(tbl, origin, g, wait, r, k);
    var n, m, kg, w := Target(g, r), Target(KeyGraph(tbl), k), KeyGraph(tbl), DecodeWord(input);
    if w.Ok? {
      var l: nat, more := w.value.0, w.value.1;
      if n.SliceCodec? {
        ItemsRead(tbl, origin, g, wait, n.elem, n.elem, m.elem, m.elem, l, more, d - 1);
      } else {
        ItemsRead(tbl, origin, g, wait, n.key, n.elem, m.key, m.elem, 2 * l, more, d - 1);
      }
    } else {
      SameReads(wait, CountedItems(g, n, w, d - 1));
    }
    CountedIs(g, n, input, d);
    CountedIs(kg, m, input, d);
    CountedAlike(wait, n.MapCodec?, n.max, w, CountedItems(g, n, w, d - 1), CountedItems(kg, m, w, d - 1));
  }

  lemma SameReads<T>(wait: bool, a: Reading<T>)
    ensures ReadAlike(wait, a, a)
  {
  }

  lemma {:induction false} ItemsRead(tbl: Table, origin: map<nat, Key>, g: Graph<nat>, wait: bool, a: nat, b: nat,
                                     ka: Key, kb: Key, n: nat, input: seq<byte>, d: nat)
    requires FollowsTypes(tbl, origin, g, wait) && RefIs(origin, a, ka) && RefIs(origin, b, kb)
    ensures ReadAlike(wait, DecodeItems(g, a, b, n, input, d), DecodeItems(KeyGraph(tbl), ka, kb, n, input, d))
    decreases d, 5, n
  {
    hide FollowsTypes, KeyGraph, Decode;
    if n > 0 {
      DecodeFollows(tbl, origin, g, wait, a, ka, input, d);
      var first := Decode(KeyGraph(tbl), ka, input, d);
      if first.Ok? { ItemsRead(tbl, origin, g, wait, b, a, kb, ka, n - 1, first.value.1, d); }
    }
  }

  lemma {:induction false} FieldReads(tbl: Table, origin: map<nat, Key>, g: Graph<nat>, wait: bool, name: string,
                                      note: Note,
                                      f: Field<nat>, h: Field<Key>, acc: seq<Value>, input: seq<byte>, d: nat)
    requires FollowsTypes(tbl, origin, g, wait) && FieldIs(origin, f, h)
    ensures ReadAlike(wait, DecodeField(g, name, note, f, acc, input, d),
        DecodeField(KeyGraph(tbl), name, note, h, acc, input, d))
    decreases d, 5
  {
    hide FollowsTypes, KeyGraph, Decode;
    if f.index < |acc| { DecodeFollows(tbl, origin, g, wait, f.codec, h.codec, input, d); }
  }

  lemma {:induction false} FieldsRead(tbl: Table, origin: map<nat, Key>, g: Graph<nat>, wait: bool, name: string,
                                      fs: seq<Field<nat>>, hs: seq<Field<Key>>, acc: seq<Value>, input: seq<byte>,
                                      d: nat)
    requires FollowsTypes(tbl, origin, g, wait) && FieldsAre(origin, fs, hs)
    ensures ReadAlike(wait, DecodeFields(g, name, fs, acc, input, d),
        DecodeFields(KeyGraph(tbl), name, hs, acc, input, d))
    decreases d, 6, |fs|
  {
    hide FollowsTypes, KeyGraph, DecodeField, FieldIs;
    if fs != [] {
      FieldReads(tbl, origin, g, wait, name, NoNote, fs[0], hs[0], acc, input, d);
      assert FieldsAre(origin, fs[1..], hs[1..]);
      var first := DecodeField(KeyGraph(tbl), name, NoNote, hs[0], acc, input, d);
      if first.Ok? { FieldsRead(tbl, origin, g, wait, name, fs[1..], hs[1..], first.value.0, first.value.1, d); }
    }
  }

  /** A union's decoding, from what its switch and the selected arm give. */
  function UnionFrom<R>(n: Node<R>, head: Reading<seq<Value>>, arm: Reading<seq<Value>>): Reading<Value>
    requires n.UnionCodec?
  {
    match head
    case Err(e) => Err(e)
    case Ok((vals, more)) =>
      if n.switch.index >= |vals| then Err(IllTyped) else
      match SwitchKey(n.kind, vals[n.switch.index])
      case None => Err(IllTyped)
      case Some(key) =>
        var a := Arm(n.cases, n.default, key);
        if a !in n.body then Err(WithFieldError(ArmUndefined, PathStep(n.name, "?", AtArm(a)))) else
        match arm
        case Err(e) => Err(e)
        case Ok((vals', rest)) => Ok((VRec(vals'), rest))
  }

  /** The arm that is decoded; anything when there is none. */
  function ArmRead<R(==)>(g: Graph<R>, n: Node<R>, head: Reading<seq<Value>>, d: nat): Reading<seq<Value>>
    requires n.UnionCodec?
  {
    if head.Err? || n.switch.index >= |head.value.0| then Err(IllTyped) else
    var key := SwitchKey(n.kind, head.value.0[n.switch.index]);
    if key.None? || Arm(n.cases, n.default, key.value) !in n.body then Err(IllTyped) else
    DecodeField(g, n.name, AtArm(key.value), n.body[Arm(n.cases, n.default, key.value)], head.value.0, head.value.1, d)
  }

  lemma UnionIsFrom<R>(g: Graph<R>, n: Node<R>, input: seq<byte>, d: nat)
    requires n.UnionCodec? && d > 0
    ensures var head := DecodeField(g, n.name, AtSwitch, n.switch, Untouched(n.width), input, d - 1);
      DecodeBy(g, n, input, d) == UnionFrom(n, head, ArmRead(g, n, head, d - 1))
  {
    hide Decode;
  }

  lemma FromAlike<R, S>(wait: bool, n: Node<R>, m: Node<S>, head: Reading<seq<Value>>, head': Reading<seq<Value>>,
                  arm: Reading<seq<Value>>, arm': Reading<seq<Value>>)
    requires n.UnionCodec? && m.UnionCodec? && ReadAlike(wait, head, head')
    requires n.switch.index == m.switch.index && n.body.Keys == m.body.Keys
    requires n.name == m.name && n.kind == m.kind && n.cases == m.cases && n.default == m.default
    requires head == head' ==> ReadAlike(wait, arm, arm')
    ensures ReadAlike(wait, UnionFrom(n, head, arm), UnionFrom(m, head', arm'))
  {
  }

  lemma {:induction false} UnionReads(tbl: Table, origin: map<nat, Key>, g: Graph<nat>, wait: bool, r: nat, k: Key,
                                      input: seq<byte>, d: nat)
    requires FollowsTypes(tbl, origin, g, wait) && RefIs(origin, r, k) && Target(g, r).UnionCodec? && d > 0
    requires Target(KeyGraph(tbl), k).UnionCodec?
    ensures ReadAlike(wait, Decode(g, r, input, d), Decode(KeyGraph(tbl), k, input, d))
    decreases d, 0
  {
    hide FollowsTypes, KeyGraph, ShapeOf, DecodeField, FieldIs, Matches, Target, DecodeBy, ReadAlike, UnionFrom;
    FollowedNode(tbl, origin, g, wait, r, k);
    var n, m, kg := Target(g, r), Target(KeyGraph(tbl), k), KeyGraph(tbl);
    SwitchIs(origin, n, m);
    var none := Untouched(n.width);
    FieldReads(tbl, origin, g, wait, n.name, AtSwitch, n.switch, m.switch, none, input, d - 1);
    var head := DecodeField(g, n.name, AtSwitch, n.switch, none, input, d - 1);
    var head' := DecodeField(kg, n.name, AtSwitch, m.switch, none, input, d - 1);
    if head == head' { ArmReads(tbl, origin, g, wait, n, m, head, d - 1); }
    UnionIsFrom(g, n, input, d);
    UnionIsFrom(kg, m, input, d);
    FromAlike(wait, n, m, head, head', ArmRead(g, n, head, d - 1), ArmRead(kg, m, head', d - 1));
  }

  lemma {:induction false} ArmReads(tbl: Table, origin: map<nat, Key>, g: Graph<nat>, wait: bool, n: Node<nat>,
                                    m: Node<Key>, head: Reading<seq<Value>>, d: nat)
    requires FollowsTypes(tbl, origin, g, wait) && Matches(origin, n, m) && m.UnionCodec? && n.UnionCodec?
    ensures ReadAlike(wait, ArmRead(g, n, head, d), ArmRead(KeyGraph(tbl), m, head, d))
    decreases d, 6
  {
    hide FollowsTypes, KeyGraph, DecodeField, FieldIs, Matches;
    SwitchIs(origin, n, m);
    if head.Ok? && n.switch.index < |head.value.0| {
      var key := SwitchKey(n.kind, head.value.0[n.switch.index]);
      if key.Some? && Arm(n.cases, n.default, key.value) in n.body {
        var a: nat := Arm(n.cases, n.default, key.value);
        FieldReads(tbl, origin, g, wait, n.name, AtArm(key.value), n.body[a], m.body[a], head.value.0, head.value.1, d);
      }
    }
  }

  // ---------------------------------------------------------------- a graph with a codec for every key

  /** A codec the build was given for key `x`. */
  ghost function Pick(given: map<nat, Key>, x: Key): (r: nat)
    ensures (exists o: nat :: RefIs(given, o, x)) ==> RefIs(given, r, x)
  {
    if o: nat :| RefIs(given, o, x) then o else 0
  }

  ghost function FieldFrom(given: map<nat, Key>, f: Field<Key>): Field<nat>
  {
    Field(f.name, f.index, Pick(given, f.codec))
  }

  ghost function NodeFrom(given: map<nat, Key>, n: Node<Key>): Node<nat>
  {
    match n
    case ErrorCodec(why) => ErrorCodec(why)
    case PrimCodec(p) => PrimCodec(p)
    case OptCodec(k) => OptCodec(Pick(given, k))
    case PtrCodec(k) => PtrCodec(Pick(given, k))
    case FixedStringCodec(len) => FixedStringCodec(len)
    case VarStringCodec(max) => VarStringCodec(max)
    case OpaqueArrayCodec(len) => OpaqueArrayCodec(len)
    case ArrayCodec(len, k) => ArrayCodec(len, Pick(given, k))
    case OpaqueSliceCodec(max) => OpaqueSliceCodec(max)
    case SliceCodec(max, k) => SliceCodec(max, Pick(given, k))
    case MapCodec(max, k, e) => MapCodec(max, Pick(given, k), Pick(given, e))
    case StructCodec(name, width, fields) =>
      StructCodec(name, width, seq(|fields|, i requires 0 <= i < |fields| => FieldFrom(given, fields[i])))
    case UnionCodec(name, width, sw, kind, body, cases, default) =>
      UnionCodec(name, width, FieldFrom(given, sw), kind, map a | a in body :: FieldFrom(given, body[a]), cases,
          default)
    case DeferredCodec(_) => DeferredCodec(None)
  }

  lemma NodeFromMatches(given: map<nat, Key>, n: Node<Key>)
    requires !n.DeferredCodec? && forall x :: RefersTo(n, x) ==> exists o: nat :: RefIs(given, o, x)
    ensures Matches(given, NodeFrom(given, n), n) && !NodeFrom(given, n).DeferredCodec?
  {
    match n {
      case StructCodec(_, _, fields) =>
        forall i | 0 <= i < |fields| ensures FieldIs(given, NodeFrom(given, n).fields[i], fields[i]) {
          assert RefersTo(n, fields[i].codec);
        }
      case UnionCodec(_, _, sw, _, body, _, _) =>
        assert RefersTo(n, sw.codec);
        forall a | a in body ensures FieldIs(given, NodeFrom(given, n).body[a], body[a]) {
          assert RefersTo(n, body[a].codec);
        }
      case MapCodec(_, k, e) => assert RefersTo(n, k) && RefersTo(n, e);
      case OptCodec(k) => assert RefersTo(n, k);
      case PtrCodec(k) => assert RefersTo(n, k);
      case ArrayCodec(_, k) => assert RefersTo(n, k);
      case SliceCodec(_, k) => assert RefersTo(n, k);
      case _ =>
    }
  }

  /** Numbers for finitely many keys. */
  lemma {:induction false} Numbered(u: set<Key>) returns (origin: map<nat, Key>)
    ensures forall r: nat :: r in origin <==> r < |u|
    ensures forall r :: r in origin ==> origin[r] in u
    ensures forall k :: k in u ==> exists r: nat :: RefIs(origin, r, k)
    decreases u
  {
    origin := map[];
    if u != {} {
      var k :| k in u;
      var n := |u - {k}|;
      var before := Numbered(u - {k});
      origin := before[n := k];
      forall x | x in u ensures exists r: nat :: RefIs(origin, r, x) {
        if x == k {
          assert RefIs(origin, n, x);
        } else {
          assert x in u - {k};
          var r: nat :| RefIs(before, r, x);
          assert RefIs(origin, r, x);
        }
      }
    }
  }

  lemma NodeFitsIn(tbl: Table, origin: map<nat, Key>, k: Key)
    requires ClosedTable(tbl) && k in Universe(tbl)
    requires forall x :: x in Universe(tbl) ==> exists r: nat :: RefIs(origin, r, x)
    ensures Matches(origin, NodeFrom(origin, ShapeOf(tbl, k)), ShapeOf(tbl, k))
    ensures !NodeFrom(origin, ShapeOf(tbl, k)).DeferredCodec?
  {
    hide Universe, ShapeOf, ClosedTable, RefersTo, NodeFrom, Matches, RefIs, AsksOf;
    ShapeNotDeferred(tbl, k);
    forall x | RefersTo(ShapeOf(tbl, k), x) ensures exists o: nat :: RefIs(origin, o, x) {
      AsksSuffice(tbl, k, x);
      AsksStayWithin(tbl, k, x);
    }
    NodeFromMatches(origin, ShapeOf(tbl, k));
  }

  /** Resolved caches that know every key of the table. */
  lemma CompleteCaches(tbl: Table) returns (s: Snapshot)
    requires ClosedTable(tbl) && SwitchesSupported(tbl)
    ensures Ready(tbl, s) && forall k :: k in Universe(tbl) ==> exists r: nat :: RefIs(s.origin, r, k)
  {
    hide Universe, ShapeOf, ClosedTable, SwitchesSupported, NodeFrom, Matches, NodeSound;
    var u := Universe(tbl);
    var origin := Numbered(u);
    var store := map r | r in origin :: NodeFrom(origin, ShapeOf(tbl, origin[r]));
    var known := map k | k in u :: Pick(origin, k);
    s := Snapshot(known, map[], store, origin, {}, |u|);
    forall r | r in store ensures NodeSound(tbl, s, r) {
      NodeFitsIn(tbl, origin, origin[r]);
      FittingIsSound(tbl, s, r);
    }
    forall k | k in known ensures known[k] in store && origin[known[k]] == k && !store[known[k]].DeferredCodec? {
      var r: nat :| RefIs(origin, r, k);
      assert RefIs(origin, known[k], k);
      NodeFitsIn(tbl, origin, k);
    }
  }

  lemma FittingIsSound(tbl: Table, s: Snapshot, r: nat)
    requires r in s.store && r in s.origin && Matches(s.origin, s.store[r], ShapeOf(tbl, s.origin[r]))
    requires !s.store[r].DeferredCodec?
    ensures NodeSound(tbl, s, r)
  {
    hide Matches, ShapeOf;
  }

  /** Resolved caches follow the type graph without waiting. */
  lemma ReadyFollows(tbl: Table, s: Snapshot)
    requires Ready(tbl, s)
    ensures FollowsTypes(tbl, s.origin, s.store, false)
  {
    hide Ready, Universe, ShapeOf, Matches;
    Compiled.StoreIsOrigin(tbl, s);
    forall r | r in s.origin ensures FollowsAt(tbl, s.origin, s.store, false, r) { EveryCodecResolved(tbl, s, r); }
  }

  /** The type graph means what types and tags say. */
  lemma TypeGraphMeans(tbl: Table, k: Key, v: Value, input: seq<byte>, d: nat)
    requires ClosedTable(tbl) && SwitchesSupported(tbl) && k in Universe(tbl)
    ensures Encode(KeyGraph(tbl), k, v) == TypedEncode(tbl, k.t, k.tag, v)
    ensures Decode(KeyGraph(tbl), k, input, d) == TypedDecode(tbl, k.t, k.tag, input, d)
  {
    hide ClosedTable, SwitchesSupported, Universe, Ready, KeyGraph, Encode, Decode, TypedEncode, TypedDecode,
        FollowsTypes;
    var s := CompleteCaches(tbl);
    var r: nat :| RefIs(s.origin, r, k);
    ReadyFollows(tbl, s);
    EncodingMeans(tbl, s, r, k, v);
    DecodingMeans(tbl, s, r, k, input, d);
    EncodeFollows(tbl, s.origin, s.store, false, r, k, v);
    DecodeFollows(tbl, s.origin, s.store, false, r, k, input, d);
  }

  /** A graph that follows the type graph means what types and tags say, as far as it does not wait. */
  lemma FollowedMeaning(tbl: Table, origin: map<nat, Key>, g: Graph<nat>, wait: bool, r: nat, v: Value,
                        input: seq<byte>, d: nat)
    requires ClosedTable(tbl) && SwitchesSupported(tbl) && FollowsTypes(tbl, origin, g, wait) && r in origin
    ensures Alike(wait, Encode(g, r, v), TypedEncode(tbl, origin[r].t, origin[r].tag, v))
    ensures ReadAlike(wait, Decode(g, r, input, d), TypedDecode(tbl, origin[r].t, origin[r].tag, input, d))
  {
    hide ClosedTable, SwitchesSupported, Universe, KeyGraph, Encode, Decode, TypedEncode, TypedDecode, FollowsTypes;
    var k := origin[r];
    FollowedNode(tbl, origin, g, wait, r, k);
    TypeGraphMeans(tbl, k, v, input, d);
    EncodeFollows(tbl, origin, g, wait, r, k, v);
    DecodeFollows(tbl, origin, g, wait, r, k, input, d);
  }

  // ---------------------------------------------------------------- decoding of types ends

  lemma TypeGraphIsProper(tbl: Table)
    requires ClosedTable(tbl)
    ensures Proper(KeyGraph(tbl))
  {
    hide Universe, ShapeOf, ProperNode, ClosedTable;
    forall k | k in KeyGraph(tbl) ensures ProperNode(KeyGraph(tbl), KeyGraph(tbl)[k]) { ShapeIsProper(tbl, k); }
  }

  lemma ShapeIsProper(tbl: Table, k: Key)
    requires ClosedTable(tbl) && k in Universe(tbl)
    ensures ProperNode(KeyGraph(tbl), ShapeOf(tbl, k))
  {
    hide Universe, KeyGraph, LayoutOf, ClosedTable, SwitchFits, ReadFields, TagsUpTo;
    var ty := Lookup(tbl, k.t);
    UniverseIsGood(tbl, k.t, k.tag);
    if KindOf(k.tag) != OPT && ty.Struct? && k.tag == [] {
      var l := LayoutOf(tbl, ty.fields);
      Compiled.LayoutIsShaped(tbl, ty.fields);
      if l.Union? { UnionSwitchFits(tbl, k); }
    }
  }

  /** The switch of a union has the scalar codec its kind says, or an error codec. */
  lemma UnionSwitchFits(tbl: Table, k: Key)
    requires ClosedTable(tbl) && k in Universe(tbl) && KindOf(k.tag) != OPT && k.tag == [] && Lookup(tbl, k.t).Struct?
    requires LayoutOf(tbl, Lookup(tbl, k.t).fields).Union?
    ensures var l := LayoutOf(tbl, Lookup(tbl, k.t).fields);
      SwitchFits(Target(KeyGraph(tbl), Key(l.switch.t, l.switch.tag)), l.kind)
  {
    hide Universe, KeyGraph, ReadFields, ClosedTable, TagsUpTo, GoodTag;
    var decls := Lookup(tbl, k.t).fields;
    var l := LayoutOf(tbl, decls);
    UniverseIsGood(tbl, k.t, k.tag);
    InTable(tbl, k.t, k.tag);
    LayoutIsGood(tbl, k.t, Scanning, 0);
    SlotsInUniverse(tbl, l);
    Laid.LayoutComesFrom(tbl, decls);
    KeyTarget(tbl, Key(l.switch.t, l.switch.tag));
    UniverseIsGood(tbl, l.switch.t, l.switch.tag);
    ScalarShape(tbl, Key(l.switch.t, l.switch.tag), l.kind);
  }

  lemma InTable(tbl: Table, t: TypeId, tag: Tag)
    requires GoodTag(tbl, t, tag)
    ensures t in tbl
  {
  }

  lemma ScalarShape(tbl: Table, k: Key, kind: SwitchKind)
    requires GoodTag(tbl, k.t, k.tag) && SwitchKindOf(Lookup(tbl, k.t)) == Some(kind)
    ensures SwitchFits(ShapeOf(tbl, k), kind)
  {
    hide TagsUpTo, StringShape, StructShape;
  }

  /** Decoding with the compiled codec of a key ends on every input if and only if no cycle of calls that take
      nothing is in reach in the type graph. */
  lemma TypesDecodeIff(tbl: Table, s: Snapshot, r: nat, k: Key)
    requires Ready(tbl, s) && RefIs(s.origin, r, k)
    ensures (forall input: seq<byte> :: Ends(s.store, r, input)) <==> !CycleInReach(KeyGraph(tbl), k)
  {
    hide Ready, KeyGraph, FollowsTypes, CycleInReach, ClosedTable, SwitchesSupported, Proper;
    ReadyIsClosed(tbl, s);
    TypeGraphIsProper(tbl);
    ReadyFollows(tbl, s);
    DecodingEndsIff(KeyGraph(tbl), k);
    forall input: seq<byte> ensures Ends(s.store, r, input) <==> Ends(KeyGraph(tbl), k, input) {
      forall d: nat ensures Decode(s.store, r, input, d) == Decode(KeyGraph(tbl), k, input, d) {
        DecodeFollows(tbl, s.origin, s.store, false, r, k, input, d);
      }
      SameEnds(tbl, s, r, k, input);
    }
  }

  lemma ReadyIsClosed(tbl: Table, s: Snapshot)
    requires Ready(tbl, s)
    ensures ClosedTable(tbl) && SwitchesSupported(tbl)
  {
  }

  lemma SameEnds(tbl: Table, s: Snapshot, r: nat, k: Key, input: seq<byte>)
    requires forall d: nat :: Decode(s.store, r, input, d) == Decode(KeyGraph(tbl), k, input, d)
    ensures Ends(s.store, r, input) <==> Ends(KeyGraph(tbl), k, input)
  {
    hide KeyGraph, Decode;
    if Ends(s.store, r, input) {
      var d: nat :| !Termination.StackedOut(Decode(s.store, r, input, d));
      assert !Termination.StackedOut(Decode(KeyGraph(tbl), k, input, d));
    }
    if Ends(KeyGraph(tbl), k, input) {
      var d: nat :| !Termination.StackedOut(Decode(KeyGraph(tbl), k, input, d));
      assert !Termination.StackedOut(Decode(s.store, r, input, d));
    }
  }
}
