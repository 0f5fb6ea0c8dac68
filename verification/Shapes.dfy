/** What each (type, tag) key compiles to, one node deep, and the finite universe of keys. */
module Shapes {
  import opened Words
  import opened Types
  import opened Tags
  import opened TagParser
  import opened Codecs
  import opened Structs

  /** A codec cache key: `xType`, with the tag as a list of entries (see `Tags.KeysAreDistinct`). */
  datatype Key = Key(t: TypeId, tag: Tag)

  const NO_LIMIT: u32 := 0xFFFF_FFFF

  function OnlyValue(tag: Tag): u32 { if tag != [] && tag[0].vs != [] then tag[0].vs[0] else 0 }

  // ---------------------------------------------------------------- shapes

  /** The node `buildCodec` makes for a key, with keys in place of references to other codecs. */
  function ShapeOf(tbl: Table, key: Key): Node<Key>
  {
    var (t, tag) := (key.t, key.tag);
    if KindOf(tag) == OPT then OptCodec(Key(t, StripOpt(tag))) else
    match Lookup(tbl, t)
    case Pointer(elem) => PtrCodec(Key(elem, Tail(tag)))
    case String => StringShape(tag)
    case Array(len, elem) =>
      if KindOf(tag) != NOOP then ErrorCodec(InvalidTag)
      else if KindOf(Tail(tag)) == OPAQUE then OpaqueArrayCodec(len)
      else ArrayCodec(len, Key(elem, Tail(tag)))
    case Slice(elem) =>
      if KindOf(tag) != NOOP && KindOf(tag) != MAX_LEN then ErrorCodec(InvalidTag)
      else if KindOf(Tail(tag)) == OPAQUE then OpaqueSliceCodec(Limit(tag))
      else SliceCodec(Limit(tag), Key(elem, Tail(tag)))
    case Map(k, elem) =>
      if KindOf(tag) != NOOP && KindOf(tag) != MAX_LEN then ErrorCodec(InvalidTag)
      else MapCodec(Limit(tag), Key(k, []), Key(elem, Tail(tag)))
    case _ => if tag != [] then ErrorCodec(InvalidTag) else UntaggedShape(tbl, Lookup(tbl, t))
  }

  function UntaggedShape(tbl: Table, ty: Type): Node<Key>
  {
    if ty.Basic? then PrimCodec(ty.prim)
    else if ty.Struct? then StructShape(ty.name, |ty.fields|, LayoutOf(tbl, ty.fields))
    else ErrorCodec(InvalidType)
  }

  lemma ShapeNotDeferred(tbl: Table, k: Key)
    ensures !ShapeOf(tbl, k).DeferredCodec?
  {
  }

  function Limit(tag: Tag): u32 { if KindOf(tag) == MAX_LEN then OnlyValue(tag) else NO_LIMIT }

  function StringShape(tag: Tag): Node<Key>
  {
    if Tail(tag) != [] then ErrorCodec(StringTags)
    else if KindOf(tag) == LEN then FixedStringCodec(OnlyValue(tag))
    else if KindOf(tag) == MAX_LEN || KindOf(tag) == NOOP then VarStringCodec(Limit(tag))
    else ErrorCodec(InvalidTag)
  }

  function SlotField(s: Slot): Field<Key> { Field(s.name, s.index, Key(s.t, s.tag)) }

  function StructShape(name: string, width: nat, l: Layout): Node<Key>
  {
    match l
    case Plain(slots) => StructCodec(name, width, seq(|slots|, i requires 0 <= i < |slots| => SlotField(slots[i])))
    case Union(sw, kind, body, cases, default) =>
      UnionCodec(name, width, SlotField(sw), kind, map a | a in body :: SlotField(body[a]), cases, default)
    case Broken(why) => ErrorCodec(why)
    case _ => StructCodec(name, width, [])
  }

  // ---------------------------------------------------------------- matching a node against a shape

  predicate RefIs(origin: map<nat, Key>, r: nat, k: Key) { r in origin && origin[r] == k }

  predicate FieldIs(origin: map<nat, Key>, f: Field<nat>, s: Field<Key>)
  {
    f.name == s.name && f.index == s.index && RefIs(origin, f.codec, s.codec)
  }

  /** `n` is the shape `s`, with each key replaced by a codec made for that key. */
  ghost predicate Matches(origin: map<nat, Key>, n: Node<nat>, s: Node<Key>)
  {
    match s
    case ErrorCodec(why) => n == ErrorCodec(why)
    case PrimCodec(p) => n == PrimCodec(p)
    case OptCodec(k) => n.OptCodec? && RefIs(origin, n.elem, k)
    case PtrCodec(k) => n.PtrCodec? && RefIs(origin, n.elem, k)
    case FixedStringCodec(len) => n == FixedStringCodec(len)
    case VarStringCodec(max) => n == VarStringCodec(max)
    case OpaqueArrayCodec(len) => n == OpaqueArrayCodec(len)
    case ArrayCodec(len, k) => n.ArrayCodec? && n.count == len && RefIs(origin, n.elem, k)
    case OpaqueSliceCodec(max) => n == OpaqueSliceCodec(max)
    case SliceCodec(max, k) => n.SliceCodec? && n.max == max && RefIs(origin, n.elem, k)
    case MapCodec(max, k, e) => n.MapCodec? && n.max == max && RefIs(origin, n.key, k) && RefIs(origin, n.elem, e)
    case StructCodec(name, width, fields) =>
      n.StructCodec? && n.name == name && n.width == width && FieldsAre(origin, n.fields, fields)
    case UnionCodec(name, width, sw, kind, body, cases, default) =>
      && n.UnionCodec? && n.name == name && n.width == width && FieldIs(origin, n.switch, sw) && n.kind == kind
      && BodiesAre(origin, n.body, body) && n.cases == cases && n.default == default
    case DeferredCodec(_) => false
  }

  ghost predicate FieldsAre(origin: map<nat, Key>, fs: seq<Field<nat>>, ss: seq<Field<Key>>)
  {
    |fs| == |ss| && forall i :: 0 <= i < |fs| ==> FieldIs(origin, fs[i], ss[i])
  }

  ghost predicate BodiesAre(origin: map<nat, Key>, fs: map<nat, Field<nat>>, ss: map<nat, Field<Key>>)
  {
    fs.Keys == ss.Keys && forall a :: a in fs ==> FieldIs(origin, fs[a], ss[a])
  }

  ghost predicate Extends<K, V>(m: map<K, V>, m': map<K, V>)
  {
    forall k :: k in m ==> k in m' && m'[k] == m[k]
  }

  lemma MatchesExtends(origin: map<nat, Key>, origin': map<nat, Key>, n: Node<nat>, s: Node<Key>)
    requires Matches(origin, n, s) && Extends(origin, origin')
    ensures Matches(origin', n, s)
  {
  }

  // ---------------------------------------------------------------- the universe of keys

  /** Every type a type names is in the table. */
  ghost predicate ClosedType(tbl: Table, ty: Type)
  {
    && (HasElem(ty) ==> ty.elem in tbl) && (ty.Map? ==> ty.key in tbl)
    && (ty.Struct? ==> forall d :: d in ty.fields ==> d.t in tbl && Countable(d.tag))
  }

  ghost predicate ClosedTable(tbl: Table)
  {
    forall t {:trigger ClosedType(tbl, tbl[t])} :: t in tbl ==> ClosedType(tbl, tbl[t])
  }

  lemma TypeCloses(tbl: Table, t: TypeId)
    requires ClosedTable(tbl) && t in tbl
    ensures ClosedType(tbl, tbl[t])
  {
  }

  /** No struct makes the compiler panic over its switch (see `Structs.OnlyTheKindPanics`). */
  ghost predicate SwitchesSupported(tbl: Table)
  {
    forall t {:trigger LayoutOf(tbl, tbl[t].fields)} ::
      t in tbl && tbl[t].Struct? ==> !LayoutOf(tbl, tbl[t].fields).PanicsKind?
  }

  const MODES: set<IsInUnion> := {MaybeInUnion, NotInUnion, InUnion}

  /** Every tag a field of the table can parse to. */
  ghost function FieldTags(tbl: Table): set<Tag>
  {
    set t, d, u | t in tbl && tbl[t].Struct? && d in tbl[t].fields && u in MODES && Parse(tbl, d.t, d.tag, u).0.Ok?
      :: Parse(tbl, d.t, d.tag, u).0.value
  }

  ghost function Longest(tags: set<Tag>): (n: nat)
    ensures forall tag :: tag in tags ==> |tag| <= n
  {
    if tags == {} then 0 else
    var tag :| tag in tags;
    var n := Longest(tags - {tag});
    if |tag| > n then |tag| else n
  }

  ghost function EntriesOf(tags: set<Tag>): set<Entry>
  {
    {BLANK_ENTRY} + set tag, e | tag in tags && e in tag :: e
  }

  ghost function TagsUpTo(entries: set<Entry>, n: nat): set<Tag>
  {
    if n == 0 then {[]} else
    var shorter := TagsUpTo(entries, n - 1);
    shorter + Prefixed(entries, shorter)
  }

  ghost function Prefixed(entries: set<Entry>, tags: set<Tag>): set<Tag>
  {
    set e, tag | e in entries && tag in tags :: [e] + tag
  }

  lemma {:induction false} TagsUpToIs(entries: set<Entry>, n: nat, tag: Tag)
    ensures tag in TagsUpTo(entries, n) <==> |tag| <= n && forall e :: e in tag ==> e in entries
  {
    hide Prefixed;
    if tag == [] {
      if n > 0 { TagsUpToIs(entries, n - 1, tag); }
    } else if n > 0 {
      var h, s := tag[0], tag[1..];
      assert tag == [h] + s;
      TagsUpToIs(entries, n - 1, tag);
      TagsUpToIs(entries, n - 1, s);
      PrefixedIs(entries, TagsUpTo(entries, n - 1), tag);
      assert forall e :: e in tag <==> e == h || e in s;
    }
  }

  lemma PrefixedIs(entries: set<Entry>, tags: set<Tag>, tag: Tag)
    requires tag != []
    ensures tag in Prefixed(entries, tags) <==> tag[0] in entries && tag[1..] in tags
  {
    assert tag == [tag[0]] + tag[1..];
    forall e, s | e in entries && s in tags && tag == [e] + s ensures e == tag[0] && s == tag[1..] {}
  }

  /** A tag that may accompany type `t`: built from the table's entries, trimmed, and fitting `t`. */
  ghost predicate GoodTag(tbl: Table, t: TypeId, tag: Tag)
  {
    && t in tbl && Fits(tbl, t, tag) && IsTrimmed(tag) && WfTag(tag)
    && |tag| <= Longest(FieldTags(tbl)) && forall e :: e in tag ==> e in EntriesOf(FieldTags(tbl))
  }

  ghost function Pairs(types: set<TypeId>, tags: set<Tag>): (ks: set<Key>)
    ensures forall k :: k in ks <==> k.t in types && k.tag in tags
  {
    set t, tag | t in types && tag in tags :: Key(t, tag)
  }

  ghost function Universe(tbl: Table): set<Key>
  {
    set k | k in Pairs(tbl.Keys, TagsUpTo(EntriesOf(FieldTags(tbl)), Longest(FieldTags(tbl))))
        && GoodTag(tbl, k.t, k.tag)
  }

  lemma UniverseIsGood(tbl: Table, t: TypeId, tag: Tag)
    requires Key(t, tag) in Universe(tbl)
    ensures GoodTag(tbl, t, tag)
  {
  }

  lemma EmptyTagIsGood(tbl: Table, t: TypeId)
    requires t in tbl
    ensures Key(t, []) in Universe(tbl)
  {
    TagsUpToIs(EntriesOf(FieldTags(tbl)), Longest(FieldTags(tbl)), []);
    assert GoodTag(tbl, t, []);
  }

  /** Tags never grow on the way down. */
  lemma TailIsGood(tbl: Table, t: TypeId, tag: Tag)
    requires ClosedTable(tbl) && GoodTag(tbl, t, tag) && HasElem(tbl[t])
    ensures Key(tbl[t].elem, Tail(tag)) in Universe(tbl)
  {
    hide ClosedTable;
    TypeCloses(tbl, t);
    var es, n := EntriesOf(FieldTags(tbl)), Longest(FieldTags(tbl));
    TagsUpToIs(es, n, tag);
    TagsUpToIs(es, n, Tail(tag));
    KeysStayCanonical(tag);
    assert GoodTag(tbl, tbl[t].elem, Tail(tag));
  }

  lemma StrippedIsGood(tbl: Table, t: TypeId, tag: Tag)
    requires GoodTag(tbl, t, tag) && KindOf(tag) == OPT
    ensures Key(t, StripOpt(tag)) in Universe(tbl)
  {
    var es, n := EntriesOf(FieldTags(tbl)), Longest(FieldTags(tbl));
    TagsUpToIs(es, n, tag);
    KeysStayCanonical(tag);
    var s := StripOpt(tag);
    var w := [BLANK_ENTRY] + Tail(tag);
    assert w[1..] == tag[1..];
    assert Fits(tbl, t, w);
    FitsPrefix(tbl, t, w, |s|);
    assert s == w[..|s|];
    TrimKeepsWf(w);
    forall e | e in s ensures e in es {
      var i :| 0 <= i < |s| && s[i] == e;
      assert e == w[i];
    }
    TagsUpToIs(es, n, s);
    assert GoodTag(tbl, t, s);
  }

  ghost predicate SlotGood(tbl: Table, s: Slot) { Key(s.t, s.tag) in Universe(tbl) }

  ghost predicate LayoutGood(tbl: Table, l: Layout)
  {
    match l
    case Plain(slots) => forall s :: s in slots ==> SlotGood(tbl, s)
    case Union(sw, _, body, _, _) => SlotGood(tbl, sw) && forall a :: a in body ==> SlotGood(tbl, body[a])
    case _ => true
  }

  lemma ParsedIsGood(tbl: Table, t: TypeId, d: Decl, u: IsInUnion)
    requires ClosedTable(tbl) && t in tbl && tbl[t].Struct? && d in tbl[t].fields
    requires Parse(tbl, d.t, d.tag, u).0.Ok? && KindOf(Parse(tbl, d.t, d.tag, u).0.value) != SKIP
    ensures var tag := Parse(tbl, d.t, d.tag, u).0.value;
      if IsUnionKind(KindOf(tag)) then Key(d.t, Tail(tag)) in Universe(tbl) else Key(d.t, tag) in Universe(tbl)
  {
    hide ClosedTable, Parse;
    TypeCloses(tbl, t);
    var tag := Parse(tbl, d.t, d.tag, u).0.value;
    var es, n := EntriesOf(FieldTags(tbl)), Longest(FieldTags(tbl));
    ParsedTagFits(tbl, d.t, d.tag, u);
    assert u in MODES;
    assert tag in FieldTags(tbl);
    forall e | e in tag ensures e in es {}
    TagsUpToIs(es, n, tag);
    TagsUpToIs(es, n, Tail(tag));
    KeysStayCanonical(tag);
    var rest := if IsUnionKind(KindOf(tag)) then Tail(tag) else tag;
    assert rest == TypePart(d.tag, tag);
    assert GoodTag(tbl, d.t, rest);
  }

  lemma {:induction false} LayoutIsGood(tbl: Table, t: TypeId, l: Layout, i: nat)
    requires ClosedTable(tbl) && t in tbl && tbl[t].Struct? && i <= |tbl[t].fields| && LayoutGood(tbl, l)
    ensures LayoutGood(tbl, ReadFields(tbl, l, tbl[t].fields, i))
    decreases |tbl[t].fields| - i
  {
    if i < |tbl[t].fields| {
      StepIsGood(tbl, t, l, i);
      LayoutIsGood(tbl, t, ReadField(tbl, l, i, tbl[t].fields[i]), i + 1);
    }
  }

  lemma AddArmGood(tbl: Table, l: Layout, i: nat, d: Decl, tag: Tag)
    requires l.Union? && LayoutGood(tbl, l) && SlotGood(tbl, Slot(d.name, i, d.t, Tail(tag)))
    ensures LayoutGood(tbl, AddArm(l, i, d, tag))
  {
    var r, s := AddArm(l, i, d, tag), Slot(d.name, i, d.t, Tail(tag));
    if r.Union? {
      assert r.body == l.body[i := s] && r.switch == l.switch;
      forall a | a in r.body ensures SlotGood(tbl, r.body[a]) {
        if a != i { assert a in l.body; }
      }
    }
  }

  lemma PlainGood(tbl: Table, l: Layout, s: Slot)
    requires l.Plain? && LayoutGood(tbl, l) && SlotGood(tbl, s)
    ensures LayoutGood(tbl, Plain(l.slots + [s]))
  {
  }

  lemma HeadGood(tbl: Table, i: nat, d: Decl, tag: Tag)
    requires Parse(tbl, d.t, d.tag, MaybeInUnion).0 == Ok(tag)
    requires if Parse(tbl, d.t, d.tag, MaybeInUnion).1 == InUnion then Key(d.t, Tail(tag)) in Universe(tbl)
             else Key(d.t, tag) in Universe(tbl)
    ensures LayoutGood(tbl, ReadField(tbl, Scanning, i, d))
  {
    hide Universe, Parse;
    assert SlotGood(tbl, Slot(d.name, i, d.t, Tail(tag))) || SlotGood(tbl, Slot(d.name, i, d.t, tag));
  }

  lemma StepIsGood(tbl: Table, t: TypeId, l: Layout, i: nat)
    requires ClosedTable(tbl) && t in tbl && tbl[t].Struct? && i < |tbl[t].fields| && LayoutGood(tbl, l)
    ensures LayoutGood(tbl, ReadField(tbl, l, i, tbl[t].fields[i]))
  {
    hide ClosedTable, Universe, Lookup, Fits;
    TypeCloses(tbl, t);
    var d := tbl[t].fields[i];
    var (res, u) := Parse(tbl, d.t, d.tag, Mode(l));
    if (l.Scanning? || l.Plain? || l.Union?) && res.Ok? && KindOf(res.value) != SKIP {
      var tag := res.value;
      ParsedIsGood(tbl, t, d, Mode(l));
      ParsedTagFits(tbl, d.t, d.tag, Mode(l));
      UnionDecidedOnce(tbl, d.t, d.tag, Mode(l));
      if l.Union? {
        AddArmGood(tbl, l, i, d, tag);
      } else if l.Plain? {
        PlainGood(tbl, l, Slot(d.name, i, d.t, tag));
      } else {
        HeadGood(tbl, i, d, tag);
      }
    }
  }
}
