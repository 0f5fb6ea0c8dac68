/** The codec compiler: cached, with deferred codecs standing in for codecs still being built, so
    that cyclic types compile. One goroutine; `Protocol` treats many. */
module Compiler {
  import opened Words
  import opened Types
  import opened Tags
  import opened TagParser
  import opened Codecs
  import opened Structs
  import opened Shapes

  /** The coder's caches and codec objects, with (for proofs) the key each object was made for and
      the keys whose codec is under construction. */
  datatype Snapshot = Snapshot(known: map<Key, nat>, base: map<TypeId, nat>, store: Graph<nat>,
                               origin: map<nat, Key>, pending: set<Key>, next: nat)

  // ---------------------------------------------------------------- soundness of the caches

  ghost predicate NodeSound(tbl: Table, s: Snapshot, r: nat)
    requires r in s.store && r in s.origin
  {
    match s.store[r]
    case DeferredCodec(None) =>
      s.origin[r] in s.pending && s.origin[r] in s.known && s.known[s.origin[r]] == r
    case DeferredCodec(Some(c)) =>
      c in s.store && !s.store[c].DeferredCodec? && RefIs(s.origin, c, s.origin[r])
    case n => Matches(s.origin, n, ShapeOf(tbl, s.origin[r]))
  }

  ghost predicate Sound(tbl: Table, s: Snapshot)
  {
    && s.origin.Keys == s.store.Keys
    && (forall r {:trigger NodeSound(tbl, s, r)} :: r in s.store ==>
          r < s.next && s.origin[r] in Universe(tbl) && NodeSound(tbl, s, r))
    && (forall k :: k in s.known ==>
          && k in Universe(tbl) && s.known[k] in s.store && s.origin[s.known[k]] == k
          && (if k in s.pending then s.store[s.known[k]] == DeferredCodec(None)
              else !s.store[s.known[k]].DeferredCodec?))
    && s.pending <= s.known.Keys
    && (forall t :: t in s.base ==>
          Key(t, []) in s.known && Key(t, []) !in s.pending && s.base[t] == s.known[Key(t, [])])
  }

  /** Cache entries and codec objects, once there, stay as they are. */
  ghost predicate Grew(s: Snapshot, s': Snapshot)
  {
    && Extends(s.known, s'.known) && Extends(s.base, s'.base) && Extends(s.store, s'.store)
    && Extends(s.origin, s'.origin) && s'.pending == s.pending
  }

  /** `LoadOrStore` of a fresh deferred codec. */
  ghost function Begin(s: Snapshot, key: Key): Snapshot
  {
    s.(known := s.known[key := s.next], store := s.store[s.next := DeferredCodec(None)],
       origin := s.origin[s.next := key], pending := s.pending + {key}, next := s.next + 1)
  }

  /** Publication of the finished codec, and resolution of the deferred one. */
  ghost function Finish(s: Snapshot, key: Key, dc: nat, n: Node<nat>): Snapshot
  {
    s.(known := s.known[key := s.next],
       base := if key.tag == [] then s.base[key.t := s.next] else s.base,
       store := s.store[s.next := n][dc := DeferredCodec(Some(s.next))],
       origin := s.origin[s.next := key], pending := s.pending - {key}, next := s.next + 1)
  }

  lemma SoundAt(tbl: Table, s: Snapshot, r: nat)
    requires Sound(tbl, s) && r in s.store
    ensures r in s.origin && r < s.next && s.origin[r] in Universe(tbl) && NodeSound(tbl, s, r)
  {
    assert r in s.origin;
    assert NodeSound(tbl, s, r);
  }

  /** What the methods need to know about sound caches. */
  lemma SoundFacts(tbl: Table, s: Snapshot)
    requires Sound(tbl, s)
    ensures s.next !in s.store && s.next !in s.origin && s.pending <= s.known.Keys
    ensures forall k :: k in s.known ==> s.known[k] in s.store && s.known[k] < s.next && RefIs(s.origin, s.known[k], k)
    ensures forall t :: t in s.base ==> Key(t, []) in s.known && s.base[t] == s.known[Key(t, [])]
  {
    hide Universe, Matches, ShapeOf;
    if s.next in s.store { SoundAt(tbl, s, s.next); }
    forall k | k in s.known ensures s.known[k] < s.next { SoundAt(tbl, s, s.known[k]); }
  }

  /** A node stays sound while keys of resolved codecs keep their origins and its own state is kept. */
  lemma NodeStaysSound(tbl: Table, s: Snapshot, s': Snapshot, r: nat)
    requires r in s.store && r in s.origin && NodeSound(tbl, s, r)
    requires Extends(s.origin, s'.origin) && r in s'.store && s'.store[r] == s.store[r]
    requires s.store[r] == DeferredCodec(None) ==>
      s.origin[r] in s'.pending && s.origin[r] in s'.known && s'.known[s.origin[r]] == r
    requires s.store[r].DeferredCodec? && s.store[r].final.Some? ==>
      s.store[r].final.value in s'.store && s'.store[s.store[r].final.value] == s.store[s.store[r].final.value]
    ensures NodeSound(tbl, s', r)
  {
    if !s.store[r].DeferredCodec? { MatchesExtends(s.origin, s'.origin, s.store[r], ShapeOf(tbl, s.origin[r])); }
  }

  lemma BeginNode(tbl: Table, s: Snapshot, key: Key, r: nat)
    requires Sound(tbl, s) && key !in s.known && key in Universe(tbl) && r in Begin(s, key).store
    ensures var b := Begin(s, key); r < b.next && b.origin[r] in Universe(tbl) && NodeSound(tbl, b, r)
  {
    hide Matches, ShapeOf, Universe;
    SoundFacts(tbl, s);
    if r != s.next {
      SoundAt(tbl, s, r);
      NodeStaysSound(tbl, s, Begin(s, key), r);
    }
  }

  lemma BeginSound(tbl: Table, s: Snapshot, key: Key)
    requires Sound(tbl, s) && key !in s.known && key in Universe(tbl)
    ensures Sound(tbl, Begin(s, key))
  {
    hide Universe, NodeSound;
    var b := Begin(s, key);
    SoundFacts(tbl, s);
    forall r | r in b.store ensures r < b.next && b.origin[r] in Universe(tbl) && NodeSound(tbl, b, r) {
      BeginNode(tbl, s, key, r);
    }
  }

  lemma FinishNode(tbl: Table, s: Snapshot, key: Key, dc: nat, n: Node<nat>, r: nat)
    requires Sound(tbl, s) && key in s.pending && s.known[key] == dc
    requires Matches(s.origin, n, ShapeOf(tbl, key)) && !n.DeferredCodec?
    requires r in Finish(s, key, dc, n).store
    ensures r < s.next + 1 && NodeSound(tbl, Finish(s, key, dc, n), r)
    ensures Finish(s, key, dc, n).origin[r] in Universe(tbl)
  {
    hide Matches, ShapeOf, Universe;
    var f := Finish(s, key, dc, n);
    SoundFacts(tbl, s);
    assert s.store[dc] == DeferredCodec(None) && s.origin[dc] == key;
    if r == s.next {
      MatchesExtends(s.origin, f.origin, n, ShapeOf(tbl, key));
    } else if r != dc {
      SoundAt(tbl, s, r);
      NodeStaysSound(tbl, s, f, r);
    }
  }

  lemma FinishSound(tbl: Table, s: Snapshot, key: Key, dc: nat, n: Node<nat>)
    requires Sound(tbl, s) && key in s.pending && s.known[key] == dc
    requires Matches(s.origin, n, ShapeOf(tbl, key)) && !n.DeferredCodec?
    ensures Sound(tbl, Finish(s, key, dc, n))
  {
    hide Matches, ShapeOf, Universe, NodeSound;
    var f := Finish(s, key, dc, n);
    SoundFacts(tbl, s);
    assert s.store[dc] == DeferredCodec(None);
    forall r | r in f.store ensures r < f.next && f.origin[r] in Universe(tbl) && NodeSound(tbl, f, r) {
      FinishNode(tbl, s, key, dc, n, r);
    }
    forall k | k in f.known
      ensures f.known[k] in f.store && f.origin[f.known[k]] == k
      ensures if k in f.pending then f.store[f.known[k]] == DeferredCodec(None)
              else !f.store[f.known[k]].DeferredCodec?
    {
      if k != key { assert s.known[k] in s.store && s.origin[s.known[k]] == k; }
    }
  }

  /** A whole build, from reservation to resolution, changes nothing that was there before. */
  lemma BuildGrew(s: Snapshot, key: Key, s': Snapshot, n: Node<nat>)
    requires key !in s.known && s.next !in s.store && s.next !in s.origin && key !in s.pending
    requires Grew(Begin(s, key), s') && s'.next !in s'.store && s'.next !in s'.origin
    requires key.tag == [] ==> key.t !in s.base
    ensures Grew(s, Finish(s', key, s.next, n))
  {
  }

  lemma GrewSame(s: Snapshot)
    ensures Grew(s, s)
  {
  }

  lemma GrewRef(s: Snapshot, s': Snapshot, r: nat, k: Key)
    requires Grew(s, s') && RefIs(s.origin, r, k)
    ensures RefIs(s'.origin, r, k)
  {
  }

  /** The keys a container's codec asks for are ones the compiler can build. */
  ghost predicate ElemReady(tbl: Table, t: TypeId, tag: Tag)
  {
    && t in tbl && HasElem(tbl[t]) && KindOf(tag) != OPT
    && Key(tbl[t].elem, Tail(tag)) in Universe(tbl) && (tbl[t].Map? ==> tbl[t].key in tbl)
  }

  lemma KeyInTable(tbl: Table, t: TypeId)
    requires ClosedTable(tbl) && t in tbl
    ensures tbl[t].Map? ==> tbl[t].key in tbl
  {
    TypeCloses(tbl, t);
  }

  lemma StillPending(s: Snapshot, key: Key, s': Snapshot)
    requires Grew(Begin(s, key), s')
    ensures key in s'.pending && key in s'.known && s'.known[key] == s.next
  {
  }

  /** How many keys have not been asked for yet. */
  ghost function Unbuilt(tbl: Table, s: Snapshot): nat { |Universe(tbl) - s.known.Keys| }

  /** A reservation leaves one key fewer to be built. */
  lemma FewerUnknown(tbl: Table, s: Snapshot, key: Key)
    requires key in Universe(tbl) && key !in s.known
    ensures Unbuilt(tbl, Begin(s, key)) < Unbuilt(tbl, s)
  {
    var a, b := Universe(tbl) - Begin(s, key).known.Keys, Universe(tbl) - s.known.Keys;
    Smaller(a, b - {key});
  }

  lemma Shrinks(tbl: Table, s: Snapshot, s': Snapshot)
    requires Grew(s, s')
    ensures Unbuilt(tbl, s') <= Unbuilt(tbl, s)
  {
    Smaller(Universe(tbl) - s'.known.Keys, Universe(tbl) - s.known.Keys);
  }

  // ---------------------------------------------------------------- the compiler

  /** Slots and the fields made for them. */
  ghost predicate SlotsAre(origin: map<nat, Key>, fs: seq<Field<nat>>, slots: seq<Slot>)
  {
    |fs| == |slots| && forall i :: 0 <= i < |fs| ==> FieldIs(origin, fs[i], SlotField(slots[i]))
  }

  ghost predicate ArmsAre(origin: map<nat, Key>, fs: map<nat, Field<nat>>, body: map<nat, Slot>)
  {
    fs.Keys == body.Keys && forall a :: a in fs ==> FieldIs(origin, fs[a], SlotField(body[a]))
  }

  lemma GrewFurther(a: Snapshot, b: Snapshot, c: Snapshot)
    requires Grew(a, b) && Grew(b, c)
    ensures Grew(a, c)
  {
  }

  lemma SlotsGrow(s: Snapshot, s': Snapshot, fs: seq<Field<nat>>, slots: seq<Slot>, f: Field<nat>, slot: Slot)
    requires SlotsAre(s.origin, fs, slots) && Grew(s, s') && FieldIs(s'.origin, f, SlotField(slot))
    ensures SlotsAre(s'.origin, fs + [f], slots + [slot])
  {
  }

  lemma ArmsGrow(s: Snapshot, s': Snapshot, sw: Field<nat>, swSlot: Field<Key>, fs: map<nat, Field<nat>>,
                 body: map<nat, Slot>, i: nat, f: Field<nat>, slot: Slot)
    requires ArmsAre(s.origin, fs, body) && Grew(s, s') && FieldIs(s'.origin, f, SlotField(slot))
    requires FieldIs(s.origin, sw, swSlot)
    ensures ArmsAre(s'.origin, fs[i := f], body[i := slot]) && FieldIs(s'.origin, sw, swSlot)
  {
  }

  lemma OneSlot(origin: map<nat, Key>, f: Field<nat>, slot: Slot)
    requires FieldIs(origin, f, SlotField(slot))
    ensures SlotsAre(origin, [f], [slot])
  {
  }

  lemma NoArms(origin: map<nat, Key>, body: map<nat, Slot>)
    requires body == map[]
    ensures ArmsAre(origin, map[], body)
  {
  }

  lemma StructMatches(origin: map<nat, Key>, name: string, width: nat, fs: seq<Field<nat>>, l: Layout)
    requires l.Plain? && SlotsAre(origin, fs, l.slots)
    ensures Matches(origin, StructCodec(name, width, fs), StructShape(name, width, l))
  {
  }

  lemma UnionMatches(origin: map<nat, Key>, name: string, width: nat, switch: Field<nat>,
                     fs: map<nat, Field<nat>>, l: Layout)
    requires l.Union? && FieldIs(origin, switch, SlotField(l.switch)) && ArmsAre(origin, fs, l.body)
    ensures Matches(origin, UnionCodec(name, width, switch, l.kind, fs, l.cases, l.default),
        StructShape(name, width, l))
  {
  }

  lemma ReadFieldsEnd(tbl: Table, l: Layout, decls: seq<Decl>)
    ensures ReadFields(tbl, l, decls, |decls|) == l
  {
  }

  lemma SlotsInUniverse(tbl: Table, l: Layout)
    requires LayoutGood(tbl, l)
    ensures l.Plain? ==> forall i :: 0 <= i < |l.slots| ==> Key(l.slots[i].t, l.slots[i].tag) in Universe(tbl)
    ensures l.Union? ==> Key(l.switch.t, l.switch.tag) in Universe(tbl)
  {
    if l.Plain? {
      forall i | 0 <= i < |l.slots| ensures Key(l.slots[i].t, l.slots[i].tag) in Universe(tbl) {
        assert SlotGood(tbl, l.slots[i]);
      }
    }
  }

  // ---------------------------------------------------------------- one field of the struct loops

  /** The reading after the first field that is not skipped. */
  function HeadLayout(tbl: Table, f: Decl, i: nat, isUnion: IsInUnion, tag: Tag): Layout
  {
    if isUnion == NotInUnion then Plain([Slot(f.name, i, f.t, tag)])
    else
      match SwitchKindOf(Lookup(tbl, f.t))
      case None => PanicsKind
      case Some(kind) => Union(Slot(f.name, i, f.t, Tail(tag)), kind, map[], map[], -1)
  }

  lemma HeadStep(tbl: Table, decls: seq<Decl>, i: nat)
    requires i < |decls|
    ensures var f := decls[i]; var (res, u) := Parse(tbl, f.t, f.tag, MaybeInUnion);
      match res
      case Err(e) => ReadFields(tbl, Scanning, decls, i) == Broken(FieldTag(f.name, e))
      case Ok(tag) =>
        if u == MaybeInUnion then ReadFields(tbl, Scanning, decls, i) == ReadFields(tbl, Scanning, decls, i + 1)
        else
          && HeadLayout(tbl, f, i, u, tag) == ReadField(tbl, Scanning, i, f)
          && ReadFields(tbl, Scanning, decls, i) == ReadFields(tbl, HeadLayout(tbl, f, i, u, tag), decls, i + 1)
  {
    var f := decls[i];
    var (res, u) := Parse(tbl, f.t, f.tag, MaybeInUnion);
    if res.Err? {
      StoppedStays(tbl, Broken(FieldTag(f.name, res.error)), decls, i + 1);
    } else if f.tag.Parts? {
      FirstTag(tbl, f.t, f.tag);
    }
  }

  /** The first loop of `makeStructCodec`. */
  method ScanForHead(tbl: Table, decls: seq<Decl>)
    returns (i: nat, isUnion: IsInUnion, tag: Tag, err: Option<BuildError>)
    ensures err.Some? ==> LayoutOf(tbl, decls) == Broken(err.value)
    ensures err.None? && isUnion == MaybeInUnion ==> LayoutOf(tbl, decls) == Scanning
    ensures err.None? && isUnion != MaybeInUnion ==>
      && 0 < i <= |decls|
      && HeadLayout(tbl, decls[i - 1], i - 1, isUnion, tag) == ReadField(tbl, Scanning, i - 1, decls[i - 1])
      && ReadFields(tbl, HeadLayout(tbl, decls[i - 1], i - 1, isUnion, tag), decls, i) == LayoutOf(tbl, decls)
  {
    hide Parse, HeadLayout, ReadField;
    i, isUnion, tag, err := 0, MaybeInUnion, [], None;
    while i < |decls| && isUnion == MaybeInUnion
      invariant 0 <= i <= |decls| && err == None
      invariant isUnion == MaybeInUnion ==> ReadFields(tbl, Scanning, decls, i) == LayoutOf(tbl, decls)
      invariant isUnion != MaybeInUnion ==>
        && i > 0
        && HeadLayout(tbl, decls[i - 1], i - 1, isUnion, tag) == ReadField(tbl, Scanning, i - 1, decls[i - 1])
        && ReadFields(tbl, HeadLayout(tbl, decls[i - 1], i - 1, isUnion, tag), decls, i) == LayoutOf(tbl, decls)
      decreases |decls| - i
    {
      var f := decls[i];
      var (res, u) := Parse(tbl, f.t, f.tag, isUnion);
      HeadStep(tbl, decls, i);
      if res.Err? {
        err := Some(FieldTag(f.name, res.error));
        return;
      }
      tag, isUnion := res.value, u;
      i := i + 1;
    }
  }

  lemma HeadIsGood(tbl: Table, t: TypeId, i: nat, isUnion: IsInUnion, tag: Tag)
    requires ClosedTable(tbl) && SwitchesSupported(tbl) && t in tbl && tbl[t].Struct? && 0 < i <= |tbl[t].fields|
    requires var decls := tbl[t].fields; var l := HeadLayout(tbl, decls[i - 1], i - 1, isUnion, tag);
      && l == ReadField(tbl, Scanning, i - 1, decls[i - 1])
      && ReadFields(tbl, l, decls, i) == LayoutOf(tbl, decls)
    ensures var l := HeadLayout(tbl, tbl[t].fields[i - 1], i - 1, isUnion, tag);
      LayoutGood(tbl, l) && (isUnion != NotInUnion ==> l.Union?)
  {
    var l := HeadLayout(tbl, tbl[t].fields[i - 1], i - 1, isUnion, tag);
    StepIsGood(tbl, t, Scanning, i - 1);
    if l.PanicsKind? { StoppedStays(tbl, l, tbl[t].fields, i); }
  }

  lemma PlainStep(tbl: Table, t: TypeId, l: Layout, i: nat)
    requires ClosedTable(tbl) && t in tbl && tbl[t].Struct? && i < |tbl[t].fields| && l.Plain? && LayoutGood(tbl, l)
    ensures var decls := tbl[t].fields; var f := decls[i];
      match Parse(tbl, f.t, f.tag, NotInUnion).0
      case Err(e) => ReadFields(tbl, l, decls, i) == Broken(FieldTag(f.name, e))
      case Ok(tag) =>
        if KindOf(tag) == SKIP then ReadFields(tbl, l, decls, i) == ReadFields(tbl, l, decls, i + 1)
        else
          var l' := Plain(l.slots + [Slot(f.name, i, f.t, tag)]);
          && ReadFields(tbl, l, decls, i) == ReadFields(tbl, l', decls, i + 1)
          && LayoutGood(tbl, l') && Key(f.t, tag) in Universe(tbl)
  {
    var decls := tbl[t].fields;
    var f := decls[i];
    var res := Parse(tbl, f.t, f.tag, NotInUnion).0;
    StepIsGood(tbl, t, l, i);
    var l' := ReadField(tbl, l, i, f);
    if res.Err? {
      StoppedStays(tbl, l', decls, i + 1);
    } else if KindOf(res.value) != SKIP {
      SlotsInUniverse(tbl, l');
      assert l'.slots[|l.slots|] == Slot(f.name, i, f.t, res.value);
    }
  }

  lemma UnionStep(tbl: Table, t: TypeId, l: Layout, i: nat)
    requires ClosedTable(tbl) && t in tbl && tbl[t].Struct? && i < |tbl[t].fields| && l.Union? && LayoutGood(tbl, l)
    ensures var decls := tbl[t].fields; var f := decls[i];
      match Parse(tbl, f.t, f.tag, InUnion).0
      case Err(e) => ReadFields(tbl, l, decls, i) == Broken(FieldTag(f.name, e))
      case Ok(tag) =>
        if KindOf(tag) == SKIP then ReadFields(tbl, l, decls, i) == ReadFields(tbl, l, decls, i + 1)
        else
          var l' := AddArm(l, i, f, tag);
          && ReadFields(tbl, l, decls, i) == (if l'.Broken? then l' else ReadFields(tbl, l', decls, i + 1))
          && LayoutGood(tbl, l') && Key(f.t, Tail(tag)) in Universe(tbl)
          && (KindOf(tag) == UNION_CASES ==> tag != [])
  {
    hide AddArm, LayoutGood, Universe, Parse, ClosedTable;
    var decls := tbl[t].fields;
    var f := decls[i];
    var res := Parse(tbl, f.t, f.tag, InUnion).0;
    StepIsGood(tbl, t, l, i);
    var l' := ReadField(tbl, l, i, f);
    if res.Ok? && KindOf(res.value) != SKIP { ArmKeyIsGood(tbl, t, f); }
    if l'.Broken? { StoppedStays(tbl, l', decls, i + 1); }
  }

  /** What adding an arm does to each part of the table. */
  lemma AddArmIs(l: Layout, i: nat, d: Decl, tag: Tag)
    requires l.Union?
    ensures var l' := AddArm(l, i, d, tag);
      && (KindOf(tag) == UNION_CASES ==>
            match AddCases(l.cases, tag[0].vs, i)
            case Err(v) => l' == Broken(DuplicateCase(v))
            case Ok(cs) => l'.Union? && l'.cases == cs && l'.default == l.default)
      && (KindOf(tag) == UNION_DEFAULT ==>
            if l.default != -1 then l' == Broken(DuplicateDefault)
            else l'.Union? && l'.cases == l.cases && l'.default == i)
      && (KindOf(tag) != UNION_CASES && KindOf(tag) != UNION_DEFAULT ==>
            l'.Union? && l'.cases == l.cases && l'.default == l.default)
      && (l'.Union? ==>
            && l'.switch == l.switch && l'.kind == l.kind
            && l'.body == l.body[i := Slot(d.name, i, d.t, Tail(tag))])
  {
  }

  lemma ArmKeyIsGood(tbl: Table, t: TypeId, d: Decl)
    requires ClosedTable(tbl) && t in tbl && tbl[t].Struct? && d in tbl[t].fields
    requires Parse(tbl, d.t, d.tag, InUnion).0.Ok? && KindOf(Parse(tbl, d.t, d.tag, InUnion).0.value) != SKIP
    ensures Key(d.t, Tail(Parse(tbl, d.t, d.tag, InUnion).0.value)) in Universe(tbl)
  {
    TypeCloses(tbl, t);
    ParsedTagFits(tbl, d.t, d.tag, InUnion);
    ParsedIsGood(tbl, t, d, InUnion);
  }

  class Coder {
    const tbl: Table
    var knownCodecs: map<Key, nat>
    var knownBaseCodecs: map<TypeId, nat>
    var store: Graph<nat>
    var next: nat
    ghost var origin: map<nat, Key>
    ghost var pending: set<Key>

    ghost function Snap(): Snapshot
      reads this
    {
      Snapshot(knownCodecs, knownBaseCodecs, store, origin, pending, next)
    }

    /** The caches are sound, for a table the compiler can handle. */
    ghost predicate Valid()
      reads this
    {
      ClosedTable(tbl) && SwitchesSupported(tbl) && Sound(tbl, Snap())
    }

    constructor (tbl: Table)
      requires ClosedTable(tbl) && SwitchesSupported(tbl)
      ensures Valid() && this.tbl == tbl && pending == {} && knownCodecs == map[]
    {
      this.tbl := tbl;
      knownCodecs, knownBaseCodecs, store, next := map[], map[], map[], 0;
      origin, pending := map[], {};
    }

    /** The codec for a type without a tag, as the encoder looks it up. */
    method GetBaseCodec(t: TypeId) returns (r: nat)
      requires Valid() && t in tbl
      modifies this
      ensures Valid() && Grew(old(Snap()), Snap()) && RefIs(origin, r, Key(t, [])) && r in store
      ensures Key(t, []) in knownCodecs && r == knownCodecs[Key(t, [])]
      ensures Key(t, []) !in old(knownCodecs) ==> t in knownBaseCodecs && knownBaseCodecs[t] == r
    {
      hide Unbuilt, Sound, Universe, ShapeOf;
      SoundFacts(tbl, Snap());
      if t in knownBaseCodecs { return knownBaseCodecs[t]; }
      EmptyTagIsGood(tbl, t);
      r := GetNewCodec(t, []);
    }

    method GetCodec(t: TypeId, tag: Tag) returns (r: nat)
      requires Valid() && Key(t, tag) in Universe(tbl)
      modifies this
      ensures Valid() && Grew(old(Snap()), Snap()) && RefIs(origin, r, Key(t, tag)) && r in store
      ensures Key(t, tag) in knownCodecs && r == knownCodecs[Key(t, tag)]
      ensures Key(t, tag) !in old(knownCodecs) && tag == [] ==> t in knownBaseCodecs && knownBaseCodecs[t] == r
      decreases Unbuilt(tbl, Snap()), 1
    {
      hide Unbuilt, Sound, Universe, ShapeOf;
      SoundFacts(tbl, Snap());
      if Key(t, tag) in knownCodecs { return knownCodecs[Key(t, tag)]; }
      r := GetNewCodec(t, tag);
    }

    method GetNewCodec(t: TypeId, tag: Tag) returns (r: nat)
      requires Valid() && Key(t, tag) in Universe(tbl)
      modifies this
      ensures Valid() && Grew(old(Snap()), Snap()) && RefIs(origin, r, Key(t, tag)) && r in store
      ensures Key(t, tag) in knownCodecs && r == knownCodecs[Key(t, tag)]
      ensures Key(t, tag) !in old(knownCodecs) && tag == [] ==> t in knownBaseCodecs && knownBaseCodecs[t] == r
      decreases Unbuilt(tbl, Snap()), 0
    {
      hide Unbuilt, Sound, Universe, ShapeOf, Matches, Grew, Begin, Finish, ClosedTable, SwitchesSupported;
      var key := Key(t, tag);
      ghost var s := Snap();
      SoundFacts(tbl, s);
      GrewSame(s);
      if key in knownCodecs { return knownCodecs[key]; }
      BeginSound(tbl, s, key);
      FewerUnknown(tbl, s, key);
      var dc := Reserve(key);
      var cc := BuildCodec(t, tag);
      ghost var s' := Snap();
      SoundFacts(tbl, s');
      StillPending(s, key, s');
      FinishSound(tbl, s', key, dc, cc);
      BuildGrew(s, key, s', cc);
      r := Publish(key, dc, cc);
      SoundFacts(tbl, Snap());
      assert key in Snap().known && Snap().known[key] == r;
    }

    /** `LoadOrStore` of a new deferred codec under a key that is not known. */
    method Reserve(key: Key) returns (dc: nat)
      modifies this
      ensures dc == old(next) && Snap() == Begin(old(Snap()), key)
      ensures knownCodecs == old(knownCodecs)[key := dc] && store == old(store)[dc := DeferredCodec(None)]
      ensures knownBaseCodecs == old(knownBaseCodecs)
    {
      dc := next;
      next := next + 1;
      knownCodecs := knownCodecs[key := dc];
      store := store[dc := DeferredCodec(None)];
      origin := origin[dc := key];
      pending := pending + {key};
    }

    /** Publishes the real codec in both caches and resolves the deferred one. */
    method Publish(key: Key, dc: nat, cc: Node<nat>) returns (r: nat)
      requires dc < next
      modifies this
      ensures Snap() == Finish(old(Snap()), key, dc, cc) && r == old(next)
      ensures knownCodecs == old(knownCodecs)[key := r] && store == old(store)[r := cc][dc := DeferredCodec(Some(r))]
      ensures knownBaseCodecs == if key.tag == [] then old(knownBaseCodecs)[key.t := r] else old(knownBaseCodecs)
    {
      r := next;
      next := next + 1;
      store := store[r := cc];
      origin := origin[r := key];
      knownCodecs := knownCodecs[key := r];
      if key.tag == [] {
        knownBaseCodecs := knownBaseCodecs[key.t := r];
      }
      store := store[dc := DeferredCodec(Some(r))];
      pending := pending - {key};
    }

    method BuildCodec(t: TypeId, tag: Tag) returns (n: Node<nat>)
      requires Valid() && Key(t, tag) in Universe(tbl)
      modifies this
      ensures Valid() && Grew(old(Snap()), Snap())
      ensures Matches(origin, n, ShapeOf(tbl, Key(t, tag))) && !n.DeferredCodec?
      decreases Unbuilt(tbl, Snap()), 6
    {
      hide Unbuilt, Sound, Grew, Universe, Fits, ClosedTable, SwitchesSupported, StringShape, UntaggedShape;
      GrewSame(Snap());
      UniverseIsGood(tbl, t, tag);
      if KindOf(tag) == OPT {
        StrippedIsGood(tbl, t, tag);
        var elem := GetCodec(t, StripOpt(tag));
        return OptCodec(elem);
      }
      var ty := Lookup(tbl, t);
      if HasElem(ty) {
        TailIsGood(tbl, t, tag);
        KeyInTable(tbl, t);
        match ty {
          case Pointer(_) => n := MakePtrCodec(t, tag);
          case Array(_, _) => n := MakeArrayCodec(t, tag);
          case Slice(_) => n := MakeSliceCodec(t, tag);
          case Map(_, _) => n := MakeMapCodec(t, tag);
        }
      } else if ty.String? {
        n := MakeStringCodec(tag);
      } else if tag != [] {
        return ErrorCodec(InvalidTag);
      } else {
        n := BuildUntagged(t);
      }
    }

    /** The kinds that admit no tags. */
    method BuildUntagged(t: TypeId) returns (n: Node<nat>)
      requires Valid() && t in tbl
      modifies this
      ensures Valid() && Grew(old(Snap()), Snap())
      ensures Matches(origin, n, UntaggedShape(tbl, tbl[t])) && !n.DeferredCodec?
      decreases Unbuilt(tbl, Snap()), 5
    {
      hide Unbuilt, Sound, Grew, Universe, ClosedTable, SwitchesSupported, LayoutOf, StructShape;
      GrewSame(Snap());
      if tbl[t].Basic? {
        return PrimCodec(tbl[t].prim);
      } else if tbl[t].Struct? {
        n := MakeStructCodec(t);
      } else {
        return ErrorCodec(InvalidType);
      }
    }

    method MakePtrCodec(t: TypeId, tag: Tag) returns (n: Node<nat>)
      requires Valid() && ElemReady(tbl, t, tag) && tbl[t].Pointer?
      modifies this
      ensures Valid() && Grew(old(Snap()), Snap())
      ensures Matches(origin, n, ShapeOf(tbl, Key(t, tag))) && !n.DeferredCodec?
      decreases Unbuilt(tbl, Snap()), 3
    {
      hide Unbuilt, Sound, Grew, Universe, ClosedTable, SwitchesSupported, UntaggedShape, StringShape;
      GrewSame(Snap());
      var ty := tbl[t];
      var elem := GetCodec(ty.elem, Tail(tag));
      n := PtrCodec(elem);
    }

    method MakeArrayCodec(t: TypeId, tag: Tag) returns (n: Node<nat>)
      requires Valid() && ElemReady(tbl, t, tag) && tbl[t].Array?
      modifies this
      ensures Valid() && Grew(old(Snap()), Snap())
      ensures Matches(origin, n, ShapeOf(tbl, Key(t, tag))) && !n.DeferredCodec?
      decreases Unbuilt(tbl, Snap()), 3
    {
      hide Unbuilt, Sound, Grew, Universe, ClosedTable, SwitchesSupported, UntaggedShape, StringShape;
      GrewSame(Snap());
      var ty := tbl[t];
      if KindOf(tag) != NOOP { return ErrorCodec(InvalidTag); }
      if KindOf(Tail(tag)) == OPAQUE { return OpaqueArrayCodec(ty.len); }
      var elem := GetCodec(ty.elem, Tail(tag));
      n := ArrayCodec(ty.len, elem);
    }

    method MakeSliceCodec(t: TypeId, tag: Tag) returns (n: Node<nat>)
      requires Valid() && ElemReady(tbl, t, tag) && tbl[t].Slice?
      modifies this
      ensures Valid() && Grew(old(Snap()), Snap())
      ensures Matches(origin, n, ShapeOf(tbl, Key(t, tag))) && !n.DeferredCodec?
      decreases Unbuilt(tbl, Snap()), 3
    {
      hide Unbuilt, Sound, Grew, Universe, ClosedTable, SwitchesSupported, UntaggedShape, StringShape;
      GrewSame(Snap());
      var ty := tbl[t];
      var max := NO_LIMIT;
      if KindOf(tag) == MAX_LEN {
        max := OnlyValue(tag);
      } else if KindOf(tag) != NOOP {
        return ErrorCodec(InvalidTag);
      }
      if KindOf(Tail(tag)) == OPAQUE { return OpaqueSliceCodec(max); }
      var elem := GetCodec(ty.elem, Tail(tag));
      n := SliceCodec(max, elem);
    }

    method MakeMapCodec(t: TypeId, tag: Tag) returns (n: Node<nat>)
      requires Valid() && ElemReady(tbl, t, tag) && tbl[t].Map?
      modifies this
      ensures Valid() && Grew(old(Snap()), Snap())
      ensures Matches(origin, n, ShapeOf(tbl, Key(t, tag))) && !n.DeferredCodec?
      decreases Unbuilt(tbl, Snap()), 3
    {
      hide Unbuilt, Sound, Grew, Universe, ClosedTable, SwitchesSupported, UntaggedShape, StringShape;
      GrewSame(Snap());
      var ty := tbl[t];
      var max := NO_LIMIT;
      if KindOf(tag) == MAX_LEN {
        max := OnlyValue(tag);
      } else if KindOf(tag) != NOOP {
        return ErrorCodec(InvalidTag);
      }
      EmptyTagIsGood(tbl, ty.key);
      var key := GetCodec(ty.key, []);
      ghost var mid := Snap();
      Shrinks(tbl, old(Snap()), mid);
      var elem := GetCodec(ty.elem, Tail(tag));
      GrewFurther(old(Snap()), mid, Snap());
      GrewRef(mid, Snap(), key, Key(ty.key, []));
      n := MapCodec(max, key, elem);
    }

    method MakeStringCodec(tag: Tag) returns (n: Node<nat>)
      ensures forall o: map<nat, Key> :: Matches(o, n, StringShape(tag))
      ensures !n.DeferredCodec?
    {
      if Tail(tag) != [] { return ErrorCodec(StringTags); }
      var len, fixed := NO_LIMIT, false;
      if KindOf(tag) == LEN {
        len, fixed := OnlyValue(tag), true;
      } else if KindOf(tag) == MAX_LEN {
        len := OnlyValue(tag);
      } else if KindOf(tag) != NOOP {
        return ErrorCodec(InvalidTag);
      }
      n := if fixed then FixedStringCodec(len) else VarStringCodec(len);
    }

    method MakeField(index: nat, d: Decl, tag: Tag) returns (f: Field<nat>)
      requires Valid() && Key(d.t, tag) in Universe(tbl)
      modifies this
      ensures Valid() && Grew(old(Snap()), Snap())
      ensures FieldIs(origin, f, SlotField(Slot(d.name, index, d.t, tag)))
      decreases Unbuilt(tbl, Snap()), 2
    {
      var codec := GetCodec(d.t, tag);
      f := Field(d.name, index, codec);
    }

    /** A scan for the first field that is not skipped, then the struct loop or the union loop. */
    method MakeStructCodec(t: TypeId) returns (n: Node<nat>)
      requires Valid() && t in tbl && tbl[t].Struct?
      modifies this
      ensures Valid() && Grew(old(Snap()), Snap())
      ensures Matches(origin, n, UntaggedShape(tbl, tbl[t])) && !n.DeferredCodec?
      decreases Unbuilt(tbl, Snap()), 4
    {
      hide Unbuilt, Sound, Grew, Universe, ClosedTable, SwitchesSupported, LayoutOf, ReadFields, LayoutGood;
      GrewSame(Snap());
      var name, decls := tbl[t].name, tbl[t].fields;
      var i, isUnion, tag, err := ScanForHead(tbl, decls);
      if err.Some? { return ErrorCodec(err.value); }
      match isUnion
      case MaybeInUnion => n := StructCodec(name, |decls|, []);
      case NotInUnion =>
        HeadIsGood(tbl, t, i, isUnion, tag);
        n := MakePlainCodec(t, i, tag);
      case InUnion =>
        HeadIsGood(tbl, t, i, isUnion, tag);
        n := MakeUnionCodec(t, i, tag);
    }

    /** The struct loop, from the first field that is not skipped. */
    method MakePlainCodec(t: TypeId, start: nat, tag: Tag) returns (n: Node<nat>)
      requires Valid() && t in tbl && tbl[t].Struct? && 0 < start <= |tbl[t].fields|
      requires var l := HeadLayout(tbl, tbl[t].fields[start - 1], start - 1, NotInUnion, tag);
        LayoutGood(tbl, l) && ReadFields(tbl, l, tbl[t].fields, start) == LayoutOf(tbl, tbl[t].fields)
      modifies this
      ensures Valid() && Grew(old(Snap()), Snap())
      ensures Matches(origin, n, UntaggedShape(tbl, tbl[t])) && !n.DeferredCodec?
      decreases Unbuilt(tbl, Snap()), 3
    {
      hide Unbuilt, Sound, Grew, Universe, ClosedTable, SwitchesSupported, LayoutOf, ReadFields, LayoutGood, FieldIs,
          Matches;
      hide Parse, SlotsAre;
      var name, decls := tbl[t].name, tbl[t].fields;
      var f := decls[start - 1];
      ghost var l := Plain([Slot(f.name, start - 1, f.t, tag)]);
      SlotsInUniverse(tbl, l);
      assert l.slots[0].t == f.t && l.slots[0].tag == tag;
      var first := MakeField(start - 1, f, tag);
      var fields, i := [first], start;
      OneSlot(origin, first, l.slots[0]);
      while i < |decls|
        invariant start <= i <= |decls| && Valid() && Grew(old(Snap()), Snap())
        invariant l.Plain? && LayoutGood(tbl, l) && SlotsAre(origin, fields, l.slots)
        invariant ReadFields(tbl, l, decls, i) == LayoutOf(tbl, decls)
      {
        f := decls[i];
        var res := Parse(tbl, f.t, f.tag, NotInUnion).0;
        PlainStep(tbl, t, l, i);
        if res.Err? { n := FailedStruct(t, FieldTag(f.name, res.error)); return; }
        if KindOf(res.value) != SKIP {
          ghost var slot := Slot(f.name, i, f.t, res.value);
          Shrinks(tbl, old(Snap()), Snap());
          ghost var s := Snap();
          var fd := MakeField(i, f, res.value);
          GrewFurther(old(Snap()), s, Snap());
          SlotsGrow(s, Snap(), fields, l.slots, fd, slot);
          fields := fields + [fd];
          l := Plain(l.slots + [slot]);
        }
        i := i + 1;
      }
      n := StructCodec(name, |decls|, fields);
      ReadFieldsEnd(tbl, l, decls);
      StructMatches(origin, name, |decls|, fields, l);
    }

    /** The error codec a struct gets. */
    method FailedStruct(t: TypeId, why: BuildError) returns (n: Node<nat>)
      requires t in tbl && tbl[t].Struct? && LayoutOf(tbl, tbl[t].fields) == Broken(why)
      ensures Matches(origin, n, UntaggedShape(tbl, tbl[t])) && !n.DeferredCodec?
    {
      n := ErrorCodec(why);
    }

    /** The union loop, from the field after the switch. */
    method MakeUnionCodec(t: TypeId, start: nat, tag: Tag) returns (n: Node<nat>)
      requires Valid() && t in tbl && tbl[t].Struct? && 0 < start <= |tbl[t].fields|
      requires var l := HeadLayout(tbl, tbl[t].fields[start - 1], start - 1, InUnion, tag);
        l.Union? && LayoutGood(tbl, l) && ReadFields(tbl, l, tbl[t].fields, start) == LayoutOf(tbl, tbl[t].fields)
      modifies this
      ensures Valid() && Grew(old(Snap()), Snap())
      ensures Matches(origin, n, UntaggedShape(tbl, tbl[t])) && !n.DeferredCodec?
      decreases Unbuilt(tbl, Snap()), 3
    {
      hide Unbuilt, Sound, Grew, Universe, ClosedTable, SwitchesSupported, LayoutOf, ReadFields, LayoutGood, FieldIs,
          Matches;
      hide Parse, AddArm, AddCases, ArmsAre;
      var name, decls := tbl[t].name, tbl[t].fields;
      var f := decls[start - 1];
      var kind := SwitchKindOf(Lookup(tbl, f.t)).value;
      ghost var l := HeadLayout(tbl, f, start - 1, InUnion, tag);
      SlotsInUniverse(tbl, l);
      var switch := MakeField(start - 1, f, Tail(tag));
      var body: map<nat, Field<nat>> := map[];
      var cases: map<u32, nat> := map[];
      var default, i := -1, start;
      NoArms(origin, l.body);
      while i < |decls|
        invariant start <= i <= |decls| && Valid() && Grew(old(Snap()), Snap())
        invariant l.Union? && LayoutGood(tbl, l) && l.kind == kind
        invariant FieldIs(origin, switch, SlotField(l.switch)) && ArmsAre(origin, body, l.body)
        invariant cases == l.cases && default == l.default
        invariant ReadFields(tbl, l, decls, i) == LayoutOf(tbl, decls)
      {
        f := decls[i];
        var res := Parse(tbl, f.t, f.tag, InUnion).0;
        UnionStep(tbl, t, l, i);
        if res.Err? { n := FailedStruct(t, FieldTag(f.name, res.error)); return; }
        if KindOf(res.value) != SKIP {
          var arm := res.value;
          ghost var slot := Slot(f.name, i, f.t, Tail(arm));
          Shrinks(tbl, old(Snap()), Snap());
          ghost var s := Snap();
          var fd := MakeField(i, f, Tail(arm));
          GrewFurther(old(Snap()), s, Snap());
          ArmsGrow(s, Snap(), switch, SlotField(l.switch), body, l.body, i, fd, slot);
          body := body[i := fd];
          AddArmIs(l, i, f, arm);
          if KindOf(arm) == UNION_CASES {
            var filled := FillCases(cases, arm[0].vs, i);
            if filled.Err? { n := FailedStruct(t, DuplicateCase(filled.error)); return; }
            cases := filled.value;
          } else if KindOf(arm) == UNION_DEFAULT {
            if default != -1 { n := FailedStruct(t, DuplicateDefault); return; }
            default := i;
          }
          l := AddArm(l, i, f, arm);
        }
        i := i + 1;
      }
      n := UnionCodec(name, |decls|, switch, kind, body, cases, default);
      ReadFieldsEnd(tbl, l, decls);
      UnionMatches(origin, name, |decls|, switch, body, l);
    }

    /** The loop over the values of one `union:` tag. */
    method FillCases(cases0: map<u32, nat>, vs: seq<u32>, i: nat) returns (r: Result<map<u32, nat>, u32>)
      ensures r == AddCases(cases0, vs, i)
    {
      var cases: map<u32, nat> := cases0;
      var j := 0;
      assert vs[0..] == vs;
      while j < |vs|
        invariant 0 <= j <= |vs| && AddCases(cases, vs[j..], i) == AddCases(cases0, vs, i)
      {
        assert vs[j..][0] == vs[j] && vs[j..][1..] == vs[j + 1..];
        if vs[j] in cases { return Err(vs[j]); }
        cases := cases[vs[j] := i];
        j := j + 1;
      }
      return Ok(cases);
    }
  }
}
