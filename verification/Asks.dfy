/** Which codecs the build of each codec asks for, and that compiling any closed table of types, cyclic
    or not, on any number of goroutines, takes each of them a bounded number of steps. */
module Asks {
  import opened Words
  import opened Types
  import opened Tags
  import opened TagParser
  import opened Spelling
  import opened Codecs
  import opened Structs
  import opened Layouts
  import opened Shapes
  import opened Protocol
  import opened Runs

  /** The `getCodec` calls of `buildCodec`, in order. */
  function AsksOf(tbl: Table, key: Key): seq<Key>
  {
    var (t, tag) := (key.t, key.tag);
    if KindOf(tag) == OPT then [Key(t, StripOpt(tag))] else
    var k := KindOf(tag);
    match Lookup(tbl, t)
    case Pointer(elem) => [Key(elem, Tail(tag))]
    case Array(_, elem) => if k != NOOP || KindOf(Tail(tag)) == OPAQUE then [] else [Key(elem, Tail(tag))]
    case Slice(elem) =>
      if (k != NOOP && k != MAX_LEN) || KindOf(Tail(tag)) == OPAQUE then [] else [Key(elem, Tail(tag))]
    case Map(key, elem) => if k != NOOP && k != MAX_LEN then [] else [Key(key, []), Key(elem, Tail(tag))]
    case Struct(_, decls) => if tag != [] then [] else FieldAsks(tbl, Scanning, decls, 0)
    case _ => []
  }

  /** The key of the codec made for a field whose tag has been parsed. */
  function FieldKey(d: Decl, tag: Tag): Key { Key(d.t, if IsUnionKind(KindOf(tag)) then Tail(tag) else tag) }

  /** The struct loops ask for one codec per unskipped field, up to a tag or a case that is in error; an
      unsupported switch panics before its codec is asked for. */
  function FieldAsks(tbl: Table, l: Layout, decls: seq<Decl>, i: nat): (ks: seq<Key>)
    requires i <= |decls|
    ensures |ks| <= |decls| - i
    decreases |decls| - i
  {
    if i == |decls| || !(l.Scanning? || l.Plain? || l.Union?) then [] else
    var d := decls[i];
    match Parse(tbl, d.t, d.tag, Mode(l)).0
    case Err(_) => []
    case Ok(tag) =>
      var l' := ReadField(tbl, l, i, d);
      (if KindOf(tag) == SKIP || l'.PanicsKind? then [] else [FieldKey(d, tag)]) + FieldAsks(tbl, l', decls, i + 1)
  }

  function SlotKey(s: Slot): Key { Key(s.t, s.tag) }

  function SlotKeys(slots: seq<Slot>): (ks: seq<Key>)
    ensures |ks| == |slots| && forall j :: 0 <= j < |slots| ==> ks[j] == SlotKey(slots[j])
  {
    seq(|slots|, j requires 0 <= j < |slots| => SlotKey(slots[j]))
  }

  function SlotsSoFar(l: Layout): seq<Slot> { if l.Plain? then l.slots else [] }

  /** A struct that compiles without error asks for exactly the codecs of its fields, in order. */
  lemma {:induction false} FieldAsksAreSlots(tbl: Table, l: Layout, decls: seq<Decl>, i: nat)
    requires i <= |decls| && (l.Plain? || l.Scanning?) && ReadFields(tbl, l, decls, i).Plain?
    ensures SlotKeys(ReadFields(tbl, l, decls, i).slots) == SlotKeys(SlotsSoFar(l)) + FieldAsks(tbl, l, decls, i)
    decreases |decls| - i
  {
    hide ReadField, Parse, SlotKeys, SlotsSoFar, FieldKey;
    if i < |decls| {
      var d := decls[i];
      var l' := ReadField(tbl, l, i, d);
      if l'.Plain? || l'.Scanning? {
        PlainKeys(tbl, l, i, d);
        FieldAsksAreSlots(tbl, l', decls, i + 1);
      } else {
        NotPlain(tbl, l', decls, i + 1);
      }
    } else {
      SlotsAreSlots(l);
    }
  }

  lemma SlotsAreSlots(l: Layout)
    requires l.Plain?
    ensures SlotsSoFar(l) == l.slots
  {
  }

  lemma {:induction false} NotPlain(tbl: Table, l: Layout, decls: seq<Decl>, i: nat)
    requires i <= |decls| && !(l.Plain? || l.Scanning?)
    ensures !ReadFields(tbl, l, decls, i).Plain?
    decreases |decls| - i
  {
    if i < |decls| { NotPlain(tbl, ReadField(tbl, l, i, decls[i]), decls, i + 1); }
  }

  lemma PlainKeys(tbl: Table, l: Layout, i: nat, d: Decl)
    requires (l.Plain? || l.Scanning?) && (ReadField(tbl, l, i, d).Plain? || ReadField(tbl, l, i, d).Scanning?)
    ensures Parse(tbl, d.t, d.tag, Mode(l)).0.Ok?
    ensures var tag := Parse(tbl, d.t, d.tag, Mode(l)).0.value;
      SlotKeys(SlotsSoFar(ReadField(tbl, l, i, d)))
      == SlotKeys(SlotsSoFar(l)) + (if KindOf(tag) == SKIP then [] else [FieldKey(d, tag)])
  {
    UnionDecidedOnce(tbl, d.t, d.tag, Mode(l));
    var tag := Parse(tbl, d.t, d.tag, Mode(l)).0.value;
    if KindOf(tag) != SKIP { PlainTag(tbl, d, Mode(l)); }
  }

  /** Fields of a plain struct have tags without a union part. */
  lemma PlainTag(tbl: Table, d: Decl, u: IsInUnion)
    requires Parse(tbl, d.t, d.tag, u).0.Ok? && Parse(tbl, d.t, d.tag, u).1 == NotInUnion
    ensures !IsUnionKind(KindOf(Parse(tbl, d.t, d.tag, u).0.value))
  {
    hide Layers, Trim, WfTag, IsTrimmed, Fits, Lookup;
    if d.tag.Parts? {
      assert d.tag.head == NoUnion;
      ParsedTagFits(tbl, d.t, d.tag, u);
    }
  }

  /** The tag of a union's switch or arm has a union part. */
  lemma UnionTag(tbl: Table, d: Decl, u: IsInUnion)
    requires Countable(d.tag) && d.tag.Parts?
    requires Parse(tbl, d.t, d.tag, u).0.Ok? && Parse(tbl, d.t, d.tag, u).1 == InUnion
    ensures IsUnionKind(KindOf(Parse(tbl, d.t, d.tag, u).0.value))
  {
    hide Parse, WfTag, IsTrimmed, Fits, Lookup;
    ParsedTagFits(tbl, d.t, d.tag, u);
    UnionDecidedOnce(tbl, d.t, d.tag, u);
  }

  /** What one field adds to a union has the key asked for. */
  lemma UnionStepAsks(tbl: Table, l: Layout, i: nat, d: Decl)
    requires Countable(d.tag) && (l.Scanning? || l.Union?) && ReadField(tbl, l, i, d).Union?
    ensures Parse(tbl, d.t, d.tag, Mode(l)).0.Ok?
    ensures var l' := ReadField(tbl, l, i, d); var tag := Parse(tbl, d.t, d.tag, Mode(l)).0.value;
      && (l.Union? || KindOf(tag) != SKIP)
      && (if l.Union? then l'.switch == l.switch else SlotKey(l'.switch) == FieldKey(d, tag) && l'.body == map[])
      && forall a :: a in l'.body ==>
           (l.Union? && a in l.body && l.body[a] == l'.body[a])
               || (KindOf(tag) != SKIP && SlotKey(l'.body[a]) == FieldKey(d, tag))
  {
    hide AddCases, Parse, Lookup;
    UnionDecidedOnce(tbl, d.t, d.tag, Mode(l));
    SkipIsDash(tbl, d, Mode(l));
    if d.tag.Parts? && Parse(tbl, d.t, d.tag, Mode(l)).0.Ok? && Parse(tbl, d.t, d.tag, Mode(l)).1 == InUnion {
      UnionTag(tbl, d, Mode(l));
    }
  }

  lemma SkipIsDash(tbl: Table, d: Decl, u: IsInUnion)
    requires Countable(d.tag) && Parse(tbl, d.t, d.tag, u).0.Ok?
    ensures KindOf(Parse(tbl, d.t, d.tag, u).0.value) == SKIP <==> d.tag.Dash?
  {
    hide Parse;
    ParsedTagFits(tbl, d.t, d.tag, u);
  }

  /** A union asks for the codecs of its switch and of every arm. */
  lemma {:induction false} FieldAsksCoverArms(tbl: Table, l: Layout, decls: seq<Decl>, i: nat)
    requires i <= |decls| && (forall d :: d in decls ==> Countable(d.tag)) && ReadFields(tbl, l, decls, i).Union?
    ensures var u := ReadFields(tbl, l, decls, i); var asks := FieldAsks(tbl, l, decls, i);
      && ((l.Union? && u.switch == l.switch) || SlotKey(u.switch) in asks)
      && forall a :: a in u.body ==> (l.Union? && a in l.body && l.body[a] == u.body[a]) || SlotKey(u.body[a]) in asks
    decreases |decls| - i
  {
    hide ReadField, Parse, SlotKey, FieldKey;
    if i < |decls| {
      var d := decls[i];
      var l' := ReadField(tbl, l, i, d);
      NotUnionStays(tbl, l, decls, i);
      FieldAsksCoverArms(tbl, l', decls, i + 1);
      if l'.Union? { UnionStepAsks(tbl, l, i, d); }
    }
  }

  lemma {:induction false} NotUnionStays(tbl: Table, l: Layout, decls: seq<Decl>, i: nat)
    requires i < |decls| && ReadFields(tbl, l, decls, i).Union?
    ensures l.Scanning? || l.Union?
    ensures Parse(tbl, decls[i].t, decls[i].tag, Mode(l)).0.Ok?
    decreases |decls| - i
  {
    hide AddCases, Parse, Lookup;
    var l' := ReadField(tbl, l, i, decls[i]);
    if l'.Broken? { StoppedStays(tbl, l', decls, i + 1); }
    if i + 1 < |decls| { NotUnionStays(tbl, l', decls, i + 1); }
  }

  /** The keys of the arms' codecs, in the order of the fields. */
  function ArmKeys(tbl: Table, decls: seq<Decl>, i: nat): seq<Key>
    requires i <= |decls|
    decreases |decls| - i
  {
    if i == |decls| then [] else
    (if decls[i].tag.Dash? then [] else [SlotKey(SlotFor(tbl, decls[i], i))]) + ArmKeys(tbl, decls, i + 1)
  }

  lemma {:induction false} FieldAsksAreArms(tbl: Table, l: Layout, decls: seq<Decl>, i: nat)
    requires l.Union? && i <= |decls| && ReadFields(tbl, l, decls, i).Union?
    ensures FieldAsks(tbl, l, decls, i) == ArmKeys(tbl, decls, i)
    decreases |decls| - i
  {
    if i < |decls| {
      hide ReadField, ArmTag, SlotFor, Parse;
      var s := ReadField(tbl, l, i, decls[i]);
      ArmAsk(tbl, l, i, decls[i]);
      if s.Union? { FieldAsksAreArms(tbl, s, decls, i + 1); } else { StoppedStays(tbl, s, decls, i + 1); }
    }
  }

  /** What an arm of a union asks for. */
  lemma ArmAsk(tbl: Table, l: Layout, i: nat, d: Decl)
    requires l.Union?
    ensures var s := ReadField(tbl, l, i, d); var res := Parse(tbl, d.t, d.tag, InUnion).0;
      && !s.Plain? && !s.Scanning? && !s.PanicsKind?
      && (s.Union? ==> res.Ok? && (KindOf(res.value) == SKIP <==> d.tag.Dash?)
                       && (d.tag.Parts? ==> FieldKey(d, res.value) == SlotKey(SlotFor(tbl, d, i))))
  {
    hide Parse;
    var res := Parse(tbl, d.t, d.tag, InUnion).0;
    if res.Ok? {
      ArmHead(tbl, d);
      if d.tag.Parts? {
        ParseSpells(tbl, d.t, d.tag, InUnion);
        assert IsUnionKind(KindOf(res.value)) by { HeadKind(d.tag.head, res.value[0]); }
      }
    }
  }

  lemma HeadKind(head: UnionPart, e: Tags.Entry)
    requires HeadEntry(head) == Some(e)
    ensures IsUnionKind(e.k)
  {
  }

  /** A union that compiles asks for the codec of its switch and then for those of its arms, in order, and for no
      other. */
  lemma UnionAsks(tbl: Table, decls: seq<Decl>, s: nat)
    requires FirstIs(decls, s) && LayoutOf(tbl, decls).Union?
    ensures FieldAsks(tbl, Scanning, decls, 0) == [SlotKey(LayoutOf(tbl, decls).switch)] + ArmKeys(tbl, decls, s + 1)
  {
    hide Parse, ReadField, SlotFor, FieldKey;
    var u := ReadField(tbl, Scanning, s, decls[s]);
    ScanTo(tbl, decls, 0, s);
    SwitchAsk(tbl, decls, s);
    if u.Union? {
      FieldAsksAreArms(tbl, u, decls, s + 1);
      SameSwitch(tbl, u, decls, s + 1);
    } else if u.Plain? {
      StaysPlain(tbl, u, decls, s + 1);
    } else {
      StoppedStays(tbl, u, decls, s + 1);
    }
    AsksFrom(tbl, decls, 0, s);
  }

  lemma SwitchAsk(tbl: Table, decls: seq<Decl>, s: nat)
    requires FirstIs(decls, s)
    ensures var d := decls[s]; var u := ReadField(tbl, Scanning, s, d);
      var res := Parse(tbl, d.t, d.tag, MaybeInUnion).0;
      && !u.Scanning?
      && (u.Union? ==> res.Ok? && KindOf(res.value) != SKIP && FieldKey(d, res.value) == SlotKey(u.switch))
  {
    ScanStep(tbl, s, decls[s]);
  }

  /** Skipped fields ask for nothing. */
  lemma {:induction false} AsksFrom(tbl: Table, decls: seq<Decl>, i: nat, s: nat)
    requires FirstIs(decls, s) && i <= s
    ensures FieldAsks(tbl, Scanning, decls, i) == FieldAsks(tbl, Scanning, decls, s)
    decreases s - i
  {
    hide ReadField, Parse;
    if i < s {
      DashAsks(tbl, i, decls[i]);
      AsksFrom(tbl, decls, i + 1, s);
    }
  }

  lemma DashAsks(tbl: Table, i: nat, d: Decl)
    requires d.tag.Dash?
    ensures ReadField(tbl, Scanning, i, d) == Scanning
    ensures Parse(tbl, d.t, d.tag, MaybeInUnion).0.Ok?
    ensures KindOf(Parse(tbl, d.t, d.tag, MaybeInUnion).0.value) == SKIP
  {
  }

  lemma {:induction false} SameSwitch(tbl: Table, l: Layout, decls: seq<Decl>, i: nat)
    requires l.Union? && i <= |decls| && ReadFields(tbl, l, decls, i).Union?
    ensures ReadFields(tbl, l, decls, i).switch == l.switch
    decreases |decls| - i
  {
    if i < |decls| {
      var s := ReadField(tbl, l, i, decls[i]);
      if s.Union? {
        assert s.switch == l.switch by { hide Parse; }
        SameSwitch(tbl, s, decls, i + 1);
      } else {
        StoppedStays(tbl, s, decls, i + 1);
      }
    }
  }

  lemma {:induction false} StaysPlain(tbl: Table, l: Layout, decls: seq<Decl>, i: nat)
    requires l.Plain? && i <= |decls|
    ensures !ReadFields(tbl, l, decls, i).Union?
    decreases |decls| - i
  {
    hide Parse;
    if i < |decls| {
      var s := ReadField(tbl, l, i, decls[i]);
      if s.Plain? { StaysPlain(tbl, s, decls, i + 1); } else { StoppedStays(tbl, s, decls, i + 1); }
    }
  }

  predicate Goes(l: Layout) { l.Scanning? || l.Plain? || l.Union? }

  /** A struct in error has asked for the codecs of the fields before the one in error, and, if its tag parses, for
      that of this one too. */
  lemma {:induction false} AsksUpTo(tbl: Table, l: Layout, decls: seq<Decl>, i: nat, j: nat)
    requires i <= j < |decls| && Goes(l) && Goes(ReadFields(tbl, l, decls[..j], i))
    requires ReadField(tbl, ReadFields(tbl, l, decls[..j], i), j, decls[j]).Broken?
    ensures var why := ReadField(tbl, ReadFields(tbl, l, decls[..j], i), j, decls[j]).why;
      && ReadFields(tbl, l, decls, i) == Broken(why)
      && FieldAsks(tbl, l, decls, i)
         == FieldAsks(tbl, l, decls[..j], i) + (if why.FieldTag? then [] else [SlotKey(SlotFor(tbl, decls[j], j))])
    decreases j - i
  {
    hide ReadField, ReadFields, FieldAsks, SlotFor;
    var s, pre := ReadField(tbl, l, i, decls[i]), decls[..j];
    AskOn(tbl, l, decls, i);
    if i < j {
      assert pre[i] == decls[i];
      AskOn(tbl, l, pre, i);
      if !Goes(s) { StoppedStays(tbl, s, pre, i + 1); }
      AsksUpTo(tbl, s, decls, i + 1, j);
    } else {
      NothingLeft(tbl, l, pre);
      StoppedStays(tbl, s, decls, i + 1);
      LastAsk(tbl, l, decls, i);
    }
  }

  lemma NothingLeft(tbl: Table, l: Layout, decls: seq<Decl>)
    ensures ReadFields(tbl, l, decls, |decls|) == l && FieldAsks(tbl, l, decls, |decls|) == []
  {
  }

  function FieldAsk(tbl: Table, l: Layout, i: nat, d: Decl): seq<Key>
  {
    var res := Parse(tbl, d.t, d.tag, Mode(l)).0;
    if res.Err? || KindOf(res.value) == SKIP || ReadField(tbl, l, i, d).PanicsKind? then []
    else [FieldKey(d, res.value)]
  }

  lemma AskOn(tbl: Table, l: Layout, decls: seq<Decl>, i: nat)
    requires i < |decls| && Goes(l)
    ensures var s := ReadField(tbl, l, i, decls[i]);
      && ReadFields(tbl, l, decls, i) == ReadFields(tbl, s, decls, i + 1)
      && (Goes(s) ==> FieldAsks(tbl, l, decls, i) == FieldAsk(tbl, l, i, decls[i]) + FieldAsks(tbl, s, decls, i + 1))
  {
    hide Parse;
  }

  /** What the field in error asks for. */
  lemma LastAsk(tbl: Table, l: Layout, decls: seq<Decl>, i: nat)
    requires i < |decls| && Goes(l) && ReadField(tbl, l, i, decls[i]).Broken?
    ensures var d := decls[i]; var why := ReadField(tbl, l, i, d).why;
      FieldAsks(tbl, l, decls, i) == if why.FieldTag? then [] else [SlotKey(SlotFor(tbl, d, i))]
  {
    hide Parse;
    var d := decls[i];
    if l.Union? && Parse(tbl, d.t, d.tag, InUnion).0.Ok? { ArmHead(tbl, d); }
  }

  /** Every other build asks for just the codecs its node refers to, in order. */
  lemma AsksAreNeeded(tbl: Table, key: Key)
    ensures match ShapeOf(tbl, key)
      case OptCodec(k) => AsksOf(tbl, key) == [k]
      case PtrCodec(k) => AsksOf(tbl, key) == [k]
      case ArrayCodec(_, k) => AsksOf(tbl, key) == [k]
      case SliceCodec(_, k) => AsksOf(tbl, key) == [k]
      case MapCodec(_, k, e) => AsksOf(tbl, key) == [k, e]
      case StructCodec(_, _, _) => Lookup(tbl, key.t).Struct?
      case UnionCodec(_, _, _, _, _, _, _) => Lookup(tbl, key.t).Struct?
      case _ => !Lookup(tbl, key.t).Struct? ==> AsksOf(tbl, key) == []
  {
    hide FieldAsks, LayoutOf, StripOpt, Limit;
  }

  // ---------------------------------------------------------------- asks and shapes

  lemma StructAsksSuffice(tbl: Table, ty: Type, x: Key)
    requires ty.Struct? && (forall d :: d in ty.fields ==> Countable(d.tag)) && RefersTo(UntaggedShape(tbl, ty), x)
    ensures x in FieldAsks(tbl, Scanning, ty.fields, 0)
  {
    hide FieldAsks, ReadFields;
    var l := LayoutOf(tbl, ty.fields);
    if l.Plain? {
      FieldAsksAreSlots(tbl, Scanning, ty.fields, 0);
      var i :| 0 <= i < |l.slots| && SlotField(l.slots[i]).codec == x;
      assert SlotKeys(l.slots)[i] == x;
    } else if l.Union? {
      FieldAsksCoverArms(tbl, Scanning, ty.fields, 0);
      if SlotField(l.switch).codec != x {
        var a :| a in l.body && SlotField(l.body[a]).codec == x;
        assert SlotKey(l.body[a]) == x;
      }
    }
  }

  /** The build of a codec asks for every codec its node refers to. */
  lemma AsksSuffice(tbl: Table, key: Key, x: Key)
    requires ClosedTable(tbl) && key in Universe(tbl) && RefersTo(ShapeOf(tbl, key), x)
    ensures x in AsksOf(tbl, key)
  {
    hide Universe, TagsUpTo, ClosedTable, ShapeOf, AsksOf;
    AsksAreNeeded(tbl, key);
    if Lookup(tbl, key.t).Struct? {
      UniverseIsGood(tbl, key.t, key.tag);
      TypeCloses(tbl, key.t);
      StructKeyAsksSuffice(tbl, key, x);
    }
  }

  lemma StructKeyAsksSuffice(tbl: Table, key: Key, x: Key)
    requires var ty := Lookup(tbl, key.t); ty.Struct? && forall d :: d in ty.fields ==> Countable(d.tag)
    requires RefersTo(ShapeOf(tbl, key), x)
    ensures x in AsksOf(tbl, key)
  {
    hide UntaggedShape, FieldAsks;
    if KindOf(key.tag) != OPT && key.tag == [] { StructAsksSuffice(tbl, Lookup(tbl, key.t), x); }
  }

  // ---------------------------------------------------------------- keys stay in the universe

  lemma {:induction false} FieldsAskWithin(tbl: Table, t: TypeId, l: Layout, i: nat, k: Key)
    requires ClosedTable(tbl) && t in tbl && tbl[t].Struct? && i <= |tbl[t].fields|
    requires k in FieldAsks(tbl, l, tbl[t].fields, i)
    ensures k in Universe(tbl)
    decreases |tbl[t].fields| - i
  {
    hide Universe, Parse, ReadField, ClosedTable;
    var d := tbl[t].fields[i];
    var tag := Parse(tbl, d.t, d.tag, Mode(l)).0.value;
    if KindOf(tag) != SKIP && k == FieldKey(d, tag) {
      ParsedIsGood(tbl, t, d, Mode(l));
    } else {
      FieldsAskWithin(tbl, t, ReadField(tbl, l, i, d), i + 1, k);
    }
  }

  /** Building a key of the universe asks only for keys of the universe. */
  lemma AsksStayWithin(tbl: Table, key: Key, k: Key)
    requires ClosedTable(tbl) && key in Universe(tbl) && k in AsksOf(tbl, key)
    ensures k in Universe(tbl)
  {
    hide Universe, ClosedTable, FieldAsks;
    var (t, tag) := (key.t, key.tag);
    UniverseIsGood(tbl, key.t, key.tag);
    TypeCloses(tbl, t);
    if KindOf(tag) == OPT {
      StrippedIsGood(tbl, t, tag);
    } else if HasElem(tbl[t]) {
      TailIsGood(tbl, t, tag);
      if tbl[t].Map? { EmptyTagIsGood(tbl, tbl[t].key); }
    } else {
      FieldsAskWithin(tbl, t, Scanning, 0, k);
    }
  }

  /** The most codecs any one build asks for. */
  ghost function Widest(tbl: Table, types: set<TypeId>): (n: nat)
    requires types <= tbl.Keys
    ensures n >= 2 && forall t :: t in types && tbl[t].Struct? ==> |tbl[t].fields| <= n
  {
    if types == {} then 2 else
    var t :| t in types;
    var n := Widest(tbl, types - {t});
    if tbl[t].Struct? && |tbl[t].fields| > n then |tbl[t].fields| else n
  }

  function DepsOf(tbl: Table): Key -> seq<Key> { k => AsksOf(tbl, k) }

  lemma CompilingAsksWithin(tbl: Table)
    requires ClosedTable(tbl)
    ensures AsksWithin(DepsOf(tbl), Universe(tbl), Widest(tbl, tbl.Keys))
  {
    hide AsksOf, Universe;
    var deps := DepsOf(tbl);
    forall key | key in Universe(tbl)
      ensures |deps(key)| <= Widest(tbl, tbl.Keys) && forall k :: k in deps(key) ==> k in Universe(tbl)
    {
      forall k | k in AsksOf(tbl, key) ensures k in Universe(tbl) { AsksStayWithin(tbl, key, k); }
      AsksAreFew(tbl, key);
    }
  }

  lemma AsksAreFew(tbl: Table, key: Key)
    ensures |AsksOf(tbl, key)| <= Widest(tbl, tbl.Keys)
  {
  }

  /** Compiling any key of a closed table with supported switches is wait-free: whatever the other goroutines look
      up, build, register or call meanwhile, the lookup returns within a number of own steps fixed by the table. */
  lemma CompilationIsWaitFree(tbl: Table, before: Steps, s: State, tid: Tid, k: Key, steps: Steps)
    requires ClosedTable(tbl) && SwitchesSupported(tbl) && k in Universe(tbl)
    requires Run(DepsOf(tbl), INITIAL, before) == Some(s) && ThreadOf(s, tid) == Running([Loading(k)])
    requires Run(DepsOf(tbl), s, steps).Some? && OnlyAdvances(steps, tid)
    ensures OwnSteps(steps, tid) <= 2 + (6 + 3 * Widest(tbl, tbl.Keys)) * |Universe(tbl)|
  {
    hide *;
    CompilingAsksWithin(tbl);
    LookupsAreWaitFree(DepsOf(tbl), Universe(tbl), Widest(tbl, tbl.Keys), before, s, tid, k, steps);
  }
}
