/** What a struct tag says, read off its parts: which entry stands for which part, when a tag parses, and which
    error it gives otherwise. Kinds are the numbers of the format. */
module Spelling {
  import opened Words
  import opened Types
  import opened Tags
  import opened TagParser

  // ---------------------------------------------------------------- types a tag descends through

  /** The type reached after `i` descents from `t`. */
  function Under(tbl: Table, t: TypeId, i: nat): TypeId
    decreases i
  {
    if i == 0 then t else
    match Lookup(tbl, t)
    case Pointer(e) => Under(tbl, e, i - 1)
    case Array(_, e) => Under(tbl, e, i - 1)
    case Slice(e) => Under(tbl, e, i - 1)
    case Map(_, e) => Under(tbl, e, i - 1)
    case _ => t
  }

  /** The type `i` levels down. */
  function TypeAt(tbl: Table, t: TypeId, i: nat): Type { Lookup(tbl, Under(tbl, t, i)) }

  predicate IsByte(ty: Type) { ty == Basic(Int8) || ty == Basic(Uint8) }

  /** An array or slice whose elements are bytes. */
  predicate IsBytes(tbl: Table, ty: Type) { (ty.Array? || ty.Slice?) && IsByte(Lookup(tbl, ty.elem)) }

  predicate Descends(ty: Type) { ty.Pointer? || ty.Array? || ty.Slice? || ty.Map? }

  // ---------------------------------------------------------------- the entries

  /** Entry `j`; past the end of a tag there are no-ops. */
  function EntryAt(tag: Tag, j: nat): Entry { if j < |tag| then tag[j] else Entry(0, []) }

  /** From entry `i` on, `tag` has the entry or entries of part `p` applied to type `ty`. */
  predicate SpellsPart(ty: Type, p: Part, tag: Tag, i: nat)
  {
    match p
    case Blank => EntryAt(tag, i) == Entry(0, [])
    case Opt => EntryAt(tag, i) == Entry(2, [])
    case Opaque =>
      if ty.Array? || ty.Slice? then EntryAt(tag, i) == Entry(0, []) && EntryAt(tag, i + 1) == Entry(3, [])
      else EntryAt(tag, i) == Entry(3, [])
    case Len(n) => EntryAt(tag, i) == Entry(0x86, [n])
    case MaxLen(n) => EntryAt(tag, i) == Entry(0x87, [n])
    case _ => false
  }

  /** How many entries the parts make: one each, and one more for `opaque` on an array or slice. */
  function Spelled(tbl: Table, t: TypeId, parts: seq<Part>): nat
  {
    if parts == [] then 0
    else if parts[|parts| - 1].Opaque?
            && (TypeAt(tbl, t, |parts| - 1).Array? || TypeAt(tbl, t, |parts| - 1).Slice?) then |parts| + 1
    else |parts|
  }

  /** `tag` says what the parts say, each at its own level, and nothing else. */
  ghost predicate Spells(tbl: Table, t: TypeId, parts: seq<Part>, tag: Tag)
  {
    && (forall i :: 0 <= i < |parts| ==> SpellsPart(TypeAt(tbl, t, i), parts[i], tag, i))
    && |tag| <= Spelled(tbl, t, parts)
    && (tag != [] ==> tag[|tag| - 1].k != 0)
  }

  lemma UnderStep(tbl: Table, t: TypeId, i: nat)
    requires Descends(Lookup(tbl, t))
    ensures Under(tbl, t, i + 1) == Under(tbl, Lookup(tbl, t).elem, i)
  {
  }

  /** Only the last part can be `opaque`. */
  predicate Placed(tbl: Table, t: TypeId, parts: seq<Part>, i: nat)
    requires i < |parts|
  {
    i + 1 < |parts| ==> !parts[i].Opaque? && Descends(TypeAt(tbl, t, i))
  }

  lemma {:induction false} LayersSpell(tbl: Table, t: TypeId, parts: seq<Part>)
    requires Layers(tbl, t, parts).Ok?
    ensures var es := Layers(tbl, t, parts).value;
      && |es| == Spelled(tbl, t, parts)
      && forall i :: 0 <= i < |parts| ==> SpellsPart(TypeAt(tbl, t, i), parts[i], es, i) && Placed(tbl, t, parts, i)
    decreases |parts|
  {
    if |parts| == 1 {
      LastSpells(tbl, t, parts);
    } else if parts != [] {
      hide SpellsPart, Spelled;
      var (es, t') := Layer(tbl, t, parts[0]).value;
      var ty := Lookup(tbl, t');
      var more := Layers(tbl, ty.elem, parts[1..]).value;
      InnerPart(tbl, t, parts[0]);
      LayersSpell(tbl, ty.elem, parts[1..]);
      SpelledStep(tbl, t, parts);
      forall i | 0 <= i < |parts|
        ensures SpellsPart(TypeAt(tbl, t, i), parts[i], es + more, i) && Placed(tbl, t, parts, i)
      {
        if i > 0 {
          UnderStep(tbl, t, i - 1);
          assert parts[1..][i - 1] == parts[i] && Placed(tbl, ty.elem, parts[1..], i - 1);
          SpellsShift(TypeAt(tbl, t, i), parts[i], es, more, i - 1);
        } else {
          SpellsFirst(TypeAt(tbl, t, 0), parts[0], es, more);
        }
      }
    }
  }

  lemma LastSpells(tbl: Table, t: TypeId, parts: seq<Part>)
    requires |parts| == 1 && Layers(tbl, t, parts).Ok?
    ensures var es := Layers(tbl, t, parts).value;
      |es| == Spelled(tbl, t, parts) && SpellsPart(TypeAt(tbl, t, 0), parts[0], es, 0)
  {
  }

  /** A part that is followed by another makes one entry and leaves the parser at its own type. */
  lemma InnerPart(tbl: Table, t: TypeId, p: Part)
    requires Layer(tbl, t, p).Ok? && HasElem(Lookup(tbl, Layer(tbl, t, p).value.1))
    ensures !p.Opaque? && Layer(tbl, t, p).value.1 == t && Descends(Lookup(tbl, t))
    ensures |Layer(tbl, t, p).value.0| == 1 && SpellsPart(Lookup(tbl, t), p, Layer(tbl, t, p).value.0, 0)
  {
  }

  lemma SpelledStep(tbl: Table, t: TypeId, parts: seq<Part>)
    requires |parts| > 1 && Descends(Lookup(tbl, t))
    ensures Spelled(tbl, t, parts) == 1 + Spelled(tbl, Lookup(tbl, t).elem, parts[1..])
  {
    UnderStep(tbl, t, |parts| - 2);
    assert parts[1..][|parts| - 2] == parts[|parts| - 1];
  }

  lemma SpellsFirst(ty: Type, p: Part, es: Tag, more: Tag)
    requires |es| == 1 && !p.Opaque? && SpellsPart(ty, p, es, 0)
    ensures SpellsPart(ty, p, es + more, 0)
  {
    assert (es + more)[0] == es[0];
  }

  lemma SpellsShift(ty: Type, p: Part, es: Tag, more: Tag, i: nat)
    requires |es| == 1 && SpellsPart(ty, p, more, i)
    ensures SpellsPart(ty, p, es + more, i + 1)
  {
    assert EntryAt(es + more, i + 1) == EntryAt(more, i) && EntryAt(es + more, i + 2) == EntryAt(more, i + 1);
  }

  // ---------------------------------------------------------------- whole tags

  /** The entry of a union part. */
  function HeadEntry(head: UnionPart): Option<Entry>
  {
    match head
    case Switch => Some(Entry(4, []))
    case False => Some(Entry(0xC8, [0]))
    case True => Some(Entry(0xC8, [1]))
    case Default => Some(Entry(5, []))
    case Cases(values) => Some(Entry(0xC8, values))
    case _ => None
  }

  lemma BlanksOnly(tbl: Table, t: TypeId, parts: seq<Part>, j: nat)
    requires Layers(tbl, t, parts).Ok? && j < |Layers(tbl, t, parts).value|
    ensures Layers(tbl, t, parts).value[j].k == 0 ==> Layers(tbl, t, parts).value[j] == Entry(0, [])
  {
    LayersFit(tbl, t, parts);
    assert Layers(tbl, t, parts).value[j] in Layers(tbl, t, parts).value;
  }

  lemma TrimAt(es: Tag, r: Tag, j: nat)
    requires r == Trim(es) && forall i :: 0 <= i < |es| && es[i].k == 0 ==> es[i] == Entry(0, [])
    ensures EntryAt(r, j) == EntryAt(es, j)
  {
    if j < |r| { assert r[j] == es[j]; }
  }

  /** A tag that parses keeps all its parts say, and says nothing else: a dash is Skip; otherwise the union part
      has the first entry, and each further part its own, counted from there. */
  lemma ParseSpells(tbl: Table, t: TypeId, tag: StructTag, u: IsInUnion)
    requires Parse(tbl, t, tag, u).0.Ok?
    ensures var es := Parse(tbl, t, tag, u).0.value;
      if tag.Dash? then es == [Entry(1, [])]
      else if tag.head.NoUnion? then Spells(tbl, t, tag.layers, es)
      else es != [] && HeadEntry(tag.head) == Some(es[0]) && Spells(tbl, t, tag.layers, es[1..])
  {
    if tag.Parts? {
      var h := UnionHead(Lookup(tbl, t), tag.head, u).0.value;
      var ls := Layers(tbl, t, tag.layers).value;
      var es := Parse(tbl, t, tag, u).0.value;
      HeadIs(Lookup(tbl, t), tag.head, u);
      LayersSpell(tbl, t, tag.layers);
      forall j | 0 <= j < |ls| ensures ls[j].k == 0 ==> ls[j] == Entry(0, []) { BlanksOnly(tbl, t, tag.layers, j); }
      hide SpellsPart, Spelled;
      if h == [] {
        assert h + ls == ls;
        TrimmedSpells(tbl, t, tag.layers, ls, es);
      } else {
        TrimBehind(h[0], ls);
        assert h == [h[0]];
        TrimmedSpells(tbl, t, tag.layers, ls, es[1..]);
      }
    }
  }

  lemma HeadIs(ty: Type, head: UnionPart, u: IsInUnion)
    requires UnionHead(ty, head, u).0.Ok?
    ensures var h := UnionHead(ty, head, u).0.value;
      if head.NoUnion? then h == [] else |h| == 1 && HeadEntry(head) == Some(h[0]) && h[0].k != 0
  {
  }

  lemma TrimBehind(e: Entry, ls: Tag)
    requires e.k != 0
    ensures Trim([e] + ls) == [e] + Trim(ls)
  {
    var all, r := [e] + ls, [e] + Trim(ls);
    forall i | |r| <= i < |all| ensures all[i].k == NOOP { assert all[i] == ls[i - 1]; }
    TrimIsUnique(all, r);
  }

  lemma TrimmedSpells(tbl: Table, t: TypeId, parts: seq<Part>, ls: Tag, es: Tag)
    requires es == Trim(ls) && |ls| == Spelled(tbl, t, parts)
    requires forall i :: 0 <= i < |parts| ==> SpellsPart(TypeAt(tbl, t, i), parts[i], ls, i)
    requires forall i :: 0 <= i < |ls| && ls[i].k == 0 ==> ls[i] == Entry(0, [])
    ensures Spells(tbl, t, parts, es)
  {
    forall i | 0 <= i < |parts| ensures SpellsPart(TypeAt(tbl, t, i), parts[i], es, i) {
      assert SpellsPart(TypeAt(tbl, t, i), parts[i], ls, i);
      TrimAt(ls, es, i);
      TrimAt(ls, es, i + 1);
    }
  }

  /** What a tag spells leaves no choice: the parts determine the tag. */
  lemma SpellsOnce(tbl: Table, t: TypeId, parts: seq<Part>, a: Tag, b: Tag)
    requires Spells(tbl, t, parts, a) && Spells(tbl, t, parts, b)
    ensures a == b
  {
    hide Under;
    forall j: nat ensures EntryAt(a, j) == EntryAt(b, j) { SameAt(tbl, t, parts, a, b, j); }
    assert b != [] ==> EntryAt(a, |b| - 1) == EntryAt(b, |b| - 1);
    assert a != [] ==> EntryAt(a, |a| - 1) == EntryAt(b, |a| - 1);
    forall j | 0 <= j < |a| ensures a[j] == b[j] { assert EntryAt(a, j) == EntryAt(b, j); }
  }

  lemma SameAt(tbl: Table, t: TypeId, parts: seq<Part>, a: Tag, b: Tag, j: nat)
    requires Spells(tbl, t, parts, a) && Spells(tbl, t, parts, b)
    ensures EntryAt(a, j) == EntryAt(b, j)
  {
    hide Under;
    if j < |parts| {
      assert SpellsPart(TypeAt(tbl, t, j), parts[j], a, j) && SpellsPart(TypeAt(tbl, t, j), parts[j], b, j);
    } else if j < Spelled(tbl, t, parts) {
      var i := |parts| - 1;
      assert SpellsPart(TypeAt(tbl, t, i), parts[i], a, i) && SpellsPart(TypeAt(tbl, t, i), parts[i], b, i);
    }
  }

  // ---------------------------------------------------------------- when a tag parses

  /** What is wrong with part `p` at type `ty`, if anything; `more` parts may follow. */
  function Wrong(tbl: Table, ty: Type, p: Part, more: bool): Option<TagError>
  {
    match p
    case Blank => if more && !Descends(ty) then Some(TrailingTags) else None
    case Opt =>
      if !(ty.Pointer? || ty.Interface?) then Some(CannotBeOpt)
      else if more && !ty.Pointer? then Some(TrailingTags) else None
    case Opaque =>
      if !(IsBytes(tbl, ty) || IsByte(ty)) then Some(NotBytes) else if more then Some(TrailingTags) else None
    case Len(_) =>
      if ty.Array? then Some(LenOnArray)
      else if !(ty.String? || ty.Slice?) then Some(LenOnType)
      else if more && ty.String? then Some(TrailingTags) else None
    case MaxLen(_) =>
      if !(ty.String? || ty.Slice?) then Some(MaxLenOnType)
      else if more && ty.String? then Some(TrailingTags) else None
    case BadLen => Some(BadNumber)
    case BadMaxLen => Some(BadNumber)
    case Unknown => Some(UnknownPart)
  }

  function WrongAt(tbl: Table, t: TypeId, parts: seq<Part>, i: nat): Option<TagError>
    requires i < |parts|
  {
    Wrong(tbl, TypeAt(tbl, t, i), parts[i], i + 1 < |parts|)
  }

  /** Part `i` is the first that is wrong. */
  ghost predicate FirstWrong(tbl: Table, t: TypeId, parts: seq<Part>, i: nat)
    requires i < |parts|
  {
    WrongAt(tbl, t, parts, i).Some? && forall j :: 0 <= j < i ==> WrongAt(tbl, t, parts, j).None?
  }

  /** The parts parse if and only if nothing is wrong with any; otherwise the first wrong one says why not. */
  lemma {:induction false} LayersParse(tbl: Table, t: TypeId, parts: seq<Part>)
    ensures Layers(tbl, t, parts).Ok? <==> forall i :: 0 <= i < |parts| ==> WrongAt(tbl, t, parts, i).None?
    ensures forall i :: 0 <= i < |parts| && FirstWrong(tbl, t, parts, i) ==>
      Layers(tbl, t, parts) == Err(WrongAt(tbl, t, parts, i).value)
    decreases |parts|
  {
    hide Wrong, Layer, Under;
    if parts != [] {
      OnePart(tbl, t, parts[0], |parts| > 1);
      assert WrongAt(tbl, t, parts, 0) == Wrong(tbl, Lookup(tbl, t), parts[0], |parts| > 1) by { UnderNow(tbl, t); }
      if |parts| > 1 && WrongAt(tbl, t, parts, 0).None? {
        var e := Lookup(tbl, t).elem;
        LayersParse(tbl, e, parts[1..]);
        forall i | 0 < i < |parts| ensures WrongAt(tbl, t, parts, i) == WrongAt(tbl, e, parts[1..], i - 1) {
          UnderStep(tbl, t, i - 1);
        }
        forall i | 0 <= i < |parts| && FirstWrong(tbl, t, parts, i)
          ensures i > 0 && FirstWrong(tbl, e, parts[1..], i - 1)
        {
          forall j | 0 <= j < i - 1 ensures WrongAt(tbl, e, parts[1..], j).None? {
            assert WrongAt(tbl, t, parts, j + 1).None?;
          }
        }
        forall i | 0 <= i < |parts[1..]| && Layers(tbl, t, parts).Ok?
          ensures WrongAt(tbl, e, parts[1..], i).None? && WrongAt(tbl, t, parts, i + 1).None?
        {
        }
        if forall i :: 0 <= i < |parts| ==> WrongAt(tbl, t, parts, i).None? {
          forall i | 0 <= i < |parts[1..]| ensures WrongAt(tbl, e, parts[1..], i).None? {
            assert WrongAt(tbl, t, parts, i + 1).None?;
          }
        }
      }
    }
  }

  lemma UnderNow(tbl: Table, t: TypeId)
    ensures Under(tbl, t, 0) == t
  {
  }

  lemma OnePart(tbl: Table, t: TypeId, p: Part, more: bool)
    ensures var ty := Lookup(tbl, t); var l := Layer(tbl, t, p);
      match Wrong(tbl, ty, p, more)
      case None => l.Ok? && (more ==> HasElem(ty) && Descends(ty) && l.value.1 == t && HasElem(Lookup(tbl, l.value.1)))
      case Some(e) => l == Err(e) || (l.Ok? && more && e == TrailingTags && !HasElem(Lookup(tbl, l.value.1)))
  {
  }

  /** What is wrong with a union part, on a field of type `ty`: a switch comes first, on a bool or an integer of
      a size that can be one; inside a union, and only there, every field has a union part. */
  function WrongHead(ty: Type, head: UnionPart, u: IsInUnion): Option<TagError>
  {
    match head
    case NoUnion => if u == InUnion then Some(NeedsUnionTag) else None
    case Switch =>
      if u != MaybeInUnion then Some(SwitchMisplaced) else if CanSwitch(ty) then None else Some(SwitchType)
    case BadCases => if u != InUnion then Some(NotAUnion) else Some(BadNumber)
    case _ => if u != InUnion then Some(NotAUnion) else None
  }

  /** The types the parser takes for switches. */
  predicate CanSwitch(ty: Type)
  {
    match ty
    case Basic(Bool) => true
    case Basic(Int8) => true
    case Basic(Int16) => true
    case Basic(Int32) => true
    case Basic(Hyper) => true
    case Basic(Uint8) => true
    case Basic(Uint16) => true
    case Basic(Uint32) => true
    case PlatformInt => true
    case PlatformUint => true
    case _ => false
  }

  /** A tag that is no dash parses if and only if neither its union part nor any other part is wrong; the union
      part is looked at first, and what is wrong first is the error. */
  lemma ParsesIff(tbl: Table, t: TypeId, tag: StructTag, u: IsInUnion)
    requires tag.Parts?
    ensures var res := Parse(tbl, t, tag, u).0; var w := WrongHead(Lookup(tbl, t), tag.head, u);
      && (res.Ok? <==> w.None? && forall i :: 0 <= i < |tag.layers| ==> WrongAt(tbl, t, tag.layers, i).None?)
      && (w.Some? ==> res == Err(w.value))
      && (w.None? ==> forall i :: 0 <= i < |tag.layers| && FirstWrong(tbl, t, tag.layers, i) ==>
            res == Err(WrongAt(tbl, t, tag.layers, i).value))
  {
    hide Layers, WrongAt;
    LayersParse(tbl, t, tag.layers);
  }

  /** A dash parses anywhere, and decides nothing about the union. */
  lemma DashParses(tbl: Table, t: TypeId, u: IsInUnion)
    ensures Parse(tbl, t, Dash, u) == (Ok([Entry(1, [])]), u)
  {
  }

  /** What a tag that parses decides: a switch starts a union, a field without a union part rules it out. */
  lemma ParseDecides(tbl: Table, t: TypeId, tag: StructTag, u: IsInUnion)
    requires tag.Parts? && Parse(tbl, t, tag, u).0.Ok?
    ensures Parse(tbl, t, tag, u).1 == if tag.head.NoUnion? then NotInUnion else InUnion
  {
  }
}
