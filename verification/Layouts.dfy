/** How a struct is read, from the tags and types of its fields: which of them an XDR struct has, in what order,
    and what the table of an XDR union is. */
module Layouts {
  import opened Words
  import opened Types
  import opened Tags
  import opened TagParser
  import opened Spelling
  import opened Codecs
  import opened Structs

  /** The slot is field `i`, with the entries that its parts spell. */
  ghost predicate SlotIs(tbl: Table, s: Slot, decls: seq<Decl>, i: nat)
    requires i < |decls|
  {
    && decls[i].tag.Parts? && s.name == decls[i].name && s.index == i && s.t == decls[i].t
    && Spells(tbl, decls[i].t, decls[i].tag.layers, s.tag)
  }

  /** The first field that is not skipped decides. */
  lemma {:induction false} ScanTo(tbl: Table, decls: seq<Decl>, i: nat, s: nat)
    requires FirstIs(decls, s) && i <= s
    ensures ReadFields(tbl, Scanning, decls, i)
         == ReadFields(tbl, ReadField(tbl, Scanning, s, decls[s]), decls, s + 1)
    decreases s - i
  {
    if i < s { ScanTo(tbl, decls, i + 1, s); }
  }

  lemma {:induction false} NoneFirst(tbl: Table, decls: seq<Decl>, i: nat)
    requires i <= |decls| && forall k :: i <= k < |decls| ==> decls[k].tag.Dash?
    ensures ReadFields(tbl, Scanning, decls, i) == Scanning
    decreases |decls| - i
  {
    if i < |decls| { NoneFirst(tbl, decls, i + 1); }
  }

  lemma FirstOf(decls: seq<Decl>) returns (s: nat)
    requires exists k :: 0 <= k < |decls| && !decls[k].tag.Dash?
    ensures FirstIs(decls, s)
  {
    s := 0;
    while decls[s].tag.Dash?
      invariant s < |decls| && forall j :: 0 <= j < s ==> decls[j].tag.Dash?
      invariant exists k :: s <= k < |decls| && !decls[k].tag.Dash?
      decreases |decls| - s
    {
      s := s + 1;
    }
  }

  // ---------------------------------------------------------------- the first field

  /** What the first field makes of the struct: a field without a union part rules a union out, a switch starts one
      if it is an int32, a uint32 or a bool. */
  lemma FirstField(tbl: Table, decls: seq<Decl>, s: nat)
    requires FirstIs(decls, s)
    ensures var d := decls[s]; var res := Parse(tbl, d.t, d.tag, MaybeInUnion).0;
      var l := ReadField(tbl, Scanning, s, d); var ty := Lookup(tbl, d.t);
      match res
      case Err(e) => l == Broken(FieldTag(d.name, e))
      case Ok(tag) =>
        if d.tag.head.NoUnion? then
          l.Plain? && |l.slots| == 1 && l.slots[0].index == s && SlotIs(tbl, l.slots[0], decls, s)
        else
          && d.tag.head.Switch?
          && (if ty == Basic(Int32) || ty == Basic(Uint32) || ty == Basic(Bool) then
                && l.Union? && SlotIs(tbl, l.switch, decls, s) && l.body == map[] && l.cases == map[] && l.default == -1
                && l.kind == (if ty == Basic(Int32) then IntSwitch else if ty == Basic(Uint32) then UintSwitch
                              else BoolSwitch)
              else l == PanicsKind)
  {
    hide Spells;
    var d := decls[s];
    if Parse(tbl, d.t, d.tag, MaybeInUnion).0.Ok? {
      ParsesIff(tbl, d.t, d.tag, MaybeInUnion);
      ParseSpells(tbl, d.t, d.tag, MaybeInUnion);
      ParseDecides(tbl, d.t, d.tag, MaybeInUnion);
      ParsedKind(tbl, d.t, d.tag, MaybeInUnion);
    }
  }

  /** The kind a parsed tag starts with. */
  lemma ParsedKind(tbl: Table, t: TypeId, tag: StructTag, u: IsInUnion)
    requires tag.Parts? && Parse(tbl, t, tag, u).0.Ok?
    ensures var es := Parse(tbl, t, tag, u).0.value;
      KindOf(es) != SKIP && (tag.head.Switch? <==> KindOf(es) == UNION_SWITCH)
      && (!tag.head.NoUnion? ==> es != [] && Tail(es) == es[1..])
  {
    ParseSpells(tbl, t, tag, u);
    var es := Parse(tbl, t, tag, u).0.value;
    if tag.head.NoUnion? && tag.layers != [] {
      assert SpellsPart(TypeAt(tbl, t, 0), tag.layers[0], es, 0);
    }
  }

  // ---------------------------------------------------------------- structs

  /** The slots are the fields from `i` on that are not skipped. */
  ghost predicate SlotsAre(tbl: Table, slots: seq<Slot>, decls: seq<Decl>)
  {
    && (forall a :: 0 <= a < |slots| ==>
          slots[a].index < |decls| && decls[slots[a].index].tag.Parts? && decls[slots[a].index].tag.head.NoUnion?
          && SlotIs(tbl, slots[a], decls, slots[a].index))
    && (forall a, b :: 0 <= a < b < |slots| ==> slots[a].index < slots[b].index)
  }

  /** Every field from `lo` to before `hi` that is not skipped has its slot. */
  ghost predicate AllThere(slots: seq<Slot>, decls: seq<Decl>, lo: nat, hi: nat)
    requires hi <= |decls|
  {
    forall k :: lo <= k < hi && !decls[k].tag.Dash? ==> HasSlot(slots, k)
  }

  predicate HasSlot(slots: seq<Slot>, k: nat) { exists a :: 0 <= a < |slots| && slots[a].index == k }

  /** Field `k` parses where no union is possible. */
  predicate ParsesPlain(tbl: Table, d: Decl) { Parse(tbl, d.t, d.tag, NotInUnion).0.Ok? }

  /** What one more field does to a struct. */
  lemma PlainStep(tbl: Table, l: Layout, decls: seq<Decl>, i: nat)
    requires l.Plain? && i < |decls|
    ensures var d := decls[i]; var s := ReadField(tbl, l, i, d); var res := Parse(tbl, d.t, d.tag, NotInUnion).0;
      if res.Err? then s == Broken(FieldTag(d.name, res.error))
      else if d.tag.Dash? then s == l
      else s.Plain? && d.tag.head.NoUnion? && |s.slots| == |l.slots| + 1 && s.slots[..|l.slots|] == l.slots
           && s.slots[|l.slots|].index == i && SlotIs(tbl, s.slots[|l.slots|], decls, i)
  {
    hide Spells;
    var d := decls[i];
    if d.tag.Parts? && Parse(tbl, d.t, d.tag, NotInUnion).0.Ok? {
      ParsesIff(tbl, d.t, d.tag, NotInUnion);
      ParseSpells(tbl, d.t, d.tag, NotInUnion);
      ParsedKind(tbl, d.t, d.tag, NotInUnion);
    }
  }

  lemma {:induction false} PlainRest(tbl: Table, l: Layout, decls: seq<Decl>, lo: nat, i: nat)
    requires l.Plain? && lo <= i <= |decls| && SlotsAre(tbl, l.slots, decls) && AllThere(l.slots, decls, lo, i)
    requires forall a :: 0 <= a < |l.slots| ==> l.slots[a].index < i
    ensures var r := ReadFields(tbl, l, decls, i);
      if forall k :: i <= k < |decls| ==> ParsesPlain(tbl, decls[k]) then
        r.Plain? && SlotsAre(tbl, r.slots, decls) && AllThere(r.slots, decls, lo, |decls|)
      else r.Broken?
    decreases |decls| - i
  {
    hide ReadField, SlotIs, Parse;
    if i < |decls| {
      var s := ReadField(tbl, l, i, decls[i]);
      PlainStep(tbl, l, decls, i);
      if s.Plain? {
        SlotsGrow(l.slots, s.slots, decls, lo, i);
        assert ParsesPlain(tbl, decls[i]);
        PlainRest(tbl, s, decls, lo, i + 1);
      } else {
        assert !ParsesPlain(tbl, decls[i]);
        StoppedStays(tbl, s, decls, i + 1);
      }
    }
  }

  lemma SlotsGrow(slots: seq<Slot>, more: seq<Slot>, decls: seq<Decl>, lo: nat, i: nat)
    requires i < |decls| && AllThere(slots, decls, lo, i)
    requires if decls[i].tag.Dash? then more == slots
             else |more| == |slots| + 1 && more[..|slots|] == slots && more[|slots|].index == i
    ensures AllThere(more, decls, lo, i + 1)
  {
    forall k | lo <= k < i + 1 && !decls[k].tag.Dash? ensures HasSlot(more, k) {
      if k < i {
        assert HasSlot(slots, k);
        var a :| 0 <= a < |slots| && slots[a].index == k;
        assert more[a] == more[..|slots|][a];
      }
    }
  }

  /** A struct whose first field that is not skipped has no union part is an XDR struct of the fields that are not
      skipped, in the order declared, each under the tag its parts spell; unless a tag does not parse. */
  lemma PlainLayout(tbl: Table, decls: seq<Decl>, s: nat)
    requires FirstIs(decls, s) && decls[s].tag.head.NoUnion?
    ensures var l := LayoutOf(tbl, decls);
      if forall k :: s <= k < |decls| ==> ParsesPlain(tbl, decls[k]) then
        l.Plain? && SlotsAre(tbl, l.slots, decls) && AllThere(l.slots, decls, 0, |decls|)
      else l.Broken?
  {
    hide ReadField, SlotIs, Parse;
    var l := ReadField(tbl, Scanning, s, decls[s]);
    ScanTo(tbl, decls, 0, s);
    FirstField(tbl, decls, s);
    FirstPlain(tbl, decls[s]);
    if l.Plain? {
      assert l.slots == [l.slots[0]];
      assert HasSlot(l.slots, s);
      PlainRest(tbl, l, decls, 0, s + 1);
    } else {
      StoppedStays(tbl, l, decls, s + 1);
    }
  }

  /** Without a union part it does not matter that the struct might have been a union. */
  lemma FirstPlain(tbl: Table, d: Decl)
    requires d.tag.Parts? && d.tag.head.NoUnion?
    ensures ParsesPlain(tbl, d) <==> Parse(tbl, d.t, d.tag, MaybeInUnion).0.Ok?
  {
    ParsesIff(tbl, d.t, d.tag, MaybeInUnion);
    ParsesIff(tbl, d.t, d.tag, NotInUnion);
  }

  // ---------------------------------------------------------------- unions

  /** The types that make a switch. */
  predicate IsSwitch(ty: Type) { ty == Basic(Int32) || ty == Basic(Uint32) || ty == Basic(Bool) }

  /** The union the fields after switch `s` describe. */
  ghost predicate Describes(tbl: Table, decls: seq<Decl>, s: nat, l: Layout)
    requires s < |decls| && l.Union?
  {
    && SlotIs(tbl, l.switch, decls, s)
    && (forall v :: v in l.cases <==> exists k :: s < k < |decls| && v in Listed(decls[k]))
    && (forall k, v :: s < k < |decls| && v in Listed(decls[k]) ==> v in l.cases && l.cases[v] == k)
    && (forall k :: s < k < |decls| && IsDefault(decls[k]) ==> l.default == k)
    && ((forall k :: s < k < |decls| ==> !IsDefault(decls[k])) ==> l.default == -1)
    && (forall k :: k in l.body <==> s < k < |decls| && !decls[k].tag.Dash?)
    && (forall k :: k in l.body ==> SlotIs(tbl, l.body[k], decls, k))
  }

  /** A struct whose first field that is not skipped is a switch is an XDR union if and only if the switch is a
      bool, an int32 or a uint32, all tags parse, and no value and no default is given twice; then each case value
      selects the field whose union part lists it, and the default is the field marked so, or none. */
  lemma UnionLayout(tbl: Table, decls: seq<Decl>, s: nat)
    requires FirstIs(decls, s) && decls[s].tag.head.Switch?
    ensures var l := LayoutOf(tbl, decls);
      && (l.Union? <==>
            && IsSwitch(Lookup(tbl, decls[s].t)) && Parse(tbl, decls[s].t, decls[s].tag, MaybeInUnion).0.Ok?
            && (forall k :: s < k < |decls| ==> ArmTag(tbl, decls[k]).Ok?)
            && (forall k :: s < k < |decls| ==> NoRepeats(Listed(decls[k])))
            && (forall j, k, v :: s < j < k < |decls| && v in Listed(decls[j]) ==> v !in Listed(decls[k]))
            && (forall j, k :: s < j < k < |decls| && IsDefault(decls[j]) ==> !IsDefault(decls[k])))
      && (l.Union? ==> Describes(tbl, decls, s, l))
  {
    hide ReadField, Parse, Listed, IsDefault, SlotIs, NoRepeats, ArmTag, Consistent, Tabulates, Describes;
    ScanTo(tbl, decls, 0, s);
    FirstField(tbl, decls, s);
    var u := ReadField(tbl, Scanning, s, decls[s]);
    if u.Union? {
      if forall k :: s < k < |decls| ==> ArmTag(tbl, decls[k]).Ok? {
        UnionTable(tbl, u, decls, s + 1);
        FirstTime(u, decls, s);
        if LayoutOf(tbl, decls).Union? { UnionDescribed(tbl, u, decls, s, LayoutOf(tbl, decls)); }
      } else {
        BadArm(tbl, u, decls, s + 1);
      }
    } else {
      StoppedStays(tbl, u, decls, s + 1);
    }
  }

  /** Nothing was listed before the switch. */
  lemma FirstTime(u: Layout, decls: seq<Decl>, s: nat)
    requires u.Union? && u.cases == map[] && u.default == -1
    ensures Consistent(u, decls, s + 1) <==>
      && (forall k :: s < k < |decls| ==> NoRepeats(Listed(decls[k])))
      && (forall j, k, v :: s < j < k < |decls| && v in Listed(decls[j]) ==> v !in Listed(decls[k]))
      && (forall j, k :: s < j < k < |decls| && IsDefault(decls[j]) ==> !IsDefault(decls[k]))
  {
    hide NoRepeats, Listed, IsDefault;
  }

  lemma UnionDescribed(tbl: Table, u: Layout, decls: seq<Decl>, s: nat, l: Layout)
    requires u.Union? && l.Union? && s < |decls| && u.body == map[] && u.cases == map[] && u.default == -1
    requires Tabulates(tbl, u, decls, s + 1, l) && SlotIs(tbl, u.switch, decls, s) && l == LayoutOf(tbl, decls)
    requires forall k :: s < k < |decls| ==> ArmTag(tbl, decls[k]).Ok?
    ensures Describes(tbl, decls, s, l)
  {
    hide ArmTag, Spells, Listed, IsDefault, ReadFields;
    LayoutShaped(tbl, Scanning, decls, 0);
    ArmsThere(tbl, u, decls, s, l);
    forall k | k in l.body ensures SlotIs(tbl, l.body[k], decls, k) { ArmSlot(tbl, decls, k); }
  }

  lemma ArmsThere(tbl: Table, u: Layout, decls: seq<Decl>, s: nat, l: Layout)
    requires u.Union? && l.Union? && s < |decls| && u.body == map[] && BodiesAdded(tbl, u, decls, s + 1, l)
    requires Shaped(l, |decls|)
    ensures forall k :: k in l.body <==> s < k < |decls| && !decls[k].tag.Dash?
    ensures forall k :: k in l.body ==> l.body[k] == SlotFor(tbl, decls[k], k)
  {
    hide SlotFor;
  }

  lemma ArmSlot(tbl: Table, decls: seq<Decl>, k: nat)
    requires k < |decls| && !decls[k].tag.Dash? && ArmTag(tbl, decls[k]).Ok?
    ensures SlotIs(tbl, SlotFor(tbl, decls[k], k), decls, k)
  {
    hide Spells;
    var d := decls[k];
    ParsesIff(tbl, d.t, d.tag, InUnion);
    ParseSpells(tbl, d.t, d.tag, InUnion);
    ParsedKind(tbl, d.t, d.tag, InUnion);
  }

  /** An arm whose tag does not parse breaks the union. */
  lemma {:induction false} BadArm(tbl: Table, l: Layout, decls: seq<Decl>, i: nat)
    requires l.Union? && i <= |decls| && exists k :: i <= k < |decls| && !ArmTag(tbl, decls[k]).Ok?
    ensures !ReadFields(tbl, l, decls, i).Union?
    decreases |decls| - i
  {
    var s := ReadField(tbl, l, i, decls[i]);
    if ArmTag(tbl, decls[i]).Ok? && s.Union? {
      BadArm(tbl, s, decls, i + 1);
    } else {
      StepStops(tbl, l, i, decls[i]);
      StoppedStays(tbl, s, decls, i + 1);
    }
  }

  lemma StepStops(tbl: Table, l: Layout, i: nat, d: Decl)
    requires l.Union? && (!ArmTag(tbl, d).Ok? || !ReadField(tbl, l, i, d).Union?)
    ensures ReadField(tbl, l, i, d).Broken?
  {
    hide Parse;
  }
}
