/** How a struct type is read as an XDR struct or union: the field loop of `makeStructCodec`,
    one field at a time. */
module Structs {
  import opened Words
  import opened Types
  import opened Tags
  import opened TagParser
  import opened Spelling
  import opened Codecs

  /** A field to be given a codec for type `t` under `tag`. */
  datatype Slot = Slot(name: string, index: nat, t: TypeId, tag: Tag)

  datatype Layout =
    | Scanning                       // only skipped fields so far
    | Plain(slots: seq<Slot>)
    | Union(switch: Slot, kind: SwitchKind, body: map<nat, Slot>, cases: map<u32, nat>, default: int)
    | Broken(why: BuildError)        // the type gets an error codec
    | PanicsUndecided                // "unskipped field but don't know if we're a union"
    | PanicsNotSwitch                // "first element of union not switch"
    | PanicsKind                     // "switch field of union not valid"

  function Mode(l: Layout): IsInUnion
  {
    if l.Plain? then NotInUnion else if l.Union? then InUnion else MaybeInUnion
  }

  function SwitchKindOf(ty: Type): Option<SwitchKind>
  {
    if ty == Basic(Int32) then Some(IntSwitch)
    else if ty == Basic(Uint32) then Some(UintSwitch)
    else if ty == Basic(Bool) then Some(BoolSwitch)
    else None
  }

  /** Enters every listed value; the error names the first one already there. */
  function AddCases(cases: map<u32, nat>, vs: seq<u32>, i: nat): Result<map<u32, nat>, u32>
    decreases |vs|
  {
    if vs == [] then Ok(cases)
    else if vs[0] in cases then Err(vs[0])
    else AddCases(cases[vs[0] := i], vs[1..], i)
  }

  function AddArm(l: Layout, i: nat, d: Decl, tag: Tag): Layout
    requires l.Union?
  {
    var body := l.body[i := Slot(d.name, i, d.t, Tail(tag))];
    if KindOf(tag) == UNION_CASES then
      match AddCases(l.cases, tag[0].vs, i)
      case Err(v) => Broken(DuplicateCase(v))
      case Ok(cases) => l.(body := body, cases := cases)
    else if KindOf(tag) == UNION_DEFAULT then
      if l.default != -1 then Broken(DuplicateDefault) else l.(body := body, default := i)
    else l.(body := body)
  }

  /** What field `i` does to the reading so far. */
  function ReadField(tbl: Table, l: Layout, i: nat, d: Decl): Layout
  {
    if !(l.Scanning? || l.Plain? || l.Union?) then l else
    var (res, u) := Parse(tbl, d.t, d.tag, Mode(l));
    match res
    case Err(e) => Broken(FieldTag(d.name, e))
    case Ok(tag) =>
      if KindOf(tag) == SKIP then l
      else if l.Plain? then Plain(l.slots + [Slot(d.name, i, d.t, tag)])
      else if l.Union? then AddArm(l, i, d, tag)
      else if u == MaybeInUnion then PanicsUndecided
      else if u == NotInUnion then Plain([Slot(d.name, i, d.t, tag)])
      else if KindOf(tag) != UNION_SWITCH then PanicsNotSwitch
      else
        match SwitchKindOf(Lookup(tbl, d.t))
        case None => PanicsKind
        case Some(kind) => Union(Slot(d.name, i, d.t, Tail(tag)), kind, map[], map[], -1)
  }

  function ReadFields(tbl: Table, l: Layout, decls: seq<Decl>, i: nat): Layout
    requires i <= |decls|
    decreases |decls| - i
  {
    if i == |decls| then l else ReadFields(tbl, ReadField(tbl, l, i, decls[i]), decls, i + 1)
  }

  function LayoutOf(tbl: Table, decls: seq<Decl>): Layout { ReadFields(tbl, Scanning, decls, 0) }

  lemma {:induction false} StoppedStays(tbl: Table, l: Layout, decls: seq<Decl>, i: nat)
    requires i <= |decls| && !(l.Scanning? || l.Plain? || l.Union?)
    ensures ReadFields(tbl, l, decls, i) == l
    decreases |decls| - i
  {
    if i < |decls| { StoppedStays(tbl, l, decls, i + 1); }
  }

  // ---------------------------------------------------------------- shape

  /** Slots are distinct fields of the struct, and every arm a case key can select has a slot. */
  ghost predicate Shaped(l: Layout, i: nat)
  {
    match l
    case Plain(slots) =>
      && (forall a :: 0 <= a < |slots| ==> slots[a].index < i)
      && (forall a, b :: 0 <= a < b < |slots| ==> slots[a].index < slots[b].index)
    case Union(sw, _, body, cases, default) =>
      && sw.index < i
      && (forall a :: a in body ==> sw.index < a < i && body[a].index == a)
      && (forall v :: v in cases ==> cases[v] in body)
      && (default == -1 || (default >= 0 && default in body))
    case _ => true
  }

  ghost predicate NoRepeats(vs: seq<u32>) { forall a, b :: 0 <= a < b < |vs| ==> vs[a] != vs[b] }

  lemma RepeatsUnfold(vs: seq<u32>)
    requires vs != []
    ensures NoRepeats(vs) <==> NoRepeats(vs[1..]) && vs[0] !in vs[1..]
  {
    var t := vs[1..];
    if NoRepeats(t) && vs[0] !in t {
      forall a, b | 0 <= a < b < |vs| ensures vs[a] != vs[b] {
        assert vs[b] == t[b - 1];
        if a > 0 { assert vs[a] == t[a - 1]; }
      }
    }
    if NoRepeats(vs) {
      forall a, b | 0 <= a < b < |t| ensures t[a] != t[b] { assert t[a] == vs[a + 1] && t[b] == vs[b + 1]; }
      forall b | 0 <= b < |t| ensures t[b] != vs[0] { assert t[b] == vs[b + 1]; }
    }
  }

  /** The value loop succeeds exactly on values that are new and pairwise distinct. */
  lemma {:induction false} AddCasesIs(cases: map<u32, nat>, vs: seq<u32>, i: nat)
    ensures AddCases(cases, vs, i).Ok? <==> NoRepeats(vs) && forall v :: v in vs ==> v !in cases
    ensures var r := AddCases(cases, vs, i);
      r.Ok? ==>
        && (forall v :: v in r.value <==> v in cases || v in vs)
        && (forall v :: v in r.value ==> r.value[v] == if v in cases then cases[v] else i)
    ensures var r := AddCases(cases, vs, i);
      r.Err? ==> exists j: nat :: FirstTaken(cases, vs, j) && r.error == vs[j]
    decreases |vs|
  {
    if vs != [] {
      assert vs == [vs[0]] + vs[1..];
      RepeatsUnfold(vs);
      if vs[0] in cases {
        assert FirstTaken(cases, vs, 0);
      } else {
        var more := cases[vs[0] := i];
        AddCasesIs(more, vs[1..], i);
        if AddCases(more, vs[1..], i).Err? {
          var j: nat :| FirstTaken(more, vs[1..], j) && AddCases(more, vs[1..], i).error == vs[1..][j];
          FirstBehind(cases, vs, i, j);
        }
      }
    }
  }

  /** Value `j` is already in the table, or listed before it. */
  predicate Taken(cases: map<u32, nat>, vs: seq<u32>, j: nat)
    requires j < |vs|
  {
    vs[j] in cases || vs[j] in vs[..j]
  }

  ghost predicate FirstTaken(cases: map<u32, nat>, vs: seq<u32>, j: nat)
  {
    j < |vs| && Taken(cases, vs, j) && forall i :: 0 <= i < j ==> !Taken(cases, vs, i)
  }

  lemma TakenBehind(cases: map<u32, nat>, vs: seq<u32>, i: nat, j: nat)
    requires j + 1 < |vs| && vs[0] !in cases
    ensures Taken(cases[vs[0] := i], vs[1..], j) <==> Taken(cases, vs, j + 1)
  {
    assert vs[..j + 1] == [vs[0]] + vs[1..][..j];
  }

  lemma FirstBehind(cases: map<u32, nat>, vs: seq<u32>, i: nat, j: nat)
    requires vs != [] && vs[0] !in cases && FirstTaken(cases[vs[0] := i], vs[1..], j)
    ensures FirstTaken(cases, vs, j + 1)
  {
    TakenBehind(cases, vs, i, j);
    forall a | 0 <= a < j + 1 ensures !Taken(cases, vs, a) {
      if a > 0 {
        assert !Taken(cases[vs[0] := i], vs[1..], a - 1);
        TakenBehind(cases, vs, i, a - 1);
      }
    }
  }

  lemma StepShaped(tbl: Table, l: Layout, i: nat, d: Decl)
    requires Shaped(l, i)
    ensures Shaped(ReadField(tbl, l, i, d), i + 1)
  {
    var (res, u) := Parse(tbl, d.t, d.tag, Mode(l));
    if l.Union? && res.Ok? && KindOf(res.value) == UNION_CASES {
      AddCasesIs(l.cases, res.value[0].vs, i);
    }
  }

  /** Whatever `makeStructCodec` builds uses each field at most once and can index only arms it filled. */
  lemma {:induction false} LayoutShaped(tbl: Table, l: Layout, decls: seq<Decl>, i: nat)
    requires i <= |decls| && Shaped(l, i)
    ensures Shaped(ReadFields(tbl, l, decls, i), |decls|)
    decreases |decls| - i
  {
    if i < |decls| {
      StepShaped(tbl, l, i, decls[i]);
      LayoutShaped(tbl, ReadField(tbl, l, i, decls[i]), decls, i + 1);
    }
  }

  // ---------------------------------------------------------------- panics

  /** Two of the three panics cannot happen; the third happens exactly when the first field that is
      not skipped parses as a switch of a type other than int32, uint32 or bool. */
  lemma {:induction false} OnlyTheKindPanics(tbl: Table, decls: seq<Decl>, i: nat)
    requires i <= |decls| && forall k :: 0 <= k < i ==> decls[k].tag.Dash?
    ensures var l := ReadFields(tbl, Scanning, decls, i);
      && !l.PanicsUndecided? && !l.PanicsNotSwitch?
      && (l.PanicsKind? <==> exists k: nat :: FirstIs(decls, k) && BadSwitch(tbl, decls[k]))
    decreases |decls| - i
  {
    if i < |decls| {
      var d := decls[i];
      if d.tag.Dash? {
        OnlyTheKindPanics(tbl, decls, i + 1);
      } else {
        assert FirstIs(decls, i);
        ScanStep(tbl, i, d);
        var l := ReadField(tbl, Scanning, i, d);
        NoLatePanic(tbl, l, decls, i + 1);
        if l.PanicsKind? { StoppedStays(tbl, l, decls, i + 1); }
        forall k: nat | FirstIs(decls, k) ensures k == i {}
      }
    }
  }

  predicate FirstIs(decls: seq<Decl>, k: nat)
  {
    k < |decls| && !decls[k].tag.Dash? && forall j :: 0 <= j < k ==> decls[j].tag.Dash?
  }

  /** Accepted by the tag parser as a union switch, refused by a panic. */
  predicate BadSwitch(tbl: Table, d: Decl)
  {
    && Parse(tbl, d.t, d.tag, MaybeInUnion).0.Ok?
    && d.tag.Parts? && d.tag.head == Switch
    && SwitchKindOf(Lookup(tbl, d.t)) == None
  }

  lemma FirstTag(tbl: Table, t: TypeId, tag: StructTag)
    requires tag.Parts? && Parse(tbl, t, tag, MaybeInUnion).0.Ok?
    ensures var (res, u) := Parse(tbl, t, tag, MaybeInUnion);
      && (tag.head == NoUnion ==> u == NotInUnion && KindOf(res.value) != SKIP)
      && (tag.head != NoUnion ==> tag.head == Switch && u == InUnion && KindOf(res.value) == UNION_SWITCH)
  {
    var es := Layers(tbl, t, tag.layers).value;
    LayersFit(tbl, t, tag.layers);
    if tag.head == NoUnion {
      TrimmedLayersFit(tbl, t, [], es);
      FittingHead(tbl, t, Trim([] + es));
    } else {
      TrimmedLayersFit(tbl, t, [Entry(UNION_SWITCH, [])], es);
    }
  }

  lemma ScanStep(tbl: Table, i: nat, d: Decl)
    requires !d.tag.Dash?
    ensures var l := ReadField(tbl, Scanning, i, d);
      && !l.Scanning? && !l.PanicsUndecided? && !l.PanicsNotSwitch?
      && (l.PanicsKind? <==> BadSwitch(tbl, d))
  {
    if Parse(tbl, d.t, d.tag, MaybeInUnion).0.Ok? { FirstTag(tbl, d.t, d.tag); }
  }

  lemma {:induction false} NoLatePanic(tbl: Table, l: Layout, decls: seq<Decl>, i: nat)
    requires i <= |decls| && !l.Scanning?
    ensures var r := ReadFields(tbl, l, decls, i);
      (r.PanicsUndecided? || r.PanicsNotSwitch? || r.PanicsKind?) ==> r == l
    decreases |decls| - i
  {
    if i < |decls| { NoLatePanic(tbl, ReadField(tbl, l, i, decls[i]), decls, i + 1); }
  }

  /** The tag parser accepts switches the compiler then panics on, such as an int8. */
  lemma ParserAcceptsBadSwitch(tbl: Table, t: TypeId)
    requires Lookup(tbl, t) == Basic(Int8)
    ensures LayoutOf(tbl, [Decl("S", t, Parts(Switch, []))]) == PanicsKind
  {
    var d := Decl("S", t, Parts(Switch, []));
    assert [Entry(UNION_SWITCH, [])] + [] == [Entry(UNION_SWITCH, [])];
    StoppedStays(tbl, PanicsKind, [d], 1);
  }

  // ---------------------------------------------------------------- the union table

  function ArmTag(tbl: Table, d: Decl): Result<Tag, TagError> { Parse(tbl, d.t, d.tag, InUnion).0 }

  predicate Skipped(d: Decl) { d.tag.Dash? }

  /** The case values a field's tag lists. */
  function Listed(d: Decl): seq<u32>
  {
    if d.tag.Dash? then [] else
    match d.tag.head
    case False => [0]
    case True => [1]
    case Cases(values) => values
    case _ => []
  }

  predicate IsDefault(d: Decl) { d.tag.Parts? && d.tag.head.Default? }

  /** No case value is listed twice, nor more than one default, from field `i` on or before it. */
  ghost predicate Consistent(l: Layout, decls: seq<Decl>, i: nat)
    requires l.Union?
  {
    && (forall k :: i <= k < |decls| ==> NoRepeats(Listed(decls[k])))
    && (forall k, v :: i <= k < |decls| && v in Listed(decls[k]) ==> v !in l.cases)
    && (forall j, k, v :: i <= j < k < |decls| && v in Listed(decls[j]) ==> v !in Listed(decls[k]))
    && (forall k :: i <= k < |decls| && IsDefault(decls[k]) ==> l.default == -1)
    && (forall j, k :: i <= j < k < |decls| && IsDefault(decls[j]) ==> !IsDefault(decls[k]))
  }

  /** The table of `r` adds to that of `l` exactly what fields `i` and later say: the cases, */
  ghost predicate CasesAdded(l: Layout, decls: seq<Decl>, i: nat, r: Layout)
    requires l.Union? && r.Union?
  {
    && (forall v :: v in l.cases ==> v in r.cases && r.cases[v] == l.cases[v])
    && (forall k, v :: i <= k < |decls| && v in Listed(decls[k]) ==> v in r.cases && r.cases[v] == k)
    && (forall v :: v in r.cases && v !in l.cases ==>
          i <= r.cases[v] < |decls| && v in Listed(decls[r.cases[v]]))
  }

  /** the default arm, */
  ghost predicate DefaultAdded(l: Layout, decls: seq<Decl>, i: nat, r: Layout)
    requires l.Union? && r.Union?
  {
    && (forall k :: i <= k < |decls| && IsDefault(decls[k]) ==> r.default == k)
    && ((forall k :: i <= k < |decls| ==> !IsDefault(decls[k])) ==> r.default == l.default)
  }

  function SlotFor(tbl: Table, d: Decl, k: nat): Slot
  {
    Slot(d.name, k, d.t, if ArmTag(tbl, d).Ok? then Tail(ArmTag(tbl, d).value) else [])
  }

  /** and the bodies: a slot for every field that is not skipped. */
  ghost predicate BodiesAdded(tbl: Table, l: Layout, decls: seq<Decl>, i: nat, r: Layout)
    requires l.Union? && r.Union?
  {
    && (forall k :: 0 <= k < i ==> (k in r.body <==> k in l.body) && (k in l.body ==> r.body[k] == l.body[k]))
    && (forall k :: i <= k < |decls| ==>
          if Skipped(decls[k]) then k in r.body <==> k in l.body
          else k in r.body && r.body[k] == SlotFor(tbl, decls[k], k))
  }

  ghost predicate Tabulates(tbl: Table, l: Layout, decls: seq<Decl>, i: nat, r: Layout)
    requires l.Union? && r.Union?
  {
    && r.switch == l.switch && r.kind == l.kind
    && CasesAdded(l, decls, i, r) && DefaultAdded(l, decls, i, r) && BodiesAdded(tbl, l, decls, i, r)
  }

  lemma ArmStep(tbl: Table, l: Layout, i: nat, d: Decl)
    requires l.Union? && ArmTag(tbl, d).Ok?
    ensures var s := ReadField(tbl, l, i, d);
      && (s.Union? <==> && NoRepeats(Listed(d)) && (forall v :: v in Listed(d) ==> v !in l.cases)
                        && (IsDefault(d) ==> l.default == -1))
      && (!s.Union? ==> s.Broken? && (s.why.DuplicateCase? || s.why.DuplicateDefault?))
      && (s.Union? ==>
            && s.switch == l.switch && s.kind == l.kind
            && (forall v :: v in s.cases <==> v in l.cases || v in Listed(d))
            && (forall v :: v in s.cases ==> s.cases[v] == if v in l.cases then l.cases[v] else i)
            && s.default == (if IsDefault(d) then i else l.default)
            && s.body == if Skipped(d) then l.body else l.body[i := SlotFor(tbl, d, i)])
  {
    ArmHead(tbl, d);
    hide Parse;
    AddCasesIs(l.cases, Listed(d), i);
  }

  /** The first entry of an arm's tag is what its union part says. */
  lemma ArmHead(tbl: Table, d: Decl)
    requires ArmTag(tbl, d).Ok?
    ensures var tag := ArmTag(tbl, d).value;
      && (KindOf(tag) == SKIP <==> Skipped(d))
      && (KindOf(tag) == UNION_DEFAULT <==> IsDefault(d))
      && (KindOf(tag) == UNION_CASES <==> d.tag.Parts? && (d.tag.head.False? || d.tag.head.True? || d.tag.head.Cases?))
      && (KindOf(tag) == UNION_CASES ==> tag[0].vs == Listed(d))
      && (d.tag.Parts? ==> !d.tag.head.NoUnion? && !d.tag.head.Switch?)
  {
    ParseSpells(tbl, d.t, d.tag, InUnion);
    if d.tag.Parts? { ParsesIff(tbl, d.t, d.tag, InUnion); }
  }

  /** Once every field's tag parses, a union is built exactly when no case value and no default is
      duplicated; its table maps a value to the field whose union part lists it, and nothing else. */
  lemma {:induction false} UnionTable(tbl: Table, l: Layout, decls: seq<Decl>, i: nat)
    requires l.Union? && i <= |decls|
    requires forall k :: i <= k < |decls| ==> ArmTag(tbl, decls[k]).Ok?
    ensures var r := ReadFields(tbl, l, decls, i);
      && (r.Union? <==> Consistent(l, decls, i))
      && (!r.Union? ==> r.Broken? && (r.why.DuplicateCase? || r.why.DuplicateDefault?))
      && (r.Union? ==> Tabulates(tbl, l, decls, i, r))
    decreases |decls| - i
  {
    hide Consistent, Tabulates, ReadField, ArmTag;
    if i == |decls| {
      NothingAdded(tbl, l, decls);
    } else {
      var s := ReadField(tbl, l, i, decls[i]);
      ArmStops(tbl, l, decls, i);
      if s.Union? {
        UnionTable(tbl, s, decls, i + 1);
        ConsistentStep(tbl, l, decls, i, s);
        var r := ReadFields(tbl, s, decls, i + 1);
        if r.Union? { TabulatesStep(tbl, l, decls, i, s, r); }
      } else {
        StoppedStays(tbl, s, decls, i + 1);
      }
    }
  }

  lemma NothingAdded(tbl: Table, l: Layout, decls: seq<Decl>)
    requires l.Union?
    ensures Consistent(l, decls, |decls|) && Tabulates(tbl, l, decls, |decls|, l)
  {
  }

  lemma ArmStops(tbl: Table, l: Layout, decls: seq<Decl>, i: nat)
    requires l.Union? && i < |decls| && ArmTag(tbl, decls[i]).Ok?
    ensures var s := ReadField(tbl, l, i, decls[i]);
      !s.Union? ==> !Consistent(l, decls, i) && s.Broken? && (s.why.DuplicateCase? || s.why.DuplicateDefault?)
  {
    hide ReadField, Listed, IsDefault, ArmTag;
    ArmStep(tbl, l, i, decls[i]);
  }

  lemma ConsistentStep(tbl: Table, l: Layout, decls: seq<Decl>, i: nat, s: Layout)
    requires l.Union? && i < |decls| && ArmTag(tbl, decls[i]).Ok?
    requires s == ReadField(tbl, l, i, decls[i]) && s.Union?
    ensures Consistent(l, decls, i) <==> Consistent(s, decls, i + 1)
  {
    ArmStep(tbl, l, i, decls[i]);
  }

  lemma TabulatesStep(tbl: Table, l: Layout, decls: seq<Decl>, i: nat, s: Layout, r: Layout)
    requires l.Union? && i < |decls| && ArmTag(tbl, decls[i]).Ok?
    requires s == ReadField(tbl, l, i, decls[i]) && s.Union? && r.Union?
    requires Tabulates(tbl, s, decls, i + 1, r) && Consistent(s, decls, i + 1)
    ensures Tabulates(tbl, l, decls, i, r)
  {
    ArmStep(tbl, l, i, decls[i]);
    assert CasesAdded(l, decls, i, r);
    BodiesStep(tbl, l, decls, i, s, r);
    DefaultStep(l, decls, i, s, r);
  }

  lemma BodiesStep(tbl: Table, l: Layout, decls: seq<Decl>, i: nat, s: Layout, r: Layout)
    requires l.Union? && s.Union? && r.Union? && i < |decls| && BodiesAdded(tbl, s, decls, i + 1, r)
    requires s.body == if Skipped(decls[i]) then l.body else l.body[i := SlotFor(tbl, decls[i], i)]
    ensures BodiesAdded(tbl, l, decls, i, r)
  {
  }

  lemma DefaultStep(l: Layout, decls: seq<Decl>, i: nat, s: Layout, r: Layout)
    requires l.Union? && s.Union? && r.Union? && i < |decls| && DefaultAdded(s, decls, i + 1, r)
    requires s.default == if IsDefault(decls[i]) then i else l.default
    requires IsDefault(decls[i]) ==> forall k :: i < k < |decls| ==> !IsDefault(decls[k])
    ensures DefaultAdded(l, decls, i, r)
  {
  }
}
