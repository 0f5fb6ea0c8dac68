/** Which arm a union writes and reads: that of the case value if some field lists it, else the default, else
    none; for codecs, and for types by the union parts of their fields' tags. */
module Unions {
  import opened Words
  import opened Types
  import opened Tags
  import opened TagParser
  import opened Spelling
  import opened Codecs
  import opened Structs
  import opened Layouts
  import opened Shapes
  import opened Meaning

  /** The switch value stands for case value `k`: a bool for 0 or 1, an integer for its low 32 bits. */
  predicate StandsFor(v: Value, k: u32)
  {
    match v
    case VBool(b) => k == if b then 1 else 0
    case VNum(n) => k == n % 0x1_0000_0000
    case _ => false
  }

  /** The value is one of the kind of switch. */
  predicate OfKind(kind: SwitchKind, v: Value) { if kind.BoolSwitch? then v.VBool? else v.VNum? }

  /** No arm is selected; the note is the index looked for. */
  function NoArm(name: string, arm: int): Error
  {
    FieldError(ArmUndefined, [PathStep(if name == "" then "<anonymous>" else name, "?", AtArm(arm))])
  }

  // ---------------------------------------------------------------- codecs

  /** After its switch a union writes the arm that the table has for the case value; if the table has none, the
      default arm; if there is no such arm, nothing, and fails. */
  lemma UnionWrites<R>(g: Graph<R>, n: Node<R>, vals: seq<Value>, k: u32)
    requires n.UnionCodec? && |vals| == n.width && n.switch.index < n.width
    requires OfKind(n.kind, vals[n.switch.index]) && StandsFor(vals[n.switch.index], k)
    requires EncodeField(g, n.name, AtSwitch, n.switch, vals).err == None
    ensures var head := EncodeField(g, n.name, AtSwitch, n.switch, vals).bytes; var out := EncodeBy(g, n, VRec(vals));
      && (k in n.cases && n.cases[k] in n.body ==>
            out == After(head, EncodeField(g, n.name, AtArm(k), n.body[n.cases[k]], vals)))
      && (k !in n.cases && n.default in n.body ==>
            out == After(head, EncodeField(g, n.name, AtArm(k), n.body[n.default], vals)))
      && (k in n.cases && n.cases[k] !in n.body ==> out == Written(head, Some(NoArm(n.name, n.cases[k]))))
      && (k !in n.cases && n.default !in n.body ==> out == Written(head, Some(NoArm(n.name, n.default))))
  {
    hide Encode;
  }

  /** And what it reads after its switch. */
  lemma UnionReads<R>(g: Graph<R>, n: Node<R>, input: seq<byte>, depth: nat, vals: seq<Value>, more: seq<byte>, k: u32)
    requires n.UnionCodec? && depth > 0
    requires DecodeField(g, n.name, AtSwitch, n.switch, Untouched(n.width), input, depth - 1) == Ok((vals, more))
    requires OfKind(n.kind, vals[n.switch.index]) && StandsFor(vals[n.switch.index], k)
    ensures var out := DecodeBy(g, n, input, depth);
      && (k in n.cases && n.cases[k] in n.body ==>
            out == OnRecord(DecodeField(g, n.name, AtArm(k), n.body[n.cases[k]], vals, more, depth - 1)))
      && (k !in n.cases && n.default in n.body ==>
            out == OnRecord(DecodeField(g, n.name, AtArm(k), n.body[n.default], vals, more, depth - 1)))
      && (k in n.cases && n.cases[k] !in n.body ==> out == Err(NoArm(n.name, n.cases[k])))
      && (k !in n.cases && n.default !in n.body ==> out == Err(NoArm(n.name, n.default)))
  {
    hide Decode;
  }

  function OnRecord(res: Reading<seq<Value>>): Reading<Value>
  {
    match res
    case Err(e) => Err(e)
    case Ok((vals, rest)) => Ok((VRec(vals), rest))
  }

  /** The word a switch writes is its case value. */
  lemma SwitchWrites(p: Prim, kind: SwitchKind, v: Value)
    requires SwitchFits<nat>(PrimCodec(p), kind) && PrimTyped(p, v)
    ensures OfKind(kind, v)
    ensures exists k: u32 :: StandsFor(v, k) && EncodePrim(p, v) == WordBytes(k)
  {
    if p.Bool? {
      assert StandsFor(v, if v.b then 1 else 0);
    } else {
      assert StandsFor(v, Wrap32(v.n));
    }
  }

  /** The case value a switch is read as is the word there. */
  lemma SwitchReads(p: Prim, kind: SwitchKind, input: seq<byte>)
    requires SwitchFits<nat>(PrimCodec(p), kind) && DecodePrim(p, input).Ok?
    ensures var (v, rest) := DecodePrim(p, input).value;
      |input| >= 4 && rest == input[4..] && OfKind(kind, v) && StandsFor(v, WordAt(input))
  {
    assert WordAt(input[..4]) == WordAt(input);
    if p.Int32? { Unsigned(WordAt(input)); }
  }

  lemma Unsigned(w: u32)
    ensures Signed(w, 0x1_0000_0000) % 0x1_0000_0000 == w
  {
  }

  // ---------------------------------------------------------------- types

  /** Struct type `t` is a union with switch field `s`. */
  ghost predicate IsUnion(tbl: Table, t: TypeId, s: nat)
  {
    && Lookup(tbl, t).Struct? && FirstIs(Lookup(tbl, t).fields, s) && Lookup(tbl, t).fields[s].tag.head.Switch?
    && LayoutOf(tbl, Lookup(tbl, t).fields).Union?
  }

  /** Field `i` is the arm for case value `k`: its union part lists `k`, or no field's does and it is the default. */
  ghost predicate Selected(decls: seq<Decl>, s: nat, k: u32, i: nat)
  {
    && s < i < |decls|
    && (k in Listed(decls[i])
        || (IsDefault(decls[i]) && forall j :: s < j < |decls| ==> k !in Listed(decls[j])))
  }

  /** A switch's own codec is that of its type: no part of its tag says anything. */
  lemma SwitchIsPlain(tbl: Table, d: Decl, tag: Tag)
    requires d.tag.Parts? && IsSwitch(Lookup(tbl, d.t)) && Parse(tbl, d.t, d.tag, MaybeInUnion).0.Ok?
    requires Spells(tbl, d.t, d.tag.layers, tag)
    ensures tag == []
  {
    ParsesIff(tbl, d.t, d.tag, MaybeInUnion);
    var parts := d.tag.layers;
    if parts != [] {
      assert WrongAt(tbl, d.t, parts, 0).None?;
      assert SpellsPart(TypeAt(tbl, d.t, 0), parts[0], tag, 0);
    }
  }

  /** What is known of a union type's table and switch. */
  lemma UnionFacts(tbl: Table, t: TypeId, s: nat)
    requires IsUnion(tbl, t, s)
    ensures var decls := Lookup(tbl, t).fields; var l := LayoutOf(tbl, decls); var ty := Lookup(tbl, decls[s].t);
      && Describes(tbl, decls, s, l) && IsSwitch(ty) && l.switch == Slot(decls[s].name, s, decls[s].t, [])
      && l.kind == (if ty == Basic(Int32) then IntSwitch else if ty == Basic(Uint32) then UintSwitch else BoolSwitch)
  {
    hide Describes, Parse, Listed, IsDefault, ReadField, ReadFields, Spells;
    var decls := Lookup(tbl, t).fields;
    var l := LayoutOf(tbl, decls);
    UnionLayout(tbl, decls, s);
    KindKept(tbl, decls, s);
    DescribedSwitch(tbl, decls, s, l);
    SwitchIsPlain(tbl, decls[s], l.switch.tag);
  }

  lemma DescribedSwitch(tbl: Table, decls: seq<Decl>, s: nat, l: Layout)
    requires s < |decls| && l.Union? && Describes(tbl, decls, s, l)
    ensures SlotIs(tbl, l.switch, decls, s)
  {
  }

  lemma KindKept(tbl: Table, decls: seq<Decl>, s: nat)
    requires FirstIs(decls, s) && decls[s].tag.head.Switch? && LayoutOf(tbl, decls).Union?
    ensures var ty := Lookup(tbl, decls[s].t);
      LayoutOf(tbl, decls).kind
      == if ty == Basic(Int32) then IntSwitch else if ty == Basic(Uint32) then UintSwitch else BoolSwitch
  {
    hide Parse, ReadField, Spells;
    ScanTo(tbl, decls, 0, s);
    FirstField(tbl, decls, s);
    var u := ReadField(tbl, Scanning, s, decls[s]);
    if u.Union? { SameKind(tbl, u, decls, s + 1); } else { StoppedStays(tbl, u, decls, s + 1); }
  }

  lemma {:induction false} SameKind(tbl: Table, l: Layout, decls: seq<Decl>, i: nat)
    requires l.Union? && i <= |decls| && ReadFields(tbl, l, decls, i).Union?
    ensures ReadFields(tbl, l, decls, i).kind == l.kind
    decreases |decls| - i
  {
    if i < |decls| {
      var s := ReadField(tbl, l, i, decls[i]);
      KindStep(tbl, l, i, decls[i]);
      if s.Union? { SameKind(tbl, s, decls, i + 1); } else { StoppedStays(tbl, s, decls, i + 1); }
    }
  }

  lemma KindStep(tbl: Table, l: Layout, i: nat, d: Decl)
    requires l.Union?
    ensures var s := ReadField(tbl, l, i, d); (s.Union? ==> s.kind == l.kind) && !s.Plain? && !s.Scanning?
  {
    hide Parse;
  }

  /** The arm the table gives is the field selected. */
  lemma ArmIsSelected(tbl: Table, decls: seq<Decl>, s: nat, l: Layout, k: u32, i: nat)
    requires s < |decls| && l.Union? && Describes(tbl, decls, s, l) && Selected(decls, s, k, i)
    ensures i in l.body && Arm(l.cases, l.default, k) == i && SlotIs(tbl, l.body[i], decls, i)
  {
    hide SlotIs;
  }

  lemma NoneSelected(tbl: Table, decls: seq<Decl>, s: nat, l: Layout, k: u32)
    requires s < |decls| && l.Union? && Describes(tbl, decls, s, l) && forall i: nat :: !Selected(decls, s, k, i)
    ensures Arm(l.cases, l.default, k) == -1
  {
    hide SlotIs;
    forall j | s < j < |decls| ensures k !in Listed(decls[j]) { assert !Selected(decls, s, k, j); }
    forall j | s < j < |decls| ensures !IsDefault(decls[j]) { assert !Selected(decls, s, k, j); }
  }

  /** A switch value that is read as case value `k`, as the type has it. */
  function SwitchAs(ty: Type, k: u32): Value
  {
    if ty == Basic(Bool) then VBool(k == 1)
    else if ty == Basic(Int32) && k >= 0x8000_0000 then VNum(k - 0x1_0000_0000)
    else VNum(k)
  }

  /** The case values a switch of the type can have. */
  predicate CanBe(ty: Type, k: u32) { IsSwitch(ty) && (ty == Basic(Bool) ==> k <= 1) }

  lemma SwitchField(tbl: Table, name: string, sw: Slot, vals: seq<Value>, k: u32)
    requires sw.index < |vals| && sw.tag == [] && CanBe(Lookup(tbl, sw.t), k)
    requires vals[sw.index] == SwitchAs(Lookup(tbl, sw.t), k)
    ensures TypedField(tbl, name, AtSwitch, sw, vals) == Done(WordBytes(k))
  {
    hide WordBytes, Wrap32;
    SwitchScalar(Lookup(tbl, sw.t), k);
    Untagged(tbl, sw.t, vals[sw.index], [], 0);
  }

  lemma SwitchScalar(ty: Type, k: u32)
    requires CanBe(ty, k)
    ensures PrimTyped(ty.prim, SwitchAs(ty, k)) && EncodePrim(ty.prim, SwitchAs(ty, k)) == WordBytes(k)
    ensures SwitchKey(if ty == Basic(Bool) then BoolSwitch else IntSwitch, SwitchAs(ty, k)) == Some(k)
    ensures SwitchKey(if ty == Basic(Bool) then BoolSwitch else UintSwitch, SwitchAs(ty, k)) == Some(k)
  {
    hide WordBytes;
    if ty == Basic(Int32) && k >= 0x8000_0000 { Around(k); }
  }

  lemma Around(k: u32)
    ensures Wrap32(k - 0x1_0000_0000) == k
  {
  }

  /** A basic or struct type under the empty tag. */
  lemma Untagged(tbl: Table, t: TypeId, v: Value, input: seq<byte>, depth: nat)
    requires Lookup(tbl, t).Basic? || Lookup(tbl, t).Struct?
    ensures TypedEncode(tbl, t, [], v) == UntaggedEncode(tbl, Lookup(tbl, t), v)
    ensures TypedDecode(tbl, t, [], input, depth) == UntaggedDecode(tbl, Lookup(tbl, t), input, depth)
  {
    hide UntaggedEncode, UntaggedDecode;
  }

  /** What field `d` of a union writes after the switch, as the arm for `k`, with the entries `tag`. */
  ghost predicate WritesArm(tbl: Table, name: string, d: Decl, k: u32, v: Value, out: Written, tag: Tag)
  {
    && d.tag.Parts? && Spells(tbl, d.t, d.tag.layers, tag)
    && var w := TypedEncode(tbl, d.t, tag, v);
       && out.bytes == WordBytes(k) + w.bytes
       && out.err == if w.err.None? then None else Some(WithFieldError(w.err.value, PathStep(name, d.name, AtArm(k))))
  }

  /** A union value is written as its case value and then the field selected by it, under the further parts of that
      field's tag; or, when no field is selected, as its case value and an error. */
  lemma UnionTypeWrites(tbl: Table, t: TypeId, s: nat, vals: seq<Value>, k: u32, i: nat) returns (tag: Tag)
    requires IsUnion(tbl, t, s) && |vals| == |Lookup(tbl, t).fields|
    requires var ty := Lookup(tbl, Lookup(tbl, t).fields[s].t); CanBe(ty, k) && vals[s] == SwitchAs(ty, k)
    ensures var ty := Lookup(tbl, t); var out := TypedEncode(tbl, t, [], VRec(vals));
      && (Selected(ty.fields, s, k, i) ==> WritesArm(tbl, ty.name, ty.fields[i], k, vals[i], out, tag))
      && ((forall j: nat :: !Selected(ty.fields, s, k, j)) ==> out == Written(WordBytes(k), Some(NoArm(ty.name, -1))))
  {
    hide Describes, LayoutOf, Spells, Selected, WordBytes, SwitchKey, TypedField, UntaggedEncode, SwitchAs;
    var ty := Lookup(tbl, t);
    var l := LayoutOf(tbl, ty.fields);
    UnionFacts(tbl, t, s);
    Untagged(tbl, t, VRec(vals), [], 0);
    SwitchField(tbl, ty.name, l.switch, vals, k);
    SwitchScalar(Lookup(tbl, ty.fields[s].t), k);
    TypedUnionWrites(tbl, ty, l, vals, k);
    tag := [];
    if Selected(ty.fields, s, k, i) {
      SelectedInside(ty.fields, s, k, i);
      ArmIsSelected(tbl, ty.fields, s, l, k, i);
      tag := l.body[i].tag;
      ArmWritten(tbl, ty.name, ty.fields, i, l.body[i], k, vals, TypedEncode(tbl, t, [], VRec(vals)));
    }
    if forall j: nat :: !Selected(ty.fields, s, k, j) {
      NoneSelected(tbl, ty.fields, s, l, k);
      NoBodyBefore(tbl, ty.fields, s, l);
    }
  }

  lemma TypedUnionWrites(tbl: Table, ty: Type, l: Layout, vals: seq<Value>, k: u32)
    requires ty.Struct? && l == LayoutOf(tbl, ty.fields) && l.Union? && |vals| == |ty.fields| && l.switch.index < |vals|
    requires TypedField(tbl, ty.name, AtSwitch, l.switch, vals) == Done(WordBytes(k))
    requires SwitchKey(l.kind, vals[l.switch.index]) == Some(k)
    ensures var arm := Arm(l.cases, l.default, k);
      UntaggedEncode(tbl, ty, VRec(vals))
      == if arm in l.body then After(WordBytes(k), TypedField(tbl, ty.name, AtArm(k), l.body[arm], vals))
         else Written(WordBytes(k), Some(NoArm(ty.name, arm)))
  {
    hide LayoutOf, TypedField, SwitchKey, WordBytes, Arm;
  }

  lemma ArmWritten(tbl: Table, name: string, decls: seq<Decl>, i: nat, slot: Slot, k: u32, vals: seq<Value>,
                   out: Written)
    requires i < |decls| == |vals| && SlotIs(tbl, slot, decls, i)
    requires out == After(WordBytes(k), TypedField(tbl, name, AtArm(k), slot, vals))
    ensures WritesArm(tbl, name, decls[i], k, vals[i], out, slot.tag)
  {
    hide Spells, WordBytes, TypedEncode;
  }

  lemma NoBodyBefore(tbl: Table, decls: seq<Decl>, s: nat, l: Layout)
    requires s < |decls| && l.Union? && Describes(tbl, decls, s, l)
    ensures -1 !in l.body
  {
  }

  /** What field `i` of a union reads after the switch, as the arm for `k`, with the entries `tag`. */
  ghost predicate ReadsArm(tbl: Table, name: string, d: Decl, vals: seq<Value>, i: nat, k: u32, more: seq<byte>,
                           depth: nat, out: Reading<Value>, tag: Tag)
    requires i < |vals|
  {
    && d.tag.Parts? && Spells(tbl, d.t, d.tag.layers, tag)
    && match TypedDecode(tbl, d.t, tag, more, depth)
       case Err(e) => out == Err(WithFieldError(e, PathStep(name, d.name, AtArm(k))))
       case Ok((v, rest)) => out == Ok((VRec(vals[i := v]), rest))
  }

  /** A union is read as a word, and then the field it selects; no other field is touched. */
  lemma UnionTypeReads(tbl: Table, t: TypeId, s: nat, input: seq<byte>, depth: nat, k: u32, i: nat) returns (tag: Tag)
    requires IsUnion(tbl, t, s) && depth > 0 && |input| >= 4 && k == WordAt(input)
    requires CanBe(Lookup(tbl, Lookup(tbl, t).fields[s].t), k)
    ensures var ty := Lookup(tbl, t); var out := TypedDecode(tbl, t, [], input, depth);
      var vals := Untouched(|ty.fields|)[s := SwitchAs(Lookup(tbl, ty.fields[s].t), k)];
      && (Selected(ty.fields, s, k, i) ==>
            ReadsArm(tbl, ty.name, ty.fields[i], vals, i, k, input[4..], depth - 1, out, tag))
      && ((forall j: nat :: !Selected(ty.fields, s, k, j)) ==> out == Err(NoArm(ty.name, -1)))
  {
    hide Describes, LayoutOf, Spells, Selected, WordAt, SwitchKey, TypedReadField, UntaggedDecode, SwitchAs;
    var ty := Lookup(tbl, t);
    var l := LayoutOf(tbl, ty.fields);
    var vals := Untouched(|ty.fields|)[s := SwitchAs(Lookup(tbl, ty.fields[s].t), k)];
    UnionFacts(tbl, t, s);
    Untagged(tbl, t, VNil, input, depth);
    SwitchRead(tbl, ty.name, l.switch, |ty.fields|, input, depth - 1, k);
    SwitchScalar(Lookup(tbl, ty.fields[s].t), k);
    TypedUnionReads(tbl, ty, l, vals, k, input, depth);
    tag := [];
    if Selected(ty.fields, s, k, i) {
      SelectedInside(ty.fields, s, k, i);
      ArmIsSelected(tbl, ty.fields, s, l, k, i);
      tag := l.body[i].tag;
      var out := TypedDecode(tbl, t, [], input, depth);
      ArmRead(tbl, ty.name, ty.fields, i, l.body[i], k, vals, input[4..], depth - 1, out);
    }
    if forall j: nat :: !Selected(ty.fields, s, k, j) {
      NoneSelected(tbl, ty.fields, s, l, k);
      NoBodyBefore(tbl, ty.fields, s, l);
    }
  }

  lemma SelectedInside(decls: seq<Decl>, s: nat, k: u32, i: nat)
    requires Selected(decls, s, k, i)
    ensures s < i < |decls|
  {
  }

  lemma TypedUnionReads(tbl: Table, ty: Type, l: Layout, vals: seq<Value>, k: u32, input: seq<byte>, depth: nat)
    requires ty.Struct? && l == LayoutOf(tbl, ty.fields) && l.Union? && |vals| == |ty.fields| && l.switch.index < |vals|
    requires depth > 0 && |input| >= 4
    requires TypedReadField(tbl, ty.name, AtSwitch, l.switch, Untouched(|ty.fields|), input, depth - 1)
          == Ok((vals, input[4..]))
    requires SwitchKey(l.kind, vals[l.switch.index]) == Some(k)
    ensures var arm := Arm(l.cases, l.default, k);
      UntaggedDecode(tbl, ty, input, depth)
      == if arm in l.body then
           OnRecord(TypedReadField(tbl, ty.name, AtArm(k), l.body[arm], vals, input[4..], depth - 1))
         else Err(NoArm(ty.name, arm))
  {
    hide LayoutOf, TypedReadField, SwitchKey, Arm;
  }

  lemma ArmRead(tbl: Table, name: string, decls: seq<Decl>, i: nat, slot: Slot, k: u32, vals: seq<Value>,
                more: seq<byte>, depth: nat, out: Reading<Value>)
    requires i < |decls| == |vals| && SlotIs(tbl, slot, decls, i)
    requires out == OnRecord(TypedReadField(tbl, name, AtArm(k), slot, vals, more, depth))
    ensures ReadsArm(tbl, name, decls[i], vals, i, k, more, depth, out, slot.tag)
  {
    hide Spells, TypedDecode;
  }

  lemma SwitchRead(tbl: Table, name: string, slot: Slot, width: nat, input: seq<byte>, depth: nat, k: u32)
    requires slot.index < width && slot.tag == [] && CanBe(Lookup(tbl, slot.t), k) && |input| >= 4 && k == WordAt(input)
    ensures TypedReadField(tbl, name, AtSwitch, slot, Untouched(width), input, depth)
         == Ok((Untouched(width)[slot.index := SwitchAs(Lookup(tbl, slot.t), k)], input[4..]))
  {
    hide WordAt;
    FirstWord(input);
    Untagged(tbl, slot.t, VNil, input, depth);
  }

  lemma FirstWord(input: seq<byte>)
    requires |input| >= 4
    ensures WordAt(input[..4]) == WordAt(input)
  {
  }
}
