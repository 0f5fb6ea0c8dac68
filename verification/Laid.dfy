/** Memory layouts of the types in a table, and that every compiled graph is laid out as the offset-based
    codecs need, so that what `Unsafe` proves holds of them. */
module Laid {
  import opened Words
  import opened Types
  import opened Tags
  import opened TagParser
  import opened Codecs
  import opened Structs
  import opened Shapes
  import opened Compiler
  import opened Meaning
  import opened Memory
  import Compiled

  /** The sizes of types, and the offsets of the fields of structs. */
  datatype Sizes = Sizes(size: map<TypeId, nat>, offset: map<TypeId, seq<nat>>)

  function SizeOf(z: Sizes, t: TypeId): nat { if t in z.size then z.size[t] else 0 }

  /** How Go lays types out: scalars, strings, pointers, slice and map headers and interfaces in a cell each,
      array elements a stride apart, struct fields in order without overlap, with any padding. */
  ghost predicate TypesLaid(tbl: Table, z: Sizes) { forall t :: t in tbl ==> TypeLaid(z, t, tbl[t]) }

  ghost predicate TypeLaid(z: Sizes, t: TypeId, ty: Type)
  {
    match ty
    case Array(len, elem) => SizeOf(z, t) == len * SizeOf(z, elem)
    case Struct(_, decls) => t in z.offset && FieldsLaid(z, t, decls)
    case _ => SizeOf(z, t) == 1
  }

  ghost predicate FieldsLaid(z: Sizes, t: TypeId, decls: seq<Decl>)
    requires t in z.offset
  {
    && |z.offset[t]| == |decls|
    && (forall i :: 0 <= i < |decls| ==> z.offset[t][i] + SizeOf(z, decls[i].t) <= SizeOf(z, t))
    && (forall i, j :: 0 <= i < j < |decls| ==> z.offset[t][i] + SizeOf(z, decls[i].t) <= z.offset[t][j])
  }

  // ---------------------------------------------------------------- layouts exist

  function RankOf(rank: map<TypeId, nat>, t: TypeId): nat { if t in rank then rank[t] else 0 }

  /** No type holds itself by value, as Go demands: elements of arrays and fields of structs rank lower. */
  ghost predicate Grounded(tbl: Table, rank: map<TypeId, nat>)
  {
    forall t :: t in tbl ==> GroundedType(rank, t, tbl[t])
  }

  ghost predicate GroundedType(rank: map<TypeId, nat>, t: TypeId, ty: Type)
  {
    match ty
    case Array(_, elem) => RankOf(rank, elem) < RankOf(rank, t)
    case Struct(_, decls) => LowerFields(rank, decls, t)
    case _ => true
  }

  ghost predicate LowerFields(rank: map<TypeId, nat>, decls: seq<Decl>, t: TypeId)
  {
    forall i :: 0 <= i < |decls| ==> RankOf(rank, decls[i].t) < RankOf(rank, t)
  }

  /** The cells of a type laid out without padding. */
  ghost function Cells(tbl: Table, rank: map<TypeId, nat>, t: TypeId): nat
    requires Grounded(tbl, rank)
    decreases RankOf(rank, t), 1, 0
  {
    if t !in tbl then 0 else
    match tbl[t]
    case Array(len, elem) => len * Cells(tbl, rank, elem)
    case Struct(_, decls) => CellsTo(tbl, rank, t, decls, |decls|)
    case _ => 1
  }

  /** Those of the first `i` fields. */
  ghost function CellsTo(tbl: Table, rank: map<TypeId, nat>, t: TypeId, decls: seq<Decl>, i: nat): nat
    requires Grounded(tbl, rank) && LowerFields(rank, decls, t) && i <= |decls|
    decreases RankOf(rank, t), 0, i
  {
    if i == 0 then 0 else CellsTo(tbl, rank, t, decls, i - 1) + Cells(tbl, rank, decls[i - 1].t)
  }

  lemma {:induction false} CellsInOrder(tbl: Table, rank: map<TypeId, nat>, t: TypeId, decls: seq<Decl>, i: nat, j: nat)
    requires Grounded(tbl, rank) && LowerFields(rank, decls, t) && i < j <= |decls|
    ensures CellsTo(tbl, rank, t, decls, i) + Cells(tbl, rank, decls[i].t) <= CellsTo(tbl, rank, t, decls, j)
    decreases j
  {
    if i < j - 1 { CellsInOrder(tbl, rank, t, decls, i, j - 1); }
  }

  /** Where each field starts. */
  ghost function Starts(tbl: Table, rank: map<TypeId, nat>, t: TypeId, decls: seq<Decl>): (offs: seq<nat>)
    requires Grounded(tbl, rank) && LowerFields(rank, decls, t)
  {
    seq(|decls|, i requires 0 <= i < |decls| => CellsTo(tbl, rank, t, decls, i))
  }

  lemma FieldsInOrder(tbl: Table, rank: map<TypeId, nat>, z: Sizes, t: TypeId, decls: seq<Decl>)
    requires Grounded(tbl, rank) && LowerFields(rank, decls, t) && t in z.offset
    requires z.offset[t] == Starts(tbl, rank, t, decls) && SizeOf(z, t) == CellsTo(tbl, rank, t, decls, |decls|)
    requires forall i :: 0 <= i < |decls| ==> SizeOf(z, decls[i].t) == Cells(tbl, rank, decls[i].t)
    ensures FieldsLaid(z, t, decls)
  {
    hide Grounded, LowerFields, Cells, CellsTo;
    forall i | 0 <= i < |decls| ensures z.offset[t][i] + SizeOf(z, decls[i].t) <= SizeOf(z, t) {
      CellsInOrder(tbl, rank, t, decls, i, |decls|);
    }
    forall i, j | 0 <= i < j < |decls| ensures z.offset[t][i] + SizeOf(z, decls[i].t) <= z.offset[t][j] {
      CellsInOrder(tbl, rank, t, decls, i, j);
    }
  }

  /** Every such table of types has a layout. */
  lemma TypesCanBeLaid(tbl: Table, rank: map<TypeId, nat>) returns (z: Sizes)
    requires Grounded(tbl, rank)
    ensures TypesLaid(tbl, z)
  {
    hide Starts, FieldsLaid;
    z := Sizes(map t | t in tbl :: Cells(tbl, rank, t),
               map t | t in tbl && tbl[t].Struct? :: Starts(tbl, rank, t, tbl[t].fields));
    SizeIsCells(tbl, rank, z);
    forall t | t in tbl ensures TypeLaid(z, t, tbl[t]) {
      if tbl[t].Struct? { FieldsInOrder(tbl, rank, z, t, tbl[t].fields); }
    }
  }

  lemma SizeIsCells(tbl: Table, rank: map<TypeId, nat>, z: Sizes)
    requires Grounded(tbl, rank) && z.size == map t | t in tbl :: Cells(tbl, rank, t)
    ensures forall t :: SizeOf(z, t) == Cells(tbl, rank, t)
  {
  }

  /** The layout behind each codec object: that of the type it was made for. */
  ghost function LayOf(s: Snapshot, z: Sizes): Lay<nat>
  {
    Lay(map r | r in s.origin :: SizeOf(z, s.origin[r].t),
        map r | r in s.origin && s.origin[r].t in z.offset :: z.offset[s.origin[r].t])
  }

  // ---------------------------------------------------------------- slots and the fields they stand for

  ghost predicate SlotFrom(s: Slot, decls: seq<Decl>) { s.index < |decls| && s.t == decls[s.index].t }

  /** Every slot has the type of the field it stands for, and a union's kind is that of its switch. */
  ghost predicate SlotsFrom(tbl: Table, l: Layout, decls: seq<Decl>)
  {
    match l
    case Plain(slots) => forall i :: 0 <= i < |slots| ==> SlotFrom(slots[i], decls)
    case Union(sw, kind, body, _, _) =>
      && SlotFrom(sw, decls) && SwitchKindOf(Lookup(tbl, sw.t)) == Some(kind)
      && forall a :: a in body ==> SlotFrom(body[a], decls)
    case _ => true
  }

  lemma {:induction false} LayoutFrom(tbl: Table, l: Layout, decls: seq<Decl>, i: nat)
    requires i <= |decls| && SlotsFrom(tbl, l, decls)
    ensures SlotsFrom(tbl, ReadFields(tbl, l, decls, i), decls)
    decreases |decls| - i
  {
    hide Parse, AddCases;
    if i < |decls| { LayoutFrom(tbl, ReadField(tbl, l, i, decls[i]), decls, i + 1); }
  }

  // ---------------------------------------------------------------- one codec

  lemma SizeIs(s: Snapshot, z: Sizes, r: nat, k: Key)
    requires RefIs(s.origin, r, k)
    ensures Size(LayOf(s, z), r) == SizeOf(z, k.t)
  {
  }

  lemma SlotPlaced(s: Snapshot, z: Sizes, r: nat, f: Field<nat>, slot: Slot, decls: seq<Decl>)
    requires r in s.origin && s.origin[r].t in z.offset && FieldsLaid(z, s.origin[r].t, decls)
    requires SlotFrom(slot, decls) && FieldIs(s.origin, f, SlotField(slot))
    ensures f.index == slot.index && FieldInside(LayOf(s, z), r, |decls|, f)
    ensures Offset(LayOf(s, z), r, f.index) == z.offset[s.origin[r].t][f.index]
    ensures Size(LayOf(s, z), f.codec) == SizeOf(z, decls[f.index].t)
  {
    SizeIs(s, z, f.codec, Key(slot.t, slot.tag));
  }

  lemma SlotsApart(s: Snapshot, z: Sizes, r: nat, f: Field<nat>, a: Slot, h: Field<nat>, b: Slot, decls: seq<Decl>)
    requires r in s.origin && s.origin[r].t in z.offset && FieldsLaid(z, s.origin[r].t, decls)
    requires SlotFrom(a, decls) && FieldIs(s.origin, f, SlotField(a)) && SlotFrom(b, decls)
    requires FieldIs(s.origin, h, SlotField(b)) && a.index != b.index
    ensures Apart(LayOf(s, z), r, f, h)
  {
    hide LayOf;
    SlotPlaced(s, z, r, f, a, decls);
    SlotPlaced(s, z, r, h, b, decls);
  }

  lemma StructLaid(tbl: Table, s: Snapshot, z: Sizes, r: nat, ty: Type)
    requires Ready(tbl, s) && r in s.origin && ty.Struct? && Lookup(tbl, s.origin[r].t) == ty
    requires s.origin[r].t in z.offset && FieldsLaid(z, s.origin[r].t, ty.fields)
    requires Matches(s.origin, Target(s.store, r), UntaggedShape(tbl, ty))
    ensures LaidOut(s.store, LayOf(s, z), r)
  {
    hide Ready, Matches, UntaggedShape, LayoutOf, LayOf, FieldsLaid, SlotFrom, FieldInside, Apart, FieldIs, SwitchFits;
    var n := Target(s.store, r);
    var lay, l, decls := LayOf(s, z), LayoutOf(tbl, ty.fields), ty.fields;
    StructReaches(tbl, s, n, ty);
    Compiled.LayoutIsShaped(tbl, decls);
    LayoutComesFrom(tbl, decls);
    if l.Plain? {
      forall i | 0 <= i < |n.fields| ensures FieldInside(lay, r, n.width, n.fields[i]) {
        SlotPlaced(s, z, r, n.fields[i], l.slots[i], decls);
      }
      forall i, j | 0 <= i < j < |n.fields| ensures Apart(lay, r, n.fields[i], n.fields[j]) {
        SlotsApart(s, z, r, n.fields[i], l.slots[i], n.fields[j], l.slots[j], decls);
      }
    } else if l.Union? {
      SlotPlaced(s, z, r, n.switch, l.switch, decls);
      SwitchIsScalar(tbl, s, n.switch, l.switch, l.kind);
      forall a | a in n.body ensures FieldInside(lay, r, n.width, n.body[a]) && Apart(lay, r, n.switch, n.body[a]) {
        SlotPlaced(s, z, r, n.body[a], l.body[a], decls);
        SlotsApart(s, z, r, n.switch, l.switch, n.body[a], l.body[a], decls);
      }
      forall a, b | a in n.body && b in n.body && a != b ensures Apart(lay, r, n.body[a], n.body[b]) {
        SlotsApart(s, z, r, n.body[a], l.body[a], n.body[b], l.body[b], decls);
      }
    }
  }

  lemma LayoutComesFrom(tbl: Table, decls: seq<Decl>)
    ensures SlotsFrom(tbl, LayoutOf(tbl, decls), decls)
  {
    LayoutFrom(tbl, Scanning, decls, 0);
  }

  /** The switch of a compiled union is the scalar its kind says, or has an error codec. */
  lemma SwitchIsScalar(tbl: Table, s: Snapshot, f: Field<nat>, slot: Slot, kind: SwitchKind)
    requires Ready(tbl, s) && FieldIs(s.origin, f, SlotField(slot)) && SwitchKindOf(Lookup(tbl, slot.t)) == Some(kind)
    ensures SwitchFits(Target(s.store, f.codec), kind)
  {
    hide Ready, FieldsAre, BodiesAre;
    ReachesNode(tbl, s, f.codec, Key(slot.t, slot.tag));
  }

  lemma NodeLaid(tbl: Table, s: Snapshot, z: Sizes, r: nat)
    requires Ready(tbl, s) && TypesLaid(tbl, z) && r in s.store
    ensures LaidOut(s.store, LayOf(s, z), r)
  {
    hide Ready, LayOf, UntaggedShape, FieldsAre, BodiesAre, FieldIs, FieldsLaid, Matches, ShapeOf;
    Compiled.StoreIsOrigin(tbl, s);
    var k := s.origin[r];
    var n, ty := Target(s.store, r), Lookup(tbl, k.t);
    ReachesNode(tbl, s, r, k);
    SizeIs(s, z, r, k);
    if KindOf(k.tag) == OPT {
      OptLaid(tbl, s, z, r, k);
    } else if HasElem(ty) {
      ContainerLaid(tbl, s, z, r, k);
    } else {
      LeafLaid(tbl, s, z, r, k);
    }
  }

  lemma OptLaid(tbl: Table, s: Snapshot, z: Sizes, r: nat, k: Key)
    requires Reaches(tbl, s, r, k) && TypesLaid(tbl, z) && KindOf(k.tag) == OPT
    ensures LaidOut(s.store, LayOf(s, z), r)
  {
    hide Ready, LayOf, UntaggedShape, FieldsAre, BodiesAre, FieldIs, FieldsLaid;
    ReachesNode(tbl, s, r, k);
    StrippedTag(tbl, k.t, k.tag);
    OptionalReaches(tbl, s, Target(s.store, r), k);
    SizeIs(s, z, r, k);
    SizeIs(s, z, Target(s.store, r).elem, Key(k.t, StripOpt(k.tag)));
  }

  lemma ContainerLaid(tbl: Table, s: Snapshot, z: Sizes, r: nat, k: Key)
    requires Reaches(tbl, s, r, k) && TypesLaid(tbl, z) && KindOf(k.tag) != OPT && HasElem(Lookup(tbl, k.t))
    ensures LaidOut(s.store, LayOf(s, z), r)
  {
    hide Ready, LayOf, Matches, ShapeOf, FieldsLaid;
    ReachesNode(tbl, s, r, k);
    ContainerReaches(tbl, s, Target(s.store, r), k);
    var n, ty := Target(s.store, r), Lookup(tbl, k.t);
    SizeIs(s, z, r, k);
    if n.ArrayCodec? {
      SizeIs(s, z, n.elem, Key(ty.elem, Tail(k.tag)));
    } else if n.OpaqueArrayCodec? {
      OctetSize(tbl, z, ty.elem, Tail(k.tag), k);
    }
  }

  /** Elements of opaque arrays are bytes. */
  lemma OctetSize(tbl: Table, z: Sizes, elem: TypeId, tag: Tag, k: Key)
    requires TypesLaid(tbl, z) && GoodTag(tbl, k.t, k.tag) && HasElem(tbl[k.t]) && tbl[k.t].elem == elem
    requires tag == Tail(k.tag) && KindOf(tag) == OPAQUE
    ensures SizeOf(z, elem) == 1
  {
    hide FieldsLaid, TagsUpTo;
    assert tag == k.tag[1..] && Fits(tbl, elem, tag);
    assert IsOctet(Lookup(tbl, elem));
  }

  lemma LeafLaid(tbl: Table, s: Snapshot, z: Sizes, r: nat, k: Key)
    requires Reaches(tbl, s, r, k) && TypesLaid(tbl, z) && KindOf(k.tag) != OPT && !HasElem(Lookup(tbl, k.t))
    ensures LaidOut(s.store, LayOf(s, z), r)
  {
    hide Ready, LayOf, FieldsLaid, StructShape, FieldsAre, BodiesAre, FieldIs;
    ReachesNode(tbl, s, r, k);
    SizeIs(s, z, r, k);
    var ty := Lookup(tbl, k.t);
    if ty.Struct? && k.tag == [] { StructLaid(tbl, s, z, r, ty); }
  }

  /** Compiled graphs are laid out: the offset-based codecs handle every type the compiler does. */
  lemma CompiledIsLaid(tbl: Table, s: Snapshot, z: Sizes)
    requires Ready(tbl, s) && TypesLaid(tbl, z)
    ensures WellLaid(s.store, LayOf(s, z))
  {
    hide Ready, TypesLaid, LayOf;
    forall r: nat ensures LaidOut(s.store, LayOf(s, z), r) {
      if r in s.store { NodeLaid(tbl, s, z, r); }
    }
  }
}
