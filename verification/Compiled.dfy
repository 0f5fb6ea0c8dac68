/** What compiling a type gives, and that compiled graphs are of the form the wire laws ask for. */
module Compiled {
  import opened Words
  import opened Types
  import opened Tags
  import opened TagParser
  import opened Codecs
  import opened Structs
  import opened Shapes
  import opened Compiler
  import opened Meaning
  import Normalise

  /** A new coder's codec for a type encodes every value, and decodes every input, as the type says. */
  method CompileType(tbl: Table, t: TypeId) returns (g: Graph<nat>, r: nat)
    requires ClosedTable(tbl) && SwitchesSupported(tbl) && t in tbl
    ensures forall v :: Encode(g, r, v) == TypedEncode(tbl, t, [], v)
    ensures forall input, depth :: Decode(g, r, input, depth) == TypedDecode(tbl, t, [], input, depth)
  {
    hide Sound, Universe, ClosedTable, SwitchesSupported, Encode, Decode, TypedEncode, TypedDecode;
    var coder := new Coder(tbl);
    r := coder.GetBaseCodec(t);
    g := coder.store;
    ghost var s := coder.Snap();
    forall v ensures Encode(g, r, v) == TypedEncode(tbl, t, [], v) { EncodingMeans(tbl, s, r, Key(t, []), v); }
    forall input, depth ensures Decode(g, r, input, depth) == TypedDecode(tbl, t, [], input, depth) {
      DecodingMeans(tbl, s, r, Key(t, []), input, depth);
    }
  }

  /** A linked list of integers whose links are optional. */
  const LIST_NODE: Type :=
    Struct("node", [Decl("Value", 1, Parts(NoUnion, [Blank])), Decl("Next", 2, Parts(NoUnion, [Opt]))])
  const LISTS: Table := map[0 := LIST_NODE, 1 := Basic(Int32), 2 := Pointer(0)]

  /** Cyclic types are among those the compiler is specified for. */
  lemma ListsCompile()
    ensures ClosedTable(LISTS) && SwitchesSupported(LISTS)
  {
    hide ReadFields, Parse;
    var decls := LIST_NODE.fields;
    assert !decls[0].tag.Dash? && decls[0].tag.head == NoUnion;
    OnlyTheKindPanics(LISTS, decls, 0);
    forall k: nat | FirstIs(decls, k) ensures k == 0 {}
    assert !LayoutOf(LISTS, decls).PanicsKind?;
  }

  // ---------------------------------------------------------------- normalisation

  /** The keys of `ks` need codecs for each other only, and none of them is compiled to a map. */
  ghost predicate MapFree(tbl: Table, ks: set<Key>)
  {
    forall k :: k in ks ==> !ShapeOf(tbl, k).MapCodec? && RefersWithin(ShapeOf(tbl, k), ks)
  }

  /** The codecs made for keys of `ks`. */
  ghost function MadeFor(s: Snapshot, ks: set<Key>): set<nat> { set r | r in s.origin && s.origin[r] in ks }

  lemma StructsWellIndexed(tbl: Table, s: Snapshot, n: Node<nat>, ty: Type)
    requires Ready(tbl, s) && ty.Struct? && Matches(s.origin, n, UntaggedShape(tbl, ty))
    ensures Normalise.WellIndexed(n)
  {
    hide Ready, LayoutOf, StructShape, Matches, UntaggedShape;
    StructReaches(tbl, s, n, ty);
    var l := LayoutOf(tbl, ty.fields);
    LayoutIsShaped(tbl, ty.fields);
    if l.Plain? {
      forall i, j | 0 <= i < j < |n.fields| ensures n.fields[i].index != n.fields[j].index {
        assert FieldIs(s.origin, n.fields[i], SlotField(l.slots[i]));
        assert FieldIs(s.origin, n.fields[j], SlotField(l.slots[j]));
      }
    } else if l.Union? {
      forall a | a in n.body ensures n.body[a].index != n.switch.index {
        assert FieldIs(s.origin, n.body[a], SlotField(l.body[a]));
      }
    }
  }

  lemma LayoutIsShaped(tbl: Table, decls: seq<Decl>)
    ensures Shaped(LayoutOf(tbl, decls), |decls|)
  {
    LayoutShaped(tbl, Scanning, decls, 0);
  }

  lemma NodeIsRegular(tbl: Table, s: Snapshot, n: Node<nat>, k: Key)
    requires Ready(tbl, s) && GoodTag(tbl, k.t, k.tag) && Matches(s.origin, n, ShapeOf(tbl, k))
    ensures Normalise.WellIndexed(n) && (n.OptCodec? ==> Pointerlike(Target(s.store, n.elem)))
  {
    hide Ready, UntaggedShape, FieldsAre, BodiesAre, FieldIs;
    var ty := Lookup(tbl, k.t);
    if KindOf(k.tag) == OPT {
      OptionalReaches(tbl, s, n, k);
    } else if HasElem(ty) {
      ContainerReaches(tbl, s, n, k);
    } else if !ty.String? && k.tag == [] && ty.Struct? {
      StructsWellIndexed(tbl, s, n, ty);
      StructReaches(tbl, s, n, ty);
    } else if !ty.String? && k.tag == [] {
      PlainLeaf(tbl, s, n, ty);
    }
  }

  /** Codecs refer to codecs made for the keys their shape names. */
  lemma MatchesWithin(s: Snapshot, n: Node<nat>, m: Node<Key>, ks: set<Key>)
    requires Matches(s.origin, n, m) && RefersWithin(m, ks)
    ensures RefersWithin(n, MadeFor(s, ks)) && (n.MapCodec? <==> m.MapCodec?)
  {
    if n.StructCodec? {
      forall f | f in n.fields ensures f.codec in MadeFor(s, ks) {
        var i :| 0 <= i < |n.fields| && n.fields[i] == f;
        assert FieldIs(s.origin, n.fields[i], m.fields[i]) && m.fields[i] in m.fields;
      }
    }
  }

  lemma PlainLeaf(tbl: Table, s: Snapshot, n: Node<nat>, ty: Type)
    requires !ty.Struct? && Matches(s.origin, n, UntaggedShape(tbl, ty))
    ensures n.PrimCodec? || n.ErrorCodec?
  {
  }

  /** The codecs of types that reach no map are ones the normalisation law speaks of, whatever else the coder
      has compiled. */
  lemma CompiledIsRegular(tbl: Table, s: Snapshot, ks: set<Key>)
    requires Ready(tbl, s) && MapFree(tbl, ks)
    ensures Normalise.Regular(s.store, MadeFor(s, ks))
  {
    hide Ready, Matches, ShapeOf, GoodTag, RefersWithin, Normalise.WellIndexed;
    forall r | r in MadeFor(s, ks) ensures Normalise.RegularNode(s.store, MadeFor(s, ks), Target(s.store, r)) {
      var n := Target(s.store, r);
      ReachesNode(tbl, s, r, s.origin[r]);
      NodeIsRegular(tbl, s, n, s.origin[r]);
      MatchesWithin(s, n, ShapeOf(tbl, s.origin[r]), ks);
    }
  }

  lemma StoreIsOrigin(tbl: Table, s: Snapshot)
    requires Ready(tbl, s)
    ensures s.store.Keys == s.origin.Keys
  {
  }
}
