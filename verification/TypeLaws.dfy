/** The wire laws for types and tags: no codecs are mentioned but those of the type graph, one for each key. */
module TypeLaws {
  import opened Words
  import opened Types
  import opened Tags
  import opened Codecs
  import opened Structs
  import opened Shapes
  import opened Compiler
  import opened Meaning
  import opened RoundTrips
  import opened Normalise
  import opened Visited
  import opened Compiled
  import opened TypeGraph
  import Asks

  /** A value of type and tag `k` as decoding gives it back: skipped fields and arms not selected untouched. */
  ghost function TypedCanon(tbl: Table, k: Key, v: Value): Value { Canon(KeyGraph(tbl), k, v) }

  /** What is encoded by type and tag is decoded by type and tag. */
  lemma TypesRoundTrip(tbl: Table, k: Key, v: Value, rest: seq<byte>, depth: nat)
    requires ClosedTable(tbl) && SwitchesSupported(tbl) && k in Universe(tbl)
    requires TypedEncode(tbl, k.t, k.tag, v).err == None && depth >= Height(v)
    ensures TypedDecode(tbl, k.t, k.tag, TypedEncode(tbl, k.t, k.tag, v).bytes + rest, depth)
         == Ok((TypedCanon(tbl, k, v), rest))
    ensures |TypedEncode(tbl, k.t, k.tag, v).bytes| % 4 == 0
  {
    hide ClosedTable, SwitchesSupported, Universe, KeyGraph, EncodeBy, Decode, TypedEncode, TypedDecode, Height;
    TypeGraphMeans(tbl, k, v, Encode(KeyGraph(tbl), k, v).bytes + rest, depth);
    RoundTrip(KeyGraph(tbl), k, v, rest, depth);
    WholeUnits(KeyGraph(tbl), Target(KeyGraph(tbl), k), v);
  }

  /** The canonical form of a compiled codec is that of its type. */
  lemma CanonIsTyped(tbl: Table, s: Snapshot, r: nat, k: Key, v: Value)
    requires Meaning.Reaches(tbl, s, r, k) && TypedEncode(tbl, k.t, k.tag, v).err == None
    ensures Canon(s.store, r, v) == TypedCanon(tbl, k, v)
  {
    hide ClosedTable, SwitchesSupported, Sound, Universe, KeyGraph, Encode, Decode, TypedEncode, TypedDecode, Height;
    hide Canon;
    var b := Encode(s.store, r, v).bytes + [];
    KeyReached(tbl, s, r, k);
    TypesRoundTrip(tbl, k, v, [], Height(v));
    EncodingMeans(tbl, s, r, k, v);
    RoundTrip(s.store, r, v, [], Height(v));
    DecodingMeans(tbl, s, r, k, b, Height(v));
  }

  lemma KeyReached(tbl: Table, s: Snapshot, r: nat, k: Key)
    requires Meaning.Reaches(tbl, s, r, k)
    ensures k in Universe(tbl)
  {
    hide Universe, ShapeOf, Matches;
    ReachesNode(tbl, s, r, k);
    EveryCodecResolved(tbl, s, r);
  }

  // ---------------------------------------------------------------- types without maps

  /** Among all the types of a table, those that reach no map are as the laws ask. */
  lemma TypeGraphIsRegular(tbl: Table, ks: set<Key>)
    requires ks <= Universe(tbl) && MapFree(tbl, ks)
    ensures Regular(KeyGraph(tbl), ks)
  {
    hide Universe, ShapeOf, KeyGraph, RefersWithin, WellIndexed, Pointerlike;
    forall k | k in ks ensures RegularNode(KeyGraph(tbl), ks, Target(KeyGraph(tbl), k)) {
      KeyTarget(tbl, k);
      ShapeWellIndexed(tbl, k);
      if ShapeOf(tbl, k).OptCodec? { OptPointsOn(tbl, ks, k); }
    }
  }

  lemma ShapeWellIndexed(tbl: Table, k: Key)
    ensures WellIndexed(ShapeOf(tbl, k))
  {
    hide LayoutOf, StructShape;
    var ty := Lookup(tbl, k.t);
    if ty.Struct? && KindOf(k.tag) != OPT && k.tag == [] {
      LayoutIsShaped(tbl, ty.fields);
      LayoutWellIndexed(ty.name, |ty.fields|, LayoutOf(tbl, ty.fields));
    }
  }

  lemma LayoutWellIndexed(name: string, width: nat, l: Layout)
    requires Shaped(l, width)
    ensures WellIndexed(StructShape(name, width, l))
  {
    var n := StructShape(name, width, l);
    if l.Plain? {
      forall i, j | 0 <= i < j < |n.fields| ensures n.fields[i].index != n.fields[j].index {
        assert n.fields[i] == SlotField(l.slots[i]) && n.fields[j] == SlotField(l.slots[j]);
      }
    }
  }

  /** What an optional hands its value to. */
  lemma OptPointsOn(tbl: Table, ks: set<Key>, k: Key)
    requires ks <= Universe(tbl) && MapFree(tbl, ks) && k in ks && ShapeOf(tbl, k).OptCodec?
    ensures Pointerlike(Target(KeyGraph(tbl), ShapeOf(tbl, k).elem))
  {
    hide Universe, KeyGraph, StripOpt, TagsUpTo;
    var e := ShapeOf(tbl, k).elem;
    assert e in ks;
    OptShape(tbl, k);
    UniverseIsGood(tbl, k.t, k.tag);
    StrippedTag(tbl, k.t, k.tag);
    StrippedShape(tbl, e);
    KeyTarget(tbl, e);
  }

  lemma StrippedShape(tbl: Table, k: Key)
    requires KindOf(k.tag) == NOOP && (Lookup(tbl, k.t).Pointer? || (Lookup(tbl, k.t).Interface? && k.tag == []))
    ensures Pointerlike(ShapeOf(tbl, k))
  {
  }

  /** The normalisation law for types from which no map type is reached. */
  lemma TypesNormalise(tbl: Table, ks: set<Key>, k: Key, input: seq<byte>, depth: nat)
    requires ClosedTable(tbl) && SwitchesSupported(tbl) && ks <= Universe(tbl) && MapFree(tbl, ks) && k in ks
    requires TypedDecode(tbl, k.t, k.tag, input, depth).Ok?
    ensures var (v, rest) := TypedDecode(tbl, k.t, k.tag, input, depth).value;
      var out := TypedEncode(tbl, k.t, k.tag, v);
      && TypedCanon(tbl, k, v) == v && out.err == None && out.bytes == Tidy(input, Marks(KeyGraph(tbl), k, v))
      && (Unbroken(KeyGraph(tbl), k, input, depth) <==> |input| == |out.bytes| + |rest|)
  {
    hide ClosedTable, SwitchesSupported, Universe, KeyGraph, EncodeBy, DecodeBy, TypedEncode, TypedDecode, CanonBy;
    hide MapFree, Regular, Unbroken, Marks, Tidy;
    var (v, rest) := TypedDecode(tbl, k.t, k.tag, input, depth).value;
    TypeGraphMeans(tbl, k, v, input, depth);
    TypeGraphIsRegular(tbl, ks);
    NormalisationLaw(KeyGraph(tbl), ks, k, input, depth);
    TargetRegular(KeyGraph(tbl), ks, k);
    DecodedIsNormal(KeyGraph(tbl), ks, Target(KeyGraph(tbl), k), input, depth);
  }

  /** Two values of such a type that can be encoded have the same encoding if and only if they agree at every
      place the type says is encoded. */
  lemma TypesSameBytesIff(tbl: Table, ks: set<Key>, k: Key, v: Value, w: Value)
    requires ClosedTable(tbl) && SwitchesSupported(tbl) && ks <= Universe(tbl) && MapFree(tbl, ks) && k in ks
    requires TypedEncode(tbl, k.t, k.tag, v).err == None && TypedEncode(tbl, k.t, k.tag, w).err == None
    ensures TypedEncode(tbl, k.t, k.tag, v) == TypedEncode(tbl, k.t, k.tag, w) <==> Agree(KeyGraph(tbl), k, v, w)
  {
    hide ClosedTable, SwitchesSupported, Universe, KeyGraph, Encode, Decode, TypedEncode, TypedDecode, Agree, MapFree;
    hide Regular;
    TypeGraphMeans(tbl, k, v, [], 0);
    TypeGraphMeans(tbl, k, w, [], 0);
    TypeGraphIsRegular(tbl, ks);
    SameBytesIff(KeyGraph(tbl), ks, k, v, w);
  }
}
