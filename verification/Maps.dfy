/** Maps travel as entries in iteration order, which Go leaves open: what survives is the map. */
module Maps {
  import opened Words
  import Types
  import opened Codecs
  import opened RoundTrips

  function Size(kv: seq<Value>): nat { |kv| / 2 }

  function KeyOf(kv: seq<Value>, i: nat): Value
    requires i < Size(kv)
  {
    kv[2 * i]
  }

  function ElemOf(kv: seq<Value>, i: nat): Value
    requires i < Size(kv)
  {
    kv[2 * i + 1]
  }

  ghost predicate DistinctKeys(kv: seq<Value>)
  {
    forall i, j :: 0 <= i < j < Size(kv) ==> KeyOf(kv, i) != KeyOf(kv, j)
  }

  ghost predicate HasKey(kv: seq<Value>, k: Value)
  {
    exists i :: 0 <= i < Size(kv) && KeyOf(kv, i) == k
  }

  /** An iteration over the map `m` may yield the entries `kv`. */
  ghost predicate Iterates(m: map<Value, Value>, kv: seq<Value>)
  {
    && |kv| % 2 == 0 && DistinctKeys(kv)
    && (forall k :: k in m <==> HasKey(kv, k))
    && (forall i :: 0 <= i < Size(kv) ==> HasKey(kv, KeyOf(kv, i)) && m[KeyOf(kv, i)] == ElemOf(kv, i))
  }

  lemma KeyAtFinds(kv: seq<Value>, k: Value)
    requires |kv| % 2 == 0
    ensures KeyAt(kv, k) < |kv| <==> HasKey(kv, k)
  {
    hide KeyAt, HasKey;
    var i := KeyAt(kv, k);
    if i < |kv| { HasKeyAt(kv, k, i / 2); }
    if HasKey(kv, k) {
      var j := EntryWith(kv, k);
      assert i <= 2 * j;
    }
  }

  lemma HasKeyAt(kv: seq<Value>, k: Value, i: nat)
    requires i < Size(kv) && kv[2 * i] == k
    ensures HasKey(kv, k)
  {
    assert KeyOf(kv, i) == k;
  }

  lemma EntryWith(kv: seq<Value>, k: Value) returns (i: nat)
    requires HasKey(kv, k)
    ensures i < Size(kv) && kv[2 * i] == k
  {
    i :| 0 <= i < Size(kv) && KeyOf(kv, i) == k;
  }

  lemma SetIndexKeys(kv: seq<Value>, k: Value, v: Value)
    requires |kv| % 2 == 0 && DistinctKeys(kv)
    ensures var r := SetIndex(kv, k, v);
      && DistinctKeys(r) && (forall x :: HasKey(r, x) <==> HasKey(kv, x) || x == k)
      && |r| == |kv| + (if HasKey(kv, k) then 0 else 2)
  {
    KeyAtFinds(kv, k);
    var r, at := SetIndex(kv, k, v), KeyAt(kv, k) / 2;
    assert forall i :: 0 <= i < Size(kv) ==> KeyOf(r, i) == KeyOf(kv, i);
    assert KeyOf(r, at) == k;
    forall x ensures HasKey(r, x) <==> HasKey(kv, x) || x == k {
      if HasKey(kv, x) {
        var i :| 0 <= i < Size(kv) && KeyOf(kv, i) == x;
        assert KeyOf(r, i) == x;
      }
      if HasKey(r, x) {
        var i :| 0 <= i < Size(r) && KeyOf(r, i) == x;
        if i < Size(kv) { assert KeyOf(kv, i) == x; }
      }
    }
  }

  /** The decoded map has each key once, the keys are those of the entries, and it has as many
      entries as were sent exactly when no key was repeated; then it is the entries sent. */
  lemma {:induction false} MergeKeepsKeys(kv: seq<Value>)
    requires |kv| % 2 == 0
    ensures DistinctKeys(Merge(kv)) && |Merge(kv)| <= |kv|
    ensures forall x :: HasKey(Merge(kv), x) <==> HasKey(kv, x)
    ensures |Merge(kv)| == |kv| <==> DistinctKeys(kv)
    ensures DistinctKeys(kv) ==> Merge(kv) == kv
    decreases |kv|
  {
    hide KeyOf, DistinctKeys, HasKey, SetIndex, Merge;
    if kv == [] {
      NothingMerged();
    } else {
      var pre, k, v := kv[..|kv| - 2], kv[|kv| - 2], kv[|kv| - 1];
      MergeKeepsKeys(pre);
      MergeLast(kv);
      SetIndexKeys(Merge(pre), k, v);
      SnocKeys(kv, pre);
      LastEntry(kv);
      if DistinctKeys(kv) { SetIndexAppends(pre, k, v); }
    }
  }

  lemma NothingMerged()
    ensures Merge([]) == [] && DistinctKeys([])
  {
  }

  lemma MergeLast(kv: seq<Value>)
    requires |kv| % 2 == 0 && kv != []
    ensures Merge(kv) == SetIndex(Merge(kv[..|kv| - 2]), kv[|kv| - 2], kv[|kv| - 1])
  {
    hide SetIndex;
  }

  lemma LastEntry(kv: seq<Value>)
    requires |kv| >= 2
    ensures kv == kv[..|kv| - 2] + [kv[|kv| - 2], kv[|kv| - 1]]
  {
  }

  lemma SetIndexAppends(kv: seq<Value>, k: Value, v: Value)
    requires |kv| % 2 == 0 && !HasKey(kv, k)
    ensures SetIndex(kv, k, v) == kv + [k, v]
  {
    KeyAtFinds(kv, k);
  }

  /** The entry `i` of `kv` is the last with its key. */
  ghost predicate IsLast(kv: seq<Value>, i: nat)
    requires i < Size(kv)
  {
    forall j :: i < j < Size(kv) ==> KeyOf(kv, j) != KeyOf(kv, i)
  }

  /** Key `k` has value `v` in `kv`. */
  ghost predicate HasEntry(kv: seq<Value>, k: Value, v: Value)
  {
    exists i :: 0 <= i < Size(kv) && KeyOf(kv, i) == k && ElemOf(kv, i) == v
  }

  /** Of entries with the same key the last one stays: in the map left, each key has the value of the last entry
      sent for it, and no other. */
  lemma {:induction false} LastEntryWins(kv: seq<Value>, i: nat)
    requires |kv| % 2 == 0 && i < Size(kv) && IsLast(kv, i)
    ensures HasEntry(Merge(kv), KeyOf(kv, i), ElemOf(kv, i))
    ensures forall v :: HasEntry(Merge(kv), KeyOf(kv, i), v) ==> v == ElemOf(kv, i)
    decreases |kv|
  {
    hide Merge, SetIndex;
    var n := Size(kv) - 1;
    var pre, k, v := kv[..|kv| - 2], kv[|kv| - 2], kv[|kv| - 1];
    MergeLast(kv);
    MergeKeepsKeys(pre);
    assert KeyOf(kv, n) == k && ElemOf(kv, n) == v;
    if i == n {
      EntryStored(Merge(pre), k, v);
    } else {
      assert KeyOf(pre, i) == KeyOf(kv, i) && ElemOf(pre, i) == ElemOf(kv, i);
      forall j | i < j < Size(pre) ensures KeyOf(pre, j) != KeyOf(pre, i) {
        assert KeyOf(pre, j) == KeyOf(kv, j);
      }
      LastEntryWins(pre, i);
      EntryKept(Merge(pre), k, v, KeyOf(kv, i), ElemOf(kv, i));
    }
    MergeKeepsKeys(kv);
    OneEntryEach(Merge(kv), KeyOf(kv, i), ElemOf(kv, i));
  }

  lemma EntryStored(kv: seq<Value>, k: Value, v: Value)
    requires |kv| % 2 == 0
    ensures HasEntry(SetIndex(kv, k, v), k, v)
  {
    var r, i := SetIndex(kv, k, v), KeyAt(kv, k) / 2;
    assert KeyOf(r, i) == k && ElemOf(r, i) == v;
  }

  lemma EntryKept(kv: seq<Value>, k: Value, v: Value, x: Value, w: Value)
    requires |kv| % 2 == 0 && k != x && HasEntry(kv, x, w)
    ensures HasEntry(SetIndex(kv, k, v), x, w)
  {
    var r := SetIndex(kv, k, v);
    var i :| 0 <= i < Size(kv) && KeyOf(kv, i) == x && ElemOf(kv, i) == w;
    assert KeyOf(r, i) == x && ElemOf(r, i) == w;
  }

  lemma OneEntryEach(kv: seq<Value>, k: Value, v: Value)
    requires DistinctKeys(kv) && HasEntry(kv, k, v)
    ensures forall w :: HasEntry(kv, k, w) ==> w == v
  {
    forall w | HasEntry(kv, k, w) ensures w == v {
      var i :| 0 <= i < Size(kv) && KeyOf(kv, i) == k && ElemOf(kv, i) == v;
      var j :| 0 <= j < Size(kv) && KeyOf(kv, j) == k && ElemOf(kv, j) == w;
      assert i == j;
    }
  }

  lemma SnocKeys(kv: seq<Value>, pre: seq<Value>)
    requires |kv| % 2 == 0 && kv != [] && pre == kv[..|kv| - 2]
    ensures forall x :: HasKey(kv, x) <==> HasKey(pre, x) || x == kv[|kv| - 2]
    ensures DistinctKeys(kv) <==> DistinctKeys(pre) && !HasKey(pre, kv[|kv| - 2])
  {
    var n := Size(kv) - 1;
    assert KeyOf(kv, n) == kv[|kv| - 2];
    assert forall i :: 0 <= i < n ==> KeyOf(kv, i) == KeyOf(pre, i);
    forall x ensures HasKey(kv, x) <==> HasKey(pre, x) || x == kv[|kv| - 2] {
      if HasKey(pre, x) {
        var i :| 0 <= i < Size(pre) && KeyOf(pre, i) == x;
        assert KeyOf(kv, i) == x;
      }
      if HasKey(kv, x) {
        var i :| 0 <= i < Size(kv) && KeyOf(kv, i) == x;
        if i < n { assert KeyOf(pre, i) == x; }
      }
    }
  }

  lemma {:induction false} CanonItemsAt<R>(g: Graph<R>, a: R, b: R, vs: seq<Value>, i: nat)
    requires i < |vs|
    ensures CanonItems(g, a, b, vs)[i] == Canon(g, if i % 2 == 0 then a else b, vs[i])
    decreases vs
  {
    if i > 0 { CanonItemsAt(g, b, a, vs[1..], i - 1); }
  }

  lemma CanonEntryAt<R>(g: Graph<R>, key: R, elem: R, kv: seq<Value>, i: nat)
    requires i < Size(kv)
    ensures KeyOf(CanonItems(g, key, elem, kv), i) == Canon(g, key, KeyOf(kv, i))
    ensures ElemOf(CanonItems(g, key, elem, kv), i) == Canon(g, elem, ElemOf(kv, i))
  {
    CanonItemsAt(g, key, elem, kv, 2 * i);
    CanonItemsAt(g, key, elem, kv, 2 * i + 1);
  }

  /** Keys of `m` stay apart on the wire: no two differ only where the codec does not look. */
  ghost predicate KeysStayApart<R>(g: Graph<R>, key: R, m: map<Value, Value>)
  {
    forall x, y :: x in m && y in m && Canon(g, key, x) == Canon(g, key, y) ==> x == y
  }

  /** The map a decoder is to rebuild from `m`. */
  ghost predicate IsImage<R>(g: Graph<R>, key: R, elem: R, m: map<Value, Value>, out: map<Value, Value>)
  {
    && (forall x :: x in m ==> Canon(g, key, x) in out && out[Canon(g, key, x)] == Canon(g, elem, m[x]))
    && (forall y :: y in out ==> exists x :: x in m && Canon(g, key, x) == y)
  }

  ghost function Image<R>(g: Graph<R>, key: R, elem: R, m: map<Value, Value>): (out: map<Value, Value>)
    requires KeysStayApart(g, key, m)
    ensures IsImage(g, key, elem, m, out)
  {
    map x | x in m :: Canon(g, key, x) := Canon(g, elem, m[x])
  }

  lemma ImageIsIterated<R>(g: Graph<R>, key: R, elem: R, m: map<Value, Value>, kv: seq<Value>)
    requires Iterates(m, kv) && KeysStayApart(g, key, m)
    ensures Iterates(Image(g, key, elem, m), CanonItems(g, key, elem, kv))
  {
    hide Canon, CanonItems;
    var c, out := CanonItems(g, key, elem, kv), Image(g, key, elem, m);
    forall i | 0 <= i < Size(kv)
      ensures KeyOf(c, i) == Canon(g, key, KeyOf(kv, i)) && ElemOf(c, i) == Canon(g, elem, ElemOf(kv, i))
    {
      CanonEntryAt(g, key, elem, kv, i);
    }
    forall y | y in out ensures HasKey(c, y) {
      var x :| x in m && Canon(g, key, x) == y;
      var i :| 0 <= i < Size(kv) && KeyOf(kv, i) == x;
      assert KeyOf(c, i) == y;
    }
  }

  /** Whatever order an iteration of `m` yields, decoding what was encoded rebuilds the same map. */
  lemma MapsRoundTrip<R>(g: Graph<R>, r: R, max: u32, key: R, elem: R, m: map<Value, Value>, kv: seq<Value>,
                         rest: seq<byte>, depth: nat)
    requires Target(g, r) == MapCodec(max, key, elem) && Iterates(m, kv) && KeysStayApart(g, key, m)
    requires Encode(g, r, VDict(kv)).err == None && depth >= Height(VDict(kv))
    ensures var d := Decode(g, r, Encode(g, r, VDict(kv)).bytes + rest, depth);
      d.Ok? && d.value.1 == rest && d.value.0.VDict? && Iterates(Image(g, key, elem, m), d.value.0.kv)
  {
    RoundTrip(g, r, VDict(kv), rest, depth);
    ImageIsIterated(g, key, elem, m, kv);
    MergeKeepsKeys(CanonItems(g, key, elem, kv));
  }

  lemma MapCanon<R>(g: Graph<R>, r: R, max: u32, key: R, elem: R, kv: seq<Value>)
    requires Target(g, r) == MapCodec(max, key, elem) && |kv| % 2 == 0
    ensures Canon(g, r, VDict(kv)) == VDict(Merge(CanonItems(g, key, elem, kv)))
  {
  }

  /** Entries are lost in a round trip exactly when two keys differ only in places the key codec
      skips: the condition `KeysStayApart` is needed as well as enough. */
  lemma EntriesSurviveIff<R>(g: Graph<R>, r: R, max: u32, key: R, elem: R, m: map<Value, Value>, kv: seq<Value>,
                             rest: seq<byte>, depth: nat)
    requires Target(g, r) == MapCodec(max, key, elem) && Iterates(m, kv)
    requires Encode(g, r, VDict(kv)).err == None && depth >= Height(VDict(kv))
    ensures var d := Decode(g, r, Encode(g, r, VDict(kv)).bytes + rest, depth);
      d.Ok? && d.value.0.VDict? && (|d.value.0.kv| == |kv| <==> KeysStayApart(g, key, m))
  {
    hide Encode, Canon, CanonItems, Merge, Decode;
    var c := CanonItems(g, key, elem, kv);
    MapCanon(g, r, max, key, elem, kv);
    RoundTrip(g, r, VDict(kv), rest, depth);
    MergeKeepsKeys(c);
    forall i | 0 <= i < Size(kv) ensures KeyOf(c, i) == Canon(g, key, KeyOf(kv, i)) {
      CanonEntryAt(g, key, elem, kv, i);
    }
    if DistinctKeys(c) {
      forall x, y | x in m && y in m && Canon(g, key, x) == Canon(g, key, y) ensures x == y {
        var i :| 0 <= i < Size(kv) && KeyOf(kv, i) == x;
        var j :| 0 <= j < Size(kv) && KeyOf(kv, j) == y;
        assert KeyOf(c, i) == KeyOf(c, j);
      }
    }
  }

  /** A map whose key is a struct with a second field that the codec skips. */
  const SKIPPING: Graph<nat> :=
    map[0 := MapCodec(8, 1, 2), 1 := StructCodec("Key", 2, [Field("Kept", 0, 2)]), 2 := PrimCodec(Types.Uint32)]

  function KeyWith(n: nat): Value { VRec([VNum(1), VNum(n)]) }

  lemma NumberField(n: nat)
    requires n < 0x1_0000_0000
    ensures Encode(SKIPPING, 2, VNum(n)) == Done(WordBytes(n)) && Canon(SKIPPING, 2, VNum(n)) == VNum(n)
    ensures Height(VNum(n)) == 0
  {
    hide WordBytes;
    assert Target(SKIPPING, 2) == PrimCodec(Types.Uint32);
  }

  lemma SkippedField(n: nat)
    ensures Encode(SKIPPING, 1, KeyWith(n)) == Done(WordBytes(1))
    ensures Canon(SKIPPING, 1, KeyWith(n)) == VRec([VNum(1), VUnset])
    ensures Height(KeyWith(n)) <= 1
  {
    hide Encode, Canon, WordBytes;
    var f, vals := [Field("Kept", 0, 2)], [VNum(1), VNum(n)];
    NumberField(1);
    assert f[1..] == [] && vals[1..] == [VNum(n)] && vals[1..][1..] == [];
    assert MaxHeight(vals[1..][1..]) == 0 && MaxHeight(vals[1..]) == 0 && MaxHeight(vals) == 0;
    assert WordBytes(1) + [] == WordBytes(1);
    assert EncodeFields(SKIPPING, "Key", f[1..], vals) == Done([]);
    assert EncodeFields(SKIPPING, "Key", f, vals) == Done(WordBytes(1));
    var none := Untouched(2);
    assert CanonField(SKIPPING, f[0], vals, none) == none[0 := VNum(1)] == [VNum(1), VUnset];
    assert CanonFields(SKIPPING, f[1..], vals, [VNum(1), VUnset]) == [VNum(1), VUnset];
    KeyStruct(vals, Written(WordBytes(1), None), [VNum(1), VUnset]);
  }

  /** Encoding a key of two fields. */
  lemma KeyStruct(vals: seq<Value>, w: Written, kept: seq<Value>)
    requires |vals| == 2 && EncodeFields(SKIPPING, "Key", [Field("Kept", 0, 2)], vals) == w
    requires CanonFields(SKIPPING, [Field("Kept", 0, 2)], vals, Untouched(2)) == kept
    ensures Encode(SKIPPING, 1, VRec(vals)) == w && Canon(SKIPPING, 1, VRec(vals)) == VRec(kept)
  {
    hide EncodeFields, CanonFields;
    assert Target(SKIPPING, 1) == StructCodec("Key", 2, [Field("Kept", 0, 2)]);
  }

  function TwoEntries(): seq<Value> { [KeyWith(5), VNum(10), KeyWith(6), VNum(20)] }

  lemma TwoEntriesTravel()
    ensures EncodeItems(SKIPPING, 1, 2, TwoEntries()).err == None && Height(VDict(TwoEntries())) <= 2
    ensures CanonItems(SKIPPING, 1, 2, TwoEntries())
         == [VRec([VNum(1), VUnset]), VNum(10), VRec([VNum(1), VUnset]), VNum(20)]
  {
    hide Encode, Canon, KeyWith, WordBytes, SKIPPING, EncodeItems, CanonItems, MaxHeight;
    var k, one := VRec([VNum(1), VUnset]), [KeyWith(6), VNum(20)];
    SkippedField(5);
    SkippedField(6);
    NumberField(10);
    NumberField(20);
    NoEntries();
    OneEntry(KeyWith(6), VNum(20), []);
    assert one + [] == one && TwoEntries() == [KeyWith(5), VNum(10)] + one;
    assert CanonItems(SKIPPING, 1, 2, one) == [k, VNum(20)] + [];
    OneEntry(KeyWith(5), VNum(10), one);
  }

  lemma NoEntries()
    ensures EncodeItems(SKIPPING, 1, 2, []).err == None && MaxHeight([]) == 0 && CanonItems(SKIPPING, 1, 2, []) == []
  {
  }

  /** An entry in front of others. */
  lemma OneEntry(k: Value, v: Value, kv: seq<Value>)
    requires Encode(SKIPPING, 1, k).err == None && Encode(SKIPPING, 2, v).err == None && Height(k) <= 1
      && Height(v) == 0
    requires EncodeItems(SKIPPING, 1, 2, kv).err == None && MaxHeight(kv) <= 1
    ensures EncodeItems(SKIPPING, 1, 2, [k, v] + kv).err == None && MaxHeight([k, v] + kv) <= 1
    ensures CanonItems(SKIPPING, 1, 2, [k, v] + kv)
         == [Canon(SKIPPING, 1, k), Canon(SKIPPING, 2, v)] + CanonItems(SKIPPING, 1, 2, kv)
  {
    hide Encode, Canon, SKIPPING;
    var all := [k, v] + kv;
    assert all[1..] == [v] + kv && all[1..][1..] == kv;
    assert EncodeItems(SKIPPING, 2, 1, all[1..]).err == None && MaxHeight(all[1..]) <= 1;
  }

  lemma MapEncodes(kv: seq<Value>)
    requires |kv| == 4 && EncodeItems(SKIPPING, 1, 2, kv).err == None
    ensures Encode(SKIPPING, 0, VDict(kv)).err == None
    ensures Canon(SKIPPING, 0, VDict(kv)) == VDict(Merge(CanonItems(SKIPPING, 1, 2, kv)))
  {
    hide EncodeItems, CanonItems, Merge, Canon;
    assert Target(SKIPPING, 0) == MapCodec(8, 1, 2);
    MapCanon(SKIPPING, 0, 8, 1, 2, kv);
  }

  lemma SameKeyTwice(k: Value, v: Value, w: Value)
    ensures Merge([k, v, k, w]) == [k, w]
  {
    assert [k, v, k, w][..2] == [k, v] && [k, v][..0] == [];
    assert Merge([k, v]) == SetIndex(Merge([]), k, v) == [k, v];
  }

  /** Entries do get lost: two keys that differ only in the skipped field come back as one entry, which has the
      value sent last. */
  lemma SkippedKeysCollide(rest: seq<byte>)
    ensures var m := map[KeyWith(5) := VNum(10), KeyWith(6) := VNum(20)];
      && Iterates(m, TwoEntries()) && !KeysStayApart(SKIPPING, 1, m)
      && Encode(SKIPPING, 0, VDict(TwoEntries())).err == None
      && Decode(SKIPPING, 0, Encode(SKIPPING, 0, VDict(TwoEntries())).bytes + rest, 2)
           == Ok((VDict([VRec([VNum(1), VUnset]), VNum(20)]), rest))
  {
    hide *;
    var kv, k := TwoEntries(), VRec([VNum(1), VUnset]);
    TwoEntriesTravel();
    MapEncodes(kv);
    SameKeyTwice(k, VNum(10), VNum(20));
    RoundTrip(SKIPPING, 0, VDict(kv), rest, 2);
    TwoEntriesIterate();
    SkippedField(5);
    SkippedField(6);
    KeysCollide();
  }

  lemma TwoEntriesIterate()
    ensures Iterates(map[KeyWith(5) := VNum(10), KeyWith(6) := VNum(20)], TwoEntries()) && |TwoEntries()| == 4
  {
    var kv := TwoEntries();
    assert KeyOf(kv, 0) == KeyWith(5) && KeyOf(kv, 1) == KeyWith(6);
  }

  lemma KeysCollide()
    requires Canon(SKIPPING, 1, KeyWith(5)) == Canon(SKIPPING, 1, KeyWith(6))
    ensures !KeysStayApart(SKIPPING, 1, map[KeyWith(5) := VNum(10), KeyWith(6) := VNum(20)])
  {
    hide Canon;
    assert KeyWith(5) != KeyWith(6);
  }
}
