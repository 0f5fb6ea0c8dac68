/** What can be told of a codec before it runs: whether it takes nothing from the stream, and whether there
    is input on which it succeeds. */
module Progress {
  import opened Words
  import opened Codecs
  import opened RoundTrips
  import opened Termination

  /** Nodes shaped as the compiler makes them: fields inside their struct, switches of the kind they say. */
  ghost predicate ProperNode<R>(g: Graph<R>, n: Node<R>)
  {
    match n
    case StructCodec(_, width, fields) => forall i :: 0 <= i < |fields| ==> fields[i].index < width
    case UnionCodec(_, width, sw, kind, body, _, _) =>
      && sw.index < width && SwitchFits(Target(g, sw.codec), kind) && forall a :: a in body ==> body[a].index < width
    case _ => true
  }

  ghost predicate Proper<R>(g: Graph<R>) { forall r :: r in g ==> ProperNode(g, g[r]) }

  lemma TargetProper<R>(g: Graph<R>, r: R)
    requires Proper(g)
    ensures ProperNode(g, Target(g, r))
  {
  }

  // ---------------------------------------------------------------- codecs that take nothing

  /** By a derivation of height `h`: the codec succeeds without taking anything from the stream. */
  ghost predicate EmptyIn<R>(g: Graph<R>, r: R, h: nat)
    decreases h
  {
    match Target(g, r)
    case FixedStringCodec(len) => len == 0
    case OpaqueArrayCodec(count) => count == 0
    case PtrCodec(elem) => h > 0 && EmptyIn(g, elem, h - 1)
    case ArrayCodec(count, elem) => h > 0 && (count == 0 || EmptyIn(g, elem, h - 1))
    case StructCodec(_, _, fields) => h > 0 && forall i :: 0 <= i < |fields| ==> EmptyIn(g, fields[i].codec, h - 1)
    case _ => false
  }

  ghost predicate Empty<R>(g: Graph<R>, r: R) { exists h: nat :: EmptyIn(g, r, h) }

  /** Such a codec does succeed, on every input, and leaves all of it. */
  lemma {:induction false} EmptyDecodes<R>(g: Graph<R>, r: R, input: seq<byte>, h: nat)
    requires Proper(g) && EmptyIn(g, r, h)
    ensures Decode(g, r, input, h).Ok? && Decode(g, r, input, h).value.1 == input
    decreases h, 0
  {
    hide Proper, Merge;
    TargetProper(g, r);
    match Target(g, r)
    case FixedStringCodec(_) => assert input[0..] == input;
    case OpaqueArrayCodec(_) => assert input[0..] == input;
    case PtrCodec(elem) => EmptyDecodes(g, elem, input, h - 1);
    case ArrayCodec(count, elem) => EmptyItemsDecode(g, elem, count, input, h - 1);
    case StructCodec(name, width, fields) =>
      EmptyFieldsDecode(g, name, fields, Untouched(width), input, h - 1);
  }

  lemma {:induction false} EmptyItemsDecode<R>(g: Graph<R>, a: R, n: nat, input: seq<byte>, h: nat)
    requires Proper(g) && (n > 0 ==> EmptyIn(g, a, h))
    ensures DecodeItems(g, a, a, n, input, h).Ok? && DecodeItems(g, a, a, n, input, h).value.1 == input
    decreases h, 1, n
  {
    hide Proper, Decode, EmptyIn;
    if n > 0 {
      EmptyDecodes(g, a, input, h);
      EmptyItemsDecode(g, a, n - 1, input, h);
    }
  }

  lemma {:induction false} EmptyFieldsDecode<R>(g: Graph<R>, name: string, fields: seq<Field<R>>, acc: seq<Value>,
                                                input: seq<byte>, h: nat)
    requires Proper(g) && forall i :: 0 <= i < |fields| ==> fields[i].index < |acc| && EmptyIn(g, fields[i].codec, h)
    ensures DecodeFields(g, name, fields, acc, input, h).Ok?
      && DecodeFields(g, name, fields, acc, input, h).value.1 == input
    decreases h, 1, |fields|
  {
    hide Proper, Decode, EmptyIn;
    if fields != [] {
      EmptyDecodes(g, fields[0].codec, input, h);
      var acc' := DecodeField(g, name, NoNote, fields[0], acc, input, h).value.0;
      EmptyFieldsDecode(g, name, fields[1..], acc', input, h);
    }
  }

  /** Every other codec takes a word or more when it succeeds. */
  lemma {:induction false} ConsumesOrEmpty<R>(g: Graph<R>, r: R, input: seq<byte>, d: nat)
    requires Decode(g, r, input, d).Ok?
    ensures var rest := Decode(g, r, input, d).value.1;
      |rest| + 4 <= |input| || (|rest| <= |input| && EmptyIn(g, r, d))
    decreases d, if Target(g, r).OptCodec? then 3 else 2
  {
    hide DecodePrim, Merge, DecodeItems, DecodeFields, DecodeField, DecodeFixed, DecodeOpaque;
    match Target(g, r)
    case OptCodec(elem) =>
      if DecodeBool(input).value.0 { ConsumesOrEmpty(g, elem, input[4..], d); }
    case PtrCodec(elem) => ConsumesOrEmpty(g, elem, input, d - 1);
    case ArrayCodec(len, elem) => ItemsConsume(g, elem, elem, len, input, d - 1);
    case SliceCodec(_, elem) => ItemsConsume(g, elem, elem, DecodeWord(input).value.0, input[4..], d - 1);
    case MapCodec(_, key, elem) => ItemsConsume(g, key, elem, 2 * DecodeWord(input).value.0, input[4..], d - 1);
    case StructCodec(name, width, fields) => FieldsConsume(g, name, fields, Untouched(width), input, d - 1);
    case UnionCodec(_, _, _, _, _, _, _) => UnionConsumes(g, r, input, d);
    case _ => LeafConsumes(g, r, input, d);
  }

  lemma LeafConsumes<R>(g: Graph<R>, r: R, input: seq<byte>, d: nat)
    requires !IsComposite(Target(g, r)) && !Target(g, r).OptCodec? && Decode(g, r, input, d).Ok?
    ensures var rest := Decode(g, r, input, d).value.1;
      |rest| + 4 <= |input| || (|rest| <= |input| && EmptyIn(g, r, d))
  {
    hide DecodePrim, DecodeFixed, DecodeOpaque;
    match Target(g, r)
    case PrimCodec(p) => PrimConsumes(p, input);
    case FixedStringCodec(len) => FixedConsumes(len, input);
    case OpaqueArrayCodec(len) => FixedConsumes(len, input);
    case VarStringCodec(max) => OpaqueConsumes(max, input);
    case OpaqueSliceCodec(max) => OpaqueConsumes(max, input);
    case ErrorCodec(_) =>
    case DeferredCodec(_) =>
  }

  lemma FixedConsumes(len: nat, input: seq<byte>)
    requires DecodeFixed(len, input).Ok?
    ensures |input| == |DecodeFixed(len, input).value.1| + RoundUp(len)
  {
    PaddingAgrees(len);
  }

  lemma OpaqueConsumes(max: u32, input: seq<byte>)
    requires DecodeOpaque(max, input).Ok?
    ensures |DecodeOpaque(max, input).value.1| + 4 <= |input|
  {
  }

  lemma PrimConsumes(p: Prim, input: seq<byte>)
    requires DecodePrim(p, input).Ok?
    ensures |DecodePrim(p, input).value.1| + 4 <= |input|
  {
  }

  lemma {:induction false} FieldConsumes<R>(g: Graph<R>, name: string, note: Note, f: Field<R>, acc: seq<Value>,
                                            input: seq<byte>, d: nat)
    requires DecodeField(g, name, note, f, acc, input, d).Ok?
    ensures Decode(g, f.codec, input, d).Ok?
    ensures var rest := DecodeField(g, name, note, f, acc, input, d).value.1;
      |rest| + 4 <= |input| || (|rest| <= |input| && EmptyIn(g, f.codec, d))
    decreases d, 5
  {
    hide Decode, EmptyIn;
    ConsumesOrEmpty(g, f.codec, input, d);
  }

  lemma {:induction false} ItemsConsume<R>(g: Graph<R>, a: R, b: R, n: nat, input: seq<byte>, d: nat)
    requires DecodeItems(g, a, b, n, input, d).Ok?
    ensures var rest := DecodeItems(g, a, b, n, input, d).value.1;
      |rest| + 4 <= |input| || (|rest| <= |input| && (n == 0 || EmptyIn(g, a, d)))
    decreases d, 5, n
  {
    hide Decode, EmptyIn;
    if n > 0 {
      ConsumesOrEmpty(g, a, input, d);
      ItemsConsume(g, b, a, n - 1, Decode(g, a, input, d).value.1, d);
    }
  }

  lemma {:induction false} FieldsConsume<R>(g: Graph<R>, name: string, fields: seq<Field<R>>, acc: seq<Value>,
                                            input: seq<byte>, d: nat)
    requires DecodeFields(g, name, fields, acc, input, d).Ok?
    ensures var rest := DecodeFields(g, name, fields, acc, input, d).value.1;
      |rest| + 4 <= |input| || (|rest| <= |input| && forall i :: 0 <= i < |fields| ==> EmptyIn(g, fields[i].codec, d))
    decreases d, 6, |fields|
  {
    hide DecodeField, EmptyIn;
    if fields != [] {
      FieldConsumes(g, name, NoNote, fields[0], acc, input, d);
      var (acc', more) := DecodeField(g, name, NoNote, fields[0], acc, input, d).value;
      FieldsConsume(g, name, fields[1..], acc', more, d);
      forall i | 0 <= i < |fields| && EmptyIn(g, fields[0].codec, d)
                 && (forall j :: 0 <= j < |fields[1..]| ==> EmptyIn(g, fields[1..][j].codec, d))
        ensures EmptyIn(g, fields[i].codec, d)
      {
        if i > 0 { assert fields[1..][i - 1] == fields[i]; }
      }
    }
  }

  /** A union's switch is read before anything else. */
  lemma {:induction false} UnionConsumes<R>(g: Graph<R>, r: R, input: seq<byte>, d: nat)
    requires Target(g, r).UnionCodec? && Decode(g, r, input, d).Ok?
    ensures |Decode(g, r, input, d).value.1| + 4 <= |input|
    decreases d, 0
  {
    hide DecodeField, EmptyIn;
    var n := Target(g, r);
    var (vals, more) := DecodeField(g, n.name, AtSwitch, n.switch, Untouched(n.width), input, d - 1).value;
    var key := SwitchKey(n.kind, vals[n.switch.index]).value;
    FieldConsumes(g, n.name, AtSwitch, n.switch, Untouched(n.width), input, d - 1);
    FieldConsumes(g, n.name, AtArm(key), n.body[Arm(n.cases, n.default, key)], vals, more, d - 1);
    SwitchesAreNotEmpty(g, n, input, d - 1);
  }

  lemma SwitchesAreNotEmpty<R>(g: Graph<R>, n: Node<R>, input: seq<byte>, d: nat)
    requires n.UnionCodec? && DecodeField(g, n.name, AtSwitch, n.switch, Untouched(n.width), input, d).Ok?
    requires var vals := DecodeField(g, n.name, AtSwitch, n.switch, Untouched(n.width), input, d).value.0;
      SwitchKey(n.kind, vals[n.switch.index]).Some?
    ensures !EmptyIn(g, n.switch.codec, d)
  {
    var res := DecodeBy(g, Target(g, n.switch.codec), input, d);
    assert res == Decode(g, n.switch.codec, input, d) && (res.value.0.VBool? || res.value.0.VNum?);
  }

  // ---------------------------------------------------------------- codecs that can succeed

  /** Some value of the switch leads to arm `a`. */
  ghost predicate Selectable<R>(n: Node<R>, a: nat)
    requires n.UnionCodec?
  {
    exists key: u32 :: (n.kind.BoolSwitch? ==> key <= 1) && Arm(n.cases, n.default, key) == a
  }

  /** By a derivation of height `h`: there is input on which the codec succeeds. */
  ghost predicate SucceedsIn<R>(g: Graph<R>, r: R, h: nat)
    decreases h
  {
    match Target(g, r)
    case ErrorCodec(_) => false
    case DeferredCodec(_) => false
    case PtrCodec(elem) => h > 0 && SucceedsIn(g, elem, h - 1)
    case ArrayCodec(count, elem) => h > 0 && (count == 0 || SucceedsIn(g, elem, h - 1))
    case SliceCodec(_, _) => h > 0
    case MapCodec(_, _, _) => h > 0
    case StructCodec(_, _, fields) => h > 0 && forall i :: 0 <= i < |fields| ==> SucceedsIn(g, fields[i].codec, h - 1)
    case UnionCodec(_, _, sw, _, body, _, _) =>
      && h > 0 && Target(g, sw.codec).PrimCodec?
      && exists a: nat :: a in body && Selectable(Target(g, r), a) && SucceedsIn(g, body[a].codec, h - 1)
    case _ => true
  }

  ghost predicate Succeeds<R>(g: Graph<R>, r: R) { exists h: nat :: SucceedsIn(g, r, h) }

  /** No codec succeeds that is not said to. */
  lemma {:induction false} OnlySuchSucceed<R>(g: Graph<R>, r: R, input: seq<byte>, d: nat)
    requires Proper(g) && Decode(g, r, input, d).Ok?
    ensures SucceedsIn(g, r, d)
    decreases d, 2
  {
    hide Proper, DecodePrim, Merge, DecodeItems, DecodeFields, DecodeField;
    match Target(g, r)
    case PtrCodec(elem) => OnlySuchSucceed(g, elem, input, d - 1);
    case ArrayCodec(count, elem) => if count > 0 { FirstSucceeds(g, elem, elem, count, input, d - 1); }
    case StructCodec(name, width, fields) => FieldsSucceed(g, name, fields, Untouched(width), input, d - 1);
    case UnionCodec(_, _, _, _, _, _, _) => UnionSucceeds(g, r, input, d);
    case _ =>
  }

  lemma {:induction false} FirstSucceeds<R>(g: Graph<R>, a: R, b: R, n: nat, input: seq<byte>, d: nat)
    requires Proper(g) && n > 0 && DecodeItems(g, a, b, n, input, d).Ok?
    ensures SucceedsIn(g, a, d)
    decreases d, 3
  {
    hide Proper, Decode, SucceedsIn;
    OnlySuchSucceed(g, a, input, d);
  }

  lemma {:induction false} FieldsSucceed<R>(g: Graph<R>, name: string, fields: seq<Field<R>>, acc: seq<Value>,
                                            input: seq<byte>, d: nat)
    requires Proper(g) && DecodeFields(g, name, fields, acc, input, d).Ok?
    ensures forall i :: 0 <= i < |fields| ==> SucceedsIn(g, fields[i].codec, d)
    decreases d, 3, |fields|
  {
    hide Proper, Decode, SucceedsIn;
    if fields != [] {
      OnlySuchSucceed(g, fields[0].codec, input, d);
      var (acc', more) := DecodeField(g, name, NoNote, fields[0], acc, input, d).value;
      FieldsSucceed(g, name, fields[1..], acc', more, d);
      forall i | 0 <= i < |fields| ensures SucceedsIn(g, fields[i].codec, d) {
        if i > 0 { assert fields[1..][i - 1] == fields[i]; }
      }
    }
  }

  lemma {:induction false} UnionSucceeds<R>(g: Graph<R>, r: R, input: seq<byte>, d: nat)
    requires Proper(g) && Target(g, r).UnionCodec? && Decode(g, r, input, d).Ok?
    ensures SucceedsIn(g, r, d)
    decreases d, 0
  {
    hide Proper;
    var n := Target(g, r);
    TargetProper(g, r);
    var (vals, more) := DecodeField(g, n.name, AtSwitch, n.switch, Untouched(n.width), input, d - 1).value;
    var key := SwitchKey(n.kind, vals[n.switch.index]).value;
    SwitchRead(g, n, input, d - 1);
    var a: nat := Arm(n.cases, n.default, key);
    assert Selectable(n, a);
    assert DecodeField(g, n.name, AtArm(key), n.body[a], vals, more, d - 1).Ok?;
    OnlySuchSucceed(g, n.body[a].codec, more, d - 1);
  }

  /** A switch that decodes is a primitive, and gives a key its kind allows. */
  lemma SwitchRead<R>(g: Graph<R>, n: Node<R>, input: seq<byte>, d: nat)
    requires n.UnionCodec? && ProperNode(g, n)
    requires DecodeField(g, n.name, AtSwitch, n.switch, Untouched(n.width), input, d).Ok?
    ensures Target(g, n.switch.codec).PrimCodec?
    ensures var vals := DecodeField(g, n.name, AtSwitch, n.switch, Untouched(n.width), input, d).value.0;
      && SwitchKey(n.kind, vals[n.switch.index]).Some?
      && (n.kind.BoolSwitch? ==> SwitchKey(n.kind, vals[n.switch.index]).value <= 1)
  {
    hide DecodeWord;
    assert Decode(g, n.switch.codec, input, d).Ok?;
    assert DecodeBy(g, Target(g, n.switch.codec), input, d).Ok?;
  }
}
