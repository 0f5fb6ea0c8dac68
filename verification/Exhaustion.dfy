/** Input on which a codec succeeds, and input on which it exhausts any stack. */
module Exhaustion {
  import opened Words
  import opened Codecs
  import opened RoundTrips
  import opened Termination
  import opened Progress
  import opened Ending

  // ---------------------------------------------------------------- calls that run out of stack

  /** On `w` and anything after it the codec takes exactly `w`, stack permitting. */
  ghost predicate Passes<R>(g: Graph<R>, r: R, w: seq<byte>)
  {
    forall rest: seq<byte>, d: nat :: PassesAt(g, r, w, rest, d)
  }

  ghost predicate PassesAt<R>(g: Graph<R>, r: R, w: seq<byte>, rest: seq<byte>, d: nat)
  {
    var res := Decode(g, r, w + rest, d);
    StackedOut(res) || (res.Ok? && res.value.1 == rest)
  }

  lemma PassesFrom<R>(g: Graph<R>, r: R, w: seq<byte>, h: nat)
    requires forall rest: seq<byte> :: Decode(g, r, w + rest, h).Ok? && Decode(g, r, w + rest, h).value.1 == rest
    ensures Passes(g, r, w)
  {
    hide Decode, DecodeBy;
    forall rest: seq<byte>, d: nat ensures PassesAt(g, r, w, rest, d) {
      if !StackedOut(Decode(g, r, w + rest, d)) { SameAtBoth(g, r, w + rest, d, h); }
    }
  }

  lemma SameAtBoth<R>(g: Graph<R>, r: R, input: seq<byte>, d: nat, e: nat)
    requires !StackedOut(Decode(g, r, input, d)) && !StackedOut(Decode(g, r, input, e))
    ensures Decode(g, r, input, d) == Decode(g, r, input, e)
  {
    hide DecodeBy;
    if d <= e {
      DeeperIsSame(g, Target(g, r), input, d, e);
    } else {
      DeeperIsSame(g, Target(g, r), input, e, d);
    }
  }

  lemma EmptyPasses<R>(g: Graph<R>, r: R)
    requires Proper(g) && Empty(g, r)
    ensures Passes(g, r, [])
  {
    hide Proper, Decode;
    var h: nat :| EmptyIn(g, r, h);
    forall rest: seq<byte> ensures Decode(g, r, [] + rest, h).Ok? && Decode(g, r, [] + rest, h).value.1 == rest {
      assert [] + rest == rest;
      EmptyDecodes(g, r, rest, h);
    }
    PassesFrom(g, r, [], h);
  }

  // ---------------------------------------------------------------- input on which a codec succeeds

  ghost predicate Takes<R>(g: Graph<R>, r: R, w: seq<byte>, h: nat)
  {
    forall rest: seq<byte> :: Decode(g, r, w + rest, h).Ok? && Decode(g, r, w + rest, h).value.1 == rest
  }

  function Concat(parts: seq<seq<byte>>): seq<byte> { if parts == [] then [] else parts[0] + Concat(parts[1..]) }

  function Repeat(w: seq<byte>, n: nat): seq<byte> { if n == 0 then [] else w + Repeat(w, n - 1) }

  /** Codecs that can succeed do so on some input, whatever follows it. */
  lemma {:induction false} SampleOf<R>(g: Graph<R>, r: R, h: nat) returns (w: seq<byte>)
    requires Proper(g) && SucceedsIn(g, r, h)
    ensures Takes(g, r, w, h)
    decreases h, 1
  {
    hide Proper, Takes, DecodeItems, DecodeFields, DecodePrim, Merge;
    TargetProper(g, r);
    match Target(g, r) {
      case PtrCodec(elem) =>
        w := SampleOf(g, elem, h - 1);
        PtrTakes(g, r, w, h);
      case ArrayCodec(count, elem) =>
        w := [];
        if count > 0 {
          var one := SampleOf(g, elem, h - 1);
          w := Repeat(one, count);
          ArrayTakes(g, r, one, h);
        } else {
          NoneTaken(g, r, h);
        }
      case StructCodec(_, width, fields) =>
        var parts := SampleParts(g, fields, |fields|, h - 1);
        w := Concat(parts);
        StructTakes(g, r, parts, h);
      case UnionCodec(_, _, sw, _, body, _, _) =>
        var a: nat :| a in body && Selectable(Target(g, r), a) && SucceedsIn(g, body[a].codec, h - 1);
        var arm := SampleOf(g, body[a].codec, h - 1);
        w := UnionTakes(g, r, a, arm, h);
      case _ => w := LeafTakes(g, r, h);
    }
  }

  /** Input for each of the first `n` fields. */
  lemma {:induction false} SampleParts<R>(g: Graph<R>, fields: seq<Field<R>>, n: nat, h: nat)
    returns (parts: seq<seq<byte>>)
    requires Proper(g) && n <= |fields| && forall i :: 0 <= i < n ==> SucceedsIn(g, fields[i].codec, h)
    ensures |parts| == n && forall i :: 0 <= i < n ==> Takes(g, fields[i].codec, parts[i], h)
    decreases h, 2, n
  {
    hide Proper, Takes, SucceedsIn;
    parts := [];
    if n > 0 {
      var before := SampleParts(g, fields, n - 1, h);
      var last := SampleOf(g, fields[n - 1].codec, h);
      parts := before + [last];
    }
  }

  lemma LeafTakes<R>(g: Graph<R>, r: R, h: nat) returns (w: seq<byte>)
    requires SucceedsIn(g, r, h)
    requires var n := Target(g, r); !n.PtrCodec? && !n.ArrayCodec? && !n.StructCodec? && !n.UnionCodec?
    ensures Takes(g, r, w, h)
  {
    hide DecodePrim, EncodePrim, DecodeFixed, DecodeOpaque, Merge;
    var n := Target(g, r);
    w := if n.PrimCodec? then EncodePrim(n.prim, SamplePrim(n.prim))
         else if n.FixedStringCodec? then Padded(Zeros(n.len))
         else if n.OpaqueArrayCodec? then Padded(Zeros(n.count))
         else WordBytes(0);
    forall rest: seq<byte> ensures Decode(g, r, w + rest, h).Ok? && Decode(g, r, w + rest, h).value.1 == rest {
      LeafSample(n, rest);
      WordBack(0, rest);
      if n.SliceCodec? || n.MapCodec? {
        assert DecodeItems(g, if n.MapCodec? then n.key else n.elem, n.elem, 0, rest, h - 1) == Ok(([], rest));
      }
    }
  }

  function SamplePrim(p: Prim): (v: Value)
    ensures PrimTyped(p, v)
  {
    if p.Bool? then VBool(false) else if IsComplex(p) then VPair(0, 0) else VNum(0)
  }

  lemma LeafSample<R>(n: Node<R>, rest: seq<byte>)
    ensures n.PrimCodec? ==>
      DecodePrim(n.prim, EncodePrim(n.prim, SamplePrim(n.prim)) + rest) == Ok((SamplePrim(n.prim), rest))
    ensures n.FixedStringCodec? ==> DecodeFixed(n.len, Padded(Zeros(n.len)) + rest) == Ok((Zeros(n.len), rest))
    ensures n.OpaqueArrayCodec? ==> DecodeFixed(n.count, Padded(Zeros(n.count)) + rest) == Ok((Zeros(n.count), rest))
    ensures n.VarStringCodec? || n.OpaqueSliceCodec? ==> DecodeOpaque(n.max, WordBytes(0) + rest) == Ok(([], rest))
  {
    hide DecodePrim, EncodePrim, DecodeFixed;
    WordBack(0, rest);
    match n {
      case PrimCodec(p) => PrimBack(p, SamplePrim(p), rest);
      case FixedStringCodec(len) => FixedBack(Zeros(len), rest);
      case OpaqueArrayCodec(len) => FixedBack(Zeros(len), rest);
      case _ =>
    }
  }

  lemma PtrTakes<R>(g: Graph<R>, r: R, w: seq<byte>, h: nat)
    requires h > 0 && Target(g, r).PtrCodec? && Takes(g, Target(g, r).elem, w, h - 1)
    ensures Takes(g, r, w, h)
  {
    forall rest: seq<byte> ensures Decode(g, r, w + rest, h).Ok? && Decode(g, r, w + rest, h).value.1 == rest {
      assert Decode(g, Target(g, r).elem, w + rest, h - 1).Ok?;
    }
  }

  lemma NoneTaken<R>(g: Graph<R>, r: R, h: nat)
    requires h > 0 && Target(g, r).ArrayCodec? && Target(g, r).count == 0
    ensures Takes(g, r, [], h)
  {
    forall rest: seq<byte> ensures Decode(g, r, [] + rest, h).Ok? && Decode(g, r, [] + rest, h).value.1 == rest {
      assert [] + rest == rest;
      assert DecodeItems(g, Target(g, r).elem, Target(g, r).elem, 0, rest, h - 1).Ok?;
    }
  }

  lemma ArrayTakes<R>(g: Graph<R>, r: R, w: seq<byte>, h: nat)
    requires h > 0 && Target(g, r).ArrayCodec? && Takes(g, Target(g, r).elem, w, h - 1)
    ensures Takes(g, r, Repeat(w, Target(g, r).count), h)
  {
    hide DecodeItems, Takes;
    var n := Target(g, r);
    forall rest: seq<byte>
      ensures var res := Decode(g, r, Repeat(w, n.count) + rest, h); res.Ok? && res.value.1 == rest
    {
      ItemsTake(g, n.elem, w, n.count, rest, h - 1);
    }
    TakesIs(g, r, Repeat(w, n.count), h);
  }

  lemma TakesIs<R>(g: Graph<R>, r: R, w: seq<byte>, h: nat)
    requires forall rest: seq<byte> :: Decode(g, r, w + rest, h).Ok? && Decode(g, r, w + rest, h).value.1 == rest
    ensures Takes(g, r, w, h)
  {
    hide Decode;
  }

  lemma TakesAt<R>(g: Graph<R>, r: R, w: seq<byte>, rest: seq<byte>, h: nat)
    requires Takes(g, r, w, h)
    ensures Decode(g, r, w + rest, h).Ok? && Decode(g, r, w + rest, h).value.1 == rest
  {
    hide Decode;
  }

  lemma {:induction false} ItemsTake<R>(g: Graph<R>, a: R, w: seq<byte>, n: nat, rest: seq<byte>, h: nat)
    requires Takes(g, a, w, h)
    ensures var res := DecodeItems(g, a, a, n, Repeat(w, n) + rest, h); res.Ok? && res.value.1 == rest
    decreases n
  {
    hide Decode, Takes;
    if n == 0 {
      assert [] + rest == rest;
    } else {
      assert Repeat(w, n) + rest == w + (Repeat(w, n - 1) + rest);
      TakesAt(g, a, w, Repeat(w, n - 1) + rest, h);
      ItemsTake(g, a, w, n - 1, rest, h);
    }
  }

  lemma StructTakes<R>(g: Graph<R>, r: R, parts: seq<seq<byte>>, h: nat)
    requires Proper(g) && h > 0 && Target(g, r).StructCodec? && |parts| == |Target(g, r).fields|
    requires forall i :: 0 <= i < |parts| ==> Takes(g, Target(g, r).fields[i].codec, parts[i], h - 1)
    ensures Takes(g, r, Concat(parts), h)
  {
    hide DecodeFields, Takes, Proper;
    TargetProper(g, r);
    var n := Target(g, r);
    forall rest: seq<byte> ensures var res := Decode(g, r, Concat(parts) + rest, h); res.Ok? && res.value.1 == rest {
      FieldsTake(g, n.name, n.fields, parts, Untouched(n.width), rest, h - 1);
    }
    TakesIs(g, r, Concat(parts), h);
  }

  lemma {:induction false} FieldsTake<R>(g: Graph<R>, name: string, fields: seq<Field<R>>, parts: seq<seq<byte>>,
                                         acc: seq<Value>, rest: seq<byte>, h: nat)
    requires |parts| == |fields| && forall i :: 0 <= i < |fields| ==> Takes(g, fields[i].codec, parts[i], h)
    requires forall i :: 0 <= i < |fields| ==> fields[i].index < |acc|
    ensures var res := DecodeFields(g, name, fields, acc, Concat(parts) + rest, h); res.Ok? && res.value.1 == rest
    decreases |fields|
  {
    hide Decode, Takes;
    if fields == [] {
      assert [] + rest == rest;
    } else {
      var tail := Concat(parts[1..]) + rest;
      assert Concat(parts) + rest == parts[0] + tail;
      TakesAt(g, fields[0].codec, parts[0], tail, h);
      var acc' := DecodeField(g, name, NoNote, fields[0], acc, parts[0] + tail, h).value.0;
      FieldsTake(g, name, fields[1..], parts[1..], acc', rest, h);
    }
  }

  /** The word that selects arm `a`, as every switch reads it. */
  lemma SwitchSample<R>(g: Graph<R>, n: Node<R>, a: nat) returns (key: u32)
    requires n.UnionCodec? && ProperNode(g, n) && Target(g, n.switch.codec).PrimCodec? && Selectable(n, a)
    ensures Arm(n.cases, n.default, key) == a
    ensures forall rest: seq<byte>, d: nat ::
      var res := Decode(g, n.switch.codec, WordBytes(key) + rest, d);
      res.Ok? && res.value.1 == rest && SwitchKey(n.kind, res.value.0) == Some(key)
  {
    key :| (n.kind.BoolSwitch? ==> key <= 1) && Arm(n.cases, n.default, key) == a;
    forall rest: seq<byte>, d: nat
      ensures var res := Decode(g, n.switch.codec, WordBytes(key) + rest, d);
        res.Ok? && res.value.1 == rest && SwitchKey(n.kind, res.value.0) == Some(key)
    {
      SwitchBack(g, n, key, rest, d);
    }
  }

  lemma SwitchBack<R>(g: Graph<R>, n: Node<R>, key: u32, rest: seq<byte>, d: nat)
    requires n.UnionCodec? && ProperNode(g, n) && Target(g, n.switch.codec).PrimCodec?
    requires n.kind.BoolSwitch? ==> key <= 1
    ensures var res := Decode(g, n.switch.codec, WordBytes(key) + rest, d);
      res.Ok? && res.value.1 == rest && SwitchKey(n.kind, res.value.0) == Some(key)
  {
    hide DecodeWord, WordBytes;
    WordBack(key, rest);
    SignedBack(key);
    var p := Target(g, n.switch.codec).prim;
    assert DecodePrim(p, WordBytes(key) + rest).Ok?;
  }

  lemma SignedBack(w: u32)
    ensures Wrap32(Signed(w, 0x1_0000_0000)) == w
  {
  }

  lemma UnionTakes<R>(g: Graph<R>, r: R, a: nat, arm: seq<byte>, h: nat) returns (w: seq<byte>)
    requires Proper(g) && h > 0 && Target(g, r).UnionCodec? && Target(g, Target(g, r).switch.codec).PrimCodec?
    requires a in Target(g, r).body && Selectable(Target(g, r), a) && Takes(g, Target(g, r).body[a].codec, arm, h - 1)
    ensures Takes(g, r, w, h)
  {
    hide Takes, Proper, Selectable;
    TargetProper(g, r);
    var n := Target(g, r);
    var key := SwitchSample(g, n, a);
    w := WordBytes(key) + arm;
    forall rest: seq<byte> ensures var res := Decode(g, r, w + rest, h); res.Ok? && res.value.1 == rest {
      assert w + rest == WordBytes(key) + (arm + rest);
      TakesAt(g, n.body[a].codec, arm, rest, h - 1);
      ArmDecodes(g, n, a, key, arm + rest, h - 1);
    }
    TakesIs(g, r, w, h);
  }

  /** After the selecting word, the union decodes, or runs out of stack, as its arm does. */
  lemma ArmDecodes<R>(g: Graph<R>, n: Node<R>, a: nat, key: u32, rest: seq<byte>, d: nat)
    requires n.UnionCodec? && ProperNode(g, n) && a in n.body && Arm(n.cases, n.default, key) == a
    requires var res := Decode(g, n.switch.codec, WordBytes(key) + rest, d);
      res.Ok? && res.value.1 == rest && SwitchKey(n.kind, res.value.0) == Some(key)
    ensures var res, arm := DecodeBy(g, n, WordBytes(key) + rest, d + 1), Decode(g, n.body[a].codec, rest, d);
      && (arm.Ok? ==> res.Ok? && res.value.1 == arm.value.1)
      && (StackedOut(arm) ==> StackedOut(res))
  {
    hide Decode;
    var none := Untouched(n.width);
    var s := Decode(g, n.switch.codec, WordBytes(key) + rest, d).value.0;
    assert DecodeField(g, n.name, AtSwitch, n.switch, none, WordBytes(key) + rest, d)
        == Ok((none[n.switch.index := s], rest));
    var vals := none[n.switch.index := s];
    assert vals[n.switch.index] == s;
  }

  /** What can succeed passes on some input. */
  lemma SucceedsPasses<R>(g: Graph<R>, r: R) returns (w: seq<byte>)
    requires Proper(g) && Succeeds(g, r)
    ensures Passes(g, r, w)
  {
    hide Proper, SucceedsIn, Decode, Passes;
    var h: nat :| SucceedsIn(g, r, h);
    w := SampleOf(g, r, h);
    PassesFrom(g, r, w, h);
  }

  // ---------------------------------------------------------------- running out of stack

  /** However deep the stack, decoding `input` exhausts it. */
  ghost predicate Endless<R>(g: Graph<R>, r: R, input: seq<byte>)
  {
    forall d: nat :: StackedOut(Decode(g, r, input, d))
  }

  lemma PassesOrOut<R>(g: Graph<R>, r: R, w: seq<byte>, rest: seq<byte>, d: nat)
    requires Passes(g, r, w)
    ensures var res := Decode(g, r, w + rest, d); StackedOut(res) || (res.Ok? && res.value.1 == rest)
  {
    hide Decode;
    assert PassesAt(g, r, w, rest, d);
  }

  /** Fields before the i-th pass, and the i-th runs out of stack: so does the struct. */
  lemma {:induction false} FieldsRunOut<R>(g: Graph<R>, name: string, fields: seq<Field<R>>, parts: seq<seq<byte>>,
                                           acc: seq<Value>, tail: seq<byte>, d: nat)
    requires |parts| < |fields| && forall i :: 0 <= i < |fields| ==> fields[i].index < |acc|
    requires forall j :: 0 <= j < |parts| ==> Passes(g, fields[j].codec, parts[j])
    requires StackedOut(Decode(g, fields[|parts|].codec, tail, d))
    ensures StackedOut(DecodeFields(g, name, fields, acc, Concat(parts) + tail, d))
    decreases |fields|
  {
    hide Decode, Passes;
    if parts == [] {
      assert [] + tail == tail;
      assert StackedOut(DecodeField(g, name, NoNote, fields[0], acc, tail, d));
    } else {
      var rest := Concat(parts[1..]) + tail;
      assert Concat(parts) + tail == parts[0] + rest;
      PassesOrOut(g, fields[0].codec, parts[0], rest, d);
      var res := DecodeField(g, name, NoNote, fields[0], acc, parts[0] + rest, d);
      if res.Ok? {
        FieldsRunOut(g, name, fields[1..], parts[1..], res.value.0, tail, d);
      }
    }
  }

  lemma StructRunsOut<R>(g: Graph<R>, r: R, parts: seq<seq<byte>>, tail: seq<byte>, d: nat)
    requires Proper(g) && Target(g, r).StructCodec? && |parts| < |Target(g, r).fields|
    requires forall j :: 0 <= j < |parts| ==> Passes(g, Target(g, r).fields[j].codec, parts[j])
    requires d > 0 ==> StackedOut(Decode(g, Target(g, r).fields[|parts|].codec, tail, d - 1))
    ensures StackedOut(Decode(g, r, Concat(parts) + tail, d))
  {
    hide Proper, Passes, DecodeFields;
    TargetProper(g, r);
    var n := Target(g, r);
    if d > 0 { FieldsRunOut(g, n.name, n.fields, parts, Untouched(n.width), tail, d - 1); }
  }

  /** A codec that starts with one that exhausts the stack does so too, on the same input. */
  lemma StartsRunOut<R>(g: Graph<R>, r: R, s: R, input: seq<byte>, d: nat)
    requires Proper(g) && Starts(g, r, s) && (d > 0 ==> StackedOut(Decode(g, s, input, d - 1)))
    ensures StackedOut(Decode(g, r, input, d))
  {
    hide Proper, Decode, Merge, DecodeFields, Passes, EmptyIn;
    TargetProper(g, r);
    var n := Target(g, r);
    match n {
      case StructCodec(_, _, fields) =>
        var i :| StartsField(g, fields, i, s);
        var parts := seq(i, j => []);
        forall j | 0 <= j < i ensures Passes(g, fields[j].codec, []) { EmptyPasses(g, fields[j].codec); }
        NothingConcat(parts);
        assert [] + input == input;
        StructRunsOut(g, r, parts, input, d);
      case _ => CallRunsOut(g, r, s, input, d);
    }
  }

  lemma {:induction false} NothingConcat(parts: seq<seq<byte>>)
    requires forall i :: 0 <= i < |parts| ==> parts[i] == []
    ensures Concat(parts) == []
  {
    if parts != [] { NothingConcat(parts[1..]); }
  }

  lemma CallRunsOut<R>(g: Graph<R>, r: R, s: R, input: seq<byte>, d: nat)
    requires var n := Target(g, r);
      || (n.PtrCodec? && n.elem == s) || (n.ArrayCodec? && n.count > 0 && n.elem == s)
      || (n.UnionCodec? && n.switch.codec == s && n.switch.index < n.width)
    requires d > 0 ==> StackedOut(Decode(g, s, input, d - 1))
    ensures StackedOut(Decode(g, r, input, d))
  {
    hide Merge;
    var n := Target(g, r);
    if d > 0 {
      match n {
        case ArrayCodec(count, elem) => assert DecodeItems(g, elem, elem, count, input, d - 1).Err?;
        case UnionCodec(name, width, sw, _, _, _, _) =>
          assert DecodeField(g, name, AtSwitch, sw, Untouched(width), input, d - 1).Err?;
        case _ =>
      }
    }
  }

  /** If what a codec may call is endless on some input, so is the codec, on some input. */
  lemma CallEndless<R>(g: Graph<R>, r: R, s: R, input: seq<byte>) returns (w: seq<byte>)
    requires Proper(g) && Calls(g, r, s) && Endless(g, s, input)
    ensures Endless(g, r, w)
  {
    hide Proper, Decode, Succeeds, Selectable, ProperNode, Endless;
    var n := Target(g, r);
    match n {
      case OptCodec(elem) => w := OptEndless(g, r, input);
      case SliceCodec(_, elem) => w := CountedEndless(g, r, false, [], input);
      case MapCodec(_, key, elem) =>
        if key == s {
          w := CountedEndless(g, r, false, [], input);
        } else {
          var k := SucceedsPasses(g, key);
          w := CountedEndless(g, r, true, k, input);
        }
      case StructCodec(_, _, fields) =>
        var i :| CallsField(g, fields, i, s);
        var parts := PassingParts(g, fields, i);
        w := Concat(parts) + input;
        StructEndless(g, r, parts, input);
      case UnionCodec(_, _, sw, _, body, _, _) =>
        if sw.codec == s {
          w := input;
          SameEndless(g, r, s, input);
        } else {
          var a: nat :| CallsArm(n, a, s);
          w := ArmEndless(g, r, a, input);
        }
      case _ =>
        w := input;
        SameEndless(g, r, s, input);
    }
  }

  lemma EndlessAt<R>(g: Graph<R>, r: R, input: seq<byte>, d: nat)
    requires Endless(g, r, input)
    ensures StackedOut(Decode(g, r, input, d))
  {
    hide Decode;
  }

  lemma EndlessFrom<R>(g: Graph<R>, r: R, input: seq<byte>)
    requires forall d: nat :: StackedOut(Decode(g, r, input, d))
    ensures Endless(g, r, input)
  {
    hide Decode;
  }

  lemma SameEndless<R>(g: Graph<R>, r: R, s: R, input: seq<byte>)
    requires Proper(g) && Calls(g, r, s) && Endless(g, s, input)
    requires var n := Target(g, r); n.PtrCodec? || n.ArrayCodec? || (n.UnionCodec? && n.switch.codec == s)
    ensures Endless(g, r, input)
  {
    hide Proper, Decode, Endless;
    TargetProper(g, r);
    forall d: nat ensures StackedOut(Decode(g, r, input, d)) {
      if d > 0 { EndlessAt(g, s, input, d - 1); }
      CallRunsOut(g, r, s, input, d);
    }
    EndlessFrom(g, r, input);
  }

  lemma OptEndless<R>(g: Graph<R>, r: R, input: seq<byte>) returns (w: seq<byte>)
    requires Target(g, r).OptCodec? && !Target(g, Target(g, r).elem).OptCodec?
    requires Endless(g, Target(g, r).elem, input)
    ensures Endless(g, r, w)
  {
    hide Endless;
    w := WordBytes(1) + input;
    WordBack(1, input);
    forall d: nat ensures StackedOut(Decode(g, r, w, d)) {
      hide DecodeWord, WordBytes;
      EndlessAt(g, Target(g, r).elem, input, d);
      assert DecodeBool(w) == Ok((true, input));
    }
    EndlessFrom(g, r, w);
  }

  /** One element, or one entry: its key when `second` is false, and otherwise its value after the key `k`. */
  lemma CountedEndless<R>(g: Graph<R>, r: R, second: bool, k: seq<byte>, input: seq<byte>) returns (w: seq<byte>)
    requires var n := Target(g, r);
      && (n.SliceCodec? || n.MapCodec?) && n.max > 0
      && (if second then n.MapCodec? && Passes(g, n.key, k) && Endless(g, n.elem, input)
          else Endless(g, if n.MapCodec? then n.key else n.elem, input))
    ensures Endless(g, r, w)
  {
    hide Endless, Passes, Merge;
    var n := Target(g, r);
    var a, b := if n.MapCodec? then n.key else n.elem, n.elem;
    var count := if n.MapCodec? then 2 else 1;
    var tail := if second then k + input else input;
    w := WordBytes(1) + tail;
    WordBack(1, tail);
    forall d: nat ensures StackedOut(Decode(g, r, w, d)) {
      hide DecodeWord, WordBytes;
      if d > 0 {
        ItemsRunOut(g, a, b, count, second, k, input, d - 1);
        assert StackedOut(DecodeItems(g, a, b, count, tail, d - 1));
      }
      CountedRunsOut(g, n, tail, w, d);
    }
    EndlessFrom(g, r, w);
  }

  lemma CountedRunsOut<R>(g: Graph<R>, n: Node<R>, tail: seq<byte>, w: seq<byte>, d: nat)
    requires (n.SliceCodec? || n.MapCodec?) && n.max > 0 && DecodeWord(w) == Ok((1, tail))
    requires d > 0 ==>
      StackedOut(DecodeItems(g, if n.MapCodec? then n.key else n.elem, n.elem, if n.MapCodec? then 2 else 1, tail,
                             d - 1))
    ensures StackedOut(DecodeBy(g, n, w, d))
  {
    hide DecodeWord, DecodeItems, Merge;
  }

  lemma ItemsRunOut<R>(g: Graph<R>, a: R, b: R, n: nat, second: bool, k: seq<byte>, input: seq<byte>, d: nat)
    requires if second then n > 1 && Passes(g, a, k) && Endless(g, b, input) else n > 0 && Endless(g, a, input)
    ensures StackedOut(DecodeItems(g, a, b, n, if second then k + input else input, d))
  {
    hide Decode, Passes, Endless;
    if second {
      PassesOrOut(g, a, k, input, d);
      EndlessAt(g, b, input, d);
      assert StackedOut(DecodeItems(g, b, a, n - 1, input, d));
    } else {
      EndlessAt(g, a, input, d);
    }
  }

  lemma {:induction false} PassingParts<R>(g: Graph<R>, fields: seq<Field<R>>, n: nat) returns (parts: seq<seq<byte>>)
    requires Proper(g) && n <= |fields| && forall j :: 0 <= j < n ==> Succeeds(g, fields[j].codec)
    ensures |parts| == n && forall j :: 0 <= j < n ==> Passes(g, fields[j].codec, parts[j])
    decreases n
  {
    hide Proper, Succeeds, Passes;
    parts := [];
    if n > 0 {
      var before := PassingParts(g, fields, n - 1);
      var last := SucceedsPasses(g, fields[n - 1].codec);
      parts := before + [last];
    }
  }

  lemma StructEndless<R>(g: Graph<R>, r: R, parts: seq<seq<byte>>, input: seq<byte>)
    requires Proper(g) && Target(g, r).StructCodec? && |parts| < |Target(g, r).fields|
    requires forall j :: 0 <= j < |parts| ==> Passes(g, Target(g, r).fields[j].codec, parts[j])
    requires Endless(g, Target(g, r).fields[|parts|].codec, input)
    ensures Endless(g, r, Concat(parts) + input)
  {
    hide Proper, Decode, Endless, Passes;
    forall d: nat ensures StackedOut(Decode(g, r, Concat(parts) + input, d)) {
      if d > 0 { EndlessAt(g, Target(g, r).fields[|parts|].codec, input, d - 1); }
      StructRunsOut(g, r, parts, input, d);
    }
    EndlessFrom(g, r, Concat(parts) + input);
  }

  lemma ArmEndless<R>(g: Graph<R>, r: R, a: nat, input: seq<byte>) returns (w: seq<byte>)
    requires Proper(g) && Target(g, r).UnionCodec? && Target(g, Target(g, r).switch.codec).PrimCodec?
    requires a in Target(g, r).body && Selectable(Target(g, r), a) && Endless(g, Target(g, r).body[a].codec, input)
    ensures Endless(g, r, w)
  {
    hide Proper, Selectable, Endless;
    TargetProper(g, r);
    var n := Target(g, r);
    var key := SwitchSample(g, n, a);
    w := WordBytes(key) + input;
    forall d: nat ensures StackedOut(Decode(g, r, w, d)) {
      if d > 0 {
        EndlessAt(g, n.body[a].codec, input, d - 1);
        ArmDecodes(g, n, a, key, input, d - 1);
      }
    }
    EndlessFrom(g, r, w);
  }
}
