/** Decoding with a bounded stack: running out of it, and that more stack never changes a result. */
module Termination {
  import opened Words
  import opened Codecs

  /** The call stack was too short: what the model has for a decoder still recursing. */
  predicate StackedOut<T>(res: Reading<T>)
  {
    res.Err? && (res.error == TooDeep || (res.error.FieldError? && res.error.under == TooDeep))
  }

  // ---------------------------------------------------------------- depth does not change results

  lemma {:induction false} DeeperIsSame<R>(g: Graph<R>, n: Node<R>, input: seq<byte>, d: nat, e: nat)
    requires d <= e && !StackedOut(DecodeBy(g, n, input, d))
    ensures DecodeBy(g, n, input, e) == DecodeBy(g, n, input, d)
    decreases d, if n.OptCodec? then 3 else 2
  {
    if n.OptCodec? {
      var b := DecodeBool(input);
      if b.Ok? && b.value.0 && !Target(g, n.elem).OptCodec? {
        DeeperIsSame(g, Target(g, n.elem), b.value.1, d, e);
      }
    } else if n.PtrCodec? {
      DeeperIsSame(g, Target(g, n.elem), input, d - 1, e - 1);
    } else if n.ArrayCodec? {
      DeeperItems(g, n.elem, n.elem, n.count, input, d - 1, e - 1);
    } else if n.SliceCodec? || n.MapCodec? {
      DeeperCounted(g, n, input, d, e);
    } else if n.StructCodec? {
      DeeperFields(g, n.name, n.fields, Untouched(n.width), input, d - 1, e - 1);
    } else if n.UnionCodec? {
      DeeperUnion(g, n, input, d, e);
    }
  }

  lemma {:induction false} DeeperCounted<R>(g: Graph<R>, n: Node<R>, input: seq<byte>, d: nat, e: nat)
    requires (n.SliceCodec? || n.MapCodec?) && d <= e && !StackedOut(DecodeBy(g, n, input, d))
    ensures DecodeBy(g, n, input, e) == DecodeBy(g, n, input, d)
    decreases d, 0
  {
    var w := DecodeWord(input);
    if w.Ok? && w.value.0 <= n.max {
      if n.SliceCodec? {
        DeeperItems(g, n.elem, n.elem, w.value.0, w.value.1, d - 1, e - 1);
      } else {
        DeeperItems(g, n.key, n.elem, 2 * w.value.0, w.value.1, d - 1, e - 1);
      }
    }
  }

  lemma {:induction false} DeeperItems<R>(g: Graph<R>, a: R, b: R, n: nat, input: seq<byte>, d: nat, e: nat)
    requires d <= e && !StackedOut(DecodeItems(g, a, b, n, input, d))
    ensures DecodeItems(g, a, b, n, input, e) == DecodeItems(g, a, b, n, input, d)
    decreases d, 5, n
  {
    if n > 0 {
      DeeperIsSame(g, Target(g, a), input, d, e);
      var first := Decode(g, a, input, d);
      if first.Ok? { DeeperItems(g, b, a, n - 1, first.value.1, d, e); }
    }
  }

  lemma {:induction false} DeeperField<R>(g: Graph<R>, name: string, note: Note, f: Field<R>, acc: seq<Value>,
                                          input: seq<byte>, d: nat, e: nat)
    requires d <= e && !StackedOut(DecodeField(g, name, note, f, acc, input, d))
    ensures DecodeField(g, name, note, f, acc, input, e) == DecodeField(g, name, note, f, acc, input, d)
    decreases d, 5
  {
    if f.index < |acc| {
      DeeperIsSame(g, Target(g, f.codec), input, d, e);
    }
  }

  lemma {:induction false} DeeperFields<R>(g: Graph<R>, name: string, fields: seq<Field<R>>, acc: seq<Value>,
                                           input: seq<byte>, d: nat, e: nat)
    requires d <= e && !StackedOut(DecodeFields(g, name, fields, acc, input, d))
    ensures DecodeFields(g, name, fields, acc, input, e) == DecodeFields(g, name, fields, acc, input, d)
    decreases d, 6, |fields|
  {
    if fields != [] {
      DeeperField(g, name, NoNote, fields[0], acc, input, d, e);
      var first := DecodeField(g, name, NoNote, fields[0], acc, input, d);
      if first.Ok? { DeeperFields(g, name, fields[1..], first.value.0, first.value.1, d, e); }
    }
  }

  lemma {:induction false} DeeperUnion<R>(g: Graph<R>, n: Node<R>, input: seq<byte>, d: nat, e: nat)
    requires n.UnionCodec? && d <= e && !StackedOut(DecodeBy(g, n, input, d))
    ensures DecodeBy(g, n, input, e) == DecodeBy(g, n, input, d)
    decreases d, 0
  {
    var none := Untouched(n.width);
    DeeperField(g, n.name, AtSwitch, n.switch, none, input, d - 1, e - 1);
    var first := DecodeField(g, n.name, AtSwitch, n.switch, none, input, d - 1);
    if first.Ok? {
      var key := SwitchKey(n.kind, first.value.0[n.switch.index]);
      if key.Some? {
        var arm := Arm(n.cases, n.default, key.value);
        if arm in n.body {
          DeeperField(g, n.name, AtArm(key.value), n.body[arm], first.value.0, first.value.1, d - 1, e - 1);
        }
      }
    }
  }
}
