/** Decoding ends on every input exactly when no cycle of calls that take nothing can be reached. */
module Ending {
  import opened Words
  import opened Codecs
  import opened RoundTrips
  import opened Termination
  import opened Progress

  // ---------------------------------------------------------------- calls

  /** Codec `r` may call `s` before anything is taken from the stream. */
  ghost predicate Starts<R>(g: Graph<R>, r: R, s: R)
  {
    match Target(g, r)
    case PtrCodec(elem) => elem == s
    case ArrayCodec(count, elem) => count > 0 && elem == s
    case StructCodec(_, _, fields) => exists i :: StartsField(g, fields, i, s)
    case UnionCodec(_, _, sw, _, _, _, _) => sw.codec == s
    case _ => false
  }

  /** Field `i` has codec `s`, and the fields before it take nothing. */
  ghost predicate StartsField<R>(g: Graph<R>, fields: seq<Field<R>>, i: int, s: R)
  {
    0 <= i < |fields| && fields[i].codec == s && forall j :: 0 <= j < i ==> Empty(g, fields[j].codec)
  }

  /** There is input on which codec `r` calls `s`. */
  ghost predicate Calls<R>(g: Graph<R>, r: R, s: R)
  {
    match Target(g, r)
    case OptCodec(elem) => elem == s && !Target(g, elem).OptCodec?
    case PtrCodec(elem) => elem == s
    case ArrayCodec(count, elem) => count > 0 && elem == s
    case SliceCodec(max, elem) => max > 0 && elem == s
    case MapCodec(max, key, elem) => max > 0 && (key == s || (Succeeds(g, key) && elem == s))
    case StructCodec(_, _, fields) => exists i :: CallsField(g, fields, i, s)
    case UnionCodec(_, _, sw, _, body, _, _) =>
      sw.codec == s || (Target(g, sw.codec).PrimCodec? && exists a: nat :: CallsArm(Target(g, r), a, s))
    case _ => false
  }

  /** Field `i` has codec `s`, and the fields before it can succeed. */
  ghost predicate CallsField<R>(g: Graph<R>, fields: seq<Field<R>>, i: int, s: R)
  {
    0 <= i < |fields| && fields[i].codec == s && forall j :: 0 <= j < i ==> Succeeds(g, fields[j].codec)
  }

  ghost predicate CallsArm<R>(n: Node<R>, a: nat, s: R)
    requires n.UnionCodec?
  {
    a in n.body && n.body[a].codec == s && Selectable(n, a)
  }

  lemma {:induction false} EmptySucceeds<R>(g: Graph<R>, r: R, h: nat)
    requires EmptyIn(g, r, h)
    ensures SucceedsIn(g, r, h)
    decreases h
  {
    match Target(g, r)
    case PtrCodec(elem) => EmptySucceeds(g, elem, h - 1);
    case ArrayCodec(count, elem) => if count > 0 { EmptySucceeds(g, elem, h - 1); }
    case StructCodec(_, _, fields) =>
      forall i | 0 <= i < |fields| ensures SucceedsIn(g, fields[i].codec, h - 1) {
        EmptySucceeds(g, fields[i].codec, h - 1);
      }
    case _ =>
  }

  lemma StartsIsCall<R>(g: Graph<R>, r: R, s: R)
    requires Starts(g, r, s)
    ensures Calls(g, r, s)
  {
    if Target(g, r).StructCodec? {
      var fields := Target(g, r).fields;
      var i :| StartsField(g, fields, i, s);
      forall j | 0 <= j < i ensures Succeeds(g, fields[j].codec) {
        var h: nat :| EmptyIn(g, fields[j].codec, h);
        EmptySucceeds(g, fields[j].codec, h);
      }
      assert CallsField(g, fields, i, s);
    }
  }

  // ---------------------------------------------------------------- decoding that ends

  /** `live` codecs call only live ones, and along calls that take nothing the rank drops. */
  ghost predicate Guarded<R(!new)>(g: Graph<R>, live: R -> bool, rank: R -> nat, top: nat)
  {
    && Proper(g) && (forall r :: rank(r) <= top)
    && (forall r, s :: Calls(g, r, s) && live(r) ==> live(s))
    && (forall r, s :: Starts(g, r, s) && live(r) ==> rank(s) < rank(r))
  }

  /** The stack that suffices: a full descent for every byte that may be read, and one more. */
  function Bound(top: nat, bytes: nat, level: nat): nat { (top + 1) * bytes + level + 1 }

  lemma BoundDrops(top: nat, fewer: nat, bytes: nat, level: nat, from: nat)
    requires level <= top
    requires fewer < bytes || (fewer == bytes && level < from)
    ensures Bound(top, fewer, level) + 1 <= Bound(top, bytes, from)
  {
    if fewer < bytes { Multiples(top + 1, fewer, bytes); }
  }

  lemma {:induction false} Multiples(k: nat, a: nat, b: nat)
    requires a < b
    ensures k * a + k <= k * b
  {
    if a + 1 < b { Multiples(k, a, b - 1); }
    assert k * b == k * (b - 1) + k;
  }

  lemma LiveCall<R(!new)>(g: Graph<R>, live: R -> bool, rank: R -> nat, top: nat, r: R, s: R)
    requires Guarded(g, live, rank, top) && live(r) && Calls(g, r, s)
    ensures live(s) && rank(s) <= top && (Starts(g, r, s) ==> rank(s) < rank(r))
  {
  }

  lemma LeavesEnd<R>(g: Graph<R>, n: Node<R>, input: seq<byte>, d: nat)
    requires !IsComposite(n) && !n.OptCodec?
    ensures !StackedOut(DecodeBy(g, n, input, d))
  {
  }

  lemma {:induction false} DecodingEnds<R(!new)>(g: Graph<R>, live: R -> bool, rank: R -> nat, top: nat, r: R,
                                                 input: seq<byte>, d: nat)
    requires Guarded(g, live, rank, top) && live(r) && d >= Bound(top, |input|, rank(r))
    ensures !StackedOut(Decode(g, r, input, d))
    decreases d, 4
  {
    hide DecodeItems, DecodeFields, DecodeField, DecodePrim, DecodeOpaque, DecodeFixed, Merge, Guarded;
    var n := Target(g, r);
    match n
    case OptCodec(elem) =>
      var b := DecodeBool(input);
      if b.Ok? && b.value.0 && !Target(g, elem).OptCodec? {
        LiveCall(g, live, rank, top, r, elem);
        BoundDrops(top, |input| - 4, |input|, rank(elem), rank(r));
        DecodingEnds(g, live, rank, top, elem, b.value.1, d - 1);
        DeeperIsSame(g, Target(g, elem), b.value.1, d - 1, d);
      }
    case PtrCodec(elem) =>
      LiveCall(g, live, rank, top, r, elem);
      BoundDrops(top, |input|, |input|, rank(elem), rank(r));
      DecodingEnds(g, live, rank, top, elem, input, d - 1);
    case ArrayCodec(count, elem) =>
      if count > 0 {
        LiveCall(g, live, rank, top, r, elem);
        ItemsEnd(g, live, rank, top, elem, elem, count, |input|, rank(r), input, d - 1);
      } else {
        NoItemsEnd(g, elem, elem, input, d - 1);
      }
    case SliceCodec(max, elem) =>
      var w := DecodeWord(input);
      if w.Ok? && 0 < w.value.0 <= max {
        LiveCall(g, live, rank, top, r, elem);
        ItemsEnd(g, live, rank, top, elem, elem, w.value.0, |input|, rank(r), w.value.1, d - 1);
      } else if w.Ok? {
        NoItemsEnd(g, elem, elem, w.value.1, d - 1);
      }
    case MapCodec(max, key, elem) =>
      var w := DecodeWord(input);
      if w.Ok? && 0 < w.value.0 <= max {
        LiveCall(g, live, rank, top, r, key);
        if Succeeds(g, key) { LiveCall(g, live, rank, top, r, elem); }
        ItemsEnd(g, live, rank, top, key, elem, 2 * w.value.0, |input|, rank(r), w.value.1, d - 1);
      } else if w.Ok? {
        NoItemsEnd(g, key, elem, w.value.1, d - 1);
      }
    case StructCodec(name, width, fields) =>
      assert fields[0..] == fields;
      FieldsEnd(g, live, rank, top, r, 0, Untouched(width), |input|, input, d - 1);
    case UnionCodec(_, _, _, _, _, _, _) => UnionEnds(g, live, rank, top, r, input, d);
    case _ => LeavesEnd(g, n, input, d);
  }

  lemma NoItemsEnd<R>(g: Graph<R>, a: R, b: R, input: seq<byte>, d: nat)
    ensures !StackedOut(DecodeItems(g, a, b, 0, input, d))
  {
  }

  lemma GuardedIsProper<R(!new)>(g: Graph<R>, live: R -> bool, rank: R -> nat, top: nat)
    requires Guarded(g, live, rank, top)
    ensures Proper(g)
  {
  }

  lemma {:induction false} ItemsEnd<R(!new)>(g: Graph<R>, live: R -> bool, rank: R -> nat, top: nat, a: R, b: R, n: nat,
                                             bytes: nat, from: nat, input: seq<byte>, d: nat)
    requires Guarded(g, live, rank, top) && |input| <= bytes && d + 1 >= Bound(top, bytes, from)
    requires live(a) && rank(a) <= top && (Succeeds(g, a) ==> live(b) && rank(b) <= top)
    requires |input| < bytes || (rank(a) < from && rank(b) < from)
    ensures !StackedOut(DecodeItems(g, a, b, n, input, d))
    decreases d, 5, n
  {
    hide Decode, Bound, Guarded, SucceedsIn;
    if n > 0 {
      BoundDrops(top, |input|, bytes, rank(a), from);
      DecodingEnds(g, live, rank, top, a, input, d);
      var first := Decode(g, a, input, d);
      if first.Ok? {
        GuardedIsProper(g, live, rank, top);
        OnlySuchSucceed(g, a, input, d);
        ConsumesOrEmpty(g, a, input, d);
        ItemsEnd(g, live, rank, top, b, a, n - 1, bytes, from, first.value.1, d);
      }
    }
  }

  /** One field of a struct or union, called by `r` with what is left of `bytes` bytes. */
  lemma {:induction false} FieldEnds<R(!new)>(g: Graph<R>, live: R -> bool, rank: R -> nat, top: nat, r: R,
                                              name: string, note: Note, f: Field<R>, acc: seq<Value>, bytes: nat,
                                              input: seq<byte>, d: nat)
    requires Guarded(g, live, rank, top) && |input| <= bytes && d + 1 >= Bound(top, bytes, rank(r))
    requires live(r) && Calls(g, r, f.codec) && (|input| < bytes || Starts(g, r, f.codec))
    ensures !StackedOut(DecodeField(g, name, note, f, acc, input, d))
    decreases d, 5
  {
    hide Decode, Bound, Guarded, Calls, Starts;
    if f.index < |acc| {
      LiveCall(g, live, rank, top, r, f.codec);
      BoundDrops(top, |input|, bytes, rank(f.codec), rank(r));
      DecodingEnds(g, live, rank, top, f.codec, input, d);
    }
  }

  /** The fields of struct `r` from the i-th on: those before succeeded, and took nothing if all is left. */
  lemma {:induction false} FieldsEnd<R(!new)>(g: Graph<R>, live: R -> bool, rank: R -> nat, top: nat, r: R, i: nat,
                                              acc: seq<Value>, bytes: nat, input: seq<byte>, d: nat)
    requires Guarded(g, live, rank, top) && |input| <= bytes && d + 1 >= Bound(top, bytes, rank(r))
    requires live(r) && Target(g, r).StructCodec? && i <= |Target(g, r).fields|
    requires forall j :: 0 <= j < i ==> Succeeds(g, Target(g, r).fields[j].codec)
    requires |input| < bytes || forall j :: 0 <= j < i ==> Empty(g, Target(g, r).fields[j].codec)
    ensures !StackedOut(DecodeFields(g, Target(g, r).name, Target(g, r).fields[i..], acc, input, d))
    decreases d, 6, |Target(g, r).fields| - i
  {
    hide Decode, Bound, Guarded, DecodeField, SucceedsIn, EmptyIn;
    var name, fields := Target(g, r).name, Target(g, r).fields;
    if i < |fields| {
      var f := fields[i];
      assert fields[i..][0] == f && fields[i..][1..] == fields[i + 1..];
      assert CallsField(g, fields, i, f.codec);
      if |input| == bytes { assert StartsField(g, fields, i, f.codec); }
      FieldEnds(g, live, rank, top, r, name, NoNote, f, acc, bytes, input, d);
      var first := DecodeField(g, name, NoNote, f, acc, input, d);
      if first.Ok? {
        GuardedIsProper(g, live, rank, top);
        FieldConsumes(g, name, NoNote, f, acc, input, d);
        OnlySuchSucceed(g, f.codec, input, d);
        FieldsEnd(g, live, rank, top, r, i + 1, first.value.0, bytes, first.value.1, d);
      }
    }
  }

  lemma {:induction false} UnionEnds<R(!new)>(g: Graph<R>, live: R -> bool, rank: R -> nat, top: nat, r: R,
                                              input: seq<byte>, d: nat)
    requires Guarded(g, live, rank, top) && live(r) && Target(g, r).UnionCodec? && d >= Bound(top, |input|, rank(r))
    ensures !StackedOut(Decode(g, r, input, d))
    decreases d, 0
  {
    hide Guarded, DecodeField;
    var n := Target(g, r);
    var none := Untouched(n.width);
    FieldEnds(g, live, rank, top, r, n.name, AtSwitch, n.switch, none, |input|, input, d - 1);
    var first := DecodeField(g, n.name, AtSwitch, n.switch, none, input, d - 1);
    if first.Ok? {
      var key := SwitchKey(n.kind, first.value.0[n.switch.index]);
      if key.Some? && Arm(n.cases, n.default, key.value) in n.body {
        var arm: nat := Arm(n.cases, n.default, key.value);
        GuardedIsProper(g, live, rank, top);
        TargetProper(g, r);
        SwitchRead(g, n, input, d - 1);
        FieldConsumes(g, n.name, AtSwitch, n.switch, none, input, d - 1);
        SwitchesAreNotEmpty(g, n, input, d - 1);
        assert CallsArm(n, arm, n.body[arm].codec);
        FieldEnds(g, live, rank, top, r, n.name, AtArm(key.value), n.body[arm], first.value.0, |input|,
                  first.value.1, d - 1);
      }
    }
  }

  /** On a guarded graph every decode comes to an end, with a result that no longer depends on how much stack
      there is. */
  lemma DecodingIsTotal<R(!new)>(g: Graph<R>, live: R -> bool, rank: R -> nat, top: nat, r: R, input: seq<byte>,
                                 d: nat, e: nat)
    requires Guarded(g, live, rank, top) && live(r)
    requires d >= Bound(top, |input|, rank(r)) && e >= Bound(top, |input|, rank(r))
    ensures !StackedOut(Decode(g, r, input, d)) && Decode(g, r, input, d) == Decode(g, r, input, e)
  {
    hide Guarded;
    var b := Bound(top, |input|, rank(r));
    DecodingEnds(g, live, rank, top, r, input, b);
    DeeperIsSame(g, Target(g, r), input, b, d);
    DeeperIsSame(g, Target(g, r), input, b, e);
  }
}
