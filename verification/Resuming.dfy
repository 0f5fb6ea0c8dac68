/** Calls that wait and go on: each of the calls that make up an encoding or decoding reads the codec it is for in
    a state of its own, with any other goroutines' steps in between, and together they still do what the type and
    tag say. */
module Resuming {
  import opened Words
  import opened Types
  import opened Codecs
  import opened Shapes
  import opened Meaning
  import opened Protocol
  import opened Runs
  import opened Asks
  import opened TypeGraph
  import opened Interleaved

  // ---------------------------------------------------------------- calls spread over time

  /** `Codecs.Encode`, where the call at place `at` of the tree of calls sees the codecs as in `look(at)`. */
  function EncodeAt<R(==)>(look: seq<nat> -> Graph<R>, at: seq<nat>, r: R, v: Value): Written
    decreases v, 3
  {
    EncodeByAt(look, at, Target(look(at), r), v)
  }

  function EncodeByAt<R(==)>(look: seq<nat> -> Graph<R>, at: seq<nat>, n: Node<R>, v: Value): Written
    decreases v, if n.OptCodec? then 2 else 1
  {
    match n
    case OptCodec(elem) =>
      var t := Target(look(at + [0]), elem);
      if v.VNil? then Done(WordBytes(0))
      else if v.VRef? && !t.OptCodec? then After(WordBytes(1), EncodeByAt(look, at + [0], t, v))
      else Failed(IllTyped)
    case PtrCodec(elem) =>
      if v.VNil? then Failed(NilPointer)
      else if v.VRef? then EncodeAt(look, at + [0], elem, v.target)
      else Failed(IllTyped)
    case ArrayCodec(len, elem) =>
      if v.VList? && |v.elems| == len then EncodeItemsAt(look, at, 0, elem, elem, v.elems) else Failed(IllTyped)
    case SliceCodec(max, elem) =>
      if !v.VList? then Failed(IllTyped)
      else if |v.elems| > max then Failed(LengthError(|v.elems|, max))
      else After(WordBytes(|v.elems|), EncodeItemsAt(look, at, 0, elem, elem, v.elems))
    case MapCodec(max, key, elem) =>
      if !(v.VDict? && |v.kv| % 2 == 0) then Failed(IllTyped)
      else if |v.kv| / 2 > max then Failed(LengthError(|v.kv| / 2, max))
      else After(WordBytes(|v.kv| / 2), EncodeItemsAt(look, at, 0, key, elem, v.kv))
    case StructCodec(name, width, fields) =>
      if v.VRec? && |v.fields| == width then EncodeFieldsAt(look, at, 0, name, fields, v.fields) else Failed(IllTyped)
    case UnionCodec(name, width, sw, _, _, _, _) =>
      if !(v.VRec? && |v.fields| == width && sw.index < width) then Failed(IllTyped)
      else UnionWritten(n, v.fields, EncodeFieldAt(look, at + [0], name, AtSwitch, sw, v.fields),
                        ArmWrittenAt(look, at + [1], n, v.fields))
    case _ => EncodeBy(map[], n, v)
  }

  function EncodeItemsAt<R(==)>(look: seq<nat> -> Graph<R>, at: seq<nat>, i: nat, a: R, b: R, vs: seq<Value>): Written
    decreases vs, 4
  {
    if vs == [] then Done([]) else
    var first := EncodeAt(look, at + [i], a, vs[0]);
    if first.err.Some? then first else After(first.bytes, EncodeItemsAt(look, at, i + 1, b, a, vs[1..]))
  }

  function EncodeFieldAt<R(==)>(look: seq<nat> -> Graph<R>, at: seq<nat>, name: string, note: Note, f: Field<R>,
                                vals: seq<Value>): Written
    decreases vals, 0
  {
    if f.index >= |vals| then Failed(IllTyped) else
    var w := EncodeAt(look, at, f.codec, vals[f.index]);
    if w.err.None? then w else Written(w.bytes, Some(WithFieldError(w.err.value, PathStep(name, f.name, note))))
  }

  function EncodeFieldsAt<R(==)>(look: seq<nat> -> Graph<R>, at: seq<nat>, i: nat, name: string, fields: seq<Field<R>>,
                                 vals: seq<Value>): Written
    decreases vals, 1 + |fields|
  {
    if fields == [] then Done([]) else
    var first := EncodeFieldAt(look, at + [i], name, NoNote, fields[0], vals);
    if first.err.Some? then first else After(first.bytes, EncodeFieldsAt(look, at, i + 1, name, fields[1..], vals))
  }

  /** The selected arm, as `TypeGraph.ArmWritten`. */
  function ArmWrittenAt<R(==)>(look: seq<nat> -> Graph<R>, at: seq<nat>, n: Node<R>, vals: seq<Value>): Written
    requires n.UnionCodec? && n.switch.index < |vals|
    decreases vals, 1
  {
    var key := SwitchKey(n.kind, vals[n.switch.index]);
    if key.None? || Arm(n.cases, n.default, key.value) !in n.body then Failed(IllTyped) else
    EncodeFieldAt(look, at, n.name, AtArm(key.value), n.body[Arm(n.cases, n.default, key.value)], vals)
  }

  /** `Codecs.Decode`, likewise. */
  function DecodeAt<R(==)>(look: seq<nat> -> Graph<R>, at: seq<nat>, r: R, input: seq<byte>, depth: nat): Reading<Value>
    decreases depth, 4
  {
    DecodeByAt(look, at, Target(look(at), r), input, depth)
  }

  function DecodeByAt<R(==)>(look: seq<nat> -> Graph<R>, at: seq<nat>, n: Node<R>, input: seq<byte>, depth: nat)
    : Reading<Value>
    decreases depth, if n.OptCodec? then 3 else 2
  {
    if IsComposite(n) && depth == 0 then Err(TooDeep) else
    match n
    case OptCodec(elem) =>
      (match DecodeBool(input)
       case Err(e) => Err(e)
       case Ok((nonNil, rest)) =>
         var t := Target(look(at + [0]), elem);
         if !nonNil then Ok((VNil, rest))
         else if t.OptCodec? then Err(IllTyped)
         else DecodeByAt(look, at + [0], t, rest, depth))
    case PtrCodec(elem) => OnValue(DecodeAt(look, at + [0], elem, input, depth - 1), v => VRef(v))
    case ArrayCodec(len, elem) =>
      OnValue(DecodeItemsAt(look, at, 0, elem, elem, len, input, depth - 1), vs => VList(vs))
    case SliceCodec(max, _) =>
      CountedFrom(false, max, DecodeWord(input), CountedItemsAt(look, at, n, input, depth - 1))
    case MapCodec(max, _, _) =>
      CountedFrom(true, max, DecodeWord(input), CountedItemsAt(look, at, n, input, depth - 1))
    case StructCodec(name, width, fields) =>
      OnValue(DecodeFieldsAt(look, at, 0, name, fields, Untouched(width), input, depth - 1), vals => VRec(vals))
    case UnionCodec(name, width, sw, _, _, _, _) =>
      var head := DecodeFieldAt(look, at + [0], name, AtSwitch, sw, Untouched(width), input, depth - 1);
      UnionFrom(n, head, ArmReadAt(look, at + [1], n, head, depth - 1))
    case _ => DecodeBy(map[], n, input, depth)
  }

  function DecodeItemsAt<R(==)>(look: seq<nat> -> Graph<R>, at: seq<nat>, i: nat, a: R, b: R, n: nat, input: seq<byte>,
                                depth: nat): Reading<seq<Value>>
    decreases depth, 5, n
  {
    if n == 0 then Ok(([], input)) else
    match DecodeAt(look, at + [i], a, input, depth)
    case Err(e) => Err(e)
    case Ok((v, more)) =>
      match DecodeItemsAt(look, at, i + 1, b, a, n - 1, more, depth)
      case Err(e) => Err(e)
      case Ok((vs, rest)) => Ok(([v] + vs, rest))
  }

  function CountedItemsAt<R(==)>(look: seq<nat> -> Graph<R>, at: seq<nat>, n: Node<R>, input: seq<byte>, depth: nat)
    : Reading<seq<Value>>
    requires n.SliceCodec? || n.MapCodec?
    decreases depth, 6
  {
    match DecodeWord(input)
    case Err(_) => Err(IllTyped)
    case Ok((l, more)) =>
      if n.SliceCodec? then DecodeItemsAt(look, at, 0, n.elem, n.elem, l, more, depth)
      else DecodeItemsAt(look, at, 0, n.key, n.elem, 2 * l, more, depth)
  }

  function DecodeFieldAt<R(==)>(look: seq<nat> -> Graph<R>, at: seq<nat>, name: string, note: Note, f: Field<R>,
                                vals: seq<Value>, input: seq<byte>, depth: nat): Reading<seq<Value>>
    decreases depth, 5
  {
    if f.index >= |vals| then Err(IllTyped) else
    match DecodeAt(look, at, f.codec, input, depth)
    case Err(e) => Err(WithFieldError(e, PathStep(name, f.name, note)))
    case Ok((v, rest)) => Ok((vals[f.index := v], rest))
  }

  function DecodeFieldsAt<R(==)>(look: seq<nat> -> Graph<R>, at: seq<nat>, i: nat, name: string, fields: seq<Field<R>>,
                                 vals: seq<Value>, input: seq<byte>, depth: nat): Reading<seq<Value>>
    decreases depth, 6, |fields|
  {
    if fields == [] then Ok((vals, input)) else
    match DecodeFieldAt(look, at + [i], name, NoNote, fields[0], vals, input, depth)
    case Err(e) => Err(e)
    case Ok((vals', more)) => DecodeFieldsAt(look, at, i + 1, name, fields[1..], vals', more, depth)
  }

  /** The selected arm, as `TypeGraph.ArmRead`. */
  function ArmReadAt<R(==)>(look: seq<nat> -> Graph<R>, at: seq<nat>, n: Node<R>, head: Reading<seq<Value>>, depth: nat)
    : Reading<seq<Value>>
    requires n.UnionCodec?
    decreases depth, 6, 0
  {
    if head.Err? || n.switch.index >= |head.value.0| then Err(IllTyped) else
    var key := SwitchKey(n.kind, head.value.0[n.switch.index]);
    if key.None? || Arm(n.cases, n.default, key.value) !in n.body then Err(IllTyped) else
    DecodeFieldAt(look, at, n.name, AtArm(key.value), n.body[Arm(n.cases, n.default, key.value)], head.value.0,
                  head.value.1, depth)
  }

  // ---------------------------------------------------------------- what is seen stays so

  /** Wherever a call looks it sees the codec that `g` has, or, if `wait`, one not resolved yet. */
  ghost predicate Steady<R(!new)>(look: seq<nat> -> Graph<R>, g: Graph<R>, wait: bool)
  {
    forall p: seq<nat>, r: R {:trigger Target(look(p), r)} ::
      Target(look(p), r) == Target(g, r) || (wait && Target(look(p), r).DeferredCodec?)
  }

  /** An optional stands in front of no other optional. */
  ghost predicate PlainOpts<R(!new)>(g: Graph<R>)
  {
    forall r: R :: Target(g, r).OptCodec? ==> !Target(g, Target(g, r).elem).OptCodec?
  }

  lemma SteadyAt<R(!new)>(look: seq<nat> -> Graph<R>, g: Graph<R>, wait: bool, p: seq<nat>, r: R)
    requires Steady(look, g, wait)
    ensures Target(look(p), r) == Target(g, r) || (wait && Target(look(p), r).DeferredCodec?)
  {
  }

  lemma Waits<R>(look: seq<nat> -> Graph<R>, at: seq<nat>, n: Node<R>, v: Value, input: seq<byte>, depth: nat)
    requires n.DeferredCodec?
    ensures EncodeByAt(look, at, n, v) == Failed(Blocked) && DecodeByAt(look, at, n, input, depth) == Err(Blocked)
  {
  }

  lemma OptIsPlain<R(!new)>(g: Graph<R>, r: R)
    requires PlainOpts(g)
    ensures Target(g, r).OptCodec? ==> !Target(g, Target(g, r).elem).OptCodec?
  {
  }

  // ---------------------------------------------------------------- encoding

  /** Spread over time a call writes what it would write in the last state, or the beginning of it. */
  lemma {:induction false} EncodeSeen<R(!new)>(look: seq<nat> -> Graph<R>, g: Graph<R>, wait: bool, at: seq<nat>, r: R,
                                               v: Value)
    requires Steady(look, g, wait) && PlainOpts(g)
    ensures Alike(wait, EncodeAt(look, at, r, v), Encode(g, r, v))
    decreases v, 3
  {
    hide Steady, PlainOpts, EncodeByAt, EncodeBy, Target;
    SteadyAt(look, g, wait, at, r);
    var n := Target(look(at), r);
    if n == Target(g, r) {
      OptIsPlain(g, r);
      NodeSeen(look, g, wait, at, n, v);
    } else {
      Waits(look, at, n, v, [], 0);
    }
  }

  lemma {:induction false} NodeSeen<R(!new)>(look: seq<nat> -> Graph<R>, g: Graph<R>, wait: bool, at: seq<nat>,
                                             n: Node<R>, v: Value)
    requires Steady(look, g, wait) && PlainOpts(g) && (n.OptCodec? ==> !Target(g, n.elem).OptCodec?)
    ensures Alike(wait, EncodeByAt(look, at, n, v), EncodeBy(g, n, v))
    decreases v, if n.OptCodec? then 2 else 1
  {
    hide Steady, PlainOpts, EncodeAt, Encode, EncodeItemsAt, EncodeItems, EncodeFieldsAt, EncodeFields;
    hide EncodeFieldAt, EncodeField, ArmWrittenAt, Target, EncodePrim, EncodeOpaque;
    if n.OptCodec? {
      OptSeen(look, g, wait, at, n, v);
    } else if n.PtrCodec? {
      if v.VRef? { EncodeSeen(look, g, wait, at + [0], n.elem, v.target); }
    } else if n.ArrayCodec? || n.SliceCodec? {
      if v.VList? { ItemsSeen(look, g, wait, at, 0, n.elem, n.elem, v.elems); }
    } else if n.MapCodec? {
      if v.VDict? { ItemsSeen(look, g, wait, at, 0, n.key, n.elem, v.kv); }
    } else if n.StructCodec? {
      if v.VRec? { FieldsSeen(look, g, wait, at, 0, n.name, n.fields, v.fields); }
    } else if n.UnionCodec? {
      UnionSeen(look, g, wait, at, n, v);
    }
  }

  lemma {:induction false} OptSeen<R(!new)>(look: seq<nat> -> Graph<R>, g: Graph<R>, wait: bool, at: seq<nat>,
                                            n: Node<R>, v: Value)
    requires Steady(look, g, wait) && PlainOpts(g) && n.OptCodec? && !Target(g, n.elem).OptCodec?
    ensures Alike(wait, EncodeByAt(look, at, n, v), EncodeBy(g, n, v))
    decreases v, 2, 0
  {
    hide Steady, PlainOpts, EncodeAt, Encode, Target, Alike;
    SteadyAt(look, g, wait, at + [0], n.elem);
    var t, u := Target(look(at + [0]), n.elem), Target(g, n.elem);
    if v.VRef? {
      if t == u { NodeSeen(look, g, wait, at + [0], t, v); } else { Waits(look, at + [0], t, v, [], 0); }
      OptWritten(wait, EncodeByAt(look, at + [0], t, v), EncodeBy(g, u, v));
    }
    SameWritten(wait, EncodeByAt(look, at, n, v));
  }

  lemma OptWritten(wait: bool, w: Written, x: Written)
    requires Alike(wait, w, x) || (wait && w == Failed(Blocked))
    ensures Alike(wait, After(WordBytes(1), w), After(WordBytes(1), x))
  {
  }

  lemma SameWritten(wait: bool, w: Written)
    ensures Alike(wait, w, w)
  {
  }

  lemma {:induction false} ItemsSeen<R(!new)>(look: seq<nat> -> Graph<R>, g: Graph<R>, wait: bool, at: seq<nat>, i: nat,
                                              a: R, b: R, vs: seq<Value>)
    requires Steady(look, g, wait) && PlainOpts(g)
    ensures Alike(wait, EncodeItemsAt(look, at, i, a, b, vs), EncodeItems(g, a, b, vs))
    decreases vs, 4
  {
    hide Steady, PlainOpts, EncodeAt, Encode;
    if vs != [] {
      EncodeSeen(look, g, wait, at + [i], a, vs[0]);
      ItemsSeen(look, g, wait, at, i + 1, b, a, vs[1..]);
    }
  }

  lemma {:induction false} FieldSeen<R(!new)>(look: seq<nat> -> Graph<R>, g: Graph<R>, wait: bool, at: seq<nat>,
                                              name: string, note: Note, f: Field<R>, vals: seq<Value>)
    requires Steady(look, g, wait) && PlainOpts(g)
    ensures Alike(wait, EncodeFieldAt(look, at, name, note, f, vals), EncodeField(g, name, note, f, vals))
    decreases vals, 0
  {
    hide Steady, PlainOpts, EncodeAt, Encode;
    if f.index < |vals| { EncodeSeen(look, g, wait, at, f.codec, vals[f.index]); }
  }

  lemma {:induction false} FieldsSeen<R(!new)>(look: seq<nat> -> Graph<R>, g: Graph<R>, wait: bool, at: seq<nat>,
                                               i: nat, name: string, fields: seq<Field<R>>, vals: seq<Value>)
    requires Steady(look, g, wait) && PlainOpts(g)
    ensures Alike(wait, EncodeFieldsAt(look, at, i, name, fields, vals), EncodeFields(g, name, fields, vals))
    decreases vals, 1 + |fields|
  {
    hide Steady, PlainOpts, EncodeFieldAt, EncodeField;
    if fields != [] {
      FieldSeen(look, g, wait, at + [i], name, NoNote, fields[0], vals);
      FieldsSeen(look, g, wait, at, i + 1, name, fields[1..], vals);
    }
  }

  lemma {:induction false} UnionSeen<R(!new)>(look: seq<nat> -> Graph<R>, g: Graph<R>, wait: bool, at: seq<nat>,
                                              n: Node<R>, v: Value)
    requires Steady(look, g, wait) && PlainOpts(g) && n.UnionCodec?
    ensures Alike(wait, EncodeByAt(look, at, n, v), EncodeBy(g, n, v))
    decreases v, 0
  {
    hide Steady, PlainOpts, EncodeFieldAt, EncodeField, UnionWritten, Alike;
    SameWritten(wait, Failed(IllTyped));
    if v.VRec? && |v.fields| == n.width && n.switch.index < n.width {
      var vals := v.fields;
      var head, head' := EncodeFieldAt(look, at + [0], n.name, AtSwitch, n.switch, vals),
                         EncodeField(g, n.name, AtSwitch, n.switch, vals);
      FieldSeen(look, g, wait, at + [0], n.name, AtSwitch, n.switch, vals);
      var key := SwitchKey(n.kind, vals[n.switch.index]);
      if key.Some? && Arm(n.cases, n.default, key.value) in n.body {
        var f := n.body[Arm(n.cases, n.default, key.value)];
        FieldSeen(look, g, wait, at + [1], n.name, AtArm(key.value), f, vals);
      }
      UnionIsWritten(g, n, v);
      WrittenAlike(wait, n, n, vals, head, head', ArmWrittenAt(look, at + [1], n, vals), ArmWritten(g, n, vals));
    }
  }

  // ---------------------------------------------------------------- decoding

  lemma {:induction false} DecodeSeen<R(!new)>(look: seq<nat> -> Graph<R>, g: Graph<R>, wait: bool, at: seq<nat>, r: R,
                                               input: seq<byte>, depth: nat)
    requires Steady(look, g, wait) && PlainOpts(g)
    ensures ReadAlike(wait, DecodeAt(look, at, r, input, depth), Decode(g, r, input, depth))
    decreases depth, 4
  {
    hide Steady, PlainOpts, DecodeByAt, DecodeBy, Target;
    SteadyAt(look, g, wait, at, r);
    var n := Target(look(at), r);
    if n == Target(g, r) {
      OptIsPlain(g, r);
      NodeRead(look, g, wait, at, n, input, depth);
    } else {
      Waits(look, at, n, VNil, input, depth);
    }
  }

  lemma {:induction false} NodeRead<R(!new)>(look: seq<nat> -> Graph<R>, g: Graph<R>, wait: bool, at: seq<nat>,
                                             n: Node<R>, input: seq<byte>, depth: nat)
    requires Steady(look, g, wait) && PlainOpts(g) && (n.OptCodec? ==> !Target(g, n.elem).OptCodec?)
    ensures ReadAlike(wait, DecodeByAt(look, at, n, input, depth), DecodeBy(g, n, input, depth))
    decreases depth, if n.OptCodec? then 3 else 2
  {
    hide Steady, PlainOpts, DecodeAt, Decode, DecodeItemsAt, DecodeItems, DecodeFieldsAt, DecodeFields;
    hide DecodeFieldAt, DecodeField, ArmReadAt, Target, DecodePrim, DecodeOpaque, DecodeFixed, DecodeWord, Merge;
    hide CountedFrom, CountedItemsAt, UnionFrom;
    if n.OptCodec? {
      OptRead(look, g, wait, at, n, input, depth);
    } else if IsComposite(n) && depth > 0 {
      if n.PtrCodec? {
        DecodeSeen(look, g, wait, at + [0], n.elem, input, depth - 1);
      } else if n.ArrayCodec? {
        ItemsReadSeen(look, g, wait, at, 0, n.elem, n.elem, n.count, input, depth - 1);
      } else if n.StructCodec? {
        FieldsReadSeen(look, g, wait, at, 0, n.name, n.fields, Untouched(n.width), input, depth - 1);
      } else if n.UnionCodec? {
        UnionReadSeen(look, g, wait, at, n, input, depth);
      } else {
        CountedReadSeen(look, g, wait, at, n, input, depth);
      }
    }
  }

  lemma {:induction false} OptRead<R(!new)>(look: seq<nat> -> Graph<R>, g: Graph<R>, wait: bool, at: seq<nat>,
                                            n: Node<R>, input: seq<byte>, depth: nat)
    requires Steady(look, g, wait) && PlainOpts(g) && n.OptCodec? && !Target(g, n.elem).OptCodec?
    ensures ReadAlike(wait, DecodeByAt(look, at, n, input, depth), DecodeBy(g, n, input, depth))
    decreases depth, 3, 0
  {
    hide Steady, PlainOpts, DecodeAt, Decode, Target, DecodeBool;
    SteadyAt(look, g, wait, at + [0], n.elem);
    var t, b := Target(look(at + [0]), n.elem), DecodeBool(input);
    if b.Ok? && b.value.0 {
      if t == Target(g, n.elem) {
        NodeRead(look, g, wait, at + [0], t, b.value.1, depth);
      } else {
        Waits(look, at + [0], t, VNil, b.value.1, depth);
      }
    }
  }

  lemma {:induction false} ItemsReadSeen<R(!new)>(look: seq<nat> -> Graph<R>, g: Graph<R>, wait: bool, at: seq<nat>,
                                                  i: nat, a: R, b: R, n: nat, input: seq<byte>, depth: nat)
    requires Steady(look, g, wait) && PlainOpts(g)
    ensures ReadAlike(wait, DecodeItemsAt(look, at, i, a, b, n, input, depth), DecodeItems(g, a, b, n, input, depth))
    decreases depth, 5, n
  {
    hide Steady, PlainOpts, DecodeAt, Decode;
    if n > 0 {
      DecodeSeen(look, g, wait, at + [i], a, input, depth);
      var first := Decode(g, a, input, depth);
      if first.Ok? { ItemsReadSeen(look, g, wait, at, i + 1, b, a, n - 1, first.value.1, depth); }
    }
  }

  lemma {:induction false} FieldReadSeen<R(!new)>(look: seq<nat> -> Graph<R>, g: Graph<R>, wait: bool, at: seq<nat>,
                                                  name: string, note: Note, f: Field<R>, vals: seq<Value>,
                                                  input: seq<byte>, depth: nat)
    requires Steady(look, g, wait) && PlainOpts(g)
    ensures ReadAlike(wait, DecodeFieldAt(look, at, name, note, f, vals, input, depth),
                      DecodeField(g, name, note, f, vals, input, depth))
    decreases depth, 5
  {
    hide Steady, PlainOpts, DecodeAt, Decode;
    if f.index < |vals| { DecodeSeen(look, g, wait, at, f.codec, input, depth); }
  }

  lemma {:induction false} FieldsReadSeen<R(!new)>(look: seq<nat> -> Graph<R>, g: Graph<R>, wait: bool, at: seq<nat>,
                                                   i: nat, name: string, fields: seq<Field<R>>, vals: seq<Value>,
                                                   input: seq<byte>, depth: nat)
    requires Steady(look, g, wait) && PlainOpts(g)
    ensures ReadAlike(wait, DecodeFieldsAt(look, at, i, name, fields, vals, input, depth),
                      DecodeFields(g, name, fields, vals, input, depth))
    decreases depth, 6, |fields|
  {
    hide Steady, PlainOpts, DecodeFieldAt, DecodeField;
    if fields != [] {
      FieldReadSeen(look, g, wait, at + [i], name, NoNote, fields[0], vals, input, depth);
      var first := DecodeField(g, name, NoNote, fields[0], vals, input, depth);
      if first.Ok? {
        FieldsReadSeen(look, g, wait, at, i + 1, name, fields[1..], first.value.0, first.value.1, depth);
      }
    }
  }

  lemma {:induction false} CountedReadSeen<R(!new)>(look: seq<nat> -> Graph<R>, g: Graph<R>, wait: bool, at: seq<nat>,
                                                    n: Node<R>, input: seq<byte>, depth: nat)
    requires Steady(look, g, wait) && PlainOpts(g) && (n.SliceCodec? || n.MapCodec?) && depth > 0
    ensures ReadAlike(wait, DecodeByAt(look, at, n, input, depth), DecodeBy(g, n, input, depth))
    decreases depth, 0
  {
    hide Steady, PlainOpts, DecodeItemsAt, DecodeItems, DecodeWord, DecodeBy, ReadAlike, CountedFrom;
    var w := DecodeWord(input);
    var items, items' := CountedItemsAt(look, at, n, input, depth - 1), CountedItems(g, n, w, depth - 1);
    if w.Ok? {
      var l: nat, more := w.value.0, w.value.1;
      if n.SliceCodec? {
        ItemsReadSeen(look, g, wait, at, 0, n.elem, n.elem, l, more, depth - 1);
      } else {
        ItemsReadSeen(look, g, wait, at, 0, n.key, n.elem, 2 * l, more, depth - 1);
      }
    } else {
      SameReads(wait, items);
    }
    CountedIs(g, n, input, depth);
    CountedAlike(wait, n.MapCodec?, n.max, w, items, items');
  }

  lemma {:induction false} UnionReadSeen<R(!new)>(look: seq<nat> -> Graph<R>, g: Graph<R>, wait: bool, at: seq<nat>,
                                                  n: Node<R>, input: seq<byte>, depth: nat)
    requires Steady(look, g, wait) && PlainOpts(g) && n.UnionCodec? && depth > 0
    ensures ReadAlike(wait, DecodeByAt(look, at, n, input, depth), DecodeBy(g, n, input, depth))
    decreases depth, 0
  {
    hide Steady, PlainOpts, DecodeFieldAt, DecodeField, DecodeBy, ReadAlike, UnionFrom, ArmReadAt, ArmRead;
    var none, d := Untouched(n.width), depth - 1;
    FieldReadSeen(look, g, wait, at + [0], n.name, AtSwitch, n.switch, none, input, d);
    var head := DecodeFieldAt(look, at + [0], n.name, AtSwitch, n.switch, none, input, d);
    var head' := DecodeField(g, n.name, AtSwitch, n.switch, none, input, d);
    if head == head' { ArmReadSeen(look, g, wait, at + [1], n, head, d); }
    UnionIsFrom(g, n, input, depth);
    FromAlike(wait, n, n, head, head', ArmReadAt(look, at + [1], n, head, d), ArmRead(g, n, head', d));
  }

  lemma {:induction false} ArmReadSeen<R(!new)>(look: seq<nat> -> Graph<R>, g: Graph<R>, wait: bool, at: seq<nat>,
                                                n: Node<R>, head: Reading<seq<Value>>, depth: nat)
    requires Steady(look, g, wait) && PlainOpts(g) && n.UnionCodec?
    ensures ReadAlike(wait, ArmReadAt(look, at, n, head, depth), ArmRead(g, n, head, depth))
    decreases depth, 6
  {
    hide Steady, PlainOpts, DecodeFieldAt, DecodeField;
    if head.Ok? && n.switch.index < |head.value.0| {
      var key := SwitchKey(n.kind, head.value.0[n.switch.index]);
      if key.Some? && Arm(n.cases, n.default, key.value) in n.body {
        var f := n.body[Arm(n.cases, n.default, key.value)];
        FieldReadSeen(look, g, wait, at, n.name, AtArm(key.value), f, head.value.0, head.value.1, depth);
      }
    }
  }

  /** Calls that all look in one state are the plain ones. */
  lemma AllAtOnce<R(!new)>(g: Graph<R>, r: R, v: Value, input: seq<byte>, depth: nat)
    requires PlainOpts(g)
    ensures EncodeAt(p => g, [], r, v) == Encode(g, r, v)
    ensures DecodeAt(p => g, [], r, input, depth) == Decode(g, r, input, depth)
  {
    hide PlainOpts, EncodeAt, Encode, DecodeAt, Decode, Target;
    var look: seq<nat> -> Graph<R> := p => g;
    assert Steady(look, g, false);
    EncodeSeen(look, g, false, [], r, v);
    DecodeSeen(look, g, false, [], r, input, depth);
  }

  // ---------------------------------------------------------------- over a run

  /** The state after the first `t` steps of a run, or all of them. */
  function StateAfter(deps: Key -> seq<Key>, steps: Steps, t: nat): State
  {
    var s := Run(deps, INITIAL, if t < |steps| then steps[..t] else steps);
    if s.Some? then s.value else INITIAL
  }

  lemma {:induction false} RunSplits(deps: Key -> seq<Key>, s: State, steps: Steps, t: nat)
    requires Run(deps, s, steps).Some? && t <= |steps|
    ensures Run(deps, s, steps[..t]).Some?
    ensures Run(deps, Run(deps, s, steps[..t]).value, steps[t..]) == Run(deps, s, steps)
    decreases t
  {
    hide Do;
    if t == 0 {
      assert steps[..0] == [] && steps[0..] == steps;
    } else {
      assert steps[..t][0] == steps[0] && steps[..t][1..] == steps[1..][..t - 1] && steps[1..][t - 1..] == steps[t..];
      RunSplits(deps, Do(deps, s, steps[0].0, steps[0].1).value, steps[1..], t - 1);
    }
  }

  /** The codecs of `g` as they were in state `s`: finished ones do not change, deferred ones may not have been
      resolved yet, later ones are not there. */
  function SeenIn(s: State, g: Graph<nat>): Graph<nat>
  {
    map o | o in s.heap && o in g :: if s.heap[o].Deferred? then DeferredCodec(s.heap[o].final) else g[o]
  }

  /** Each call of the tree looks in the state after some number of steps of the run. */
  function SeenOver(deps: Key -> seq<Key>, steps: Steps, g: Graph<nat>, when: seq<nat> -> nat): seq<nat> -> Graph<nat>
  {
    p => SeenIn(StateAfter(deps, steps, when(p)), g)
  }

  /** What was seen resolved is still so in the end. */
  lemma SeenStays(tbl: Table, steps: Steps, s: State, g: Graph<nat>, t: nat, o: Obj)
    requires Run(DepsOf(tbl), INITIAL, steps) == Some(s) && MadeBy(tbl, s, g) && KeysWithin(Universe(tbl), s)
    ensures var h := SeenIn(StateAfter(DepsOf(tbl), steps, t), g);
      Target(h, o) == Target(g, o) || Target(h, o).DeferredCodec?
  {
    hide Run, Universe, Inv, Follows;
    var deps := DepsOf(tbl);
    var n := if t < |steps| then t else |steps|;
    assert steps[..|steps|] == steps;
    RunSplits(deps, INITIAL, steps, n);
    var e := StateAfter(deps, steps, t);
    assert Run(deps, INITIAL, steps[..n]) == Some(e);
    EveryRunKeeps(deps, steps[..n]);
    RunFollows(deps, e, steps[n..]);
    assert Follows(e, s);
    SeenSame(tbl, deps, e, s, g, o);
  }

  lemma SeenSame(tbl: Table, deps: Key -> seq<Key>, e: State, s: State, g: Graph<nat>, o: Obj)
    requires Inv(deps, e) && Follows(e, s) && MadeBy(tbl, s, g) && KeysWithin(Universe(tbl), s)
    ensures Target(SeenIn(e, g), o) == Target(g, o) || Target(SeenIn(e, g), o).DeferredCodec?
  {
    hide Universe, Inv, ShapeOf, Matches, EntryOf, EntryFollows;
    if o in e.heap {
      assert ObjectFollows(e.heap[o], s.heap[o]);
      ResolvedIsThere(deps, e, o);
      if e.heap[o].Deferred? && e.heap[o].final.Some? {
        assert ObjectFollows(e.heap[e.heap[o].final.value], s.heap[e.heap[o].final.value]);
      }
    }
  }

  lemma ResolvedIsThere(deps: Key -> seq<Key>, s: State, o: Obj)
    requires Inv(deps, s) && o in s.heap
    ensures s.heap[o].Deferred? && s.heap[o].final.Some? ==>
      s.heap[o].final.value in s.heap && s.heap[s.heap[o].final.value].Final?
  {
    assert ObjectOk(deps, s, o);
  }

  /** Made graphs have no optional in front of an optional. */
  lemma MadeIsPlain(tbl: Table, steps: Steps, s: State, g: Graph<nat>)
    requires ClosedTable(tbl) && StepsWithin(Universe(tbl), steps)
    requires Run(DepsOf(tbl), INITIAL, steps) == Some(s) && MadeBy(tbl, s, g)
    ensures PlainOpts(g)
  {
    hide Universe, Run, ClosedTable, StepsWithin, FollowsTypes, KeyGraph, ShapeOf;
    MadeFollows(tbl, steps, s, g);
    forall r: nat | Target(g, r).OptCodec? ensures !Target(g, Target(g, r).elem).OptCodec? {
      OriginOf(tbl, s, g, r);
      PlainAt(tbl, Origin(s), g, r, Origin(s)[r]);
    }
  }

  lemma OriginOf(tbl: Table, s: State, g: Graph<nat>, r: nat)
    requires MadeBy(tbl, s, g) && Target(g, r).OptCodec?
    ensures r in Origin(s)
  {
    hide ShapeOf, Matches;
  }

  lemma PlainAt(tbl: Table, origin: map<nat, Key>, g: Graph<nat>, r: nat, k: Key)
    requires FollowsTypes(tbl, origin, g, true) && RefIs(origin, r, k) && Target(g, r).OptCodec?
    ensures !Target(g, Target(g, r).elem).OptCodec?
  {
    hide FollowsTypes, KeyGraph, ShapeOf, Universe, Target;
    FollowedNode(tbl, origin, g, true, r, k);
    var n, m := Target(g, r), ShapeOf(tbl, k);
    OptMatches(origin, n, m);
    NoOptOfOpt(tbl, k);
    FollowedNode(tbl, origin, g, true, n.elem, m.elem);
    if !Target(g, n.elem).DeferredCodec? { NotOpt(origin, Target(g, n.elem), ShapeOf(tbl, m.elem)); }
  }

  lemma OptMatches(origin: map<nat, Key>, n: Node<nat>, m: Node<Key>)
    requires Matches(origin, n, m) && n.OptCodec?
    ensures m.OptCodec? && RefIs(origin, n.elem, m.elem)
  {
  }

  lemma AlikeFurther(a: Written, b: Written, c: Written)
    requires Alike(true, a, b) && Alike(true, b, c)
    ensures Alike(true, a, c)
  {
  }

  /** Take any run, a codec it has handed out, and a call on it of which every part happens in some state of the
      run, after whatever waiting: as far as it has come, it has written and read what type and tag define. A call
      that no longer waits has done just that. */
  lemma ResumedMeaning(tbl: Table, steps: Steps, s: State, g: Graph<nat>, when: seq<nat> -> nat, o: Obj, v: Value,
                       input: seq<byte>, depth: nat)
    requires ClosedTable(tbl) && SwitchesSupported(tbl) && StepsWithin(Universe(tbl), steps)
    requires Run(DepsOf(tbl), INITIAL, steps) == Some(s) && MadeBy(tbl, s, g) && o in s.heap
    ensures var look := SeenOver(DepsOf(tbl), steps, g, when); var k := s.heap[o].key;
      && Alike(true, EncodeAt(look, [], o, v), TypedEncode(tbl, k.t, k.tag, v))
      && ReadAlike(true, DecodeAt(look, [], o, input, depth), TypedDecode(tbl, k.t, k.tag, input, depth))
  {
    hide Universe, Run, MadeBy, StepsWithin, Encode, Decode, TypedEncode, TypedDecode, ClosedTable, DepsOf, Alike;
    hide EncodeAt, DecodeAt, PlainOpts, SeenIn, StateAfter, KeysWithin, Target;
    var deps := DepsOf(tbl);
    var look, k := SeenOver(deps, steps, g, when), s.heap[o].key;
    KeysStayWithin(tbl, steps, s);
    forall p: seq<nat>, r: nat
      ensures Target(look(p), r) == Target(g, r) || Target(look(p), r).DeferredCodec?
    {
      SeenStays(tbl, steps, s, g, when(p), r);
    }
    assert Steady(look, g, true);
    MadeIsPlain(tbl, steps, s, g);
    EncodeSeen(look, g, true, [], o, v);
    DecodeSeen(look, g, true, [], o, input, depth);
    InterleavedMeaning(tbl, steps, s, g, o, v, input, depth);
    AlikeFurther(EncodeAt(look, [], o, v), Encode(g, o, v), TypedEncode(tbl, k.t, k.tag, v));
  }
}
