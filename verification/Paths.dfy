/** Where an encoding or decoding failed: the path in a field error names, outermost first, the struct and union
    fields that lead to the call that failed. */
module Paths {
  import opened Words
  import opened Codecs

  function PathOf(e: Error): seq<PathStep> { if e.FieldError? then e.path else [] }

  /** Encoding `v` with codec `r` fails with `under` at the end of `path`; pointers, optionals and elements
      on the way do not show in the path, and everything before the failing part encodes. */
  ghost predicate FailsAt<R>(g: Graph<R>, r: R, v: Value, path: seq<PathStep>, under: Error)
    decreases v, if Target(g, r).OptCodec? then 3 else 2
  {
    match Target(g, r)
    case OptCodec(elem) =>
      if v.VRef? && !Target(g, elem).OptCodec? then FailsAt(g, elem, v, path, under)
      else path == [] && under == IllTyped
    case PtrCodec(elem) =>
      if v.VRef? then FailsAt(g, elem, v.target, path, under)
      else path == [] && (under == NilPointer || under == IllTyped)
    case ArrayCodec(count, elem) =>
      if v.VList? && |v.elems| == count then ItemFails(g, elem, elem, v.elems, path, under)
      else path == [] && under == IllTyped
    case SliceCodec(max, elem) =>
      if v.VList? && |v.elems| <= max then ItemFails(g, elem, elem, v.elems, path, under)
      else path == [] && (under.LengthError? || under == IllTyped)
    case MapCodec(max, key, elem) =>
      if v.VDict? && |v.kv| % 2 == 0 && |v.kv| / 2 <= max then ItemFails(g, key, elem, v.kv, path, under)
      else path == [] && (under.LengthError? || under == IllTyped)
    case StructCodec(name, width, fields) =>
      if v.VRec? && |v.fields| == width then
        exists i :: 0 <= i < |fields| && FieldFails(g, name, NoNote, fields[i], v.fields, path, under)
          && EncodeFields(g, name, fields[..i], v.fields).err == None
      else path == [] && under == IllTyped
    case UnionCodec(name, width, sw, kind, body, cases, default) =>
      if !(v.VRec? && |v.fields| == width && sw.index < width) then path == [] && under == IllTyped
      else
        FieldFails(g, name, AtSwitch, sw, v.fields, path, under)
        || (EncodeField(g, name, AtSwitch, sw, v.fields).err == None
            && match SwitchKey(kind, v.fields[sw.index])
               case None => path == [] && under == IllTyped
               case Some(key) =>
                 var arm := Arm(cases, default, key);
                 if arm in body then FieldFails(g, name, AtArm(key), body[arm], v.fields, path, under)
                 else path == [PathStep(NameOf(name), "?", AtArm(arm))] && under == ArmUndefined)
    case _ => path == [] && Encode(g, r, v).err == Some(under)
  }

  /** Some item is the first to fail. */
  ghost predicate ItemFails<R>(g: Graph<R>, a: R, b: R, vs: seq<Value>, path: seq<PathStep>, under: Error)
    decreases vs, 4
  {
    vs != [] && (FailsAt(g, a, vs[0], path, under)
                 || (Encode(g, a, vs[0]).err == None && ItemFails(g, b, a, vs[1..], path, under)))
  }

  /** The field fails, and is the first step of the path. */
  ghost predicate FieldFails<R>(g: Graph<R>, owner: string, note: Note, f: Field<R>, vals: seq<Value>,
                                path: seq<PathStep>, under: Error)
    decreases vals, 4
  {
    if f.index >= |vals| then path == [] && under == IllTyped
    else path != [] && path[0] == PathStep(NameOf(owner), f.name, note)
         && FailsAt(g, f.codec, vals[f.index], path[1..], under)
  }

  /** Every encoding error tells where it arose, and its cause is not itself a field error. */
  lemma {:induction false} ErrorsNameTheirPlace<R>(g: Graph<R>, r: R, v: Value)
    requires Encode(g, r, v).err.Some?
    ensures var e := Encode(g, r, v).err.value;
      FailsAt(g, r, v, PathOf(e), UnderOf(e)) && !UnderOf(e).FieldError?
    decreases v, if Target(g, r).OptCodec? then 3 else 2
  {
    hide EncodePrim, EncodeOpaque, PrimTyped, Padded, EncodeField, EncodeFields, EncodeItems, ItemFails, FieldFails;
    match Target(g, r) {
      case OptCodec(elem) =>
        if v.VRef? && !Target(g, elem).OptCodec? { ErrorsNameTheirPlace(g, elem, v); }
      case PtrCodec(elem) => if v.VRef? { ErrorsNameTheirPlace(g, elem, v.target); }
      case ArrayCodec(count, elem) =>
        if v.VList? && |v.elems| == count { ItemErrors(g, elem, elem, v.elems); }
      case SliceCodec(max, elem) =>
        if v.VList? && |v.elems| <= max { ItemErrors(g, elem, elem, v.elems); }
      case MapCodec(max, key, elem) =>
        if v.VDict? && |v.kv| % 2 == 0 && |v.kv| / 2 <= max { ItemErrors(g, key, elem, v.kv); }
      case StructCodec(_, _, _) => StructFails(g, r, v);
      case UnionCodec(_, _, _, _, _, _, _) => UnionErrors(g, r, v);
      case FixedStringCodec(_) =>
      case VarStringCodec(max) => OpaqueError(v, max);
      case OpaqueSliceCodec(max) => OpaqueError(v, max);
      case _ =>
    }
  }

  lemma OpaqueError(v: Value, max: u32)
    ensures v.VStr? ==> EncodeOpaque(v.s, max).err.None? || EncodeOpaque(v.s, max).err.value.LengthError?
    ensures v.VList? && AllBytes(v.elems) ==>
      EncodeOpaque(ToBytes(v.elems), max).err.None? || EncodeOpaque(ToBytes(v.elems), max).err.value.LengthError?
  {
  }

  lemma {:induction false} ItemErrors<R>(g: Graph<R>, a: R, b: R, vs: seq<Value>)
    requires EncodeItems(g, a, b, vs).err.Some?
    ensures var e := EncodeItems(g, a, b, vs).err.value;
      ItemFails(g, a, b, vs, PathOf(e), UnderOf(e)) && !UnderOf(e).FieldError?
    decreases vs, 4
  {
    hide Encode, FailsAt;
    if Encode(g, a, vs[0]).err.Some? {
      ErrorsNameTheirPlace(g, a, vs[0]);
    } else {
      ItemErrors(g, b, a, vs[1..]);
    }
  }

  lemma FieldErrors<R>(g: Graph<R>, owner: string, note: Note, f: Field<R>, vals: seq<Value>)
    requires EncodeField(g, owner, note, f, vals).err.Some?
    ensures var e := EncodeField(g, owner, note, f, vals).err.value;
      FieldFails(g, owner, note, f, vals, PathOf(e), UnderOf(e)) && !UnderOf(e).FieldError?
    decreases vals, 4
  {
    hide Encode, FailsAt;
    if f.index < |vals| {
      ErrorsNameTheirPlace(g, f.codec, vals[f.index]);
      StepAdded(Encode(g, f.codec, vals[f.index]).err.value, PathStep(owner, f.name, note));
    }
  }

  /** A field error has one more step than its cause. */
  lemma StepAdded(e: Error, step: PathStep)
    ensures var r := WithFieldError(e, step);
      && UnderOf(r) == UnderOf(e) && PathOf(r) != [] && PathOf(r)[1..] == PathOf(e)
      && PathOf(r)[0] == PathStep(NameOf(step.owner), step.field, step.note)
  {
  }

  lemma {:induction false} StructErrors<R>(g: Graph<R>, name: string, fields: seq<Field<R>>, i: nat, vals: seq<Value>)
    requires i <= |fields| && EncodeFields(g, name, fields[..i], vals).err == None
    requires EncodeFields(g, name, fields[i..], vals).err.Some?
    ensures var e := EncodeFields(g, name, fields[i..], vals).err.value;
      && !UnderOf(e).FieldError?
      && exists j :: 0 <= j < |fields| && FieldFails(g, name, NoNote, fields[j], vals, PathOf(e), UnderOf(e))
           && EncodeFields(g, name, fields[..j], vals).err == None
    decreases vals, 5 + |fields| - i
  {
    hide EncodeField, FieldFails;
    assert fields[i..][0] == fields[i] && fields[i..][1..] == fields[i + 1..];
    if EncodeField(g, name, NoNote, fields[i], vals).err.Some? {
      FieldErrors(g, name, NoNote, fields[i], vals);
    } else {
      assert fields[..i + 1] == fields[..i] + [fields[i]];
      PrefixEncodes(g, name, fields[..i], fields[i], vals);
      StructErrors(g, name, fields, i + 1, vals);
    }
  }

  lemma {:induction false} PrefixEncodes<R>(g: Graph<R>, name: string, fs: seq<Field<R>>, f: Field<R>, vals: seq<Value>)
    requires EncodeFields(g, name, fs, vals).err == None && EncodeField(g, name, NoNote, f, vals).err == None
    ensures EncodeFields(g, name, fs + [f], vals).err == None
    decreases |fs|
  {
    hide EncodeField;
    if fs == [] {
      assert (fs + [f])[1..] == [];
    } else {
      assert (fs + [f])[1..] == fs[1..] + [f];
      PrefixEncodes(g, name, fs[1..], f, vals);
    }
  }

  lemma StructFails<R>(g: Graph<R>, r: R, v: Value)
    requires Target(g, r).StructCodec? && Encode(g, r, v).err.Some?
    ensures var e := Encode(g, r, v).err.value;
      FailsAt(g, r, v, PathOf(e), UnderOf(e)) && !UnderOf(e).FieldError?
    decreases v, 1
  {
    hide EncodeField, FieldFails, EncodePrim;
    var n := Target(g, r);
    if v.VRec? && |v.fields| == n.width {
      assert n.fields[0..] == n.fields && n.fields[..0] == [];
      assert EncodeFields(g, n.name, [], v.fields) == Done([]);
      StructErrors(g, n.name, n.fields, 0, v.fields);
    }
  }

  lemma UnionErrors<R>(g: Graph<R>, r: R, v: Value)
    requires Target(g, r).UnionCodec? && Encode(g, r, v).err.Some?
    ensures var e := Encode(g, r, v).err.value;
      FailsAt(g, r, v, PathOf(e), UnderOf(e)) && !UnderOf(e).FieldError?
    decreases v, 1
  {
    hide EncodeField, FieldFails, EncodePrim;
    var n := Target(g, r);
    if v.VRec? && |v.fields| == n.width && n.switch.index < n.width {
      if EncodeField(g, n.name, AtSwitch, n.switch, v.fields).err.Some? {
        FieldErrors(g, n.name, AtSwitch, n.switch, v.fields);
      } else if SwitchKey(n.kind, v.fields[n.switch.index]).Some? {
        var key := SwitchKey(n.kind, v.fields[n.switch.index]).value;
        var arm := Arm(n.cases, n.default, key);
        if arm in n.body { FieldErrors(g, n.name, AtArm(key), n.body[arm], v.fields); }
      }
    }
  }

  // ---------------------------------------------------------------- decoding

  /** Decoding `input` with codec `r` fails with `under` at the end of `path`, everything before the failing part
      having been decoded. */
  ghost predicate ReadFailsAt<R>(g: Graph<R>, r: R, input: seq<byte>, depth: nat, path: seq<PathStep>, under: Error)
    decreases depth, if Target(g, r).OptCodec? then 3 else 2
  {
    if IsComposite(Target(g, r)) && depth == 0 then path == [] && under == TooDeep else
    match Target(g, r)
    case OptCodec(elem) =>
      (match DecodeBool(input)
       case Err(e) => path == [] && under == e
       case Ok((nonNil, rest)) =>
         nonNil && if Target(g, elem).OptCodec? then path == [] && under == IllTyped
                   else ReadFailsAt(g, elem, rest, depth, path, under))
    case PtrCodec(elem) => ReadFailsAt(g, elem, input, depth - 1, path, under)
    case ArrayCodec(count, elem) => ItemReadFails(g, elem, elem, count, input, depth - 1, path, under)
    case SliceCodec(max, elem) => CountedReadFails(g, max, elem, elem, 1, input, depth - 1, path, under)
    case MapCodec(max, key, elem) => CountedReadFails(g, max, key, elem, 2, input, depth - 1, path, under)
    case StructCodec(name, width, fields) => SomeFieldReadFails(g, name, width, fields, input, depth - 1, path, under)
    case UnionCodec(name, width, sw, kind, body, cases, default) =>
      FieldReadFails(g, name, AtSwitch, width, sw, input, depth - 1, path, under)
      || (match Decode(g, sw.codec, input, depth - 1)
          case Err(_) => false
          case Ok((v, more)) =>
            sw.index < width &&
            match SwitchKey(kind, v)
            case None => path == [] && under == IllTyped
            case Some(key) =>
              var arm := Arm(cases, default, key);
              if arm in body then FieldReadFails(g, name, AtArm(key), width, body[arm], more, depth - 1, path, under)
              else path == [PathStep(NameOf(name), "?", AtArm(arm))] && under == ArmUndefined)
    case _ => path == [] && Decode(g, r, input, depth) == Err(under)
  }

  /** The count cannot be read or is too large, or one of that many items, `per` to each, fails. */
  ghost predicate CountedReadFails<R>(g: Graph<R>, max: u32, a: R, b: R, per: nat, input: seq<byte>, depth: nat,
                                      path: seq<PathStep>, under: Error)
    decreases depth, 6
  {
    match DecodeWord(input)
    case Err(e) => path == [] && under == e
    case Ok((l, more)) =>
      if l > max then path == [] && under == LengthError(l, max)
      else ItemReadFails(g, a, b, per * l, more, depth, path, under)
  }

  /** Some item is the first to fail. */
  ghost predicate ItemReadFails<R>(g: Graph<R>, a: R, b: R, n: nat, input: seq<byte>, depth: nat, path: seq<PathStep>,
                                   under: Error)
    decreases depth, 5, n
  {
    n > 0 && (ReadFailsAt(g, a, input, depth, path, under)
              || (Decode(g, a, input, depth).Ok?
                  && ItemReadFails(g, b, a, n - 1, Decode(g, a, input, depth).value.1, depth, path, under)))
  }

  /** The field fails, and is the first step of the path. */
  ghost predicate FieldReadFails<R>(g: Graph<R>, owner: string, note: Note, width: nat, f: Field<R>, input: seq<byte>,
                                    depth: nat, path: seq<PathStep>, under: Error)
    decreases depth, 4
  {
    if f.index >= width then path == [] && under == IllTyped
    else path != [] && path[0] == PathStep(NameOf(owner), f.name, note)
         && ReadFailsAt(g, f.codec, input, depth, path[1..], under)
  }

  /** Some field is the first to fail. */
  ghost predicate SomeFieldReadFails<R>(g: Graph<R>, owner: string, width: nat, fields: seq<Field<R>>, input: seq<byte>,
                                        depth: nat, path: seq<PathStep>, under: Error)
    decreases depth, 5, |fields|
  {
    fields != []
    && (FieldReadFails(g, owner, NoNote, width, fields[0], input, depth, path, under)
        || (fields[0].index < width && Decode(g, fields[0].codec, input, depth).Ok?
            && SomeFieldReadFails(g, owner, width, fields[1..], Decode(g, fields[0].codec, input, depth).value.1, depth,
                                  path, under)))
  }

  /** Every decoding error tells where it arose, and its cause is not itself a field error. */
  lemma {:induction false} ReadErrorsNameTheirPlace<R>(g: Graph<R>, r: R, input: seq<byte>, depth: nat)
    requires Decode(g, r, input, depth).Err?
    ensures var e := Decode(g, r, input, depth).error;
      ReadFailsAt(g, r, input, depth, PathOf(e), UnderOf(e)) && !UnderOf(e).FieldError?
    decreases depth, if Target(g, r).OptCodec? then 3 else 2
  {
    hide DecodePrim, DecodeItems, DecodeFields, DecodeField, DecodeFixed, DecodeOpaque, DecodeWord, DecodeBool, Merge;
    hide ItemReadFails, CountedReadFails, FieldReadFails, SomeFieldReadFails;
    var n := Target(g, r);
    if IsComposite(n) && depth == 0 {
    } else if n.OptCodec? {
      OptReadErrors(g, r, input, depth);
    } else if n.PtrCodec? {
      ReadErrorsNameTheirPlace(g, n.elem, input, depth - 1);
    } else if n.ArrayCodec? {
      ItemReadErrors(g, n.elem, n.elem, n.count, input, depth - 1);
    } else if n.SliceCodec? || n.MapCodec? {
      CountedReadErrors(g, r, input, depth);
    } else if n.StructCodec? {
      FieldsReadErrors(g, n.name, n.fields, Untouched(n.width), input, depth - 1);
    } else if n.UnionCodec? {
      UnionReadErrors(g, r, input, depth);
    } else {
      LeafReadErrors(g, n, input, depth);
    }
  }

  lemma LeafReadErrors<R>(g: Graph<R>, n: Node<R>, input: seq<byte>, depth: nat)
    requires !IsComposite(n) && !n.OptCodec? && DecodeBy(g, n, input, depth).Err?
    ensures !DecodeBy(g, n, input, depth).error.FieldError?
  {
  }

  lemma WordErrors(input: seq<byte>)
    ensures DecodeWord(input).Err? ==> !DecodeWord(input).error.FieldError?
    ensures DecodeBool(input).Err? ==> !DecodeBool(input).error.FieldError?
  {
  }

  lemma {:induction false} OptReadErrors<R>(g: Graph<R>, r: R, input: seq<byte>, depth: nat)
    requires Target(g, r).OptCodec? && Decode(g, r, input, depth).Err?
    ensures var e := Decode(g, r, input, depth).error;
      ReadFailsAt(g, r, input, depth, PathOf(e), UnderOf(e)) && !UnderOf(e).FieldError?
    decreases depth, 3, 0
  {
    hide DecodeBool;
    WordErrors(input);
    var elem, b := Target(g, r).elem, DecodeBool(input);
    if b.Ok? && b.value.0 && !Target(g, elem).OptCodec? { ReadErrorsNameTheirPlace(g, elem, b.value.1, depth); }
  }

  lemma {:induction false} CountedReadErrors<R>(g: Graph<R>, r: R, input: seq<byte>, depth: nat)
    requires (Target(g, r).SliceCodec? || Target(g, r).MapCodec?) && depth > 0 && Decode(g, r, input, depth).Err?
    ensures var e := Decode(g, r, input, depth).error;
      ReadFailsAt(g, r, input, depth, PathOf(e), UnderOf(e)) && !UnderOf(e).FieldError?
    decreases depth, 0
  {
    hide DecodeItems, DecodeWord, ItemReadFails, Merge;
    WordErrors(input);
    var n, w := Target(g, r), DecodeWord(input);
    if w.Ok? && w.value.0 <= n.max {
      var l: nat, more := w.value.0, w.value.1;
      if n.SliceCodec? {
        assert 1 * l == l;
        ItemReadErrors(g, n.elem, n.elem, l, more, depth - 1);
      } else {
        ItemReadErrors(g, n.key, n.elem, 2 * l, more, depth - 1);
      }
    }
  }

  lemma {:induction false} ItemReadErrors<R>(g: Graph<R>, a: R, b: R, n: nat, input: seq<byte>, depth: nat)
    requires DecodeItems(g, a, b, n, input, depth).Err?
    ensures var e := DecodeItems(g, a, b, n, input, depth).error;
      ItemReadFails(g, a, b, n, input, depth, PathOf(e), UnderOf(e)) && !UnderOf(e).FieldError?
    decreases depth, 5, n
  {
    hide Decode, ReadFailsAt;
    var first := Decode(g, a, input, depth);
    if first.Err? {
      ReadErrorsNameTheirPlace(g, a, input, depth);
    } else {
      ItemReadErrors(g, b, a, n - 1, first.value.1, depth);
    }
  }

  lemma FieldReadErrors<R>(g: Graph<R>, owner: string, note: Note, f: Field<R>, vals: seq<Value>, input: seq<byte>,
                           depth: nat)
    requires DecodeField(g, owner, note, f, vals, input, depth).Err?
    ensures var e := DecodeField(g, owner, note, f, vals, input, depth).error;
      FieldReadFails(g, owner, note, |vals|, f, input, depth, PathOf(e), UnderOf(e)) && !UnderOf(e).FieldError?
    decreases depth, 4
  {
    hide Decode, ReadFailsAt;
    if f.index < |vals| {
      ReadErrorsNameTheirPlace(g, f.codec, input, depth);
      StepAdded(Decode(g, f.codec, input, depth).error, PathStep(owner, f.name, note));
    }
  }

  lemma {:induction false} FieldsReadErrors<R>(g: Graph<R>, owner: string, fields: seq<Field<R>>, vals: seq<Value>,
                                               input: seq<byte>, depth: nat)
    requires DecodeFields(g, owner, fields, vals, input, depth).Err?
    ensures var e := DecodeFields(g, owner, fields, vals, input, depth).error;
      && SomeFieldReadFails(g, owner, |vals|, fields, input, depth, PathOf(e), UnderOf(e))
      && !UnderOf(e).FieldError?
    decreases depth, 5, |fields|
  {
    hide Decode, FieldReadFails;
    var first := DecodeField(g, owner, NoNote, fields[0], vals, input, depth);
    if first.Err? {
      FieldReadErrors(g, owner, NoNote, fields[0], vals, input, depth);
    } else {
      FieldsReadErrors(g, owner, fields[1..], first.value.0, first.value.1, depth);
    }
  }

  lemma UnionReadErrors<R>(g: Graph<R>, r: R, input: seq<byte>, depth: nat)
    requires Target(g, r).UnionCodec? && depth > 0 && Decode(g, r, input, depth).Err?
    ensures var e := Decode(g, r, input, depth).error;
      ReadFailsAt(g, r, input, depth, PathOf(e), UnderOf(e)) && !UnderOf(e).FieldError?
    decreases depth, 1
  {
    hide FieldReadFails, DecodePrim, DecodeItems, DecodeFields, Merge;
    var n := Target(g, r);
    var head := DecodeField(g, n.name, AtSwitch, n.switch, Untouched(n.width), input, depth - 1);
    if head.Err? {
      FieldReadErrors(g, n.name, AtSwitch, n.switch, Untouched(n.width), input, depth - 1);
    } else {
      var (vals, more) := head.value;
      var key := SwitchKey(n.kind, vals[n.switch.index]);
      if key.Some? {
        var arm := Arm(n.cases, n.default, key.value);
        if arm in n.body { FieldReadErrors(g, n.name, AtArm(key.value), n.body[arm], vals, more, depth - 1); }
      }
    }
  }
}
