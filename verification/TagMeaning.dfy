/** What the parts of a field's tag do to what is written and read: `opt`, `opaque`, `len` and `maxlen`, and none. */
module TagMeaning {
  import opened Words
  import opened Types
  import opened Tags
  import opened TagParser
  import opened Spelling
  import opened Codecs
  import opened Structs
  import opened Shapes
  import opened Compiler
  import opened Meaning

  // ---------------------------------------------------------------- levels

  /** What is left of the tag one level down says what is left of the parts. */
  lemma SpellsBelow(tbl: Table, t: TypeId, parts: seq<Part>, tag: Tag)
    requires Spells(tbl, t, parts, tag) && Descends(Lookup(tbl, t)) && (parts != [] ==> !parts[0].Opaque?)
    ensures var below := if parts == [] then [] else parts[1..];
      Spells(tbl, Lookup(tbl, t).elem, below, Tail(tag))
  {
    hide SpellsPart, Under;
    if parts != [] {
      var e, below := Lookup(tbl, t).elem, parts[1..];
      forall i | 0 <= i < |below| ensures SpellsPart(TypeAt(tbl, e, i), below[i], Tail(tag), i) {
        UnderStep(tbl, t, i);
        assert SpellsPart(TypeAt(tbl, t, i + 1), parts[i + 1], tag, i + 1);
        PartBelow(TypeAt(tbl, e, i), below[i], tag, i);
      }
      SpelledBelow(tbl, t, parts);
    }
  }

  lemma PartBelow(ty: Type, p: Part, tag: Tag, i: nat)
    requires SpellsPart(ty, p, tag, i + 1)
    ensures SpellsPart(ty, p, Tail(tag), i)
  {
    assert EntryAt(Tail(tag), i) == EntryAt(tag, i + 1) && EntryAt(Tail(tag), i + 1) == EntryAt(tag, i + 2);
  }

  lemma SpelledBelow(tbl: Table, t: TypeId, parts: seq<Part>)
    requires parts != [] && Descends(Lookup(tbl, t)) && !parts[0].Opaque?
    ensures Spelled(tbl, t, parts) == 1 + Spelled(tbl, Lookup(tbl, t).elem, parts[1..])
  {
    if |parts| > 1 { SpelledStep(tbl, t, parts); }
  }

  lemma FirstEntry(tbl: Table, t: TypeId, parts: seq<Part>, tag: Tag)
    requires Spells(tbl, t, parts, tag)
    ensures KindOf(tag) == EntryAt(tag, 0).k && KindOf(Tail(tag)) == EntryAt(tag, 1).k
    ensures if parts == [] then tag == [] else SpellsPart(Lookup(tbl, t), parts[0], tag, 0)
    ensures |parts| > 1 ==> SpellsPart(TypeAt(tbl, t, 1), parts[1], tag, 1)
  {
    if parts != [] { assert SpellsPart(TypeAt(tbl, t, 0), parts[0], tag, 0); }
  }

  /** The first part, if any, is blank. */
  predicate Unmarked(parts: seq<Part>) { parts == [] || parts[0].Blank? }

  // ---------------------------------------------------------------- pointers

  /** Under `opt` a nil pointer is the word 0, any other the word 1 and what it points to. */
  lemma OptWrites(tbl: Table, t: TypeId, parts: seq<Part>, tag: Tag, w: Value)
    requires Spells(tbl, t, parts, tag) && Lookup(tbl, t).Pointer? && parts != [] && parts[0].Opt?
    ensures Spells(tbl, Lookup(tbl, t).elem, parts[1..], Tail(tag))
    ensures TypedEncode(tbl, t, tag, VNil) == Done([0, 0, 0, 0])
    ensures TypedEncode(tbl, t, tag, VRef(w))
         == After([0, 0, 0, 1], TypedEncode(tbl, Lookup(tbl, t).elem, Tail(tag), w))
  {
    hide Spells, SpellsPart;
    SpellsBelow(tbl, t, parts, tag);
    FirstEntry(tbl, t, parts, tag);
    assert KindOf(tag) == 2 by { OptEntry(Lookup(tbl, t), parts[0], tag); }
    ZeroAndOne();
    OptUnfolds(tbl, t, tag, w);
  }

  lemma OptUnfolds(tbl: Table, t: TypeId, tag: Tag, w: Value)
    requires KindOf(tag) == 2 && Lookup(tbl, t).Pointer?
    ensures TypedEncode(tbl, t, tag, VNil) == Done(WordBytes(0))
    ensures TypedEncode(tbl, t, tag, VRef(w))
         == After(WordBytes(1), TypedEncode(tbl, Lookup(tbl, t).elem, Tail(tag), w))
  {
    hide WordBytes;
  }

  lemma OptEntry(ty: Type, p: Part, tag: Tag)
    requires SpellsPart(ty, p, tag, 0)
    ensures p.Opt? <==> EntryAt(tag, 0).k == 2
  {
  }

  lemma ZeroAndOne()
    ensures WordBytes(0) == [0, 0, 0, 0] && WordBytes(1) == [0, 0, 0, 1]
  {
  }

  /** And it is read so; any other word is an error. */
  lemma OptReads(tbl: Table, t: TypeId, parts: seq<Part>, tag: Tag, input: seq<byte>, depth: nat)
    requires Spells(tbl, t, parts, tag) && Lookup(tbl, t).Pointer? && parts != [] && parts[0].Opt?
    requires |input| >= 4 && depth > 0
    ensures var out := TypedDecode(tbl, t, tag, input, depth);
      if input[..4] == [0, 0, 0, 0] then out == Ok((VNil, input[4..]))
      else if input[..4] == [0, 0, 0, 1] then
        match TypedDecode(tbl, Lookup(tbl, t).elem, Tail(tag), input[4..], depth - 1)
        case Err(e) => out == Err(e)
        case Ok((v, rest)) => out == Ok((VRef(v), rest))
      else out == Err(InvalidValue)
  {
    hide Spells, SpellsPart;
    FirstEntry(tbl, t, parts, tag);
    assert KindOf(tag) == 2 by { OptEntry(Lookup(tbl, t), parts[0], tag); }
    BoolWord(input);
  }

  lemma BoolWord(input: seq<byte>)
    requires |input| >= 4
    ensures DecodeBool(input) == if input[..4] == [0, 0, 0, 0] then Ok((false, input[4..]))
                                 else if input[..4] == [0, 0, 0, 1] then Ok((true, input[4..])) else Err(InvalidValue)
  {
    WordBytesAt(input[..4]);
    ZeroAndOne();
  }

  /** Without it a nil pointer cannot be written, and any other is what it points to. */
  lemma PointerWrites(tbl: Table, t: TypeId, parts: seq<Part>, tag: Tag, w: Value)
    requires Spells(tbl, t, parts, tag) && Lookup(tbl, t).Pointer? && Unmarked(parts)
    ensures Spells(tbl, Lookup(tbl, t).elem, if parts == [] then [] else parts[1..], Tail(tag))
    ensures TypedEncode(tbl, t, tag, VNil) == Failed(NilPointer)
    ensures TypedEncode(tbl, t, tag, VRef(w)) == TypedEncode(tbl, Lookup(tbl, t).elem, Tail(tag), w)
  {
    SpellsBelow(tbl, t, parts, tag);
    FirstEntry(tbl, t, parts, tag);
  }

  // ---------------------------------------------------------------- lengths

  /** The greatest length a tag allows: what its `maxlen` says, else the greatest 32-bit number. */
  predicate Bounds(tag: Tag, max: u32)
  {
    EntryAt(tag, 0) == Entry(0x87, [max]) || (EntryAt(tag, 0) == Entry(0, []) && max == 4294967295)
  }

  function Bound(parts: seq<Part>): u32
  {
    if parts != [] && parts[0].MaxLen? then parts[0].max else 4294967295
  }

  /** `maxlen:n` sets the bound to n; without it there is none below 2 to the 32. */
  lemma BoundSpelled(tbl: Table, t: TypeId, parts: seq<Part>, tag: Tag)
    requires Spells(tbl, t, parts, tag)
    requires Unmarked(parts) || parts[0].MaxLen? || (parts[0].Opaque? && Lookup(tbl, t).Slice?)
    ensures Bounds(tag, Bound(parts))
  {
    FirstEntry(tbl, t, parts, tag);
  }

  lemma LimitIs(tag: Tag, max: u32)
    requires Bounds(tag, max)
    ensures Limit(tag) == max && (KindOf(tag) == NOOP || KindOf(tag) == MAX_LEN)
    ensures KindOf(tag) != LEN && KindOf(tag) != OPT
  {
  }

  /** The bound is that of the compiled codec. */
  lemma ShapeBounded(tbl: Table, key: Key, max: u32)
    requires Bounds(key.tag, max)
    ensures var n := ShapeOf(tbl, key);
      match Lookup(tbl, key.t)
      case Slice(_) => (n.SliceCodec? || n.OpaqueSliceCodec?) && n.max == max
      case Map(_, _) => n.MapCodec? && n.max == max
      case String => n == if Tail(key.tag) == [] then VarStringCodec(max) else ErrorCodec(StringTags)
      case _ => true
  {
    LimitIs(key.tag, max);
  }

  /** A string longer than the bound is refused, with the two lengths; any other is its length, its bytes and
      padding. */
  lemma StringWrites(tbl: Table, t: TypeId, tag: Tag, max: u32, s: seq<byte>)
    requires Lookup(tbl, t).String? && Bounds(tag, max) && Tail(tag) == []
    ensures TypedEncode(tbl, t, tag, VStr(s))
         == if |s| > max then Failed(LengthError(|s|, max)) else Done(WordBytes(|s|) + Padded(s))
  {
    LimitIs(tag, max);
  }

  lemma StringReads(tbl: Table, t: TypeId, tag: Tag, max: u32, input: seq<byte>, depth: nat)
    requires Lookup(tbl, t).String? && Bounds(tag, max) && Tail(tag) == [] && |input| >= 4
    ensures var l := WordAt(input[..4]); var out := TypedDecode(tbl, t, tag, input, depth);
      if l > max then out == Err(LengthError(l, max)) else out.Ok? && out.value.0.VStr? && |out.value.0.s| == l
  {
    LimitIs(tag, max);
    OpaqueBounded(max, input);
  }

  lemma OpaqueBounded(max: u32, input: seq<byte>)
    requires |input| >= 4
    ensures var l := WordAt(input[..4]); var out := DecodeOpaque(max, input);
      if l > max then out == Err(LengthError(l, max)) else out.Ok? && |out.value.0| == l
  {
  }

  /** Under `len:n` a string is written and read without its length, which must be n. */
  lemma FixedStringWrites(tbl: Table, t: TypeId, parts: seq<Part>, tag: Tag, s: seq<byte>, input: seq<byte>, depth: nat)
    requires Lookup(tbl, t).String? && Spells(tbl, t, parts, tag) && |parts| == 1 && parts[0].Len?
    ensures TypedEncode(tbl, t, tag, VStr(s))
         == if |s| == parts[0].len then Done(Padded(s)) else Failed(LengthIncorrect)
    ensures var n: nat := parts[0].len; var out := TypedDecode(tbl, t, tag, input, depth);
      if |input| >= RoundUp(n) then out == Ok((VStr(input[..n]), input[RoundUp(n)..])) else out.Err?
  {
    FirstEntry(tbl, t, parts, tag);
    PaddingAgrees(parts[0].len);
  }

  /** The elements of a slice or the entries of a map, a key and an element each. */
  function Count(ty: Type, v: Value): nat
  {
    if ty.Map? && v.VDict? then |v.kv| / 2 else if v.VList? then |v.elems| else 0
  }

  predicate CountsAs(ty: Type, v: Value) { if ty.Map? then v.VDict? && |v.kv| % 2 == 0 else v.VList? }

  /** A slice or map with more in it than the bound is refused, with nothing written; any other starts with its
      count. */
  lemma CountWrites(tbl: Table, t: TypeId, tag: Tag, max: u32, v: Value)
    requires (Lookup(tbl, t).Slice? || Lookup(tbl, t).Map?) && Bounds(tag, max) && CountsAs(Lookup(tbl, t), v)
    requires KindOf(Tail(tag)) == OPAQUE && Lookup(tbl, t).Slice? ==> AllBytes(v.elems)
    ensures var n, out := Count(Lookup(tbl, t), v), TypedEncode(tbl, t, tag, v);
      if n > max then out == Failed(LengthError(n, max)) else |out.bytes| >= 4 && out.bytes[..4] == WordBytes(n)
  {
    hide WordBytes, TypedItems;
    LimitIs(tag, max);
  }

  /** And one whose count is larger is not read; any other is. */
  lemma CountReads(tbl: Table, t: TypeId, tag: Tag, max: u32, input: seq<byte>, depth: nat)
    requires (Lookup(tbl, t).Slice? || Lookup(tbl, t).Map?) && Bounds(tag, max) && |input| >= 4 && depth > 0
    ensures var ty := Lookup(tbl, t); var e := Key(ty.elem, Tail(tag));
      var l: nat := WordAt(input[..4]); var out := TypedDecode(tbl, t, tag, input, depth);
      if l > max then out == Err(LengthError(l, max))
      else if ty.Slice? && EntryAt(tag, 1) == Entry(3, []) then
        out.Ok? && out.value.0.VList? && |out.value.0.elems| == l
      else if ty.Slice? && EntryAt(tag, 1).k != 3 then
        out == OnValue(TypedReadItems(tbl, e, e, l, input[4..], depth - 1), vs => VList(vs))
      else if ty.Map? then
        var items := TypedReadItems(tbl, Key(ty.key, []), e, 2 * l, input[4..], depth - 1);
        if items.Err? then out == Err(items.error) else out.Ok? && out.value.1 == items.value.1
      else true
  {
    hide TypedReadItems, Merge;
    LimitIs(tag, max);
    if Lookup(tbl, t).Slice? { OpaqueBounded(max, input); }
  }

  // ---------------------------------------------------------------- opaque

  /** Bytes under `opaque` or `/opaque` are written as they are, padded: a slice behind its length, an array
      without. */
  lemma OpaqueWrites(tbl: Table, t: TypeId, parts: seq<Part>, tag: Tag, vs: seq<Value>)
    requires Spells(tbl, t, parts, tag) && AllBytes(vs)
    requires parts == [Opaque] || (|parts| == 2 && (parts[0].Blank? || parts[0].MaxLen?) && parts[1].Opaque?)
    requires IsBytes(tbl, Lookup(tbl, t)) && (Lookup(tbl, t).Array? ==> !parts[0].MaxLen? && |vs| == Lookup(tbl, t).len)
    ensures var out := TypedEncode(tbl, t, tag, VList(vs));
      if Lookup(tbl, t).Array? then out == Done(Padded(ToBytes(vs)))
      else if |vs| > Bound(parts) then out == Failed(LengthError(|vs|, Bound(parts)))
      else out == Done(WordBytes(|vs|) + Padded(ToBytes(vs)))
  {
    hide WordBytes, Padded;
    FirstEntry(tbl, t, parts, tag);
    OpaqueBelow(tbl, t, parts, tag);
    if Lookup(tbl, t).Slice? {
      BoundSpelled(tbl, t, parts, tag);
      LimitIs(tag, Bound(parts));
    }
  }

  lemma OpaqueBelow(tbl: Table, t: TypeId, parts: seq<Part>, tag: Tag)
    requires Spells(tbl, t, parts, tag) && IsBytes(tbl, Lookup(tbl, t))
    requires parts == [Opaque] || (|parts| == 2 && (parts[0].Blank? || parts[0].MaxLen?) && parts[1].Opaque?)
    ensures EntryAt(tag, 1) == Entry(3, []) && KindOf(Tail(tag)) == 3
  {
    FirstEntry(tbl, t, parts, tag);
    if |parts| == 2 { UnderStep(tbl, t, 0); }
  }
}
