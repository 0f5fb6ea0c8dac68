/** Codec objects as nodes of a graph, finite value trees, and what encoding and decoding do:
    the reflective (`nounsafe`) form of every codec. */
module Codecs {
  import opened Words
  import Types

  type Prim = Types.Prim

  // ---------------------------------------------------------------- values

  /** A finite Go value. Floats are their bit patterns; a map is its keys and values alternating in
      the order one iteration yields them; VUnset, in a decoder's result, marks a place the
      decoder does not touch, which keeps whatever the target held. */
  datatype Value =
    | VBool(b: bool)
    | VNum(n: int)
    | VPair(re: int, im: int)
    | VStr(s: seq<byte>)
    | VList(elems: seq<Value>)
    | VNil
    | VRef(target: Value)
    | VRec(fields: seq<Value>)
    | VDict(kv: seq<Value>)
    | VUnset

  // ---------------------------------------------------------------- codecs

  datatype SwitchKind = BoolSwitch | IntSwitch | UintSwitch

  datatype Field<R> = Field(name: string, index: nat, codec: R)

  /** One codec object; R is how codecs refer to each other. */
  datatype Node<R> =
    | ErrorCodec(why: BuildError)
    | PrimCodec(prim: Prim)
    | OptCodec(elem: R)
    | PtrCodec(elem: R)
    | FixedStringCodec(len: u32)
    | VarStringCodec(max: u32)
    | OpaqueArrayCodec(count: nat)
    | ArrayCodec(count: nat, elem: R)
    | OpaqueSliceCodec(max: u32)
    | SliceCodec(max: u32, elem: R)
    | MapCodec(max: u32, key: R, elem: R)
    | StructCodec(name: string, width: nat, fields: seq<Field<R>>)
    | UnionCodec(name: string, width: nat, switch: Field<R>, kind: SwitchKind,
                 body: map<nat, Field<R>>, cases: map<u32, nat>, default: int)
    | DeferredCodec(final: Option<R>)

  type Graph<R> = map<R, Node<R>>

  datatype BuildError =
    | InvalidType | InvalidTag | StringTags
    | FieldTag(field: string, tagError: Types.TagError)
    | DuplicateCase(value: u32) | DuplicateDefault

  // ---------------------------------------------------------------- errors

  datatype Note = NoNote | AtSwitch | AtArm(arm: int)

  datatype PathStep = PathStep(owner: string, field: string, note: Note)

  datatype Error =
    | LengthError(actual: nat, max: nat)
    | LengthIncorrect | ArmUndefined | InvalidValue | NilPointer
    | EndOfInput | UnexpectedEnd
    | Unsupported(why: BuildError)
    | FieldError(under: Error, path: seq<PathStep>)
    | IllTyped   // a value of another type than the codec's: impossible in Go
    | Blocked    // an unresolved deferred codec: the caller would wait
    | TooDeep    // more nested calls than the stack bound given

  function UnderOf(e: Error): Error { if e.FieldError? then e.under else e }

  /** How a path names a struct: Go gives anonymous types no name. */
  function NameOf(owner: string): string { if owner == "" then "<anonymous>" else owner }

  /** Adds one step to the front of an error's path. */
  function WithFieldError(e: Error, s: PathStep): (r: Error)
    ensures r.FieldError? && r.under == UnderOf(e)
    ensures |r.path| == 1 + if e.FieldError? then |e.path| else 0
    ensures r.path[0].owner == NameOf(s.owner) && r.path[0].field == s.field && r.path[0].note == s.note
    ensures e.FieldError? ==> r.path[1..] == e.path
  {
    var step := if s.owner == "" then s.(owner := "<anonymous>") else s;
    if e.FieldError? then FieldError(e.under, [step] + e.path) else FieldError(e, [step])
  }

  // ---------------------------------------------------------------- leaves

  /** What an encode call wrote, and the error that stopped it if any. */
  datatype Written = Written(bytes: seq<byte>, err: Option<Error>)

  function Done(bytes: seq<byte>): Written { Written(bytes, None) }

  function Failed(e: Error): Written { Written([], Some(e)) }

  function After(first: seq<byte>, w: Written): Written { Written(first + w.bytes, w.err) }

  predicate InRange(p: Prim, n: int)
  {
    match p
    case Int8 => -0x80 <= n < 0x80
    case Int16 => -0x8000 <= n < 0x8000
    case Int32 => -0x8000_0000 <= n < 0x8000_0000
    case Uint8 => 0 <= n < 0x100
    case Uint16 => 0 <= n < 0x1_0000
    case Hyper => -0x8000_0000_0000_0000 <= n < 0x8000_0000_0000_0000
    case Uhyper => 0 <= n < 0x1_0000_0000_0000_0000
    case Double => 0 <= n < 0x1_0000_0000_0000_0000
    case Complex128 => 0 <= n < 0x1_0000_0000_0000_0000
    case _ => 0 <= n < 0x1_0000_0000
  }

  predicate IsHyper(p: Prim) { p.Hyper? || p.Uhyper? || p.Double? }

  predicate IsComplex(p: Prim) { p.Complex64? || p.Complex128? }

  /** The values a primitive codec can be handed. */
  predicate PrimTyped(p: Prim, v: Value)
  {
    if p.Bool? then v.VBool?
    else if IsComplex(p) then v.VPair? && InRange(p, v.re) && InRange(p, v.im)
    else v.VNum? && InRange(p, v.n)
  }

  function EncodePrim(p: Prim, v: Value): (b: seq<byte>)
    requires PrimTyped(p, v)
  {
    if p.Bool? then WordBytes(if v.b then 1 else 0)
    else if p.Complex64? then WordBytes(v.re) + WordBytes(v.im)
    else if p.Complex128? then HyperBytes(v.re) + HyperBytes(v.im)
    else if IsHyper(p) then HyperBytes(Wrap64(v.n))
    else WordBytes(Wrap32(v.n))
  }

  /** Go's narrowing of a decoded word to the field's integer type. */
  function Narrow(p: Prim, w: u32): int
  {
    match p
    case Int8 => Signed(w, 0x100)
    case Int16 => Signed(w, 0x1_0000)
    case Int32 => Signed(w, 0x1_0000_0000)
    case Uint8 => w % 0x100
    case Uint16 => w % 0x1_0000
    case _ => w
  }

  type Reading<T> = Result<(T, seq<byte>), Error>

  /** `io.ReadFull`: all n bytes, or an error. */
  function ReadFull(input: seq<byte>, n: nat): Reading<seq<byte>>
  {
    if |input| >= n then Ok((input[..n], input[n..]))
    else if input == [] then Err(EndOfInput)
    else Err(UnexpectedEnd)
  }

  function DecodeWord(input: seq<byte>): Reading<u32>
  {
    match ReadFull(input, 4)
    case Err(e) => Err(e)
    case Ok((b, rest)) => Ok((WordAt(b), rest))
  }

  function DecodeHyper(input: seq<byte>): Reading<u64>
  {
    match ReadFull(input, 8)
    case Err(e) => Err(e)
    case Ok((b, rest)) => Ok((HyperAt(b), rest))
  }

  function DecodeBool(input: seq<byte>): Reading<bool>
  {
    match DecodeWord(input)
    case Err(e) => Err(e)
    case Ok((w, rest)) =>
      if w == 0 then Ok((false, rest)) else if w == 1 then Ok((true, rest)) else Err(InvalidValue)
  }

  function DecodePrim(p: Prim, input: seq<byte>): Reading<Value>
  {
    if p.Bool? then
      match DecodeBool(input)
      case Err(e) => Err(e)
      case Ok((b, rest)) => Ok((VBool(b), rest))
    else if p.Complex64? then
      match DecodeWord(input)
      case Err(e) => Err(e)
      case Ok((re, more)) =>
        (match DecodeWord(more)
         case Err(e) => Err(e)
         case Ok((im, rest)) => Ok((VPair(re, im), rest)))
    else if p.Complex128? then
      match DecodeHyper(input)
      case Err(e) => Err(e)
      case Ok((re, more)) =>
        (match DecodeHyper(more)
         case Err(e) => Err(e)
         case Ok((im, rest)) => Ok((VPair(re, im), rest)))
    else if IsHyper(p) then
      match DecodeHyper(input)
      case Err(e) => Err(e)
      case Ok((h, rest)) => Ok((VNum(if p.Hyper? then Signed(h, 0x1_0000_0000_0000_0000) else h), rest))
    else
      match DecodeWord(input)
      case Err(e) => Err(e)
      case Ok((w, rest)) => Ok((VNum(Narrow(p, w)), rest))
  }

  // ---------------------------------------------------------------- opaque data and strings

  predicate AllBytes(vs: seq<Value>) { forall v :: v in vs ==> v.VNum? && 0 <= v.n < 0x100 }

  function ToBytes(vs: seq<Value>): (b: seq<byte>)
    requires AllBytes(vs)
    ensures |b| == |vs| && forall i :: 0 <= i < |vs| ==> b[i] == vs[i].n
  {
    if vs == [] then [] else [vs[0].n] + ToBytes(vs[1..])
  }

  function FromBytes(b: seq<byte>): (vs: seq<Value>)
    ensures |vs| == |b| && AllBytes(vs) && forall i :: 0 <= i < |b| ==> vs[i] == VNum(b[i])
  {
    if b == [] then [] else [VNum(b[0])] + FromBytes(b[1..])
  }

  function EncodeOpaque(bs: seq<byte>, max: u32): Written
  {
    if |bs| > max then Failed(LengthError(|bs|, max)) else Done(WordBytes(|bs|) + Padded(bs))
  }

  /** `DecodeFixedOpaque`: the body, then the padding, whose bytes are not looked at. */
  function DecodeFixed(len: nat, input: seq<byte>): Reading<seq<byte>>
  {
    match ReadFull(input, len)
    case Err(e) => Err(e)
    case Ok((body, more)) =>
      if PadLen(len) == 0 then Ok((body, more)) else
      match ReadFull(more, PadLen(len))
      case Err(e) => Err(e)
      case Ok((_, rest)) => Ok((body, rest))
  }

  /** `DecodeOpaque`: a body cut short is not an error; what is missing reads as zeros. */
  function DecodeOpaque(max: u32, input: seq<byte>): Reading<seq<byte>>
  {
    match DecodeWord(input)
    case Err(e) => Err(e)
    case Ok((l, rest)) =>
      if l == 0 then Ok(([], rest))
      else if l > max then Err(LengthError(l, max))
      else if |rest| >= RoundUp(l) then Ok((rest[..l], rest[RoundUp(l)..]))
      else Ok(((rest + Zeros(l))[..l], []))
  }

  // ---------------------------------------------------------------- following references

  /** The codec refers to `x`. */
  ghost predicate RefersTo<R>(n: Node<R>, x: R)
  {
    match n
    case OptCodec(r) => r == x
    case PtrCodec(r) => r == x
    case ArrayCodec(_, r) => r == x
    case SliceCodec(_, r) => r == x
    case MapCodec(_, r, e) => r == x || e == x
    case StructCodec(_, _, fields) => exists i :: 0 <= i < |fields| && fields[i].codec == x
    case UnionCodec(_, _, sw, _, body, _, _) => sw.codec == x || exists a :: a in body && body[a].codec == x
    case _ => false
  }

  /** The codec refers to codecs of `c` only. */
  ghost predicate RefersWithin<R>(n: Node<R>, c: set<R>)
  {
    match n
    case OptCodec(r) => r in c
    case PtrCodec(r) => r in c
    case ArrayCodec(_, r) => r in c
    case SliceCodec(_, r) => r in c
    case MapCodec(_, r, e) => r in c && e in c
    case StructCodec(_, _, fields) => forall f :: f in fields ==> f.codec in c
    case UnionCodec(_, _, sw, _, body, _, _) => sw.codec in c && forall a :: a in body ==> body[a].codec in c
    case _ => true
  }

  lemma RefersWithinIs<R(!new)>(n: Node<R>, c: set<R>)
    ensures RefersWithin(n, c) <==> forall x :: RefersTo(n, x) ==> x in c
  {
    if forall x :: RefersTo(n, x) ==> x in c {
      match n
      case OptCodec(r) => assert RefersTo(n, r);
      case PtrCodec(r) => assert RefersTo(n, r);
      case ArrayCodec(_, r) => assert RefersTo(n, r);
      case SliceCodec(_, r) => assert RefersTo(n, r);
      case MapCodec(_, r, e) => assert RefersTo(n, r) && RefersTo(n, e);
      case StructCodec(_, _, fields) =>
        forall f | f in fields ensures f.codec in c {
          var i :| 0 <= i < |fields| && fields[i] == f;
          assert RefersTo(n, fields[i].codec);
        }
      case UnionCodec(_, _, sw, _, body, _, _) =>
        assert RefersTo(n, sw.codec);
        forall a | a in body ensures body[a].codec in c { assert RefersTo(n, body[a].codec); }
      case _ =>
    }
  }

  /** The codec a call on `r` reaches: a resolved deferred codec stands for its real one. */
  function Target<R(==)>(g: Graph<R>, r: R): Node<R>
  {
    if r !in g then DeferredCodec(None)
    else if g[r].DeferredCodec? && g[r].final.Some? && g[r].final.value in g
            && !g[g[r].final.value].DeferredCodec? then g[g[r].final.value]
    else g[r]
  }

  /** The case key of a switch value, as the in-memory switch field gives it. */
  function SwitchKey(kind: SwitchKind, v: Value): Option<u32>
  {
    match kind
    case BoolSwitch => if v.VBool? then Some(if v.b then 1 else 0) else None
    case _ => if v.VNum? then Some(Wrap32(v.n)) else None
  }

  /** The index of the arm for a case key; -1 when there is none. */
  function Arm(cases: map<u32, nat>, default: int, key: u32): int
  {
    if key in cases then cases[key] else default
  }

  /** What an optional may hand its value to: optionals apply to pointers only. */
  predicate Pointerlike<R>(n: Node<R>) { n.PtrCodec? || n.ErrorCodec? || n.DeferredCodec? }

  /** The codec a union's switch of this kind has. */
  predicate SwitchFits(n: Node, kind: SwitchKind)
  {
    match n
    case PrimCodec(p) => (match kind case BoolSwitch => p.Bool? case IntSwitch => p.Int32? case UintSwitch => p.Uint32?)
    case ErrorCodec(_) => true
    case DeferredCodec(_) => true
    case _ => false
  }

  // ---------------------------------------------------------------- encoding

  function Encode<R(==)>(g: Graph<R>, r: R, v: Value): Written
    decreases v, 3
  {
    EncodeBy(g, Target(g, r), v)
  }

  function EncodeBy<R(==)>(g: Graph<R>, n: Node<R>, v: Value): Written
    decreases v, if n.OptCodec? then 2 else 1
  {
    match n
    case ErrorCodec(why) => Failed(Unsupported(why))
    case DeferredCodec(_) => Failed(Blocked)
    case PrimCodec(p) => if PrimTyped(p, v) then Done(EncodePrim(p, v)) else Failed(IllTyped)
    case OptCodec(elem) =>
      if v.VNil? then Done(WordBytes(0))
      else if v.VRef? && !Target(g, elem).OptCodec? then After(WordBytes(1), EncodeBy(g, Target(g, elem), v))
      else Failed(IllTyped)
    case PtrCodec(elem) =>
      if v.VNil? then Failed(NilPointer)
      else if v.VRef? then Encode(g, elem, v.target)
      else Failed(IllTyped)
    case FixedStringCodec(len) =>
      if !v.VStr? then Failed(IllTyped)
      else if |v.s| == len then Done(Padded(v.s))
      else Failed(LengthIncorrect)
    case VarStringCodec(max) =>
      if v.VStr? then EncodeOpaque(v.s, max) else Failed(IllTyped)
    case OpaqueArrayCodec(len) =>
      if v.VList? && |v.elems| == len && AllBytes(v.elems) then Done(Padded(ToBytes(v.elems))) else Failed(IllTyped)
    case OpaqueSliceCodec(max) =>
      if v.VList? && AllBytes(v.elems) then EncodeOpaque(ToBytes(v.elems), max) else Failed(IllTyped)
    case ArrayCodec(len, elem) =>
      if v.VList? && |v.elems| == len then EncodeItems(g, elem, elem, v.elems) else Failed(IllTyped)
    case SliceCodec(max, elem) =>
      if !v.VList? then Failed(IllTyped)
      else if |v.elems| > max then Failed(LengthError(|v.elems|, max))
      else After(WordBytes(|v.elems|), EncodeItems(g, elem, elem, v.elems))
    case MapCodec(max, key, elem) =>
      if !(v.VDict? && |v.kv| % 2 == 0) then Failed(IllTyped)
      else if |v.kv| / 2 > max then Failed(LengthError(|v.kv| / 2, max))
      else After(WordBytes(|v.kv| / 2), EncodeItems(g, key, elem, v.kv))
    case StructCodec(name, width, fields) =>
      if v.VRec? && |v.fields| == width then EncodeFields(g, name, fields, v.fields) else Failed(IllTyped)
    case UnionCodec(name, width, sw, kind, body, cases, default) =>
      if !(v.VRec? && |v.fields| == width && sw.index < width) then Failed(IllTyped) else
      var head := EncodeField(g, name, AtSwitch, sw, v.fields);
      if head.err.Some? then head else
      match SwitchKey(kind, v.fields[sw.index])
      case None => Written(head.bytes, Some(IllTyped))
      case Some(key) =>
        var arm := Arm(cases, default, key);
        if arm !in body then
          Written(head.bytes, Some(WithFieldError(ArmUndefined, PathStep(name, "?", AtArm(arm)))))
        else After(head.bytes, EncodeField(g, name, AtArm(key), body[arm], v.fields))
  }

  /** Encodes values in order, with codecs `a` and `b` by turns, stopping at the first error. */
  function EncodeItems<R(==)>(g: Graph<R>, a: R, b: R, vs: seq<Value>): Written
    decreases vs, 4
  {
    if vs == [] then Done([]) else
    var first := Encode(g, a, vs[0]);
    if first.err.Some? then first else After(first.bytes, EncodeItems(g, b, a, vs[1..]))
  }

  function EncodeField<R(==)>(g: Graph<R>, name: string, note: Note, f: Field<R>, vals: seq<Value>): Written
    decreases vals, 0
  {
    if f.index >= |vals| then Failed(IllTyped) else
    var w := Encode(g, f.codec, vals[f.index]);
    if w.err.None? then w else Written(w.bytes, Some(WithFieldError(w.err.value, PathStep(name, f.name, note))))
  }

  function EncodeFields<R(==)>(g: Graph<R>, name: string, fields: seq<Field<R>>, vals: seq<Value>): Written
    decreases vals, 1 + |fields|
  {
    if fields == [] then Done([]) else
    var first := EncodeField(g, name, NoNote, fields[0], vals);
    if first.err.Some? then first else After(first.bytes, EncodeFields(g, name, fields[1..], vals))
  }

  // ---------------------------------------------------------------- decoding

  predicate IsComposite<R>(n: Node<R>)
  {
    n.PtrCodec? || n.ArrayCodec? || n.SliceCodec? || n.MapCodec? || n.StructCodec? || n.UnionCodec?
  }

  /** Decoding with at most `depth` nested composite codecs on the call stack. */
  function Decode<R(==)>(g: Graph<R>, r: R, input: seq<byte>, depth: nat): Reading<Value>
    decreases depth, 4
  {
    DecodeBy(g, Target(g, r), input, depth)
  }

  function DecodeBy<R(==)>(g: Graph<R>, n: Node<R>, input: seq<byte>, depth: nat): Reading<Value>
    decreases depth, if n.OptCodec? then 3 else 2
  {
    if IsComposite(n) && depth == 0 then Err(TooDeep) else
    match n
    case ErrorCodec(why) => Err(Unsupported(why))
    case DeferredCodec(_) => Err(Blocked)
    case PrimCodec(p) => DecodePrim(p, input)
    case OptCodec(elem) =>
      (match DecodeBool(input)
       case Err(e) => Err(e)
       case Ok((nonNil, rest)) =>
         if !nonNil then Ok((VNil, rest))
         else if Target(g, elem).OptCodec? then Err(IllTyped)
         else DecodeBy(g, Target(g, elem), rest, depth))
    case PtrCodec(elem) =>
      (match Decode(g, elem, input, depth - 1)
       case Err(e) => Err(e)
       case Ok((v, rest)) => Ok((VRef(v), rest)))
    case FixedStringCodec(len) =>
      (match DecodeFixed(len, input)
       case Err(e) => Err(e)
       case Ok((s, rest)) => Ok((VStr(s), rest)))
    case VarStringCodec(max) =>
      (match DecodeOpaque(max, input)
       case Err(e) => Err(e)
       case Ok((s, rest)) => Ok((VStr(s), rest)))
    case OpaqueArrayCodec(len) =>
      (match DecodeFixed(len, input)
       case Err(e) => Err(e)
       case Ok((s, rest)) => Ok((VList(FromBytes(s)), rest)))
    case OpaqueSliceCodec(max) =>
      (match DecodeOpaque(max, input)
       case Err(e) => Err(e)
       case Ok((s, rest)) => Ok((VList(FromBytes(s)), rest)))
    case ArrayCodec(len, elem) =>
      (match DecodeItems(g, elem, elem, len, input, depth - 1)
       case Err(e) => Err(e)
       case Ok((vs, rest)) => Ok((VList(vs), rest)))
    case SliceCodec(max, elem) =>
      (match DecodeWord(input)
       case Err(e) => Err(e)
       case Ok((l, more)) =>
         if l > max then Err(LengthError(l, max)) else
         match DecodeItems(g, elem, elem, l, more, depth - 1)
         case Err(e) => Err(e)
         case Ok((vs, rest)) => Ok((VList(vs), rest)))
    case MapCodec(max, key, elem) =>
      (match DecodeWord(input)
       case Err(e) => Err(e)
       case Ok((l, more)) =>
         if l > max then Err(LengthError(l, max)) else
         match DecodeItems(g, key, elem, 2 * l, more, depth - 1)
         case Err(e) => Err(e)
         case Ok((kv, rest)) => Ok((VDict(Merge(kv)), rest)))
    case StructCodec(name, width, fields) =>
      (match DecodeFields(g, name, fields, Untouched(width), input, depth - 1)
       case Err(e) => Err(e)
       case Ok((vals, rest)) => Ok((VRec(vals), rest)))
    case UnionCodec(name, width, sw, kind, body, cases, default) =>
      (match DecodeField(g, name, AtSwitch, sw, Untouched(width), input, depth - 1)
       case Err(e) => Err(e)
       case Ok((vals, more)) =>
         match SwitchKey(kind, vals[sw.index])
         case None => Err(IllTyped)
         case Some(key) =>
           var arm := Arm(cases, default, key);
           if arm !in body then Err(WithFieldError(ArmUndefined, PathStep(name, "?", AtArm(arm)))) else
           match DecodeField(g, name, AtArm(key), body[arm], vals, more, depth - 1)
           case Err(e) => Err(e)
           case Ok((vals', rest)) => Ok((VRec(vals'), rest)))
  }

  function Untouched(width: nat): (vs: seq<Value>)
    ensures |vs| == width && forall i :: 0 <= i < width ==> vs[i] == VUnset
  {
    seq(width, i => VUnset)
  }

  function DecodeItems<R(==)>(g: Graph<R>, a: R, b: R, n: nat, input: seq<byte>, depth: nat)
    : (res: Reading<seq<Value>>)
    ensures res.Ok? ==> |res.value.0| == n
    decreases depth, 5, n
  {
    if n == 0 then Ok(([], input)) else
    match Decode(g, a, input, depth)
    case Err(e) => Err(e)
    case Ok((v, more)) =>
      match DecodeItems(g, b, a, n - 1, more, depth)
      case Err(e) => Err(e)
      case Ok((vs, rest)) => Ok(([v] + vs, rest))
  }

  /** Decodes one field into its slot of `vals`. */
  function DecodeField<R(==)>(g: Graph<R>, name: string, note: Note, f: Field<R>, vals: seq<Value>,
                              input: seq<byte>, depth: nat)
    : (res: Reading<seq<Value>>)
    ensures res.Ok? ==> f.index < |vals| && |res.value.0| == |vals|
    ensures res.Ok? ==> forall i :: 0 <= i < |vals| && i != f.index ==> res.value.0[i] == vals[i]
    decreases depth, 5
  {
    if f.index >= |vals| then Err(IllTyped) else
    match Decode(g, f.codec, input, depth)
    case Err(e) => Err(WithFieldError(e, PathStep(name, f.name, note)))
    case Ok((v, rest)) => Ok((vals[f.index := v], rest))
  }

  function DecodeFields<R(==)>(g: Graph<R>, name: string, fields: seq<Field<R>>, vals: seq<Value>,
                               input: seq<byte>, depth: nat)
    : (res: Reading<seq<Value>>)
    ensures res.Ok? ==> |res.value.0| == |vals|
    decreases depth, 6, |fields|
  {
    if fields == [] then Ok((vals, input)) else
    match DecodeField(g, name, NoNote, fields[0], vals, input, depth)
    case Err(e) => Err(e)
    case Ok((vals', more)) => DecodeFields(g, name, fields[1..], vals', more, depth)
  }

  // ---------------------------------------------------------------- maps

  /** The position of key `k` among alternating keys and values; |kv| when absent. */
  function KeyAt(kv: seq<Value>, k: Value): (i: nat)
    requires |kv| % 2 == 0
    ensures i <= |kv| && i % 2 == 0
    ensures i < |kv| ==> kv[i] == k
    ensures forall j :: 0 <= j < i && j % 2 == 0 ==> kv[j] != k
    decreases |kv|
  {
    if kv == [] || kv[0] == k then 0 else
    assert |kv[2..]| % 2 == 0;
    2 + KeyAt(kv[2..], k)
  }

  /** `SetMapIndex`: a key already present gets the new value. */
  function SetIndex(kv: seq<Value>, k: Value, v: Value): (r: seq<Value>)
    requires |kv| % 2 == 0
    ensures |r| % 2 == 0
  {
    var i := KeyAt(kv, k);
    if i < |kv| then kv[i + 1 := v] else kv + [k, v]
  }

  /** The map left after storing the decoded entries one after the other. */
  function Merge(kv: seq<Value>): (r: seq<Value>)
    requires |kv| % 2 == 0
    ensures |r| % 2 == 0
    decreases |kv|
  {
    if kv == [] then []
    else
      var m := |kv| - 2;
      assert |kv[..m]| % 2 == 0;
      SetIndex(Merge(kv[..m]), kv[m], kv[m + 1])
  }
}
