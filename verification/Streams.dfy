/** Reading from a stream that delivers its bytes in chunks of any size: `io.ReadFull`, the decoder's
    primitives, and the codecs' decode loops, which give what `Codecs.Decode` gives, whatever the chunks. */
module Streams {
  import opened Words
  import opened Codecs

  function Min(a: nat, b: nat): nat { if a < b then a else b }

  /** An `io.Reader`. No contract below mentions `chunks` or `eager`, which say how many bytes each call
      delivers and whether the last ones come together with the end of the stream. */
  class Reader {
    var data: seq<byte>    // not yet delivered
    var chunks: seq<nat>
    var eager: bool

    constructor (data: seq<byte>, chunks: seq<nat>, eager: bool)
      ensures this.data == data
    {
      this.data, this.chunks, this.eager := data, chunks, eager;
    }

    /** Up to `want` bytes: at least one unless the stream has ended. */
    method Read(want: nat) returns (got: seq<byte>, eof: bool)
      modifies this
      ensures old(data) == got + data && |got| <= want
      ensures want > 0 && old(data) != [] ==> got != []
      ensures want > 0 && old(data) == [] ==> eof
      ensures eof ==> data == []
    {
      var n := Next(Min(want, |data|));
      chunks := if chunks == [] then [] else chunks[1..];
      got, data := data[..n], data[n..];
      eof := data == [] && want > 0 && (eager || got == []);
    }

    /** How many of at most `most` bytes the next call delivers. */
    function Next(most: nat): (n: nat)
      reads this
      ensures n <= most && (most > 0 ==> n > 0)
    {
      if chunks == [] then most else Min(most, if chunks[0] == 0 then 1 else chunks[0])
    }

    /** `io.ReadFull`: fills `buf`, calling `Read` as often as it takes. */
    method ReadFull(buf: array<byte>) returns (n: nat, err: Option<Error>)
      modifies this, buf
      ensures n == Min(buf.Length, |old(data)|)
      ensures buf[..] == old(data)[..n] + old(buf[..])[n..] && data == old(data)[n..]
      ensures err == if n == buf.Length then None else if n == 0 then Some(EndOfInput) else Some(UnexpectedEnd)
    {
      n := 0;
      var eof := false;
      while n < buf.Length && !eof
        invariant n <= buf.Length && n <= |old(data)| && data == old(data)[n..]
        invariant buf[..] == old(data)[..n] + old(buf[..])[n..]
        invariant eof ==> data == []
        decreases buf.Length - n, !eof
      {
        ghost var before := buf[..];
        var got, end := Read(buf.Length - n);
        Place(buf, n, got);
        Filled(old(data), old(buf[..]), before, buf[..], n, got, data);
        n, eof := n + |got|, end;
      }
      if n < buf.Length { err := if n == 0 then Some(EndOfInput) else Some(UnexpectedEnd); } else { err := None; }
    }

    /** Puts `got` into `buf` from position `at`. */
    method Place(buf: array<byte>, at: nat, got: seq<byte>)
      requires at + |got| <= buf.Length
      modifies buf
      ensures buf[..] == old(buf[..])[..at] + got + old(buf[..])[at + |got|..]
    {
      var i := 0;
      while i < |got|
        invariant i <= |got| && buf[..] == old(buf[..])[..at] + got[..i] + old(buf[..])[at + i..]
      {
        buf[at + i] := got[i];
        i := i + 1;
      }
    }
  }

  /** Placing the next bytes of the stream after those placed before. */
  lemma Filled(input: seq<byte>, was: seq<byte>, before: seq<byte>, after: seq<byte>, n: nat, got: seq<byte>,
               rest: seq<byte>)
    requires n + |got| <= |was| && n <= |input| && input[n..] == got + rest
    requires before == input[..n] + was[n..] && after == before[..n] + got + before[n + |got|..]
    ensures n + |got| <= |input| && rest == input[n + |got|..]
    ensures after == input[..n + |got|] + was[n + |got|..]
  {
    var m := n + |got|;
    assert |input| == n + |got| + |rest|;
    assert input == input[..n] + input[n..] == input[..n] + got + rest;
    assert before[..n] == input[..n] && before[m..] == was[m..];
    assert input[..m] == input[..n] + got;
  }

  // ---------------------------------------------------------------- results

  /** A method's result and error, and what it left of the input, are those of a specification. */
  predicate Agrees<T(==)>(spec: Reading<T>, v: T, err: Option<Error>, left: seq<byte>)
  {
    match spec
    case Ok((v', rest)) => err == None && v == v' && left == rest
    case Err(e) => err == Some(e)
  }

  /** The values already decoded in front of what decoding the others gives. */
  function Prepend(vs: seq<Value>, res: Reading<seq<Value>>): Reading<seq<Value>>
  {
    match res
    case Ok((ws, rest)) => Ok((vs + ws, rest))
    case Err(e) => Err(e)
  }

  lemma PrependNothing(vs: seq<Value>, res: Reading<seq<Value>>)
    ensures Prepend([], res) == res
    ensures res.Ok? && res.value.0 == [] ==> Prepend(vs, res) == Ok((vs, res.value.1))
  {
    if res.Ok? {
      assert [] + res.value.0 == res.value.0;
      assert vs + [] == vs;
    }
  }

  lemma PrependFurther(vs: seq<Value>, v: Value, res: Reading<seq<Value>>)
    ensures Prepend(vs, Prepend([v], res)) == Prepend(vs + [v], res)
  {
    if res.Ok? { assert vs + ([v] + res.value.0) == vs + [v] + res.value.0; }
  }

  lemma MergeStep(kv: seq<Value>, k: Value, v: Value)
    requires |kv| % 2 == 0
    ensures |kv + [k, v]| % 2 == 0 && Merge(kv + [k, v]) == SetIndex(Merge(kv), k, v)
  {
    assert (kv + [k, v])[..|kv|] == kv;
  }

  class Decoder {
    const r: Reader

    constructor (r: Reader)
      ensures this.r == r
    {
      this.r := r;
    }

    method DecodeUnsignedInt() returns (w: u32, err: Option<Error>)
      modifies r
      ensures Agrees(DecodeWord(old(r.data)), w, err, r.data)
    {
      var b := new byte[4](i => 0);
      var n;
      n, err := r.ReadFull(b);
      w := b[0] * 0x100_0000 + b[1] as int * 0x1_0000 + b[2] as int * 0x100 + b[3];
      assert err == None ==> b[..] == old(r.data)[..4];
    }

    method DecodeBool() returns (b: bool, err: Option<Error>)
      modifies r
      ensures Agrees(Codecs.DecodeBool(old(r.data)), b, err, r.data)
    {
      var i;
      i, err := DecodeUnsignedInt();
      if i == 0 {
        b := false;
      } else if i == 1 {
        b := true;
      } else {
        b, err := false, if err.Some? then err else Some(InvalidValue);
      }
    }

    method DecodeUnsignedHyper() returns (h: u64, err: Option<Error>)
      modifies r
      ensures Agrees(DecodeHyper(old(r.data)), h, err, r.data)
    {
      var b := new byte[8](i => 0);
      var n;
      n, err := r.ReadFull(b);
      assert err == None ==> b[..] == old(r.data)[..8];
      var s := b[..];
      var hi, lo := WordAt(s), WordAt(s[4..]);
      h := hi as int * 0x1_0000_0000 + lo;
    }

    /** Fills `buf`, then reads and drops the padding. */
    method DecodeFixedOpaque(buf: array<byte>) returns (err: Option<Error>)
      modifies r, buf
      ensures Agrees(DecodeFixed(buf.Length, old(r.data)), buf[..], err, r.data)
    {
      var n;
      n, err := r.ReadFull(buf);
      if err.Some? { return; }
      assert buf[..] == old(r.data)[..n];
      PaddingAgrees(n);
      n := RoundUp(n) - n;
      if n != 0 {
        var discard := new byte[n](i => 0);
        n, err := r.ReadFull(discard);
      }
    }

    /** The error of the last read is dropped, so a body cut short reads as zeros from there on. */
    method DecodeOpaque(max: u32) returns (s: seq<byte>, err: Option<Error>)
      modifies r
      ensures Agrees(Codecs.DecodeOpaque(max, old(r.data)), s, err, r.data)
    {
      s := [];
      var l;
      l, err := DecodeUnsignedInt();
      if err.Some? || l == 0 { return; }
      if l > max { return [], Some(LengthError(l, max)); }
      PaddingAgrees(l);
      var buf := new byte[RoundUp(l)](i => 0);
      ghost var body := r.data;
      var n, _ := r.ReadFull(buf);
      s := buf[..][..l];
      OpaqueBody(body, l, buf[..]);
    }

    method DecodePrim(p: Prim) returns (v: Value, err: Option<Error>)
      modifies r
      ensures Agrees(Codecs.DecodePrim(p, old(r.data)), v, err, r.data)
    {
      if p.Bool? {
        var b;
        b, err := DecodeBool();
        v := VBool(b);
      } else if p.Complex64? {
        var re, im;
        re, err := DecodeUnsignedInt();
        if err.Some? { return VUnset, err; }
        im, err := DecodeUnsignedInt();
        v := VPair(re, im);
      } else if p.Complex128? {
        var re, im;
        re, err := DecodeUnsignedHyper();
        if err.Some? { return VUnset, err; }
        im, err := DecodeUnsignedHyper();
        v := VPair(re, im);
      } else if IsHyper(p) {
        var h;
        h, err := DecodeUnsignedHyper();
        v := VNum(if p.Hyper? then Signed(h, 0x1_0000_0000_0000_0000) else h);
      } else {
        var w;
        w, err := DecodeUnsignedInt();
        v := VNum(Narrow(p, w));
      }
    }

    // -------------------------------------------------------------- codecs

    /** A call of the codec `ref`: what it decodes, and what it takes from the stream, depend on the
        bytes of the stream alone. */
    method Decode<R(==)>(g: Graph<R>, ref: R, depth: nat) returns (v: Value, err: Option<Error>)
      modifies r
      ensures Agrees(Codecs.Decode(g, ref, old(r.data), depth), v, err, r.data)
      decreases depth, 4
    {
      v, err := DecodeBy(g, Target(g, ref), depth);
    }

    method DecodeBy<R(==)>(g: Graph<R>, n: Node<R>, depth: nat) returns (v: Value, err: Option<Error>)
      modifies r
      ensures Agrees(Codecs.DecodeBy(g, n, old(r.data), depth), v, err, r.data)
      decreases depth, if n.OptCodec? then 3 else 2
    {
      hide Codecs.DecodeItems, Codecs.DecodePrim, Codecs.DecodeOpaque, DecodeFixed, Merge, Codecs.DecodeBool,
          DecodeWord;
      v, err := VUnset, None;
      if IsComposite(n) && depth == 0 { return VUnset, Some(TooDeep); }
      match n
      case ErrorCodec(why) => err := Some(Unsupported(why));
      case DeferredCodec(_) => err := Some(Blocked);
      case PrimCodec(p) => v, err := DecodePrim(p);
      case OptCodec(elem) =>
        var nonNil;
        nonNil, err := DecodeBool();
        if err.Some? { return; }
        if !nonNil {
          v := VNil;
        } else if Target(g, elem).OptCodec? {
          err := Some(IllTyped);
        } else {
          v, err := DecodeBy(g, Target(g, elem), depth);
        }
      case PtrCodec(elem) =>
        var target;
        target, err := Decode(g, elem, depth - 1);
        v := VRef(target);
      case ArrayCodec(len, elem) =>
        var vs;
        vs, err := DecodeElems(g, elem, len, depth - 1);
        v := VList(vs);
      case SliceCodec(max, elem) =>
        var l, vs;
        l, err := DecodeUnsignedInt();
        if err.Some? { return; }
        if l > max { return VUnset, Some(LengthError(l, max)); }
        vs, err := DecodeElems(g, elem, l, depth - 1);
        v := VList(vs);
      case MapCodec(max, key, elem) =>
        var l, kv;
        l, err := DecodeUnsignedInt();
        if err.Some? { return; }
        if l > max { return VUnset, Some(LengthError(l, max)); }
        kv, err := DecodeEntries(g, key, elem, l, depth - 1);
        v := VDict(kv);
      case StructCodec(name, width, fields) =>
        v, err := DecodeStruct(g, name, width, fields, depth - 1);
      case UnionCodec(_, _, _, _, _, _, _) =>
        v, err := DecodeUnion(g, n, depth - 1);
      case _ => v, err := DecodeBytes(g, n);
    }

    /** Strings and opaque data. */
    method DecodeBytes<R(==)>(g: Graph<R>, n: Node<R>) returns (v: Value, err: Option<Error>)
      requires n.FixedStringCodec? || n.VarStringCodec? || n.OpaqueArrayCodec? || n.OpaqueSliceCodec?
      modifies r
      ensures forall depth :: Agrees(Codecs.DecodeBy(g, n, old(r.data), depth), v, err, r.data)
    {
      hide Codecs.DecodeOpaque, DecodeFixed;
      match n {
        case FixedStringCodec(len) =>
          var buf := new byte[len](i => 0);
          err := DecodeFixedOpaque(buf);
          v := VStr(buf[..]);
        case VarStringCodec(max) =>
          var s;
          s, err := DecodeOpaque(max);
          v := VStr(s);
        case OpaqueArrayCodec(len) =>
          var buf := new byte[len](i => 0);
          err := DecodeFixedOpaque(buf);
          v := VList(FromBytes(buf[..]));
        case OpaqueSliceCodec(max) =>
          var s;
          s, err := DecodeOpaque(max);
          v := VList(FromBytes(s));
      }
    }

    /** The index loop of the array and slice codecs. */
    method DecodeElems<R(==)>(g: Graph<R>, elem: R, n: nat, depth: nat) returns (vs: seq<Value>, err: Option<Error>)
      modifies r
      ensures Agrees(DecodeItems(g, elem, elem, n, old(r.data), depth), vs, err, r.data)
      decreases depth, 5
    {
      hide Codecs.Decode;
      vs, err := [], None;
      var i := 0;
      PrependNothing([], DecodeItems(g, elem, elem, n, r.data, depth));
      while i < n
        invariant i <= n && err == None
        invariant DecodeItems(g, elem, elem, n, old(r.data), depth)
               == Prepend(vs, DecodeItems(g, elem, elem, n - i, r.data, depth))
      {
        ghost var rest := r.data;
        var v;
        v, err := Decode(g, elem, depth);
        if err.Some? { return; }
        PrependFurther(vs, v, DecodeItems(g, elem, elem, n - i - 1, r.data, depth));
        assert DecodeItems(g, elem, elem, n - i, rest, depth)
            == Prepend([v], DecodeItems(g, elem, elem, n - i - 1, r.data, depth));
        vs := vs + [v];
        i := i + 1;
      }
      PrependNothing(vs, DecodeItems(g, elem, elem, 0, r.data, depth));
    }

    /** The loop of the map codec, storing each entry as it comes. */
    method DecodeEntries<R(==)>(g: Graph<R>, key: R, elem: R, n: nat, depth: nat)
      returns (m: seq<Value>, err: Option<Error>)
      modifies r
      ensures match DecodeItems(g, key, elem, 2 * n, old(r.data), depth)
              case Ok((kv, rest)) => err == None && m == Merge(kv) && r.data == rest
              case Err(e) => err == Some(e)
      decreases depth, 5
    {
      hide Codecs.Decode, SetIndex, Merge;
      m, err := [], None;
      ghost var kv: seq<Value> := [];
      EmptyMerge();
      var i := 0;
      PrependNothing([], DecodeItems(g, key, elem, 2 * n, r.data, depth));
      while i < n
        invariant i <= n && err == None && |kv| % 2 == 0 && |m| % 2 == 0 && m == Merge(kv)
        invariant DecodeItems(g, key, elem, 2 * n, old(r.data), depth)
               == Prepend(kv, DecodeItems(g, key, elem, 2 * (n - i), r.data, depth))
      {
        ghost var rest := r.data;
        ghost var left := 2 * (n - i);
        var k, v;
        k, err := Decode(g, key, depth);
        if err.Some? { return; }
        ghost var more := r.data;
        assert DecodeItems(g, key, elem, left, rest, depth)
            == Prepend([k], DecodeItems(g, elem, key, left - 1, more, depth));
        v, err := Decode(g, elem, depth);
        if err.Some? { return; }
        ghost var tail := DecodeItems(g, key, elem, left - 2, r.data, depth);
        assert DecodeItems(g, elem, key, left - 1, more, depth) == Prepend([v], tail);
        PrependFurther(kv, k, Prepend([v], tail));
        PrependFurther(kv + [k], v, tail);
        MergeStep(kv, k, v);
        assert kv + [k] + [v] == kv + [k, v];
        m, kv := SetIndex(m, k, v), kv + [k, v];
        i := i + 1;
      }
      PrependNothing(kv, DecodeItems(g, key, elem, 0, r.data, depth));
    }

    method DecodeField<R(==)>(g: Graph<R>, name: string, note: Note, f: Field<R>, vals: seq<Value>, depth: nat)
      returns (vals': seq<Value>, err: Option<Error>)
      modifies r
      ensures Agrees(Codecs.DecodeField(g, name, note, f, vals, old(r.data), depth), vals', err, r.data)
      ensures |vals'| == |vals|
      decreases depth, 5
    {
      if f.index >= |vals| { return vals, Some(IllTyped); }
      var v;
      v, err := Decode(g, f.codec, depth);
      if err.Some? { return vals, Some(WithFieldError(err.value, PathStep(name, f.name, note))); }
      vals' := vals[f.index := v];
    }

    /** The field loop of the struct codec. */
    method DecodeStruct<R(==)>(g: Graph<R>, name: string, width: nat, fields: seq<Field<R>>, depth: nat)
      returns (v: Value, err: Option<Error>)
      modifies r
      ensures match DecodeFields(g, name, fields, Untouched(width), old(r.data), depth)
              case Ok((vals, rest)) => err == None && v == VRec(vals) && r.data == rest
              case Err(e) => err == Some(e)
      decreases depth, 6
    {
      hide Codecs.DecodeField;
      var vals := Untouched(width);
      v, err := VUnset, None;
      var i := 0;
      assert fields[0..] == fields;
      while i < |fields|
        invariant i <= |fields| && err == None && |vals| == width
        invariant DecodeFields(g, name, fields, Untouched(width), old(r.data), depth)
               == DecodeFields(g, name, fields[i..], vals, r.data, depth)
      {
        assert fields[i..][0] == fields[i] && fields[i..][1..] == fields[i + 1..];
        vals, err := DecodeField(g, name, NoNote, fields[i], vals, depth);
        if err.Some? { return; }
        i := i + 1;
      }
      v := VRec(vals);
    }

    /** The switch, then the arm it selects. */
    method DecodeUnion<R(==)>(g: Graph<R>, n: Node<R>, depth: nat) returns (v: Value, err: Option<Error>)
      requires n.UnionCodec?
      modifies r
      ensures Agrees(Codecs.DecodeBy(g, n, old(r.data), depth + 1), v, err, r.data)
      decreases depth, 6
    {
      hide Codecs.DecodeField;
      v := VUnset;
      var vals;
      vals, err := DecodeField(g, n.name, AtSwitch, n.switch, Untouched(n.width), depth);
      if err.Some? { return; }
      SwitchInside(g, n, old(r.data), depth);
      var key := SwitchKey(n.kind, vals[n.switch.index]);
      if key == None { return VUnset, Some(IllTyped); }
      var arm := Arm(n.cases, n.default, key.value);
      if arm !in n.body { return VUnset, Some(WithFieldError(ArmUndefined, PathStep(n.name, "?", AtArm(arm)))); }
      vals, err := DecodeField(g, n.name, AtArm(key.value), n.body[arm], vals, depth);
      v := VRec(vals);
    }
  }

  /** Two streams of the same bytes, however each is cut into chunks, decode to the same value or the same
      error, and leave the same bytes. */
  method ChunkingIndependence<R(==)>(g: Graph<R>, ref: R, depth: nat, data: seq<byte>,
                                     chunks1: seq<nat>, eager1: bool, chunks2: seq<nat>, eager2: bool)
    returns (v1: Value, err1: Option<Error>, rest1: seq<byte>, v2: Value, err2: Option<Error>, rest2: seq<byte>)
    ensures err1 == err2 && (err1 == None ==> v1 == v2 && rest1 == rest2)
  {
    hide Codecs.Decode;
    var r1 := new Reader(data, chunks1, eager1);
    var r2 := new Reader(data, chunks2, eager2);
    var d1 := new Decoder(r1);
    var d2 := new Decoder(r2);
    v1, err1 := d1.Decode(g, ref, depth);
    v2, err2 := d2.Decode(g, ref, depth);
    rest1, rest2 := r1.data, r2.data;
  }

  lemma EmptyMerge()
    ensures Merge([]) == []
  {
  }

  lemma SwitchInside<R>(g: Graph<R>, n: Node<R>, input: seq<byte>, depth: nat)
    requires n.UnionCodec?
    ensures var res := Codecs.DecodeField(g, n.name, AtSwitch, n.switch, Untouched(n.width), input, depth);
      res.Ok? ==> n.switch.index < n.width && |res.value.0| == n.width
  {
  }

  /** Reading into a zeroed buffer of the padded length. */
  lemma OpaqueBody(body: seq<byte>, l: nat, buf: seq<byte>)
    requires var n := Min(RoundUp(l), |body|); buf == body[..n] + Zeros(RoundUp(l))[n..]
    ensures |buf| == RoundUp(l) >= l
    ensures buf[..l] == if |body| >= RoundUp(l) then body[..l] else (body + Zeros(l))[..l]
  {
    PaddingAgrees(l);
  }

  // ---------------------------------------------------------------- streaming opaque data

  /** What an `opaqueReader` and the stream under it still hold. */
  datatype Opening = Opening(input: seq<byte>, n: nat, padLen: nat)

  function Open(input: seq<byte>, len: nat): Opening { Opening(input, len, RoundUp(len) - len) }

  /** After a read that delivered `k` bytes. */
  function AfterRead(o: Opening, k: nat): Opening
    requires k <= o.n && k <= |o.input|
  {
    Opening(o.input[k..], o.n - k, o.padLen)
  }

  function AfterClose(o: Opening): Opening
  {
    var k := Min(o.n + o.padLen, |o.input|);
    Opening(o.input[k..], o.n + o.padLen - k, o.padLen)
  }

  function Sum(ks: seq<nat>): nat { if ks == [] then 0 else ks[0] + Sum(ks[1..]) }

  /** The reads of sizes `ks` are possible, one after the other. */
  predicate Possible(o: Opening, ks: seq<nat>)
    decreases |ks|
  {
    ks == [] || (ks[0] <= o.n && ks[0] <= |o.input| && Possible(AfterRead(o, ks[0]), ks[1..]))
  }

  function AfterReads(o: Opening, ks: seq<nat>): Opening
    requires Possible(o, ks)
    decreases |ks|
  {
    if ks == [] then o else AfterReads(AfterRead(o, ks[0]), ks[1..])
  }

  /** The bytes those reads return. */
  function Returned(o: Opening, ks: seq<nat>): seq<byte>
    requires Possible(o, ks)
    decreases |ks|
  {
    if ks == [] then [] else o.input[..ks[0]] + Returned(AfterRead(o, ks[0]), ks[1..])
  }

  lemma {:induction false} ReadsTake(o: Opening, ks: seq<nat>)
    requires Possible(o, ks)
    ensures Sum(ks) <= o.n && Sum(ks) <= |o.input|
    ensures AfterReads(o, ks) == AfterRead(o, Sum(ks)) && Returned(o, ks) == o.input[..Sum(ks)]
    decreases |ks|
  {
    if ks != [] {
      ReadsTake(AfterRead(o, ks[0]), ks[1..]);
      assert o.input[..ks[0]] + o.input[ks[0]..][..Sum(ks[1..])] == o.input[..Sum(ks)];
    }
  }

  /** Whatever was read before it, one `Close` leaves the stream just after the padding. */
  lemma ReadsThenClose(input: seq<byte>, len: nat, ks: seq<nat>)
    requires Possible(Open(input, len), ks) && |input| >= RoundUp(len)
    ensures AfterClose(AfterReads(Open(input, len), ks)).input == input[RoundUp(len)..]
    ensures AfterClose(AfterReads(Open(input, len), ks)).n == 0
    ensures Sum(ks) <= len && Returned(Open(input, len), ks) == input[..Sum(ks)]
  {
    PaddingAgrees(len);
    ReadsTake(Open(input, len), ks);
    assert input[Sum(ks)..][RoundUp(len) - Sum(ks)..] == input[RoundUp(len)..];
  }

  /** Draining the reader and closing it gives what `DecodeFixedOpaque` gives, on sufficient input. */
  lemma DrainedIsFixed(input: seq<byte>, len: nat, ks: seq<nat>)
    requires Possible(Open(input, len), ks) && Sum(ks) == len && |input| >= RoundUp(len)
    ensures DecodeFixed(len, input)
         == Ok((Returned(Open(input, len), ks), AfterClose(AfterReads(Open(input, len), ks)).input))
  {
    PaddingAgrees(len);
    ReadsThenClose(input, len, ks);
    assert input[len..][PadLen(len)..] == input[RoundUp(len)..];
  }

  /** Closing again reads on into what follows: it is harmless exactly when there was no padding or
      nothing follows. */
  lemma SecondClose(input: seq<byte>, len: nat, ks: seq<nat>)
    requires Possible(Open(input, len), ks) && |input| >= RoundUp(len)
    ensures var once := AfterClose(AfterReads(Open(input, len), ks));
      AfterClose(once).input == once.input <==> len % 4 == 0 || |input| == RoundUp(len)
  {
    PaddingAgrees(len);
    ReadsThenClose(input, len, ks);
    ReadsTake(Open(input, len), ks);
    var once := AfterClose(AfterReads(Open(input, len), ks));
    assert |AfterClose(once).input| == |once.input| - Min(once.padLen, |once.input|);
    if Min(once.padLen, |once.input|) == 0 { assert once.input[0..] == once.input; }
  }

  /** `newOpaqueReader`: a limited reader, and the length of the padding. */
  class OpaqueReader {
    const r: Reader
    var n: nat
    const padLen: nat

    ghost function State(): Opening
      reads this, r
    {
      Opening(r.data, n, padLen)
    }

    constructor (r: Reader, len: nat)
      ensures this.r == r && State() == Open(r.data, len)
    {
      PaddingAgrees(len);
      this.r, this.n, this.padLen := r, len, RoundUp(len) - len;
    }

    /** `io.LimitedReader.Read`. */
    method Read(want: nat) returns (got: seq<byte>, eof: bool)
      modifies this`n, r
      ensures |got| <= want && |got| <= old(n) && got <= old(r.data)
      ensures State() == AfterRead(old(State()), |got|)
      ensures want > 0 && (old(n) == 0 || old(r.data) == []) ==> eof
      ensures want > 0 && !eof ==> got != []
      ensures eof ==> n == 0 || r.data == []
    {
      if n == 0 { return [], true; }
      got, eof := r.Read(Min(want, n));
      n := n - |got|;
    }

    /** Lets through the padding too, then discards everything up to the limit. */
    method Close()
      modifies this`n, r
      ensures State() == AfterClose(old(State()))
    {
      n := n + padLen;
      var eof := false;
      ghost var limit, input := n, r.data;
      ghost var k := 0;
      while !eof
        invariant k <= limit && k <= |input| && n == limit - k && r.data == input[k..]
        invariant eof ==> n == 0 || r.data == []
        decreases n, !eof
      {
        var got;
        got, eof := Read(0x2000);
        k := k + |got|;
      }
    }
  }

  /** `Decoder.OpaqueReader` then draining and closing reads what `DecodeOpaque` reads, when the body and
      padding are there; the length check fails alike. */
  lemma StreamingAgrees(max: u32, input: seq<byte>, ks: seq<nat>)
    requires DecodeWord(input).Ok?
    ensures var (l, more) := DecodeWord(input).value;
      && (l > max ==> DecodeOpaque(max, input) == Err(LengthError(l, max)))
      && (l <= max && |more| >= RoundUp(l) && Possible(Open(more, l), ks) && Sum(ks) == l ==>
            DecodeOpaque(max, input)
            == Ok((Returned(Open(more, l), ks), AfterClose(AfterReads(Open(more, l), ks)).input)))
  {
    var (l, more) := DecodeWord(input).value;
    if l <= max && |more| >= RoundUp(l) && Possible(Open(more, l), ks) && Sum(ks) == l {
      ReadsThenClose(more, l, ks);
    }
  }
}
