/** Parsing a struct tag while descending through the type it annotates. */
module TagParser {
  import opened Words
  import opened Types
  import opened Tags

  datatype IsInUnion = MaybeInUnion | NotInUnion | InUnion

  // ---------------------------------------------------------------- specification

  /** The entries one part contributes, with the type it leaves the parser at. */
  function Layer(tbl: Table, t: TypeId, p: Part): Result<(Tag, TypeId), TagError>
  {
    var ty := Lookup(tbl, t);
    match p
    case Blank => Ok(([BLANK_ENTRY], t))
    case Opt => if CanBeOpt(ty) then Ok(([Entry(OPT, [])], t)) else Err(CannotBeOpt)
    case Opaque =>
      if ty.Array? || ty.Slice? then
        if IsOctet(Lookup(tbl, ty.elem)) then Ok(([BLANK_ENTRY, Entry(OPAQUE, [])], ty.elem)) else Err(NotBytes)
      else if IsOctet(ty) then Ok(([Entry(OPAQUE, [])], t))
      else Err(NotBytes)
    case Len(n) =>
      if ty.Array? then Err(LenOnArray)
      else if ty.String? || ty.Slice? then Ok(([Entry(LEN, [n])], t))
      else Err(LenOnType)
    case MaxLen(n) =>
      if ty.String? || ty.Slice? then Ok(([Entry(MAX_LEN, [n])], t)) else Err(MaxLenOnType)
    case BadLen => Err(BadNumber)
    case BadMaxLen => Err(BadNumber)
    case Unknown => Err(UnknownPart)
  }

  function Layers(tbl: Table, t: TypeId, parts: seq<Part>): Result<Tag, TagError>
    decreases |parts|
  {
    if parts == [] then Ok([]) else
    match Layer(tbl, t, parts[0])
    case Err(e) => Err(e)
    case Ok((es, t')) =>
      if |parts| == 1 then Ok(es)
      else if !HasElem(Lookup(tbl, t')) then Err(TrailingTags)
      else
        match Layers(tbl, Lookup(tbl, t').elem, parts[1..])
        case Err(e) => Err(e)
        case Ok(rest) => Ok(es + rest)
  }

  /** The union part: its entry, if any, and what it decides about the enclosing struct. */
  function UnionHead(ty: Type, head: UnionPart, u: IsInUnion): (Result<Tag, TagError>, IsInUnion)
  {
    if head == NoUnion then
      if u == InUnion then (Err(NeedsUnionTag), u) else (Ok([]), NotInUnion)
    else if head == Switch then
      if u != MaybeInUnion then (Err(SwitchMisplaced), u)
      else if !ValidForUnionSwitch(ty) then (Err(SwitchType), u)
      else (Ok([Entry(UNION_SWITCH, [])]), InUnion)
    else if u != InUnion then (Err(NotAUnion), u)
    else
      match head
      case False => (Ok([Entry(UNION_CASES, [0])]), u)
      case True => (Ok([Entry(UNION_CASES, [1])]), u)
      case Default => (Ok([Entry(UNION_DEFAULT, [])]), u)
      case Cases(vs) => (Ok([Entry(UNION_CASES, vs)]), u)
      case _ => (Err(BadNumber), u)
  }

  function Parse(tbl: Table, t: TypeId, tag: StructTag, u: IsInUnion): (Result<Tag, TagError>, IsInUnion)
  {
    match tag
    case Dash => (Ok([Entry(SKIP, [])]), u)
    case Parts(head, parts) =>
      var (h, u') := UnionHead(Lookup(tbl, t), head, u);
      if h.Err? then (h, u')
      else
        match Layers(tbl, t, parts)
        case Err(e) => (Err(e), u')
        case Ok(es) => (Ok(Trim(h.value + es)), u')
  }

  /** The limit that keeps a case list's count within its 32-bit field. */
  predicate Countable(tag: StructTag)
  {
    tag.Parts? && tag.head.Cases? ==> |tag.head.values| < 0x1_0000_0000
  }

  // ---------------------------------------------------------------- the parser

  /** The source's loop over the parts, building the byte form. */
  method ParseTag(tbl: Table, t0: TypeId, tag: StructTag, u: IsInUnion)
    returns (r: Result<seq<byte>, TagError>, u': IsInUnion)
    requires Countable(tag)
    ensures u' == Parse(tbl, t0, tag, u).1
    ensures var spec := Parse(tbl, t0, tag, u).0;
      if spec.Ok? then WfTag(spec.value) && r == Ok(TagBytes(spec.value)) else r == Err(spec.error)
  {
    hide TagBytes, Trim, Layers, ValidForUnionSwitch;
    u' := u;
    NoBytes();
    if tag == Dash {
      var b := Append([], SKIP, [], []);
      assert [] + [Entry(SKIP, [])] == [Entry(SKIP, [])];
      return Ok(b), u';
    }
    var ty := Lookup(tbl, t0);
    var xt: seq<byte> := [];
    ghost var es: Tag := [];
    var h: Tag;
    if tag.head != NoUnion {
      if tag.head == Switch {
        if u' != MaybeInUnion { return Err(SwitchMisplaced), u'; }
        if !ValidForUnionSwitch(ty) { return Err(SwitchType), u'; }
        u' := InUnion;
        xt := Append(xt, UNION_SWITCH, [], []);
        h := [Entry(UNION_SWITCH, [])];
      } else if u' != InUnion {
        return Err(NotAUnion), u';
      } else {
        match tag.head
        case False => xt := Append(xt, UNION_CASES, [0], []); h := [Entry(UNION_CASES, [0])];
        case True => xt := Append(xt, UNION_CASES, [1], []); h := [Entry(UNION_CASES, [1])];
        case Default => xt := Append(xt, UNION_DEFAULT, [], []); h := [Entry(UNION_DEFAULT, [])];
        case Cases(vs) => xt := Append(xt, UNION_CASES, vs, []); h := [Entry(UNION_CASES, vs)];
        case _ => return Err(BadNumber), u';
      }
    } else if u' == InUnion {
      return Err(NeedsUnionTag), u';
    } else {
      u' := NotInUnion;
      h := [];
    }
    es := h;
    assert [] + h == h;
    var full := ParseLayers(tbl, t0, tag.layers, xt, es);
    if full.Err? { return Err(full.error), u'; }
    es := h + Layers(tbl, t0, tag.layers).value;
    var trimmed := Trimmed(full.value, es);
    TrimKeepsWf(es);
    return Ok(trimmed), u';
  }

  lemma TrimKeepsWf(es: Tag)
    requires WfTag(es)
    ensures WfTag(Trim(es))
  {
    forall e | e in Trim(es) ensures WfEntry(e) {
      var i :| 0 <= i < |Trim(es)| && Trim(es)[i] == e;
      assert es[i] == e;
    }
  }

  method ParseLayers(tbl: Table, t0: TypeId, parts: seq<Part>, xt0: seq<byte>, ghost es0: Tag)
    returns (r: Result<seq<byte>, TagError>)
    requires WfTag(es0) && xt0 == TagBytes(es0)
    ensures var spec := Layers(tbl, t0, parts);
      if spec.Ok? then WfTag(es0 + spec.value) && r == Ok(TagBytes(es0 + spec.value)) else r == Err(spec.error)
  {
    hide TagBytes, CanBeOpt, IsOctet;
    var t, xt := t0, xt0;
    ghost var es := es0;
    var i, n := 0, |parts|;
    assert parts[0..] == parts;
    assert n == 0 ==> es0 + [] == es0;
    while i < n
      invariant 0 <= i <= n
      invariant WfTag(es) && xt == TagBytes(es)
      invariant i == 0 ==> t == t0 && es == es0
      invariant i < n ==>
        Resumes(Layers(tbl, t0, parts), es0, es, Layers(tbl, t, parts[i..]))
      invariant i == n ==>
        Layers(tbl, t0, parts).Ok? && es == es0 + Layers(tbl, t0, parts).value
    {
      var p, ty := parts[i], Lookup(tbl, t);
      ghost var was, from := es, t;
      assert parts[i..][0] == p && parts[i..][1..] == parts[i + 1..];
      match p {
      case Blank =>
        xt := Append(xt, NOOP, [], es);
        es := es + [BLANK_ENTRY];
      case Opt =>
        if !CanBeOpt(ty) { return Err(CannotBeOpt); }
        xt := Append(xt, OPT, [], es);
        es := es + [Entry(OPT, [])];
      case Opaque =>
        if ty.Array? || ty.Slice? {
          xt := Append(xt, NOOP, [], es);
          es := es + [BLANK_ENTRY];
          t := ty.elem;
        }
        if !IsOctet(Lookup(tbl, t)) { return Err(NotBytes); }
        xt := Append(xt, OPAQUE, [], es);
        es := es + [Entry(OPAQUE, [])];
      case Len(len) =>
        if ty.Array? { return Err(LenOnArray); }
        if !(ty.String? || ty.Slice?) { return Err(LenOnType); }
        xt := Append(xt, LEN, [len], es);
        es := es + [Entry(LEN, [len])];
      case MaxLen(len) =>
        if !(ty.String? || ty.Slice?) { return Err(MaxLenOnType); }
        xt := Append(xt, MAX_LEN, [len], es);
        es := es + [Entry(MAX_LEN, [len])];
      case BadLen => return Err(BadNumber);
      case BadMaxLen => return Err(BadNumber);
      case Unknown => return Err(UnknownPart);
      }
      ghost var added := Layer(tbl, from, p).value.0;
      assert es == was + added;
      if i + 1 != n {
        if !HasElem(Lookup(tbl, t)) { return Err(TrailingTags); }
        t := Lookup(tbl, t).elem;
        ResumeStep(Layers(tbl, t0, parts), es0, was, added, Layers(tbl, t, parts[i + 1..]));
      }
      i := i + 1;
    }
    return Ok(xt);
  }

  /** The result for all parts, given the entries so far and the result for the parts left. */
  ghost predicate Resumes(whole: Result<Tag, TagError>, es0: Tag, es: Tag, left: Result<Tag, TagError>)
  {
    match left
    case Err(e) => whole == Err(e)
    case Ok(more) => whole.Ok? && es0 + whole.value == es + more
  }

  lemma ResumeStep(whole: Result<Tag, TagError>, es0: Tag, was: Tag, added: Tag, left: Result<Tag, TagError>)
    requires Resumes(whole, es0, was, if left.Err? then left else Ok(added + left.value))
    ensures Resumes(whole, es0, was + added, left)
  {
    if left.Ok? { assert was + (added + left.value) == (was + added) + left.value; }
  }

  // ---------------------------------------------------------------- what a parsed tag says

  /** Each entry suits the type at its depth, and only element-bearing types are descended. */
  predicate Fits(tbl: Table, t: TypeId, es: Tag)
    decreases |es|
  {
    if es == [] then true else
    var ty, e := Lookup(tbl, t), es[0];
    && (e == BLANK_ENTRY
        || (e == Entry(OPT, []) && CanBeOpt(ty))
        || (e == Entry(OPAQUE, []) && IsOctet(ty))
        || ((e.k == LEN || e.k == MAX_LEN) && |e.vs| == 1 && (ty.String? || ty.Slice?)))
    && (|es| > 1 ==> HasElem(ty) && Fits(tbl, ty.elem, es[1..]))
  }

  lemma {:induction false} FitsPrefix(tbl: Table, t: TypeId, es: Tag, n: nat)
    requires n <= |es| && Fits(tbl, t, es)
    ensures Fits(tbl, t, es[..n])
    decreases |es|
  {
    if n > 1 {
      FitsPrefix(tbl, Lookup(tbl, t).elem, es[1..], n - 1);
      assert es[1..][..n - 1] == es[..n][1..];
    }
  }

  lemma LayerFits(tbl: Table, t: TypeId, p: Part, rest: Tag)
    requires Layer(tbl, t, p).Ok?
    requires rest != [] ==> HasElem(Lookup(tbl, Layer(tbl, t, p).value.1))
    requires rest != [] ==> Fits(tbl, Lookup(tbl, Layer(tbl, t, p).value.1).elem, rest)
    ensures var es := Layer(tbl, t, p).value.0; es != [] && WfTag(es) && Fits(tbl, t, es + rest)
  {
    var es := Layer(tbl, t, p).value.0;
    var all := es + rest;
    if |es| == 1 {
      assert all[1..] == rest;
    } else {
      assert rest == [] && all == es && es[1..] == [Entry(OPAQUE, [])];
    }
  }

  lemma {:induction false} LayersFit(tbl: Table, t: TypeId, parts: seq<Part>)
    requires Layers(tbl, t, parts).Ok?
    ensures Fits(tbl, t, Layers(tbl, t, parts).value)
    ensures WfTag(Layers(tbl, t, parts).value)
    decreases |parts|
  {
    if parts != [] {
      var (es, t') := Layer(tbl, t, parts[0]).value;
      if |parts| == 1 {
        LayerFits(tbl, t, parts[0], []);
        assert es + [] == es;
      } else {
        var rest := Layers(tbl, Lookup(tbl, t').elem, parts[1..]).value;
        LayersFit(tbl, Lookup(tbl, t').elem, parts[1..]);
        LayerFits(tbl, t, parts[0], rest);
      }
    }
  }

  /** The part of a parsed tag that talks about the field's type: all of it, or, in a union,
      everything after the leading union entry. */
  function TypePart(tag: StructTag, es: Tag): Tag
  {
    if tag.Parts? && tag.head != NoUnion then Tail(es) else es
  }

  lemma TrimmedLayersFit(tbl: Table, t: TypeId, h: Tag, es: Tag)
    requires |h| <= 1 && (h != [] ==> h[0].k != NOOP) && Fits(tbl, t, es)
    ensures h != [] ==> Trim(h + es) != [] && Trim(h + es)[0] == h[0] && Fits(tbl, t, Tail(Trim(h + es)))
    ensures h == [] ==> Fits(tbl, t, Trim(h + es))
  {
    var r := Trim(h + es);
    if h == [] {
      assert h + es == es;
      FitsPrefix(tbl, t, es, |r|);
      assert r == es[..|r|];
    } else {
      assert (h + es)[0] == h[0];
      assert |r| > 0 && r[0] == h[0];
      FitsPrefix(tbl, t, es, |r| - 1);
      assert Tail(r) == es[..|r| - 1];
    }
  }

  predicate IsUnionKind(k: byte) { k == UNION_SWITCH || k == UNION_DEFAULT || k == UNION_CASES }

  lemma UnionHeadIs(ty: Type, head: UnionPart, u: IsInUnion)
    requires UnionHead(ty, head, u).0.Ok? && Countable(Parts(head, []))
    ensures var h := UnionHead(ty, head, u).0.value;
      |h| <= 1 && WfTag(h) && (h == [] <==> head == NoUnion) && (h != [] ==> IsUnionKind(h[0].k))
  {
  }

  lemma FittingHead(tbl: Table, t: TypeId, es: Tag)
    requires Fits(tbl, t, es)
    ensures !IsUnionKind(KindOf(es)) && KindOf(es) != SKIP
  {
  }

  /** A successful parse gives a well-formed trimmed tag whose entries line up with the types below
      the field; its first entry is a union entry exactly when the tag has a union part. */
  lemma ParsedTagFits(tbl: Table, t: TypeId, tag: StructTag, u: IsInUnion)
    requires Countable(tag) && Parse(tbl, t, tag, u).0.Ok?
    ensures var es := Parse(tbl, t, tag, u).0.value;
      && WfTag(es) && IsTrimmed(es)
      && (tag.Dash? <==> KindOf(es) == SKIP)
      && (IsUnionKind(KindOf(es)) <==> tag.Parts? && tag.head != NoUnion)
      && (tag.Parts? ==> Fits(tbl, t, TypePart(tag, es)))
  {
    if tag.Parts? {
      UnionHeadIs(Lookup(tbl, t), tag.head, u);
      var h := UnionHead(Lookup(tbl, t), tag.head, u).0.value;
      var es := Layers(tbl, t, tag.layers).value;
      LayersFit(tbl, t, tag.layers);
      TrimKeepsWf(h + es);
      TrimmedLayersFit(tbl, t, h, es);
      if h == [] { FittingHead(tbl, t, Trim(h + es)); }
    }
  }

  /** Union membership is decided at most once, by the first field that is not skipped, and a
      decision is never revised. */
  lemma UnionDecidedOnce(tbl: Table, t: TypeId, tag: StructTag, u: IsInUnion)
    ensures u != MaybeInUnion ==> Parse(tbl, t, tag, u).1 == u
    ensures u == MaybeInUnion && Parse(tbl, t, tag, u).0.Ok? ==>
      (Parse(tbl, t, tag, u).1 == MaybeInUnion <==> tag.Dash?)
    ensures Parse(tbl, t, tag, u).0.Ok? && Parse(tbl, t, tag, u).1 == InUnion && tag.Parts? ==>
      tag.head != NoUnion && (tag.head == Switch <==> u == MaybeInUnion)
  {
  }

  // ---------------------------------------------------------------- the opaque shorthand

  /** The type reached by the parts of `parts`, each followed by a descent. */
  function Reached(tbl: Table, t: TypeId, parts: seq<Part>): Option<TypeId>
    decreases |parts|
  {
    if parts == [] then Some(t) else
    match Layer(tbl, t, parts[0])
    case Err(_) => None
    case Ok((_, t')) =>
      if HasElem(Lookup(tbl, t')) then Reached(tbl, Lookup(tbl, t').elem, parts[1..]) else None
  }

  /** After any prefix that reaches an array or slice of bytes, `opaque` and `/opaque` mean the same. */
  lemma {:induction false} OpaqueShorthand(tbl: Table, t: TypeId, prefix: seq<Part>)
    requires Reached(tbl, t, prefix).Some?
    requires var ty := Lookup(tbl, Reached(tbl, t, prefix).value);
      (ty.Array? || ty.Slice?) && IsOctet(Lookup(tbl, ty.elem))
    ensures Layers(tbl, t, prefix + [Opaque]).Ok?
    ensures Layers(tbl, t, prefix + [Opaque]) == Layers(tbl, t, prefix + [Blank, Opaque])
    decreases |prefix|
  {
    var one, two := prefix + [Opaque], prefix + [Blank, Opaque];
    if prefix == [] {
      assert one == [Opaque] && two == [Blank, Opaque];
      assert two[1..] == [Opaque];
      assert Layers(tbl, Lookup(tbl, t).elem, [Opaque]) == Ok([Entry(OPAQUE, [])]);
      assert [BLANK_ENTRY] + [Entry(OPAQUE, [])] == [BLANK_ENTRY, Entry(OPAQUE, [])];
    } else {
      assert one[0] == prefix[0] == two[0];
      assert one[1..] == prefix[1..] + [Opaque] && two[1..] == prefix[1..] + [Blank, Opaque];
      var t' := Layer(tbl, t, prefix[0]).value.1;
      OpaqueShorthand(tbl, Lookup(tbl, t').elem, prefix[1..]);
    }
  }

  /** The shorthand holds for whole struct tags too, inside and outside unions. */
  lemma OpaqueShorthandTag(tbl: Table, t: TypeId, head: UnionPart, prefix: seq<Part>, u: IsInUnion)
    requires Reached(tbl, t, prefix).Some?
    requires var ty := Lookup(tbl, Reached(tbl, t, prefix).value);
      (ty.Array? || ty.Slice?) && IsOctet(Lookup(tbl, ty.elem))
    ensures Parse(tbl, t, Parts(head, prefix + [Opaque]), u)
         == Parse(tbl, t, Parts(head, prefix + [Blank, Opaque]), u)
  {
    OpaqueShorthand(tbl, t, prefix);
  }
}
