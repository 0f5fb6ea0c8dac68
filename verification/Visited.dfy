/** Which places of a value its codec visits: values that agree there are encoded alike, and only those;
    `Canon` keeps these places and no others. */
module Visited {
  import opened Words
  import opened Codecs
  import opened RoundTrips
  import opened Normalise
  import opened Maps

  // ---------------------------------------------------------------- agreement

  /** `v` and `w` are the same at every place the codec visits: not in skipped fields, nor in union arms other
      than the selected one. */
  predicate Agree<R(==)>(g: Graph<R>, r: R, v: Value, w: Value)
    decreases v, 3
  {
    AgreeBy(g, Target(g, r), v, w)
  }

  predicate AgreeBy<R(==)>(g: Graph<R>, n: Node<R>, v: Value, w: Value)
    decreases v, if n.OptCodec? then 2 else 1
  {
    match n
    case OptCodec(elem) =>
      if v.VRef? && w.VRef? && !Target(g, elem).OptCodec? then AgreeBy(g, Target(g, elem), v, w) else v == w
    case PtrCodec(elem) => if v.VRef? && w.VRef? then Agree(g, elem, v.target, w.target) else v == w
    case ArrayCodec(_, elem) => if v.VList? && w.VList? then AgreeItems(g, elem, v.elems, w.elems) else v == w
    case SliceCodec(_, elem) => if v.VList? && w.VList? then AgreeItems(g, elem, v.elems, w.elems) else v == w
    case StructCodec(_, _, fields) =>
      if v.VRec? && w.VRec? then |v.fields| == |w.fields| && AgreeFields(g, fields, v.fields, w.fields) else v == w
    case UnionCodec(_, _, sw, kind, body, cases, default) =>
      if !(v.VRec? && w.VRec? && |v.fields| == |w.fields| && sw.index < |v.fields|) then v == w
      else
        && AgreeField(g, sw, v.fields, w.fields)
        && (match SwitchKey(kind, v.fields[sw.index])
            case None => v == w
            case Some(key) =>
              var arm := Arm(cases, default, key);
              if arm in body then AgreeField(g, body[arm], v.fields, w.fields) else v == w)
    case _ => v == w
  }

  predicate AgreeItems<R(==)>(g: Graph<R>, a: R, vs: seq<Value>, ws: seq<Value>)
    decreases vs, 4
  {
    |vs| == |ws| && (vs != [] ==> Agree(g, a, vs[0], ws[0]) && AgreeItems(g, a, vs[1..], ws[1..]))
  }

  predicate AgreeField<R(==)>(g: Graph<R>, f: Field<R>, vals: seq<Value>, others: seq<Value>)
    requires |vals| == |others|
    decreases vals, 0
  {
    f.index < |vals| ==> Agree(g, f.codec, vals[f.index], others[f.index])
  }

  predicate AgreeFields<R(==)>(g: Graph<R>, fields: seq<Field<R>>, vals: seq<Value>, others: seq<Value>)
    requires |vals| == |others|
    decreases vals, 1 + |fields|
  {
    fields != [] ==> AgreeField(g, fields[0], vals, others) && AgreeFields(g, fields[1..], vals, others)
  }

  // ---------------------------------------------------------------- what canonical forms keep

  /** Canonical forms keep the kind of a value, and numbers and booleans altogether. */
  lemma {:induction false} CanonKind<R>(g: Graph<R>, n: Node<R>, v: Value)
    ensures var c := CanonBy(g, n, v);
      && (v.VBool? || v.VNum? || c.VBool? || c.VNum? ==> c == v)
      && (c.VNil? <==> v.VNil?) && (c.VRef? <==> v.VRef?) && (c.VList? <==> v.VList?) && (c.VRec? <==> v.VRec?)
      && (v.VRec? ==> |c.fields| == |v.fields|)
    decreases if n.OptCodec? then 1 else 0
  {
    hide Canon, CanonItems, CanonFields, CanonField, Merge;
    if n.OptCodec? && !Target(g, n.elem).OptCodec? { CanonKind(g, Target(g, n.elem), v); }
  }

  lemma {:induction false} AgreeKind<R>(g: Graph<R>, n: Node<R>, v: Value, w: Value)
    requires AgreeBy(g, n, v, w)
    ensures v.VBool? || v.VNum? || w.VBool? || w.VNum? ==> v == w
  {
  }

  /** Two values have the same canonical form if and only if they agree wherever the codec looks. */
  lemma {:induction false} CanonIff<R>(g: Graph<R>, part: set<R>, n: Node<R>, v: Value, w: Value)
    requires Regular(g, part) && RegularNode(g, part, n)
    ensures CanonBy(g, n, v) == CanonBy(g, n, w) <==> AgreeBy(g, n, v, w)
    decreases v, if n.OptCodec? then 2 else 1
  {
    CanonKind(g, n, v);
    CanonKind(g, n, w);
    if n.OptCodec? {
      TargetRegular(g, part, n.elem);
      if v.VRef? && w.VRef? { CanonIff(g, part, Target(g, n.elem), v, w); }
    } else if n.PtrCodec? {
      TargetRegular(g, part, n.elem);
      if v.VRef? && w.VRef? { CanonIff(g, part, Target(g, n.elem), v.target, w.target); }
    } else if n.ArrayCodec? || n.SliceCodec? {
      if v.VList? && w.VList? { ItemsIff(g, part, n.elem, v.elems, w.elems); }
    } else if n.StructCodec? {
      if v.VRec? && w.VRec? && |v.fields| == |w.fields| {
        FieldsIff(g, part, n.fields, v.fields, w.fields, Untouched(|v.fields|));
      }
    } else if n.UnionCodec? {
      UnionIff(g, part, n, v, w);
    }
  }

  lemma {:induction false} ItemsIff<R>(g: Graph<R>, part: set<R>, a: R, vs: seq<Value>, ws: seq<Value>)
    requires Regular(g, part) && a in part
    ensures CanonItems(g, a, a, vs) == CanonItems(g, a, a, ws) <==> AgreeItems(g, a, vs, ws)
    decreases vs, 4
  {
    hide CanonBy, AgreeBy, Regular;
    if |vs| == |ws| && vs != [] {
      TargetRegular(g, part, a);
      CanonIff(g, part, Target(g, a), vs[0], ws[0]);
      ItemsIff(g, part, a, vs[1..], ws[1..]);
      var c, d := CanonItems(g, a, a, vs), CanonItems(g, a, a, ws);
      assert c[0] == Canon(g, a, vs[0]) && c[1..] == CanonItems(g, a, a, vs[1..]);
      assert d[0] == Canon(g, a, ws[0]) && d[1..] == CanonItems(g, a, a, ws[1..]);
      assert c == [c[0]] + c[1..] && d == [d[0]] + d[1..];
    }
  }

  lemma {:induction false} FieldIff<R>(g: Graph<R>, part: set<R>, f: Field<R>, vals: seq<Value>, others: seq<Value>)
    requires Regular(g, part) && f.codec in part && f.index < |vals| == |others|
    ensures Canon(g, f.codec, vals[f.index]) == Canon(g, f.codec, others[f.index]) <==> AgreeField(g, f, vals, others)
    decreases vals, 0
  {
    hide CanonBy, AgreeBy, Regular;
    TargetRegular(g, part, f.codec);
    CanonIff(g, part, Target(g, f.codec), vals[f.index], others[f.index]);
  }

  /** The slots of the listed fields get their canonical forms, the others keep what was there. */
  lemma {:induction false} CanonSlot<R>(g: Graph<R>, fields: seq<Field<R>>, vals: seq<Value>, acc: seq<Value>, i: nat)
    requires |vals| == |acc| && i < |acc| && (forall f :: f in fields ==> f.index != i)
    ensures CanonFields(g, fields, vals, acc)[i] == acc[i]
    decreases |fields|
  {
    hide Canon;
    if fields != [] { CanonSlot(g, fields[1..], vals, CanonField(g, fields[0], vals, acc), i); }
  }

  lemma {:induction false} CanonAt<R>(g: Graph<R>, fields: seq<Field<R>>, vals: seq<Value>, acc: seq<Value>, k: nat)
    requires |vals| == |acc| && k < |fields| && fields[k].index < |vals|
    requires forall i, j :: 0 <= i < j < |fields| ==> fields[i].index != fields[j].index
    ensures CanonFields(g, fields, vals, acc)[fields[k].index] == Canon(g, fields[k].codec, vals[fields[k].index])
    decreases |fields|
  {
    hide Canon;
    var acc' := CanonField(g, fields[0], vals, acc);
    if k == 0 {
      CanonSlot(g, fields[1..], vals, acc', fields[0].index);
    } else {
      CanonAt(g, fields[1..], vals, acc', k - 1);
    }
  }

  lemma {:induction false} AgreeEach<R>(g: Graph<R>, fields: seq<Field<R>>, vals: seq<Value>, others: seq<Value>)
    requires |vals| == |others|
    ensures AgreeFields(g, fields, vals, others)
       <==> forall k :: 0 <= k < |fields| ==> AgreeField(g, fields[k], vals, others)
    decreases |fields|
  {
    hide AgreeField;
    if fields != [] {
      AgreeEach(g, fields[1..], vals, others);
      assert forall k :: 1 <= k < |fields| ==> fields[k] == fields[1..][k - 1];
    }
  }

  lemma {:induction false} FieldsIff<R>(g: Graph<R>, part: set<R>, fields: seq<Field<R>>, vals: seq<Value>,
                                        others: seq<Value>, acc: seq<Value>)
    requires Regular(g, part) && FieldsWithin(fields, part) && |vals| == |others| == |acc|
    requires forall i, j :: 0 <= i < j < |fields| ==> fields[i].index != fields[j].index
    ensures CanonFields(g, fields, vals, acc) == CanonFields(g, fields, others, acc)
      <==> AgreeFields(g, fields, vals, others)
    decreases vals, 1
  {
    hide Regular, Canon, CanonFields, AgreeFields;
    var c, d := CanonFields(g, fields, vals, acc), CanonFields(g, fields, others, acc);
    forall k | 0 <= k < |fields|
      ensures fields[k].index >= |vals| ==> AgreeField(g, fields[k], vals, others)
      ensures fields[k].index < |vals| ==>
        (c[fields[k].index] == d[fields[k].index] <==> AgreeField(g, fields[k], vals, others))
    {
      if fields[k].index < |vals| {
        CanonAt(g, fields, vals, acc, k);
        CanonAt(g, fields, others, acc, k);
        FieldIff(g, part, fields[k], vals, others);
      }
    }
    AgreeEach(g, fields, vals, others);
    forall i | 0 <= i < |c| && AgreeFields(g, fields, vals, others) ensures c[i] == d[i] {
      if forall f :: f in fields ==> f.index != i {
        CanonSlot(g, fields, vals, acc, i);
        CanonSlot(g, fields, others, acc, i);
      }
    }
  }

  /** A union's canonical form, given its arm. */
  lemma UnionCanon<R>(g: Graph<R>, n: Node<R>, vals: seq<Value>)
    requires n.UnionCodec? && WellIndexed(n) && n.switch.index < |vals|
    ensures var c := CanonBy(g, n, VRec(vals)); var key := SwitchKey(n.kind, vals[n.switch.index]);
      c.VRec? && |c.fields| == |vals|
      && if key.None? || Arm(n.cases, n.default, key.value) !in n.body then c == VRec(vals) else
         var f := n.body[Arm(n.cases, n.default, key.value)];
         && c.fields[n.switch.index] == Canon(g, n.switch.codec, vals[n.switch.index])
         && (f.index < |vals| ==> c.fields[f.index] == Canon(g, f.codec, vals[f.index]))
         && forall i :: 0 <= i < |vals| && i != n.switch.index && i != f.index ==> c.fields[i] == VUnset
  {
    hide Canon;
  }

  lemma {:induction false} UnionIff<R>(g: Graph<R>, part: set<R>, n: Node<R>, v: Value, w: Value)
    requires Regular(g, part) && RegularNode(g, part, n) && n.UnionCodec?
    ensures CanonBy(g, n, v) == CanonBy(g, n, w) <==> AgreeBy(g, n, v, w)
    decreases v, 0
  {
    hide Regular, Canon, AgreeField;
    if v.VRec? && w.VRec? && |v.fields| == |w.fields| && n.switch.index < |v.fields| {
      hide CanonBy;
      var x, y := v.fields[n.switch.index], w.fields[n.switch.index];
      UnionCanon(g, n, v.fields);
      UnionCanon(g, n, w.fields);
      FieldIff(g, part, n.switch, v.fields, w.fields);
      SwitchKept(g, n.switch.codec, n.kind, x, y);
      var key := SwitchKey(n.kind, x);
      if key.Some? && Arm(n.cases, n.default, key.value) in n.body {
        var f := n.body[Arm(n.cases, n.default, key.value)];
        if f.index < |v.fields| {
          FieldIff(g, part, f, v.fields, w.fields);
        } else {
          Outside(g, f, v.fields, w.fields);
        }
      }
    }
  }

  lemma Outside<R>(g: Graph<R>, f: Field<R>, vals: seq<Value>, others: seq<Value>)
    requires |vals| == |others| <= f.index
    ensures AgreeField(g, f, vals, others)
  {
  }

  /** Switches with the same canonical form select the same arm; one that has a case key is its own form. */
  lemma SwitchKept<R>(g: Graph<R>, r: R, kind: SwitchKind, x: Value, y: Value)
    ensures Canon(g, r, x) == Canon(g, r, y) ==> SwitchKey(kind, x) == SwitchKey(kind, y)
    ensures SwitchKey(kind, x).Some? ==> Canon(g, r, x) == x
    ensures SwitchKey(kind, y).Some? ==> Canon(g, r, y) == y
    ensures SwitchKey(kind, x).Some? && Canon(g, r, y) == x ==> y == x
  {
    hide CanonBy;
    CanonKind(g, Target(g, r), x);
    CanonKind(g, Target(g, r), y);
  }

  /** The canonical form agrees with the value wherever the codec looks. */
  lemma {:induction false} CanonAgrees<R>(g: Graph<R>, part: set<R>, n: Node<R>, v: Value)
    requires Regular(g, part) && RegularNode(g, part, n)
    ensures AgreeBy(g, n, v, CanonBy(g, n, v))
    decreases v, if n.OptCodec? then 2 else 1
  {
    hide Regular, CanonItems, CanonFields, AgreeItems, AgreeFields;
    CanonKind(g, n, v);
    if n.OptCodec? {
      TargetRegular(g, part, n.elem);
      if v.VRef? { CanonAgrees(g, part, Target(g, n.elem), v); }
    } else if n.PtrCodec? {
      TargetRegular(g, part, n.elem);
      if v.VRef? { CanonAgrees(g, part, Target(g, n.elem), v.target); }
    } else if n.ArrayCodec? || n.SliceCodec? {
      if v.VList? { CanonItemsAgree(g, part, n.elem, v.elems); }
    } else if n.StructCodec? {
      if v.VRec? { CanonFieldsAgree(g, part, n.fields, v.fields, Untouched(|v.fields|)); }
    } else if n.UnionCodec? {
      CanonUnionAgrees(g, part, n, v);
    }
  }

  lemma {:induction false} CanonItemsAgree<R>(g: Graph<R>, part: set<R>, a: R, vs: seq<Value>)
    requires Regular(g, part) && a in part
    ensures AgreeItems(g, a, vs, CanonItems(g, a, a, vs))
    decreases vs, 4
  {
    hide CanonBy, AgreeBy, Regular;
    if vs != [] {
      TargetRegular(g, part, a);
      CanonAgrees(g, part, Target(g, a), vs[0]);
      CanonItemsAgree(g, part, a, vs[1..]);
      assert CanonItems(g, a, a, vs)[1..] == CanonItems(g, a, a, vs[1..]);
    }
  }

  lemma {:induction false} CanonFieldAgrees<R>(g: Graph<R>, part: set<R>, f: Field<R>, vals: seq<Value>,
                                                kept: seq<Value>)
    requires Regular(g, part) && f.codec in part && |vals| == |kept|
    requires f.index < |vals| ==> kept[f.index] == Canon(g, f.codec, vals[f.index])
    ensures AgreeField(g, f, vals, kept)
    decreases vals, 0
  {
    hide CanonBy, AgreeBy, Regular;
    if f.index < |vals| {
      TargetRegular(g, part, f.codec);
      CanonAgrees(g, part, Target(g, f.codec), vals[f.index]);
    }
  }

  lemma {:induction false} CanonFieldsAgree<R>(g: Graph<R>, part: set<R>, fields: seq<Field<R>>, vals: seq<Value>,
                                                acc: seq<Value>)
    requires Regular(g, part) && FieldsWithin(fields, part) && |vals| == |acc|
    requires forall i, j :: 0 <= i < j < |fields| ==> fields[i].index != fields[j].index
    ensures AgreeFields(g, fields, vals, CanonFields(g, fields, vals, acc))
    decreases vals, 1
  {
    hide Regular, Canon, CanonFields, AgreeFields, AgreeField;
    var kept := CanonFields(g, fields, vals, acc);
    AgreeEach(g, fields, vals, kept);
    forall k | 0 <= k < |fields| ensures AgreeField(g, fields[k], vals, kept) {
      if fields[k].index < |vals| { CanonAt(g, fields, vals, acc, k); }
      CanonFieldAgrees(g, part, fields[k], vals, kept);
    }
  }

  lemma {:induction false} CanonUnionAgrees<R>(g: Graph<R>, part: set<R>, n: Node<R>, v: Value)
    requires Regular(g, part) && RegularNode(g, part, n) && n.UnionCodec?
    ensures AgreeBy(g, n, v, CanonBy(g, n, v))
    decreases v, 0
  {
    hide Regular, Canon, AgreeField;
    if v.VRec? && n.switch.index < |v.fields| {
      hide CanonBy;
      var x, c := v.fields[n.switch.index], CanonBy(g, n, v);
      UnionCanon(g, n, v.fields);
      var key := SwitchKey(n.kind, x);
      if key.Some? && Arm(n.cases, n.default, key.value) in n.body {
        CanonFieldAgrees(g, part, n.switch, v.fields, c.fields);
        CanonFieldAgrees(g, part, n.body[Arm(n.cases, n.default, key.value)], v.fields, c.fields);
      } else {
        AgreesWithItself(g, part, n.switch, v.fields);
      }
    }
  }

  lemma {:induction false} AgreesWithItself<R>(g: Graph<R>, part: set<R>, f: Field<R>, vals: seq<Value>)
    requires Regular(g, part) && f.codec in part
    ensures AgreeField(g, f, vals, vals)
  {
    hide Regular;
    if f.index < |vals| { FieldIff(g, part, f, vals, vals); }
  }

  // ---------------------------------------------------------------- what encodings depend on

  /** Values that agree are encoded alike, errors and their paths included. */
  lemma {:induction false} AgreeingEncodeAlike<R>(g: Graph<R>, n: Node<R>, v: Value, w: Value)
    requires AgreeBy(g, n, v, w)
    ensures EncodeBy(g, n, v) == EncodeBy(g, n, w)
    decreases v, if n.OptCodec? then 2 else 1
  {
    hide EncodeItems, EncodeFields, EncodeField, AgreeItems, AgreeFields, AgreeField, EncodePrim, EncodeOpaque;
    if n.OptCodec? {
      if v.VRef? && w.VRef? && !Target(g, n.elem).OptCodec? { AgreeingEncodeAlike(g, Target(g, n.elem), v, w); }
    } else if n.PtrCodec? {
      if v.VRef? && w.VRef? { AgreeingEncodeAlike(g, Target(g, n.elem), v.target, w.target); }
    } else if n.ArrayCodec? || n.SliceCodec? {
      if v.VList? && w.VList? { ItemsAlike(g, n.elem, v.elems, w.elems); }
    } else if n.StructCodec? {
      if v.VRec? && w.VRec? { FieldsAlike(g, n.name, n.fields, v.fields, w.fields); }
    } else if n.UnionCodec? {
      UnionAlike(g, n, v, w);
    }
  }

  lemma {:induction false} ItemsAlike<R>(g: Graph<R>, a: R, vs: seq<Value>, ws: seq<Value>)
    requires AgreeItems(g, a, vs, ws)
    ensures |vs| == |ws| && EncodeItems(g, a, a, vs) == EncodeItems(g, a, a, ws)
    decreases vs, 4
  {
    hide EncodeBy, AgreeBy;
    if vs != [] {
      AgreeingEncodeAlike(g, Target(g, a), vs[0], ws[0]);
      ItemsAlike(g, a, vs[1..], ws[1..]);
    }
  }

  lemma {:induction false} FieldAlike<R>(g: Graph<R>, name: string, note: Note, f: Field<R>, vals: seq<Value>,
                                         others: seq<Value>)
    requires |vals| == |others| && AgreeField(g, f, vals, others)
    ensures EncodeField(g, name, note, f, vals) == EncodeField(g, name, note, f, others)
    decreases vals, 0
  {
    hide EncodeBy, AgreeBy;
    if f.index < |vals| { AgreeingEncodeAlike(g, Target(g, f.codec), vals[f.index], others[f.index]); }
  }

  lemma {:induction false} FieldsAlike<R>(g: Graph<R>, name: string, fields: seq<Field<R>>, vals: seq<Value>,
                                          others: seq<Value>)
    requires |vals| == |others| && AgreeFields(g, fields, vals, others)
    ensures EncodeFields(g, name, fields, vals) == EncodeFields(g, name, fields, others)
    decreases vals, 1 + |fields|
  {
    hide EncodeField, AgreeField;
    if fields != [] {
      FieldAlike(g, name, NoNote, fields[0], vals, others);
      FieldsAlike(g, name, fields[1..], vals, others);
    }
  }

  lemma {:induction false} UnionAlike<R>(g: Graph<R>, n: Node<R>, v: Value, w: Value)
    requires n.UnionCodec? && AgreeBy(g, n, v, w)
    ensures EncodeBy(g, n, v) == EncodeBy(g, n, w)
    decreases v, 0
  {
    hide EncodeField, AgreeField;
    if v.VRec? && w.VRec? && |v.fields| == |w.fields| && n.switch.index < |v.fields| {
      var x, y := v.fields[n.switch.index], w.fields[n.switch.index];
      FieldAlike(g, n.name, AtSwitch, n.switch, v.fields, w.fields);
      SwitchAgrees(g, n.switch, n.kind, v.fields, w.fields);
      var key := SwitchKey(n.kind, x);
      if key.Some? && Arm(n.cases, n.default, key.value) in n.body {
        FieldAlike(g, n.name, AtArm(key.value), n.body[Arm(n.cases, n.default, key.value)], v.fields, w.fields);
      }
    }
  }

  lemma SwitchAgrees<R>(g: Graph<R>, f: Field<R>, kind: SwitchKind, vals: seq<Value>, others: seq<Value>)
    requires f.index < |vals| == |others| && AgreeField(g, f, vals, others)
    ensures SwitchKey(kind, vals[f.index]) == SwitchKey(kind, others[f.index])
  {
    hide AgreeBy;
    AgreeKind(g, Target(g, f.codec), vals[f.index], others[f.index]);
  }

  // ---------------------------------------------------------------- the main results

  /** What is lost between a value and its canonical form is never written: both encode alike, and they agree
      at every place the codec visits. */
  lemma CanonLosesNothing<R>(g: Graph<R>, part: set<R>, r: R, v: Value)
    requires Regular(g, part) && r in part
    ensures Agree(g, r, v, Canon(g, r, v)) && Encode(g, r, Canon(g, r, v)) == Encode(g, r, v)
  {
    hide Regular, CanonBy, AgreeBy, EncodeBy;
    TargetRegular(g, part, r);
    CanonAgrees(g, part, Target(g, r), v);
    AgreeingEncodeAlike(g, Target(g, r), v, Canon(g, r, v));
  }

  /** Values that can be encoded have the same encoding if and only if they agree at every place the codec
      visits. */
  lemma SameBytesIff<R>(g: Graph<R>, part: set<R>, r: R, v: Value, w: Value)
    requires Regular(g, part) && r in part && Encode(g, r, v).err == None && Encode(g, r, w).err == None
    ensures Encode(g, r, v) == Encode(g, r, w) <==> Agree(g, r, v, w)
  {
    hide Regular, Canon, EncodeBy, AgreeBy;
    TargetRegular(g, part, r);
    if Encode(g, r, v) == Encode(g, r, w) {
      EncodingsAreUnambiguous(g, r, v, w, [], []);
      SameCanon(g, part, r, v, w);
    } else if Agree(g, r, v, w) {
      AgreeingEncodeAlike(g, Target(g, r), v, w);
    }
  }

  lemma SameCanon<R>(g: Graph<R>, part: set<R>, r: R, v: Value, w: Value)
    requires Regular(g, part) && r in part && Canon(g, r, v) == Canon(g, r, w)
    ensures Agree(g, r, v, w)
  {
    hide Regular, CanonBy, AgreeBy;
    TargetRegular(g, part, r);
    CanonIff(g, part, Target(g, r), v, w);
  }

  /** Keys of a map stay apart on the wire if and only if any two differ at some place the key codec visits. */
  lemma KeysApartIff<R>(g: Graph<R>, part: set<R>, key: R, m: map<Value, Value>)
    requires Regular(g, part) && key in part
    ensures KeysStayApart(g, key, m) <==> forall x, y :: x in m && y in m && Agree(g, key, x, y) ==> x == y
  {
    hide Regular, CanonBy, AgreeBy;
    TargetRegular(g, part, key);
    forall x, y | x in m && y in m ensures Canon(g, key, x) == Canon(g, key, y) <==> Agree(g, key, x, y) {
      CanonIff(g, part, Target(g, key), x, y);
    }
  }
}
