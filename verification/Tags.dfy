/** The byte form of a decoded struct tag: a self-delimiting list of entries, usable as a cache key. */
module Tags {
  import opened Words

  const NOOP: byte := 0
  const SKIP: byte := 1
  const OPT: byte := 2
  const OPAQUE: byte := 3
  const UNION_SWITCH: byte := 4
  const UNION_DEFAULT: byte := 5
  const LEN: byte := 0x86
  const MAX_LEN: byte := 0x87
  const UNION_CASES: byte := 0xC8

  /** One entry: its kind and its values. The two top bits of the kind fix how many values it has. */
  datatype Entry = Entry(k: byte, vs: seq<u32>)

  type Tag = seq<Entry>

  const BLANK_ENTRY: Entry := Entry(NOOP, [])

  predicate WfEntry(e: Entry)
  {
    if e.k < 0x80 then |e.vs| == 0
    else if e.k < 0xC0 then |e.vs| == 1
    else |e.vs| < 0x1_0000_0000
  }

  predicate WfTag(es: Tag) { forall e :: e in es ==> WfEntry(e) }

  // ---------------------------------------------------------------- the format

  function ValuesBytes(vs: seq<u32>): (b: seq<byte>)
    ensures |b| == 4 * |vs|
  {
    if vs == [] then [] else WordBytes(vs[0]) + ValuesBytes(vs[1..])
  }

  /** The header of an entry: its kind byte and, for a multi-valued one, its count. */
  function HeaderBytes(e: Entry): (h: seq<byte>)
    requires WfEntry(e)
    ensures |h| == if e.k < 0xC0 then 1 else 5
  {
    if e.k < 0xC0 then [e.k] else [e.k] + WordBytes(|e.vs|)
  }

  function EntryBytes(e: Entry): seq<byte>
    requires WfEntry(e)
  {
    HeaderBytes(e) + ValuesBytes(e.vs)
  }

  function TagBytes(es: Tag): seq<byte>
    requires WfTag(es)
  {
    if es == [] then [] else EntryBytes(es[0]) + TagBytes(es[1..])
  }

  // ---------------------------------------------------------------- reading the bytes

  /** Go's `valAt`; out of range is a panic there, a precondition here. */
  function ValAt(t: seq<byte>, offs: nat): u32
    requires offs + 4 <= |t|
  {
    WordAt(t[offs..])
  }

  /** The first entry of `t` is complete, so that no read of it runs off the end. */
  predicate HeadFits(t: seq<byte>)
  {
    if |t| == 0 || t[0] < 0x80 then true
    else if t[0] < 0xC0 then |t| >= 5
    else |t| >= 5 && |t| >= 5 + ValAt(t, 1) * 4
  }

  function Kind(t: seq<byte>): byte { if |t| > 0 then t[0] else NOOP }

  function ThisLen(t: seq<byte>): (n: nat)
    requires HeadFits(t)
    ensures n <= |t| && (n == 0 <==> t == [])
  {
    if |t| == 0 then 0
    else if t[0] < 0x80 then 1
    else if t[0] < 0xC0 then 5
    else 5 + ValAt(t, 1) * 4
  }

  function Next(t: seq<byte>): seq<byte>
    requires HeadFits(t)
  {
    t[ThisLen(t)..]
  }

  /** First and one-past-last index to hand to `Value`. */
  function ValueRange(t: seq<byte>): (int, int)
    requires |t| > 0 && HeadFits(t)
  {
    if t[0] < 0x80 then (0, 0)
    else if t[0] < 0xC0 then (0, 1)
    else (1, 1 + ValAt(t, 1))
  }

  function Value(t: seq<byte>, n: nat): u32
    requires 5 + 4 * n <= |t|
  {
    ValAt(t, 1 + 4 * n)
  }

  lemma {:induction false} ValuesBytesAt(vs: seq<u32>, rest: seq<byte>, j: nat)
    requires j < |vs|
    ensures 4 * j + 4 <= |ValuesBytes(vs) + rest|
    ensures WordAt((ValuesBytes(vs) + rest)[4 * j..]) == vs[j]
  {
    var b := ValuesBytes(vs) + rest;
    assert b == WordBytes(vs[0]) + (ValuesBytes(vs[1..]) + rest);
    if j == 0 {
      WordRoundTrip(vs[0], ValuesBytes(vs[1..]) + rest);
      assert b[0..] == b;
    } else {
      ValuesBytesAt(vs[1..], rest, j - 1);
      assert b[4 * j..] == (ValuesBytes(vs[1..]) + rest)[4 * (j - 1)..];
    }
  }

  lemma Drop<T>(a: seq<T>, b: seq<T>)
    ensures (a + b)[|a|..] == b
  {
  }

  lemma HeaderReads(e: Entry, body: seq<byte>)
    requires WfEntry(e) && |body| >= 4 * |e.vs|
    ensures var t := HeaderBytes(e) + body;
      && HeadFits(t) && Kind(t) == e.k
      && ThisLen(t) == |HeaderBytes(e)| + 4 * |e.vs|
      && ValueRange(t) == if e.k < 0x80 then (0, 0) else if e.k < 0xC0 then (0, 1) else (1, 1 + |e.vs|)
  {
    if e.k >= 0xC0 {
      var t := HeaderBytes(e) + body;
      assert t[1..] == WordBytes(|e.vs|) + body;
      WordRoundTrip(|e.vs|, body);
    }
  }

  lemma ValueReads(e: Entry, rest: seq<byte>, j: nat)
    requires WfEntry(e) && j < |e.vs|
    ensures var t, n := HeaderBytes(e) + (ValuesBytes(e.vs) + rest), if e.k < 0xC0 then j else 1 + j;
      5 + 4 * n <= |t| && Value(t, n) == e.vs[j]
  {
    var h, body := HeaderBytes(e), ValuesBytes(e.vs) + rest;
    ValuesBytesAt(e.vs, rest, j);
    assert (h + body)[|h| + 4 * j..] == body[4 * j..];
  }

  lemma TagBytesUnfold(es: Tag)
    requires WfTag(es) && es != []
    ensures TagBytes(es) == HeaderBytes(es[0]) + (ValuesBytes(es[0].vs) + TagBytes(es[1..]))
  {
    Assoc(HeaderBytes(es[0]), ValuesBytes(es[0].vs), TagBytes(es[1..]));
  }

  /** Reading at the head of a tag built from entries gives back the first entry: its kind, the
      number of its values, and the bytes of the remaining entries. */
  lemma HeadReads(es: Tag)
    requires WfTag(es) && es != []
    ensures var t := TagBytes(es);
      && |t| > 0 && HeadFits(t) && Kind(t) == es[0].k
      && Next(t) == TagBytes(es[1..])
      && 0 <= ValueRange(t).0 && ValueRange(t).1 == ValueRange(t).0 + |es[0].vs|
  {
    var e, rest := es[0], TagBytes(es[1..]);
    var h, vb := HeaderBytes(e), ValuesBytes(e.vs);
    TagBytesUnfold(es);
    HeaderReads(e, vb + rest);
    Drop(h + vb, rest);
  }

  /** ... and every one of its values, in order. */
  lemma HeadValueReads(es: Tag, j: nat)
    requires WfTag(es) && es != [] && j < |es[0].vs|
    ensures var t := TagBytes(es);
      && |t| > 0 && HeadFits(t) && 0 <= ValueRange(t).0 + j
      && 5 + 4 * (ValueRange(t).0 + j) <= |t| && Value(t, ValueRange(t).0 + j) == es[0].vs[j]
  {
    var e, rest := es[0], TagBytes(es[1..]);
    TagBytesUnfold(es);
    HeaderReads(e, ValuesBytes(e.vs) + rest);
    ValueReads(e, rest, j);
  }

  /** The values at indices `lo` to `hi`. */
  function Values(t: seq<byte>, lo: nat, hi: nat): seq<u32>
    requires lo <= hi && (lo < hi ==> 1 + 4 * hi <= |t|)
    decreases hi - lo
  {
    if lo == hi then [] else [Value(t, lo)] + Values(t, lo + 1, hi)
  }

  lemma {:induction false} ValuesRead(es: Tag, j: nat)
    requires WfTag(es) && es != [] && j <= |es[0].vs|
    ensures var t := TagBytes(es); |t| > 0 && HeadFits(t)
    ensures var t, (lo, hi) := TagBytes(es), ValueRange(TagBytes(es));
      && 0 <= lo <= lo + j <= hi && (lo + j < hi ==> 1 + 4 * hi <= |t|)
      && Values(t, lo + j, hi) == es[0].vs[j..]
    decreases |es[0].vs| - j
  {
    HeadReads(es);
    if j < |es[0].vs| {
      HeadValueReads(es, j);
      ValuesRead(es, j + 1);
      if j + 1 == |es[0].vs| { HeadValueReads(es, j); }
      assert es[0].vs[j..] == [es[0].vs[j]] + es[0].vs[j + 1..];
    }
  }

  /** Walks a tag with `Kind`, `ValueRange`, `Value` and `Next`, collecting entries;
      None when a read would run off the end. */
  function Entries(t: seq<byte>): Option<Tag>
    decreases |t|
  {
    if t == [] then Some([])
    else if !HeadFits(t) then None
    else
      var (lo, hi) := ValueRange(t);
      var rest := Entries(Next(t));
      if rest.Some? then Some([Entry(Kind(t), Values(t, lo, hi))] + rest.value) else None
  }

  /** The format loses nothing: iterating the bytes of a list of entries yields the list. */
  lemma {:induction false} EntriesRoundTrip(es: Tag)
    requires WfTag(es)
    ensures Entries(TagBytes(es)) == Some(es)
  {
    if es != [] {
      HeadReads(es);
      EntriesRoundTrip(es[1..]);
      ValuesRead(es, 0);
      assert es == [es[0]] + es[1..];
    }
  }

  /** Two different tags never share a codec cache key. */
  lemma KeysAreDistinct(a: Tag, b: Tag)
    requires WfTag(a) && WfTag(b)
    ensures TagBytes(a) == TagBytes(b) <==> a == b
  {
    EntriesRoundTrip(a);
    EntriesRoundTrip(b);
  }

  // ---------------------------------------------------------------- building

  lemma {:induction false} ValuesBytesSnoc(vs: seq<u32>, v: u32)
    ensures ValuesBytes(vs + [v]) == ValuesBytes(vs) + WordBytes(v)
  {
    if vs == [] {
      assert [v][1..] == [];
    } else {
      assert (vs + [v])[1..] == vs[1..] + [v];
      ValuesBytesSnoc(vs[1..], v);
    }
  }

  lemma {:induction false} TagBytesConcat(a: Tag, b: Tag)
    requires WfTag(a) && WfTag(b)
    ensures TagBytes(a + b) == TagBytes(a) + TagBytes(b)
  {
    if a == [] {
      assert a + b == b;
    } else {
      assert (a + b)[1..] == a[1..] + b;
      TagBytesConcat(a[1..], b);
    }
  }

  /** The value loop of `Append`. */
  method AppendAll(tb: seq<byte>, values: seq<u32>) returns (r: seq<byte>)
    ensures r == tb + ValuesBytes(values)
  {
    r := tb;
    var i := 0;
    while i < |values|
      invariant 0 <= i <= |values|
      invariant r == tb + ValuesBytes(values[..i])
    {
      ValuesBytesSnoc(values[..i], values[i]);
      assert values[..i + 1] == values[..i] + [values[i]];
      r := r + WordBytes(values[i]);
      i := i + 1;
    }
    assert values[..i] == values;
  }

  /** Appends one entry. The wrong number of values for the kind is a panic in the source. */
  method Append(t: seq<byte>, k: byte, values: seq<u32>, ghost es: Tag) returns (r: seq<byte>)
    requires WfTag(es) && t == TagBytes(es)
    requires WfEntry(Entry(k, values))
    ensures WfTag(es + [Entry(k, values)]) && r == TagBytes(es + [Entry(k, values)])
  {
    AppendIs(es, Entry(k, values));
    if k < 0x80 {
      r := t + [k];
    } else if k < 0xC0 {
      assert ValuesBytes(values) == WordBytes(values[0]) by { assert values[1..] == []; }
      r := t + [k] + WordBytes(values[0]);
    } else {
      r := AppendAll(t + ([k] + WordBytes(|values|)), values);
    }
  }

  lemma AppendIs(es: Tag, e: Entry)
    requires WfTag(es) && WfEntry(e)
    ensures WfTag(es + [e])
    ensures TagBytes(es + [e]) == TagBytes(es) + HeaderBytes(e) + ValuesBytes(e.vs)
  {
    TagBytesConcat(es, [e]);
    assert [e][1..] == [];
    var t, h, vb := TagBytes(es), HeaderBytes(e), ValuesBytes(e.vs);
    assert t + (h + vb) == (t + h) + vb;
  }

  method Prepend(t: seq<byte>, k: byte, values: seq<u32>, ghost es: Tag) returns (r: seq<byte>)
    requires WfTag(es) && t == TagBytes(es)
    requires WfEntry(Entry(k, values))
    ensures WfTag([Entry(k, values)] + es) && r == TagBytes([Entry(k, values)] + es)
  {
    var nt := Append([], k, values, []);
    TagBytesConcat([Entry(k, values)], es);
    assert [] + [Entry(k, values)] == [Entry(k, values)];
    r := nt + t;
  }

  // ---------------------------------------------------------------- trimming

  predicate IsTrimmed(es: Tag) { es == [] || es[|es| - 1].k != NOOP }

  /** The entries without the trailing no-ops. */
  function Trim(es: Tag): (r: Tag)
    ensures IsTrimmed(r) && r <= es
    ensures forall i :: |r| <= i < |es| ==> es[i].k == NOOP
  {
    if IsTrimmed(es) then es else Trim(es[..|es| - 1])
  }

  /** The two facts in `Trim`'s contract leave it no choice. */
  lemma TrimIsUnique(es: Tag, r: Tag)
    requires r <= es && IsTrimmed(r)
    requires forall i :: |r| <= i < |es| ==> es[i].k == NOOP
    ensures r == Trim(es)
  {
    var u := Trim(es);
    assert |u| == |r|;
  }

  /** The source's forward walk over the bytes: `mark` is the end of the last entry that was not a
      no-op. It drops whole trailing no-op entries only, never zero bytes inside a value. */
  method Trimmed(t: seq<byte>, ghost es: Tag) returns (r: seq<byte>)
    requires WfTag(es) && t == TagBytes(es)
    ensures r == TagBytes(Trim(es))
  {
    hide TagBytes, HeadFits, Trim;
    NoBytes();
    assert es[0..] == es && es[..0] == [] && es[|es|..] == [];
    var e, mark := 0, 0;
    var ct := t;
    ghost var i: nat, m: nat := 0, 0;
    while ct != []
      invariant m <= i <= |es|
      invariant ct == TagBytes(es[i..])
      invariant e == |TagBytes(es[..i])| && mark == |TagBytes(es[..m])|
      invariant IsTrimmed(es[..m]) && forall j :: m <= j < i ==> es[j].k == NOOP
      decreases |es| - i
    {
      assert i < |es|;
      WalkStep(es, i);
      e := e + ThisLen(ct);
      i := i + 1;
      if Kind(ct) != NOOP {
        mark := e;
        m := i;
      }
      ct := Next(ct);
    }
    assert i == |es| by {
      if i < |es| { HeadReads(es[i..]); }
    }
    TrimIsUnique(es, es[..m]);
    TagBytesConcat(es[..m], es[m..]);
    assert es == es[..m] + es[m..];
    r := t[0..mark];
  }

  lemma NoBytes()
    ensures TagBytes([]) == []
  {
  }

  /** One step of the walk from entry `i`. */
  lemma WalkStep(es: Tag, i: nat)
    requires WfTag(es) && i < |es|
    ensures var ct := TagBytes(es[i..]);
      && ct != [] && HeadFits(ct) && Kind(ct) == es[i].k
      && Next(ct) == TagBytes(es[i + 1..])
      && |TagBytes(es[..i + 1])| == |TagBytes(es[..i])| + ThisLen(ct)
  {
    HeadReads(es[i..]);
    assert es[i..][1..] == es[i + 1..];
    ThisLenIsEntry(es[i..]);
    TagBytesConcat(es[..i], [es[i]]);
    assert es[..i] + [es[i]] == es[..i + 1];
  }

  lemma ThisLenIsEntry(es: Tag)
    requires WfTag(es) && es != []
    ensures HeadFits(TagBytes(es)) && ThisLen(TagBytes(es)) == |TagBytes([es[0]])|
  {
    HeadReads(es);
    assert [es[0]][1..] == [];
    assert |TagBytes(es)| == |EntryBytes(es[0])| + |TagBytes(es[1..])|;
  }

  // ---------------------------------------------------------------- the compiler's view

  function KindOf(tag: Tag): byte { if tag == [] then NOOP else tag[0].k }

  function Tail(tag: Tag): Tag { if tag == [] then [] else tag[1..] }

  /** What an optional hands on for the same type: its `Opt` entry replaced by a no-op. */
  function StripOpt(tag: Tag): Tag { Trim([BLANK_ENTRY] + Tail(tag)) }

  /** The list view and the byte view step together. */
  lemma ViewsAgree(tag: Tag)
    requires WfTag(tag)
    ensures HeadFits(TagBytes(tag))
    ensures Kind(TagBytes(tag)) == KindOf(tag)
    ensures Next(TagBytes(tag)) == TagBytes(Tail(tag))
    ensures tag != [] && tag[0].vs != [] ==>
      tag[0].k < 0xC0 ==> Value(TagBytes(tag), 0) == tag[0].vs[0]
  {
    if tag != [] {
      HeadReads(tag);
      if tag[0].vs != [] { HeadValueReads(tag, 0); }
    }
  }

  /** Every tag reached from a trimmed one is trimmed, so it is the only spelling of its key, and
      the no-op that replaces `Opt` steps on to the entries after it. */
  lemma KeysStayCanonical(tag: Tag)
    requires IsTrimmed(tag)
    ensures IsTrimmed(Tail(tag))
    ensures IsTrimmed(StripOpt(tag)) && Tail(StripOpt(tag)) == Tail(tag)
    ensures KindOf(StripOpt(tag)) == NOOP
    ensures |Tail(tag)| < |tag| || tag == []
    ensures tag != [] ==> |StripOpt(tag)| <= |tag|
  {
    var rest := Tail(tag);
    if rest == [] {
      assert [BLANK_ENTRY] + rest == [BLANK_ENTRY];
      TrimIsUnique([BLANK_ENTRY], []);
    } else {
      TrimIsUnique([BLANK_ENTRY] + rest, [BLANK_ENTRY] + rest);
    }
  }
}
