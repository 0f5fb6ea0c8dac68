/** From memory to memory: what is encoded from one place by the offset-based codecs and decoded at another is
    the same value, for every type the compiler handles and however the stream is cut. */
module InMemory {
  import opened Words
  import opened Types
  import opened Codecs
  import opened RoundTrips
  import opened Shapes
  import opened Compiler
  import opened Meaning
  import opened Memory
  import opened Landing
  import opened Laid
  import opened TypeLaws
  import Streams
  import Writers
  import Unsafe

  /** Encodes what memory holds at `p`, and decodes the bytes into the cells at `q`. */
  method CopyOver<R(==, !new)>(g: Graph<R>, lay: Lay<R>, h: Unsafe.Heap, r: R, p: Addr, q: Addr,
                               chunks: seq<nat>, eager: bool, depth: nat, ghost v: Value)
    returns (err: Option<Error>)
    requires WellLaid(g, lay) && Holds(g, lay, h.mem, r, p, v, 0, |h.mem|)
    requires q + Size(lay, r) <= |h.mem| && depth >= Height(v)
    modifies h
    ensures err == Codecs.Encode(g, r, v).err
    ensures if err == None then Landed(g, lay, r, q, Canon(g, r, v), old(h.mem), h.mem) else h.mem == old(h.mem)
  {
    hide WellLaid, Holds, Landed, Codecs.Encode, Codecs.Decode;
    var w := new Writers.Writer();
    var e := new Writers.Encoder(w);
    err := Unsafe.Encode(g, lay, h, e, r, p, v);
    if err.Some? { return; }
    RoundTrip(g, r, v, [], depth);
    assert w.out == Codecs.Encode(g, r, v).bytes + [];
    var stream := new Streams.Reader(w.out, chunks, eager);
    var d := new Streams.Decoder(stream);
    err := Unsafe.Decode(g, lay, h, d, r, q, depth);
  }

  /** For compiled codecs: copying fails just when the type says the value cannot be encoded, and otherwise
      leaves the value, up to the places the codec does not visit, in the target's own cells and fresh ones. */
  method CopyCompiled(tbl: Table, ghost s: Snapshot, ghost z: Sizes, g: Graph<nat>, lay: Lay<nat>, h: Unsafe.Heap,
                      r: nat, k: Key, p: Addr, q: Addr, chunks: seq<nat>, eager: bool, depth: nat, ghost v: Value)
    returns (err: Option<Error>)
    requires Ready(tbl, s) && TypesLaid(tbl, z) && RefIs(s.origin, r, k) && g == s.store && lay == LayOf(s, z)
    requires Holds(g, lay, h.mem, r, p, v, 0, |h.mem|)
    requires q + SizeOf(z, k.t) <= |h.mem| && depth >= Height(v)
    modifies h
    ensures err == TypedEncode(tbl, k.t, k.tag, v).err
    ensures if err == None then Landed(g, lay, r, q, TypedCanon(tbl, k, v), old(h.mem), h.mem) else h.mem == old(h.mem)
  {
    hide Ready, TypesLaid, WellLaid, Holds, Landed, Codecs.Encode, TypedEncode, LayOf, TypedCanon, Canon;
    CompiledIsLaid(tbl, s, z);
    SizeIs(s, z, r, k);
    EncodingMeans(tbl, s, r, k, v);
    err := CopyOver(g, lay, h, r, p, q, chunks, eager, depth, v);
    if err.None? { CanonIsTyped(tbl, s, r, k, v); }
  }
}
