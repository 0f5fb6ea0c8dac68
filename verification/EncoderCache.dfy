/** The encoder's cache of the last four types encoded, run over the publication protocol of its coders: across
    resets, pooled reuse by other goroutines, and whatever else runs meanwhile, a cached codec and one looked up
    anew are the same, or about to be. */
module EncoderCache {
  import opened Words
  import opened Types
  import opened Codecs
  import opened Shapes
  import opened Meaning
  import opened Protocol
  import opened Runs
  import opened Asks
  import opened TypeGraph
  import opened Handles
  import opened Interleaved

  // ---------------------------------------------------------------- coders and encoders

  type CoderId = nat

  /** The state of every coder; one that nobody has used yet is empty. */
  type Coders = map<CoderId, State>

  function CoderAt(w: Coders, cr: CoderId): State { if cr in w then w[cr] else INITIAL }

  datatype Entry = Entry(t: TypeId, codec: Obj)

  /** `EncodeValue` has missed, and goroutine `tid` is in `getBaseCodec`. */
  datatype Fetch = Fetch(tid: Tid, t: TypeId)

  const SLOTS := 4

  /** An encoder: its coder (none yet when new), its cache, the slot filled last, and the lookup it waits for. */
  datatype Cache = Cache(cr: Option<CoderId>, slots: seq<Option<Entry>>, slot: nat, fetching: Option<Fetch>)

  const FRESH: Cache := Cache(None, [None, None, None, None], 3, None)

  predicate Holds(slots: seq<Option<Entry>>, i: nat, t: TypeId)
  {
    i < |slots| && slots[i].Some? && slots[i].value.t == t
  }

  /** The first slot for the type; SLOTS when there is none. */
  function IndexOf(slots: seq<Option<Entry>>, t: TypeId, from: nat): (i: nat)
    requires from <= SLOTS
    ensures from <= i <= SLOTS && (i < SLOTS ==> Holds(slots, i, t))
    ensures forall j :: from <= j < i ==> !Holds(slots, j, t)
    decreases SLOTS - from
  {
    if from == SLOTS || Holds(slots, from, t) then from else IndexOf(slots, t, from + 1)
  }

  /** A change of coder empties the cache; the slot counter goes on from where it was. */
  function AfterReset(e: Cache, cr: CoderId): Cache
  {
    e.(cr := Some(cr), slots := if e.cr == Some(cr) then e.slots else FRESH.slots)
  }

  /** The codec found for `t` replaces the oldest entry. */
  function Filled(e: Cache, t: TypeId, o: Obj): Cache
    requires |e.slots| == SLOTS
  {
    var slot := (e.slot + 1) % SLOTS;
    e.(slots := e.slots[slot := Some(Entry(t, o))], slot := slot, fetching := None)
  }

  // ---------------------------------------------------------------- steps

  datatype Op =
    | Reset(cr: CoderId)                       // taken from the pool, for some coder
    | Encode(tid: Tid, t: TypeId)              // `EncodeValue`: the scan, then a call or the start of a lookup
    | Lookup                                   // the next step of the lookup it started
    | Other(cr: CoderId, tid: Tid, a: Action)  // any other step of any goroutine, in any coder

  predicate Enabled(e: Cache, op: Op)
  {
    match op
    case Reset(_) => e.fetching == None
    case Encode(_, _) => e.fetching == None && e.cr.Some?
    case Lookup => e.fetching.Some? && e.cr.Some?
    case Other(cr, tid, _) => !(e.fetching.Some? && e.cr == Some(cr) && e.fetching.value.tid == tid)
  }

  /** What the operation does in a coder: a hit calls the cached codec, a miss starts `getBaseCodec`. */
  function Move(e: Cache, op: Op): Option<(CoderId, Tid, Action)>
    requires Enabled(e, op)
  {
    match op
    case Reset(_) => None
    case Encode(tid, t) =>
      var i := IndexOf(e.slots, t, 0);
      Some((e.cr.value, tid, if i < SLOTS then CallHeld(e.slots[i].value.codec) else StartBase(t)))
    case Lookup => Some((e.cr.value, e.fetching.value.tid, Advance))
    case Other(cr, tid, a) => Some((cr, tid, a))
  }

  /** When the lookup has returned, what it found goes into the cache. */
  function Landed(w: Coders, e: Cache): Cache
    requires |e.slots| == SLOTS && e.cr.Some? && e.fetching.Some?
  {
    var th := ThreadOf(CoderAt(w, e.cr.value), e.fetching.value.tid);
    if th.Calling? then Filled(e, e.fetching.value.t, th.obj) else e
  }

  /** The encoder after the operation, `w` being the coders after it. */
  function After(w: Coders, e: Cache, op: Op): Cache
    requires |e.slots| == SLOTS && Enabled(e, op)
  {
    match op
    case Reset(cr) => AfterReset(e, cr)
    case Encode(tid, t) =>
      if IndexOf(e.slots, t, 0) < SLOTS then e else Landed(w, e.(fetching := Some(Fetch(tid, t))))
    case Lookup => Landed(w, e)
    case Other(_, _, _) => e
  }

  /** One operation; None when it cannot happen. */
  function Step(deps: Key -> seq<Key>, w: Coders, e: Cache, op: Op): Option<(Coders, Cache)>
  {
    if |e.slots| != SLOTS || !Enabled(e, op) then None else
    match Move(e, op)
    case None => Some((w, After(w, e, op)))
    case Some((cr, tid, a)) =>
      match Do(deps, CoderAt(w, cr), tid, a)
      case None => None
      case Some(s') => Some((w[cr := s'], After(w[cr := s'], e, op)))
  }

  function Operate(deps: Key -> seq<Key>, w: Coders, e: Cache, ops: seq<Op>): Option<(Coders, Cache)>
    decreases |ops|
  {
    if ops == [] then Some((w, e)) else
    match Step(deps, w, e, ops[0])
    case None => None
    case Some((w', e')) => Operate(deps, w', e', ops[1..])
  }

  // ---------------------------------------------------------------- what every operation keeps

  /** The cache holds handles for its types, each type once. */
  ghost predicate Cached(w: Coders, e: Cache)
  {
    && |e.slots| == SLOTS && e.slot < SLOTS
    && (forall i :: 0 <= i < SLOTS && e.slots[i].Some? ==>
          e.cr.Some? && Handle(CoderAt(w, e.cr.value), Key(e.slots[i].value.t, []), e.slots[i].value.codec))
    && (forall i, j :: 0 <= i < j < SLOTS && e.slots[i].Some? && e.slots[j].Some? ==>
          e.slots[i].value.t != e.slots[j].value.t)
  }

  /** A lookup under way is for a type not in the cache. */
  ghost predicate Faithful(w: Coders, e: Cache)
  {
    && Cached(w, e)
    && (e.fetching.Some? ==>
          && e.cr.Some? && IndexOf(e.slots, e.fetching.value.t, 0) == SLOTS
          && LooksUp(CoderAt(w, e.cr.value), e.fetching.value.tid, e.fetching.value.t))
  }

  /** Goroutine `tid` is looking up the codec of type `t` with the empty tag. */
  ghost predicate LooksUp(s: State, tid: Tid, t: TypeId)
  {
    ThreadOf(s, tid).Running? && ThreadOf(s, tid).stack != [] && ThreadOf(s, tid).stack[0].key == Key(t, [])
  }

  ghost predicate Sound(deps: Key -> seq<Key>, w: Coders) { forall cr :: Inv(deps, CoderAt(w, cr)) }

  /** The coder's steps in an operation. */
  function StepsIn(e: Cache, op: Op, cr: CoderId): Steps
    requires Enabled(e, op)
  {
    var m := Move(e, op);
    if m.Some? && m.value.0 == cr then [(m.value.1, m.value.2)] else []
  }

  /** To every coder an operation is at most one step of the protocol. */
  lemma StepIsRun(deps: Key -> seq<Key>, w: Coders, e: Cache, op: Op, cr: CoderId)
    requires Step(deps, w, e, op).Some?
    ensures Run(deps, CoderAt(w, cr), StepsIn(e, op, cr)) == Some(CoderAt(Step(deps, w, e, op).value.0, cr))
  {
    hide Do;
    var steps := StepsIn(e, op, cr);
    if steps != [] { assert steps[1..] == []; }
  }

  lemma SoundStep(deps: Key -> seq<Key>, w: Coders, e: Cache, op: Op)
    requires Sound(deps, w) && Enabled(e, op) && Step(deps, w, e, op).Some?
    ensures Sound(deps, Step(deps, w, e, op).value.0)
  {
    hide Inv, Step, Run;
    forall cr ensures Inv(deps, CoderAt(Step(deps, w, e, op).value.0, cr)) {
      StepIsRun(deps, w, e, op, cr);
      RunKeeps(deps, CoderAt(w, cr), StepsIn(e, op, cr));
    }
  }

  /** What the encoder holds stays good while coders move on. */
  lemma HeldStays(deps: Key -> seq<Key>, w: Coders, e: Cache, op: Op, k: Key, o: Obj)
    requires Sound(deps, w) && Enabled(e, op) && Step(deps, w, e, op).Some? && e.cr.Some?
      && Handle(CoderAt(w, e.cr.value), k, o)
    ensures Handle(CoderAt(Step(deps, w, e, op).value.0, e.cr.value), k, o)
  {
    hide Inv, Step, Handle, Run;
    StepIsRun(deps, w, e, op, e.cr.value);
    HandleStays(deps, CoderAt(w, e.cr.value), StepsIn(e, op, e.cr.value), k, o);
  }

  lemma CachedStays(deps: Key -> seq<Key>, w: Coders, e: Cache, op: Op)
    requires Sound(deps, w) && Cached(w, e) && Enabled(e, op) && Step(deps, w, e, op).Some?
    ensures Cached(Step(deps, w, e, op).value.0, e)
  {
    hide Step, Handle, Sound;
    var w' := Step(deps, w, e, op).value.0;
    forall i | 0 <= i < SLOTS && e.slots[i].Some?
      ensures e.cr.Some? && Handle(CoderAt(w', e.cr.value), Key(e.slots[i].value.t, []), e.slots[i].value.codec)
    {
      HeldStays(deps, w, e, op, Key(e.slots[i].value.t, []), e.slots[i].value.codec);
    }
  }

  /** A lookup that has taken a step has returned a handle or goes on. */
  lemma LandedKeeps(w: Coders, e: Cache)
    requires Cached(w, e) && e.cr.Some? && e.fetching.Some? && IndexOf(e.slots, e.fetching.value.t, 0) == SLOTS
    requires var s, th := CoderAt(w, e.cr.value), ThreadOf(CoderAt(w, e.cr.value), e.fetching.value.tid);
      if th.Calling? then Handle(s, Key(e.fetching.value.t, []), th.obj)
        else LooksUp(s, e.fetching.value.tid, e.fetching.value.t)
    ensures Faithful(w, Landed(w, e))
  {
    hide Handle, LooksUp;
    assert forall i :: 0 <= i < SLOTS ==> !Holds(e.slots, i, e.fetching.value.t);
  }

  lemma StepIsFaithful(deps: Key -> seq<Key>, w: Coders, e: Cache, op: Op)
    requires Sound(deps, w) && Faithful(w, e) && Step(deps, w, e, op).Some?
    ensures var (w', e') := Step(deps, w, e, op).value; Sound(deps, w') && Faithful(w', e')
  {
    hide Handle, Sound, Do, Inv, AdvanceTop;
    var (w', e') := Step(deps, w, e, op).value;
    SoundStep(deps, w, e, op);
    CachedStays(deps, w, e, op);
    match op {
      case Reset(_) =>
      case Encode(tid, t) =>
        if IndexOf(e.slots, t, 0) == SLOTS {
          MissStarts(deps, w, e, tid, t);
          LandedKeeps(w', e.(fetching := Some(Fetch(tid, t))));
        }
      case Lookup =>
        LookupGoesOn(deps, w, e);
        LandedKeeps(w', e);
      case Other(cr, tid, a) => if e.fetching.Some? { OthersLeaveIt(deps, w, e, cr, tid, a); }
    }
  }

  lemma MissStarts(deps: Key -> seq<Key>, w: Coders, e: Cache, tid: Tid, t: TypeId)
    requires Sound(deps, w) && e.cr.Some? && Do(deps, CoderAt(w, e.cr.value), tid, StartBase(t)).Some?
    ensures var s' := Do(deps, CoderAt(w, e.cr.value), tid, StartBase(t)).value; var th := ThreadOf(s', tid);
      if th.Calling? then Handle(s', Key(t, []), th.obj) else LooksUp(s', tid, t)
  {
    hide Do, Inv, Handle;
    assert Inv(deps, CoderAt(w, e.cr.value));
    StartGivesHandle(deps, CoderAt(w, e.cr.value), tid, t);
  }

  lemma LookupGoesOn(deps: Key -> seq<Key>, w: Coders, e: Cache)
    requires Sound(deps, w) && e.cr.Some? && e.fetching.Some?
    requires LooksUp(CoderAt(w, e.cr.value), e.fetching.value.tid, e.fetching.value.t)
    ensures var f := e.fetching.value; var s' := Do(deps, CoderAt(w, e.cr.value), f.tid, Advance);
      && s'.Some?
      && var th := ThreadOf(s'.value, f.tid);
         if th.Calling? then Handle(s'.value, Key(f.t, []), th.obj) else LooksUp(s'.value, f.tid, f.t)
  {
    hide AdvanceTop, Inv, Handle;
    var s := CoderAt(w, e.cr.value);
    assert Inv(deps, s);
    LookupGivesHandle(deps, s, e.fetching.value.tid, ThreadOf(s, e.fetching.value.tid).stack);
  }

  lemma OthersLeaveIt(deps: Key -> seq<Key>, w: Coders, e: Cache, cr: CoderId, tid: Tid, a: Action)
    requires e.cr.Some? && e.fetching.Some? && Step(deps, w, e, Other(cr, tid, a)).Some?
    requires LooksUp(CoderAt(w, e.cr.value), e.fetching.value.tid, e.fetching.value.t)
    ensures var w' := Step(deps, w, e, Other(cr, tid, a)).value.0;
      LooksUp(CoderAt(w', e.cr.value), e.fetching.value.tid, e.fetching.value.t)
  {
    hide Do;
    if cr == e.cr.value { OtherStep(deps, CoderAt(w, cr), tid, a, e.fetching.value.tid); }
  }

  lemma {:induction false} OperateIsFaithful(deps: Key -> seq<Key>, w: Coders, e: Cache, ops: seq<Op>)
    requires Sound(deps, w) && Faithful(w, e) && Operate(deps, w, e, ops).Some?
    ensures var (w', e') := Operate(deps, w, e, ops).value; Sound(deps, w') && Faithful(w', e')
    decreases |ops|
  {
    hide Sound, Faithful, Step;
    if ops != [] {
      StepIsFaithful(deps, w, e, ops[0]);
      var (w1, e1) := Step(deps, w, e, ops[0]).value;
      OperateIsFaithful(deps, w1, e1, ops[1..]);
    }
  }

  // ---------------------------------------------------------------- hits and misses

  /** An encoder with a coder that waits for no lookup can encode for any goroutine that is free to call. */
  lemma EncodeGoes(deps: Key -> seq<Key>, w: Coders, e: Cache, tid: Tid, t: TypeId)
    requires Sound(deps, w) && Faithful(w, e) && e.cr.Some? && e.fetching == None
    requires var th := ThreadOf(CoderAt(w, e.cr.value), tid); !th.Running? && !th.Waiting?
    ensures Step(deps, w, e, Encode(tid, t)).Some?
  {
    hide Inv, LooksUp;
  }

  /** A hit calls the cached codec, and does nothing else. */
  lemma HitCalls(deps: Key -> seq<Key>, w: Coders, e: Cache, tid: Tid, t: TypeId)
    requires |e.slots| == SLOTS && IndexOf(e.slots, t, 0) < SLOTS && Step(deps, w, e, Encode(tid, t)).Some?
    ensures var (w', e') := Step(deps, w, e, Encode(tid, t)).value; var cr := e.cr.value;
      var s, s' := CoderAt(w, cr), CoderAt(w', cr);
      && e' == e && ThreadOf(s', tid) == Calling(e.slots[IndexOf(e.slots, t, 0)].value.codec)
      && s'.known == s.known && s'.base == s.base && s'.heap == s.heap
      && forall c :: c != cr ==> CoderAt(w', c) == CoderAt(w, c)
  {
  }

  /** A miss looks the type up in the coder, and when that gives a codec, at once or after any number of steps, the
      codec goes into the slot after the one filled last. */
  lemma MissFills(deps: Key -> seq<Key>, w: Coders, e: Cache, op: Op)
    requires |e.slots| == SLOTS && Step(deps, w, e, op).Some?
    requires op.Lookup? || (op.Encode? && IndexOf(e.slots, op.t, 0) == SLOTS)
    ensures var (w', e') := Step(deps, w, e, op).value; var cr := e.cr.value;
      var tid := if op.Lookup? then e.fetching.value.tid else op.tid;
      var t := if op.Lookup? then e.fetching.value.t else op.t;
      && Do(deps, CoderAt(w, cr), tid, if op.Lookup? then Advance else StartBase(t)) == Some(CoderAt(w', cr))
      && match ThreadOf(CoderAt(w', cr), tid)
         case Calling(o) =>
           && e'.slot == (e.slot + 1) % 4 && e'.slots == e.slots[(e.slot + 1) % 4 := Some(Entry(t, o))]
           && e'.fetching == None && e'.cr == e.cr
         case _ => e' == e.(fetching := Some(Fetch(tid, t)))
  {
    hide Do;
  }

  // ---------------------------------------------------------------- runs of the encoder are runs of its coders

  /** The steps a coder makes over the operations. */
  function StepsOf(deps: Key -> seq<Key>, w: Coders, e: Cache, ops: seq<Op>, cr: CoderId): Steps
    requires Operate(deps, w, e, ops).Some?
    decreases |ops|
  {
    if ops == [] then [] else
    var (w1, e1) := Step(deps, w, e, ops[0]).value;
    StepsIn(e, ops[0], cr) + StepsOf(deps, w1, e1, ops[1..], cr)
  }

  lemma {:induction false} OperateIsRun(deps: Key -> seq<Key>, w: Coders, e: Cache, ops: seq<Op>, cr: CoderId)
    requires Operate(deps, w, e, ops).Some?
    ensures Run(deps, CoderAt(w, cr), StepsOf(deps, w, e, ops, cr))
      == Some(CoderAt(Operate(deps, w, e, ops).value.0, cr))
    decreases |ops|
  {
    hide Do;
    if ops != [] {
      var (w1, e1) := Step(deps, w, e, ops[0]).value;
      StepIsRun(deps, w, e, ops[0], cr);
      OperateIsRun(deps, w1, e1, ops[1..], cr);
      var first, more := StepsIn(e, ops[0], cr), StepsOf(deps, w1, e1, ops[1..], cr);
      if first == [] {
        assert first + more == more;
      } else {
        assert first[1..] == [] && (first + more)[1..] == more;
      }
    }
  }

  lemma NothingCached(deps: Key -> seq<Key>)
    ensures Sound(deps, map[]) && Faithful(map[], FRESH)
  {
    hide Inv;
    assert Inv(deps, INITIAL) by { EveryRunKeeps(deps, []); }
  }

  // ---------------------------------------------------------------- transparency

  /** Node graphs in which deferred codecs stand for the codecs they are resolved to. */
  ghost predicate Represents(s: State, g: Graph<nat>)
  {
    && g.Keys == s.heap.Keys
    && forall o :: o in s.heap ==>
         if s.heap[o].Deferred? then g[o] == DeferredCodec(s.heap[o].final) else !g[o].DeferredCodec?
  }

  lemma RepresentsReal(deps: Key -> seq<Key>, s: State, g: Graph<nat>, o: Obj)
    requires Inv(deps, s) && Represents(s, g) && o in s.heap
    ensures RealOf(s, o).Some? ==> RealOf(s, o).value in g && Target(g, o) == g[RealOf(s, o).value]
    ensures RealOf(s, o) == None ==> Target(g, o).DeferredCodec?
  {
    hide BeingPublished, PartsFor;
    assert ObjectOk(deps, s, o);
  }

  lemma AgreeingHandles(deps: Key -> seq<Key>, s: State, k: Key, o: Obj, u: Obj, g: Graph<nat>, v: Value)
    requires Inv(deps, s) && Handle(s, k, o) && Handle(s, k, u) && Represents(s, g)
    ensures RealOf(s, o).Some? && RealOf(s, u).Some? ==>
      RealOf(s, o) == RealOf(s, u) && Codecs.Encode(g, o, v) == Codecs.Encode(g, u, v)
    ensures RealOf(s, o) == None ==>
      AboutToBe(s, o, u) && CanAdvance(deps, s, s.heap[o].builder) && Codecs.Encode(g, o, v) == Failed(Blocked)
  {
    hide Inv, Represents, Target, AboutToBe, CanAdvance, Codecs.Encode;
    HandlesAgree(deps, s, k, o, u);
    RepresentsReal(deps, s, g, o);
    RepresentsReal(deps, s, g, u);
    TargetDecides(g, o, v);
    TargetDecides(g, u, v);
  }

  lemma TargetDecides(g: Graph<nat>, o: Obj, v: Value)
    ensures Codecs.Encode(g, o, v) == EncodeBy(g, Target(g, o), v)
    ensures Target(g, o).DeferredCodec? ==> Codecs.Encode(g, o, v) == Failed(Blocked)
  {
  }

  /** A cached codec is a handle for its type, at any later time, in the cache or not. */
  lemma CachedIsHandle(deps: Key -> seq<Key>, ops: seq<Op>, w: Coders, e: Cache, t: TypeId, more: seq<Op>,
                       w': Coders, e': Cache)
    requires Operate(deps, map[], FRESH, ops) == Some((w, e)) && IndexOf(e.slots, t, 0) < SLOTS && e.cr.Some?
    requires Operate(deps, w, e, more) == Some((w', e'))
    ensures var s' := CoderAt(w', e.cr.value);
      Inv(deps, s') && Handle(s', Key(t, []), e.slots[IndexOf(e.slots, t, 0)].value.codec)
  {
    hide Inv, Handle, Operate, Run;
    NothingCached(deps);
    OperateIsFaithful(deps, map[], FRESH, ops);
    var cr, i := e.cr.value, IndexOf(e.slots, t, 0);
    OperateIsRun(deps, w, e, more, cr);
    HandleStays(deps, CoderAt(w, cr), StepsOf(deps, w, e, more, cr), Key(t, []), e.slots[i].value.codec);
  }

  /** The cache is transparent. Take any run of a new encoder, through any reuse for other coders and by other
      goroutines, among any other goroutines' lookups, builds and registrations, and a codec `o` it has cached for
      a type; and at any later time any codec `u` that any lookup of the type has given. Once both are resolved
      they write the same bytes, and errors, for every value; and one that is not is waiting for its builder, and
      is `u` itself or about to be resolved to it. */
  lemma CacheIsTransparent(deps: Key -> seq<Key>, ops: seq<Op>, w: Coders, e: Cache, t: TypeId, more: seq<Op>,
                           w': Coders, e': Cache, u: Obj, g: Graph<nat>, v: Value)
    requires Operate(deps, map[], FRESH, ops) == Some((w, e)) && IndexOf(e.slots, t, 0) < SLOTS && e.cr.Some?
    requires Operate(deps, w, e, more) == Some((w', e'))
    requires Handle(CoderAt(w', e.cr.value), Key(t, []), u) && Represents(CoderAt(w', e.cr.value), g)
    ensures var o, s' := e.slots[IndexOf(e.slots, t, 0)].value.codec, CoderAt(w', e.cr.value);
      && Handle(s', Key(t, []), o)
      && (RealOf(s', o).Some? && RealOf(s', u).Some? ==>
            RealOf(s', o) == RealOf(s', u) && Codecs.Encode(g, o, v) == Codecs.Encode(g, u, v))
      && (RealOf(s', o) == None ==>
            AboutToBe(s', o, u) && CanAdvance(deps, s', s'.heap[o].builder)
            && Codecs.Encode(g, o, v) == Failed(Blocked))
      && (RealOf(s', u) == None ==>
            AboutToBe(s', u, o) && CanAdvance(deps, s', s'.heap[u].builder)
            && Codecs.Encode(g, u, v) == Failed(Blocked))
  {
    hide Operate, Inv, Handle, Represents, AboutToBe, CanAdvance, Codecs.Encode, RealOf;
    CachedIsHandle(deps, ops, w, e, t, more, w', e');
    var o, s' := e.slots[IndexOf(e.slots, t, 0)].value.codec, CoderAt(w', e.cr.value);
    AgreeingHandles(deps, s', Key(t, []), o, u, g, v);
    AgreeingHandles(deps, s', Key(t, []), u, o, g, v);
  }

  /** The types encoded, and those looked up in coder `cr`, are of the table; nothing is registered there. */
  ghost predicate OpsWithin(u: set<Key>, cr: CoderId, ops: seq<Op>)
  {
    forall op :: op in ops ==>
      match op
      case Encode(_, t) => Key(t, []) in u
      case Other(cr', _, a) => cr' == cr ==> StartsWithin(u, a) && !a.Register?
      case _ => true
  }

  lemma {:induction false} StepsAreWithin(deps: Key -> seq<Key>, u: set<Key>, w: Coders, e: Cache, ops: seq<Op>,
                                          cr: CoderId)
    requires Operate(deps, w, e, ops).Some? && OpsWithin(u, cr, ops)
    ensures StepsWithin(u, StepsOf(deps, w, e, ops, cr))
    decreases |ops|
  {
    hide Do;
    if ops != [] {
      var (w1, e1) := Step(deps, w, e, ops[0]).value;
      assert ops[0] in ops;
      assert forall op :: op in ops[1..] ==> op in ops;
      StepsAreWithin(deps, u, w1, e1, ops[1..], cr);
    }
  }

  lemma {:induction false} OperateOn(deps: Key -> seq<Key>, w: Coders, e: Cache, ops: seq<Op>, more: seq<Op>)
    requires Operate(deps, w, e, ops).Some?
    ensures var (w', e') := Operate(deps, w, e, ops).value;
      Operate(deps, w, e, ops + more) == Operate(deps, w', e', more)
    decreases |ops|
  {
    hide Step;
    if ops == [] {
      assert ops + more == more;
    } else {
      assert (ops + more)[1..] == ops[1..] + more;
      var (w1, e1) := Step(deps, w, e, ops[0]).value;
      OperateOn(deps, w1, e1, ops[1..], more);
    }
  }

  /** What is written with a cached codec is what the type says, or the part of it before the call has to wait. */
  lemma CachedMeaning(tbl: Table, ops: seq<Op>, w: Coders, e: Cache, t: TypeId, more: seq<Op>, w': Coders, e': Cache,
                      g: Graph<nat>, v: Value)
    requires ClosedTable(tbl) && SwitchesSupported(tbl)
    requires Operate(DepsOf(tbl), map[], FRESH, ops) == Some((w, e)) && IndexOf(e.slots, t, 0) < SLOTS && e.cr.Some?
    requires Operate(DepsOf(tbl), w, e, more) == Some((w', e')) && OpsWithin(Universe(tbl), e.cr.value, ops + more)
    requires MadeBy(tbl, CoderAt(w', e.cr.value), g)
    ensures Alike(true, Codecs.Encode(g, e.slots[IndexOf(e.slots, t, 0)].value.codec, v), TypedEncode(tbl, t, [], v))
  {
    hide ClosedTable, SwitchesSupported, Universe, DepsOf, Operate, MadeBy, Run, StepsWithin, OpsWithin, Inv;
    hide Codecs.Encode, TypedEncode, Alike;
    var deps, cr := DepsOf(tbl), e.cr.value;
    CachedIsHandle(deps, ops, w, e, t, more, w', e');
    OperateOn(deps, map[], FRESH, ops, more);
    OperateIsRun(deps, map[], FRESH, ops + more, cr);
    StepsAreWithin(deps, Universe(tbl), map[], FRESH, ops + more, cr);
    InterleavedMeaning(tbl, StepsOf(deps, map[], FRESH, ops + more, cr), CoderAt(w', cr), g,
                       e.slots[IndexOf(e.slots, t, 0)].value.codec, v, [], 0);
  }

  // ---------------------------------------------------------------- eviction

  /** The operation puts an entry into the cache: only that moves the counter. */
  predicate Fills(deps: Key -> seq<Key>, w: Coders, e: Cache, op: Op)
    requires Step(deps, w, e, op).Some?
  {
    Step(deps, w, e, op).value.1.slot != e.slot
  }

  function FillCount(deps: Key -> seq<Key>, w: Coders, e: Cache, ops: seq<Op>): nat
    requires Operate(deps, w, e, ops).Some?
    decreases |ops|
  {
    if ops == [] then 0 else
    var (w1, e1) := Step(deps, w, e, ops[0]).value;
    (if Fills(deps, w, e, ops[0]) then 1 else 0) + FillCount(deps, w1, e1, ops[1..])
  }

  predicate KeepsCoder(cr: CoderId, ops: seq<Op>) { forall op :: op in ops && op.Reset? ==> op.cr == cr }

  /** An operation leaves the slots alone, or fills the next one with a type that was in none. */
  lemma StepFills(deps: Key -> seq<Key>, w: Coders, e: Cache, op: Op)
    requires Faithful(w, e) && Step(deps, w, e, op).Some? && e.cr.Some? && (op.Reset? ==> Some(op.cr) == e.cr)
    ensures var e' := Step(deps, w, e, op).value.1;
      && e'.cr == e.cr
      && if !Fills(deps, w, e, op) then e'.slots == e.slots && e'.slot == e.slot
         else e'.slot == (e.slot + 1) % SLOTS
              && exists x: Entry :: IndexOf(e.slots, x.t, 0) == SLOTS && e'.slots == e.slots[e'.slot := Some(x)]
  {
    hide Do, Handle, LooksUp;
    var (w', e') := Step(deps, w, e, op).value;
    if op.Encode? && IndexOf(e.slots, op.t, 0) == SLOTS {
      LandedFills(w', e.(fetching := Some(Fetch(op.tid, op.t))));
    } else if op.Lookup? {
      LandedFills(w', e);
    }
  }

  lemma LandedFills(w: Coders, e: Cache)
    requires |e.slots| == SLOTS && e.cr.Some? && e.fetching.Some? && e.slot < SLOTS
    requires IndexOf(e.slots, e.fetching.value.t, 0) == SLOTS
    ensures var e' := Landed(w, e);
      && e'.cr == e.cr
      && if e'.slot == e.slot then e'.slots == e.slots
         else e'.slot == (e.slot + 1) % SLOTS
              && exists x: Entry :: IndexOf(e.slots, x.t, 0) == SLOTS && e'.slots == e.slots[e'.slot := Some(x)]
  {
    var th := ThreadOf(CoderAt(w, e.cr.value), e.fetching.value.tid);
    if th.Calling? {
      var x := Entry(e.fetching.value.t, th.obj);
      assert IndexOf(e.slots, x.t, 0) == SLOTS && Landed(w, e).slots == e.slots[(e.slot + 1) % SLOTS := Some(x)];
    }
  }

  lemma NextSlot(k: nat, age: nat)
    ensures ((k + age) % SLOTS + 1) % SLOTS == (k + age + 1) % SLOTS
    ensures k < SLOTS && age + 1 < SLOTS ==> (k + age + 1) % SLOTS != k
    ensures k < SLOTS ==> (k + SLOTS) % SLOTS == k
  {
  }

  lemma {:induction false} EntryAges(deps: Key -> seq<Key>, w: Coders, e: Cache, ops: seq<Op>, k: nat, age: nat)
    requires Sound(deps, w) && Faithful(w, e) && k < SLOTS && e.cr.Some? && KeepsCoder(e.cr.value, ops)
    requires Operate(deps, w, e, ops).Some?
    requires e.slot == (k + age) % SLOTS && age + FillCount(deps, w, e, ops) < SLOTS
    ensures var e' := Operate(deps, w, e, ops).value.1;
      && |e'.slots| == SLOTS && e'.slots[k] == e.slots[k] && e'.cr == e.cr
      && e'.slot == (k + age + FillCount(deps, w, e, ops)) % SLOTS
    decreases |ops|
  {
    hide Sound, Step, Handle, LooksUp;
    if ops != [] {
      var (w1, e1) := Step(deps, w, e, ops[0]).value;
      assert ops[0] in ops;
      StepFills(deps, w, e, ops[0]);
      StepIsFaithful(deps, w, e, ops[0]);
      NextSlot(k, age);
      EntryAges(deps, w1, e1, ops[1..], k, if Fills(deps, w, e, ops[0]) then age + 1 else age);
    }
  }

  /** With no change of coder, an entry stays in its slot while three more are made, and the fourth evicts it. */
  lemma EvictedOnFourthMiss(deps: Key -> seq<Key>, w: Coders, e: Cache, t: TypeId, ops: seq<Op>, w': Coders, e': Cache,
                            op: Op)
    requires Sound(deps, w) && Faithful(w, e) && e.cr.Some? && Holds(e.slots, e.slot, t)
    requires KeepsCoder(e.cr.value, ops + [op]) && Operate(deps, w, e, ops) == Some((w', e'))
    requires FillCount(deps, w, e, ops) <= 3 && Step(deps, w', e', op).Some?
    ensures |e'.slots| == SLOTS && IndexOf(e'.slots, t, 0) == e.slot && e'.slots[e.slot] == e.slots[e.slot]
    ensures FillCount(deps, w, e, ops) == 3 && Fills(deps, w', e', op) ==>
      IndexOf(Step(deps, w', e', op).value.1.slots, t, 0) == SLOTS
  {
    hide Sound, Step, Handle, LooksUp, Operate;
    assert forall x :: x in ops ==> x in ops + [op];
    assert op in ops + [op];
    OperateIsFaithful(deps, w, e, ops);
    EntryAges(deps, w, e, ops, e.slot, 0);
    NextSlot(e.slot, 3);
    assert Holds(e'.slots, e.slot, t);
    StepFills(deps, w', e', op);
  }

  // ---------------------------------------------------------------- the encoder itself

  /** The fields of `encoder` that the cache is made of, updated in place. */
  class Encoder {
    var cr: Option<CoderId>
    const types: array<Option<TypeId>>
    const codecs: array<Obj>
    var codecCacheSlot: nat

    ghost predicate Valid()
      reads this
    {
      types.Length == SLOTS && codecs.Length == SLOTS && codecCacheSlot < SLOTS
    }

    function Slot(i: nat): Option<Entry>
      requires i < types.Length && i < codecs.Length
      reads types, codecs
    {
      if types[i].Some? then Some(Entry(types[i].value, codecs[i])) else None
    }

    ghost function Abstract(): Cache
      requires Valid()
      reads this, types, codecs
    {
      Cache(cr, [Slot(0), Slot(1), Slot(2), Slot(3)], codecCacheSlot, None)
    }

    constructor ()
      ensures Valid() && fresh(types) && fresh(codecs) && Abstract() == FRESH
    {
      cr, codecCacheSlot := None, 3;
      types, codecs := new Option<TypeId>[4](i => None), new Obj[4](i => 0);
    }

    method ResetTo(coder: CoderId)
      requires Valid()
      modifies this, types, codecs
      ensures Valid() && Abstract() == AfterReset(old(Abstract()), coder)
    {
      if cr != Some(coder) {
        var i := 0;
        while i < 4
          invariant i <= 4 && Valid() && cr == old(cr) && codecCacheSlot == old(codecCacheSlot)
          invariant forall j :: 0 <= j < i ==> types[j] == None
        {
          types[i], codecs[i] := None, 0;
          i := i + 1;
        }
      }
      cr := Some(coder);
    }

    /** The codec `EncodeValue` calls for a value of type `t`; `found` is what `getBaseCodec` returns if called. */
    method EncodeValue(t: TypeId, found: Obj) returns (c: Obj)
      requires Valid()
      modifies this, types, codecs
      ensures Valid()
      ensures var e := old(Abstract()); var i := IndexOf(e.slots, t, 0);
        if i < SLOTS then c == e.slots[i].value.codec && Abstract() == e
        else c == found && Abstract() == Filled(e, t, found)
    {
      ghost var e := Abstract();
      var i := 0;
      while i < 4
        invariant i <= 4 && Abstract() == e
        invariant IndexOf(e.slots, t, 0) == IndexOf(e.slots, t, i)
      {
        assert Slot(i) == e.slots[i];
        if types[i] == Some(t) { return codecs[i]; }
        i := i + 1;
      }
      c := found;
      codecCacheSlot := (codecCacheSlot + 1) % 4;
      types[codecCacheSlot] := Some(t);
      codecs[codecCacheSlot] := c;
      assert Abstract().slots == e.slots[codecCacheSlot := Some(Entry(t, c))];
    }
  }
}
