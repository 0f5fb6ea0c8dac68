/** The publication protocol between goroutines that look up, build, register and call codecs at the
    same time. Each operation on a `sync.Map`, an atomic value or a wait group is one atomic step. */
module Protocol {
  import opened Words
  import opened Shapes
  import Types

  type Tid = nat
  type Obj = nat

  /** Codec objects. A deferred codec also records which frame of which goroutine is to resolve it. */
  datatype Object =
    | Deferred(key: Key, final: Option<Obj>, done: bool, builder: Tid, level: nat)
    | Final(key: Key, parts: seq<Obj>)
    | Registered(key: Key)

  /** Where a call of `getCodec` or `getNewCodec` stands. */
  datatype Frame =
    | Loading(key: Key)                                // before `knownCodecs.Load`
    | Storing(key: Key)                                // before `knownCodecs.LoadOrStore`
    | Building(key: Key, dc: Obj, parts: seq<Obj>)     // in `buildCodec`, some `getCodec` calls returned
    | Publishing(key: Key, dc: Obj, cc: Obj)           // before `knownCodecs.Store`
    | PublishingBase(key: Key, dc: Obj, cc: Obj)       // before `knownBaseCodecs.Store`
    | Resolving(key: Key, dc: Obj, cc: Obj)            // before `real.Store`
    | Releasing(key: Key, dc: Obj, cc: Obj)            // before `wg.Done`

  datatype Thread =
    | Idle
    | Running(stack: seq<Frame>)   // looking up or building a codec
    | Calling(obj: Obj)            // in `Encode` or `Decode` of a codec
    | Waiting(obj: Obj)            // in `wg.Wait` of a deferred codec

  datatype State = State(known: map<Key, Obj>, base: map<Types.TypeId, Obj>, heap: map<Obj, Object>, next: nat,
                         threads: map<Tid, Thread>)

  datatype Action =
    | StartBase(t: Types.TypeId)   // `getBaseCodec`
    | StartGet(key: Key)           // `getCodec`
    | Advance                      // the next step of a lookup or build
    | Register(t: Types.TypeId)    // `RegisterCodecReflect` of a new codec
    | CallHeld(obj: Obj)           // a call on a codec kept from an earlier lookup
    | Call                         // a call on a deferred codec: read `real`, wait if it is not there
    | Wake                         // return from `wg.Wait` and read `real` again
    | Into(part: nat)              // a codec calls one it refers to
    | End

  const INITIAL: State := State(map[], map[], map[], 0, map[])

  function ThreadOf(s: State, tid: Tid): Thread { if tid in s.threads then s.threads[tid] else Idle }

  function With(s: State, tid: Tid, th: Thread): State { s.(threads := s.threads[tid := th]) }

  /** Returns `r` from the top frame of the stack. */
  function Return(s: State, tid: Tid, stack: seq<Frame>, r: Obj): State
    requires stack != []
  {
    var below := stack[..|stack| - 1];
    if below == [] then With(s, tid, Calling(r)) else
    var caller := below[|below| - 1];
    if !caller.Building? then With(s, tid, Idle)
    else With(s, tid, Running(below[|below| - 1 := caller.(parts := caller.parts + [r])]))
  }

  /** One step of the code between `getCodec` and its return; `deps(k)` are the keys for which
      `buildCodec` calls `getCodec`, in order. */
  function AdvanceTop(deps: Key -> seq<Key>, s: State, tid: Tid, stack: seq<Frame>): State
    requires stack != []
  {
    var at := |stack| - 1;
    match stack[at]
    case Loading(k) =>
      if k in s.known then Return(s, tid, stack, s.known[k])
      else With(s, tid, Running(stack[at := Storing(k)]))
    case Storing(k) =>
      if k in s.known then Return(s, tid, stack, s.known[k])
      else
        With(s.(known := s.known[k := s.next], heap := s.heap[s.next := Deferred(k, None, false, tid, at)],
                next := s.next + 1),
             tid, Running(stack[at := Building(k, s.next, [])]))
    case Building(k, dc, parts) =>
      if |parts| < |deps(k)| then With(s, tid, Running(stack + [Loading(deps(k)[|parts|])]))
      else
        With(s.(heap := s.heap[s.next := Final(k, parts)], next := s.next + 1),
             tid, Running(stack[at := Publishing(k, dc, s.next)]))
    case Publishing(k, dc, cc) =>
      With(s.(known := s.known[k := cc]), tid,
           Running(stack[at := if k.tag == [] then PublishingBase(k, dc, cc) else Resolving(k, dc, cc)]))
    case PublishingBase(k, dc, cc) =>
      With(s.(base := s.base[k.t := cc]), tid, Running(stack[at := Resolving(k, dc, cc)]))
    case Resolving(k, dc, cc) =>
      if dc in s.heap && s.heap[dc].Deferred? then
        With(s.(heap := s.heap[dc := s.heap[dc].(final := Some(cc))]), tid, Running(stack[at := Releasing(k, dc, cc)]))
      else s
    case Releasing(k, dc, cc) =>
      if dc in s.heap && s.heap[dc].Deferred? then
        Return(s.(heap := s.heap[dc := s.heap[dc].(done := true)]), tid, stack, cc)
      else s
  }

  /** The state after goroutine `tid` performs `a`; None when it cannot. */
  function Do(deps: Key -> seq<Key>, s: State, tid: Tid, a: Action): Option<State>
  {
    var th := ThreadOf(s, tid);
    match a
    case StartBase(t) =>
      if th.Running? || th.Waiting? then None
      else if t in s.base then Some(With(s, tid, Calling(s.base[t])))
      else Some(With(s, tid, Running([Storing(Key(t, []))])))
    case StartGet(k) => if th.Running? || th.Waiting? then None else Some(With(s, tid, Running([Loading(k)])))
    case Advance => if th.Running? && th.stack != [] then Some(AdvanceTop(deps, s, tid, th.stack)) else None
    case Register(t) =>
      if th.Running? || th.Waiting? || Key(t, []) in s.known then None
      else Some(s.(known := s.known[Key(t, []) := s.next], heap := s.heap[s.next := Registered(Key(t, []))],
                   next := s.next + 1))
    case CallHeld(o) => if th.Running? || th.Waiting? || o !in s.heap then None else Some(With(s, tid, Calling(o)))
    case Call =>
      if !th.Calling? || th.obj !in s.heap || !s.heap[th.obj].Deferred? then None
      else if s.heap[th.obj].final.Some? then Some(With(s, tid, Calling(s.heap[th.obj].final.value)))
      else Some(With(s, tid, Waiting(th.obj)))
    case Wake =>
      if !th.Waiting? || th.obj !in s.heap || !s.heap[th.obj].Deferred? || !s.heap[th.obj].done then None
      else if s.heap[th.obj].final.None? then None
      else Some(With(s, tid, Calling(s.heap[th.obj].final.value)))
    case Into(i) =>
      if th.Calling? && th.obj in s.heap && s.heap[th.obj].Final? && i < |s.heap[th.obj].parts|
      then Some(With(s, tid, Calling(s.heap[th.obj].parts[i]))) else None
    case End => if th.Calling? then Some(With(s, tid, Idle)) else None
  }

  /** A run: any goroutines taking any steps in any order. */
  function Run(deps: Key -> seq<Key>, s: State, steps: seq<(Tid, Action)>): Option<State>
    decreases |steps|
  {
    if steps == [] then Some(s) else
    match Do(deps, s, steps[0].0, steps[0].1)
    case None => None
    case Some(s') => Run(deps, s', steps[1..])
  }

  // ---------------------------------------------------------------- the invariant

  predicate Owns(f: Frame) { !f.Loading? && !f.Storing? }

  /** `r` is an object for key `k`. */
  predicate IsFor(s: State, r: Obj, k: Key) { r in s.heap && s.heap[r].key == k }

  predicate PartsFor(deps: Key -> seq<Key>, s: State, k: Key, parts: seq<Obj>)
  {
    |parts| <= |deps(k)| && forall i :: 0 <= i < |parts| ==> IsFor(s, parts[i], deps(k)[i])
  }

  /** `c` is the finished codec of `k`, and the cache says so. */
  predicate Published(s: State, k: Key, c: Obj)
  {
    c in s.heap && s.heap[c].Final? && s.heap[c].key == k && k in s.known && s.known[k] == c
  }

  /** What holds of frame `f` of goroutine `tid`, at position `i` of its stack. */
  predicate FrameOk(deps: Key -> seq<Key>, s: State, tid: Tid, i: nat, f: Frame)
  {
    Owns(f) ==>
      && f.dc in s.heap && f.key in s.known
      && s.heap[f.dc] == Deferred(f.key, if f.Releasing? then Some(f.cc) else None, false, tid, i)
      && (f.Building? ==> PartsFor(deps, s, f.key, f.parts) && s.known[f.key] == f.dc)
      && (f.Publishing? ==>
            s.known[f.key] == f.dc && f.cc in s.heap && s.heap[f.cc].Final? && s.heap[f.cc].key == f.key)
      && (f.PublishingBase? || f.Resolving? || f.Releasing? ==> Published(s, f.key, f.cc))
      && (f.PublishingBase? ==> f.key.tag == [])
  }

  /** Frames below the top are builds waiting for the codec that the frame above is fetching. */
  ghost predicate BelowOk(deps: Key -> seq<Key>, s: State, tid: Tid, stack: seq<Frame>)
  {
    && stack != []
    && (forall i :: 0 <= i < |stack| - 1 ==> FrameOk(deps, s, tid, i, stack[i]))
    && (forall i :: 0 <= i < |stack| - 1 ==> Awaits(deps, stack[i], stack[i + 1].key))
  }

  predicate Awaits(deps: Key -> seq<Key>, f: Frame, k: Key)
  {
    f.Building? && |f.parts| < |deps(f.key)| && deps(f.key)[|f.parts|] == k
  }

  ghost predicate ThreadOk(deps: Key -> seq<Key>, s: State, tid: Tid)
  {
    match ThreadOf(s, tid)
    case Idle => true
    case Running(stack) =>
      BelowOk(deps, s, tid, stack) && FrameOk(deps, s, tid, |stack| - 1, stack[|stack| - 1])
    case Calling(o) => o in s.heap
    case Waiting(o) => o in s.heap && s.heap[o].Deferred?
  }

  predicate StackOwns(th: Thread, i: nat, o: Obj)
  {
    th.Running? && i < |th.stack| && Owns(th.stack[i]) && th.stack[i].dc == o
  }

  predicate ObjectOk(deps: Key -> seq<Key>, s: State, o: Obj)
    requires o in s.heap
  {
    match s.heap[o]
    case Deferred(k, final, done, tid, level) =>
      && k in s.known
      && (final.Some? ==> Published(s, k, final.value))
      && (done ==> final.Some?)
      && (!done ==> StackOwns(ThreadOf(s, tid), level, o))
    case Final(k, parts) =>
      && PartsFor(deps, s, k, parts) && |parts| == |deps(k)| && k in s.known
      && (s.known[k] == o || BeingPublished(s, s.known[k], o))
    case Registered(k) => k.tag == [] && k in s.known && s.known[k] == o
  }

  /** `o` is the finished codec that the builder of the deferred codec `d` is about to publish. */
  predicate BeingPublished(s: State, d: Obj, o: Obj)
  {
    && d in s.heap && s.heap[d].Deferred? && !s.heap[d].done
    && var th := ThreadOf(s, s.heap[d].builder);
       && StackOwns(th, s.heap[d].level, d)
       && th.stack[s.heap[d].level].Publishing? && th.stack[s.heap[d].level].cc == o
  }

  ghost predicate Core(deps: Key -> seq<Key>, s: State)
  {
    && (forall o :: o in s.heap ==> o < s.next && ObjectOk(deps, s, o))
    && (forall k :: k in s.known ==> IsFor(s, s.known[k], k))
    && (forall t :: t in s.base ==> Published(s, Key(t, []), s.base[t]))
    && (forall c, d :: (c in s.heap && d in s.heap && s.heap[c].Deferred? && s.heap[d].Deferred?
          && s.heap[c].key == s.heap[d].key) ==> c == d)
  }

  ghost predicate Others(deps: Key -> seq<Key>, s: State, tid: Tid)
  {
    forall t :: t != tid ==> ThreadOk(deps, s, t)
  }

  ghost predicate Inv(deps: Key -> seq<Key>, s: State)
  {
    Core(deps, s) && forall t :: ThreadOk(deps, s, t)
  }

  // ---------------------------------------------------------------- framing

  /** Objects keep their keys; finished and registered codecs never change. */
  ghost predicate Kept(s: State, s': State)
  {
    forall o :: o in s.heap ==>
      && o in s'.heap && s'.heap[o].key == s.heap[o].key
      && (if s.heap[o].Deferred? then s'.heap[o].Deferred? else s'.heap[o] == s.heap[o])
  }

  lemma FrameKept(deps: Key -> seq<Key>, s: State, s': State, tid: Tid, i: nat, f: Frame)
    requires FrameOk(deps, s, tid, i, f) && Kept(s, s')
    requires Owns(f) ==>
      && s'.heap[f.dc] == s.heap[f.dc]
      && f.key in s'.known && s'.known[f.key] == s.known[f.key]
    ensures FrameOk(deps, s', tid, i, f)
  {
    if f.Building? { PartsKept(deps, s, s', f.key, f.parts); }
  }

  lemma PartsKept(deps: Key -> seq<Key>, s: State, s': State, k: Key, parts: seq<Obj>)
    requires PartsFor(deps, s, k, parts) && Kept(s, s')
    ensures PartsFor(deps, s', k, parts)
  {
    forall i | 0 <= i < |parts| ensures IsFor(s', parts[i], deps(k)[i]) {
      assert IsFor(s, parts[i], deps(k)[i]);
    }
  }

  /** Two frames never own the same deferred codec, nor build the same key. */
  lemma OwnersDiffer(deps: Key -> seq<Key>, s: State, t: Tid, i: nat, f: Frame, u: Tid, j: nat, g: Frame)
    requires Core(deps, s) && Owns(f) && Owns(g)
    requires FrameOk(deps, s, t, i, f) && FrameOk(deps, s, u, j, g) && (t != u || i != j)
    ensures f.dc != g.dc && f.key != g.key
  {
  }

  /** Only goroutine `tid`, at stack position `at`, may be building `k`. */
  ghost predicate Sole(s: State, tid: Tid, at: nat, k: Key)
  {
    forall t, i :: (ThreadOf(s, t).Running? && 0 <= i < |ThreadOf(s, t).stack| && Owns(ThreadOf(s, t).stack[i])
        && !(t == tid && i == at)) ==> ThreadOf(s, t).stack[i].key != k
  }

  lemma FrameAt(deps: Key -> seq<Key>, s: State, t: Tid, i: nat)
    requires ThreadOk(deps, s, t) && ThreadOf(s, t).Running? && i < |ThreadOf(s, t).stack|
    ensures FrameOk(deps, s, t, i, ThreadOf(s, t).stack[i])
  {
  }

  lemma BuilderIsSole(deps: Key -> seq<Key>, s: State, tid: Tid, at: nat)
    requires Inv(deps, s) && ThreadOf(s, tid).Running? && at < |ThreadOf(s, tid).stack|
    requires Owns(ThreadOf(s, tid).stack[at])
    ensures Sole(s, tid, at, ThreadOf(s, tid).stack[at].key)
  {
    hide Core;
    var f := ThreadOf(s, tid).stack[at];
    FrameAt(deps, s, tid, at);
    forall t, i | ThreadOf(s, t).Running? && 0 <= i < |ThreadOf(s, t).stack| && Owns(ThreadOf(s, t).stack[i])
      && !(t == tid && i == at)
      ensures ThreadOf(s, t).stack[i].key != f.key
    {
      FrameAt(deps, s, t, i);
      OwnersDiffer(deps, s, tid, at, f, t, i, ThreadOf(s, t).stack[i]);
    }
  }

  lemma FreshIsSole(deps: Key -> seq<Key>, s: State, tid: Tid, at: nat, k: Key)
    requires Inv(deps, s) && k !in s.known
    ensures Sole(s, tid, at, k)
  {
    forall t, i | ThreadOf(s, t).Running? && 0 <= i < |ThreadOf(s, t).stack| && Owns(ThreadOf(s, t).stack[i])
      ensures ThreadOf(s, t).stack[i].key != k
    {
      FrameAt(deps, s, t, i);
    }
  }

  /** A step that changes, besides goroutine `tid`, only what belongs to key `k`. */
  ghost predicate Touches(s: State, s': State, tid: Tid, k: Key)
  {
    && Kept(s, s') && s.next <= s'.next
    && (forall x :: x in s.known && x != k ==> x in s'.known && s'.known[x] == s.known[x])
    && (forall x :: x in s'.known && x != k ==> x in s.known)
    && (forall o :: o in s.heap && s.heap[o].key != k ==> s'.heap[o] == s.heap[o])
    && (forall t :: t != tid ==> ThreadOf(s', t) == ThreadOf(s, t))
  }

  lemma OthersKept(deps: Key -> seq<Key>, s: State, s': State, tid: Tid, at: nat, k: Key)
    requires Inv(deps, s) && Touches(s, s', tid, k) && Sole(s, tid, at, k)
    ensures Others(deps, s', tid)
    ensures ThreadOf(s, tid).Running? && at == |ThreadOf(s, tid).stack| - 1 ==>
      BelowOk(deps, s', tid, ThreadOf(s, tid).stack)
  {
    hide Core, FrameOk;
    forall t, i | ThreadOf(s, t).Running? && 0 <= i < |ThreadOf(s, t).stack| && !(t == tid && i == at)
      ensures FrameOk(deps, s', t, i, ThreadOf(s, t).stack[i])
    {
      FrameAt(deps, s, t, i);
      OwnedInHeap(deps, s, t, i, ThreadOf(s, t).stack[i]);
      FrameKept(deps, s, s', t, i, ThreadOf(s, t).stack[i]);
    }
    forall t | t != tid ensures ThreadOk(deps, s', t) {
      assert ThreadOk(deps, s, t);
    }
    assert ThreadOk(deps, s, tid);
  }

  lemma OwnedInHeap(deps: Key -> seq<Key>, s: State, t: Tid, i: nat, f: Frame)
    requires FrameOk(deps, s, t, i, f)
    ensures Owns(f) ==> f.dc in s.heap && s.heap[f.dc].key == f.key && f.key in s.known
  {
  }

  /** Unfinished deferred codecs of goroutine `tid` are still owned by its frames in `th`. */
  ghost predicate KeepsOwning(s: State, tid: Tid, th: Thread)
  {
    forall o :: (o in s.heap && s.heap[o].Deferred? && !s.heap[o].done && s.heap[o].builder == tid) ==>
      && StackOwns(th, s.heap[o].level, o)
      && (StackOwns(ThreadOf(s, tid), s.heap[o].level, o)
          && ThreadOf(s, tid).stack[s.heap[o].level].Publishing? ==>
            th.stack[s.heap[o].level] == ThreadOf(s, tid).stack[s.heap[o].level])
  }

  lemma CoreWith(deps: Key -> seq<Key>, s: State, tid: Tid, th: Thread)
    requires Core(deps, s) && KeepsOwning(s, tid, th)
    ensures Core(deps, With(s, tid, th))
  {
    var s' := With(s, tid, th);
    forall o | o in s'.heap ensures ObjectOk(deps, s', o) {
      assert ObjectOk(deps, s, o);
      if s.heap[o].Final? { PartsKept(deps, s, s', s.heap[o].key, s.heap[o].parts); }
    }
  }

  lemma OthersWith(deps: Key -> seq<Key>, s: State, tid: Tid, th: Thread)
    requires Others(deps, s, tid)
    ensures Others(deps, With(s, tid, th), tid)
  {
    hide FrameOk;
    var s' := With(s, tid, th);
    forall t | t != tid ensures ThreadOk(deps, s', t) {
      assert ThreadOk(deps, s, t) && ThreadOf(s', t) == ThreadOf(s, t);
      if ThreadOf(s, t).Running? {
        forall i | 0 <= i < |ThreadOf(s, t).stack| ensures FrameOk(deps, s', t, i, ThreadOf(s, t).stack[i]) {
          FrameAt(deps, s, t, i);
          FrameSame(deps, s, s', t, i, ThreadOf(s, t).stack[i]);
        }
      }
    }
  }

  lemma FrameSame(deps: Key -> seq<Key>, s: State, s': State, t: Tid, i: nat, f: Frame)
    requires FrameOk(deps, s, t, i, f) && s'.heap == s.heap && s'.known == s.known
    ensures FrameOk(deps, s', t, i, f)
  {
    OwnedInHeap(deps, s, t, i, f);
    FrameKept(deps, s, s', t, i, f);
  }

  // ---------------------------------------------------------------- one step keeps the invariant

  lemma ReturnKeeps(deps: Key -> seq<Key>, s: State, tid: Tid, stack: seq<Frame>, r: Obj)
    requires Core(deps, s) && Others(deps, s, tid) && ThreadOf(s, tid) == Running(stack) && BelowOk(deps, s, tid, stack)
    requires IsFor(s, r, stack[|stack| - 1].key)
    requires forall o :: (o in s.heap && s.heap[o].Deferred? && !s.heap[o].done && s.heap[o].builder == tid) ==>
      s.heap[o].level < |stack| - 1
    ensures Inv(deps, Return(s, tid, stack, r))
  {
    var below := stack[..|stack| - 1];
    var s' := Return(s, tid, stack, r);
    var th := ThreadOf(s', tid);
    assert KeepsOwning(s, tid, th) by {
      forall o | o in s.heap && s.heap[o].Deferred? && !s.heap[o].done && s.heap[o].builder == tid
        ensures StackOwns(th, s.heap[o].level, o)
        ensures ThreadOf(s, tid).stack[s.heap[o].level].Publishing? ==>
          th.stack[s.heap[o].level] == ThreadOf(s, tid).stack[s.heap[o].level]
      {
        assert ObjectOk(deps, s, o);
        assert Awaits(deps, stack[s.heap[o].level], stack[s.heap[o].level + 1].key);
      }
    }
    if below != [] { assert Awaits(deps, stack[|stack| - 2], stack[|stack| - 1].key); }
    CoreWith(deps, s, tid, th);
    OthersWith(deps, s, tid, th);
    if below != [] { CallerKeeps(deps, s, tid, stack, r); }
    assert ThreadOk(deps, s', tid);
  }

  lemma CallerKeeps(deps: Key -> seq<Key>, s: State, tid: Tid, stack: seq<Frame>, r: Obj)
    requires |stack| > 1 && ThreadOf(s, tid) == Running(stack) && BelowOk(deps, s, tid, stack)
    requires IsFor(s, r, stack[|stack| - 1].key)
    ensures ThreadOk(deps, Return(s, tid, stack, r), tid)
  {
    var s', n := Return(s, tid, stack, r), |stack| - 2;
    assert Awaits(deps, stack[n], stack[n + 1].key);
    var frames := ThreadOf(s', tid).stack;
    assert frames == stack[..n + 1][n := stack[n].(parts := stack[n].parts + [r])];
    forall i | 0 <= i < n ensures FrameOk(deps, s', tid, i, frames[i]) && Awaits(deps, frames[i], frames[i + 1].key) {
      assert Awaits(deps, stack[i], stack[i + 1].key);
      FrameSame(deps, s, s', tid, i, stack[i]);
    }
    FrameSame(deps, s, s', tid, n, stack[n]);
  }

  lemma LevelsBelow(deps: Key -> seq<Key>, s: State, tid: Tid)
    requires Inv(deps, s) && ThreadOf(s, tid).Running?
    requires ThreadOf(s, tid).stack != [] && !Owns(ThreadOf(s, tid).stack[|ThreadOf(s, tid).stack| - 1])
    ensures forall o :: (o in s.heap && s.heap[o].Deferred? && !s.heap[o].done && s.heap[o].builder == tid) ==>
      s.heap[o].level < |ThreadOf(s, tid).stack| - 1
  {
    forall o | o in s.heap && s.heap[o].Deferred? && !s.heap[o].done && s.heap[o].builder == tid
      ensures s.heap[o].level < |ThreadOf(s, tid).stack| - 1
    {
      assert ObjectOk(deps, s, o);
    }
  }

  /** Steps that change only the goroutine's own control state. */
  lemma ControlKeeps(deps: Key -> seq<Key>, s: State, tid: Tid, th: Thread)
    requires Inv(deps, s) && KeepsOwning(s, tid, th) && ThreadOk(deps, With(s, tid, th), tid)
    ensures Inv(deps, With(s, tid, th))
  {
    CoreWith(deps, s, tid, th);
    OthersWith(deps, s, tid, th);
  }

  /** A goroutine that is not building owns nothing. */
  lemma FreeOwnsNothing(deps: Key -> seq<Key>, s: State, tid: Tid, th: Thread)
    requires Inv(deps, s) && !ThreadOf(s, tid).Running?
    ensures KeepsOwning(s, tid, th)
  {
    OwnersListed(deps, s, tid);
  }

  lemma LookupKeeps(deps: Key -> seq<Key>, s: State, tid: Tid, stack: seq<Frame>)
    requires Inv(deps, s) && ThreadOf(s, tid) == Running(stack) && stack != [] && !Owns(stack[|stack| - 1])
    requires stack[|stack| - 1].Storing? ==> stack[|stack| - 1].key in s.known
    ensures Inv(deps, AdvanceTop(deps, s, tid, stack))
  {
    var at := |stack| - 1;
    var k := stack[at].key;
    LevelsBelow(deps, s, tid);
    assert ThreadOk(deps, s, tid);
    if k in s.known {
      ReturnKeeps(deps, s, tid, stack, s.known[k]);
    } else {
      var th := Running(stack[at := Storing(k)]);
      BelowReplaced(deps, s, With(s, tid, th), tid, stack, Storing(k));
      ControlKeeps(deps, s, tid, th);
    }
  }

  /** Replacing the top frame by one for the same key. */
  lemma BelowReplaced(deps: Key -> seq<Key>, s: State, s': State, tid: Tid, stack: seq<Frame>, f: Frame)
    requires BelowOk(deps, s, tid, stack) && f.key == stack[|stack| - 1].key
    requires s'.heap == s.heap && s'.known == s.known
    ensures BelowOk(deps, s', tid, stack[|stack| - 1 := f])
  {
    hide FrameOk;
    var stack' := stack[|stack| - 1 := f];
    forall i | 0 <= i < |stack| - 1
      ensures FrameOk(deps, s', tid, i, stack'[i]) && Awaits(deps, stack'[i], stack'[i + 1].key)
    {
      FrameSame(deps, s, s', tid, i, stack[i]);
      assert Awaits(deps, stack[i], stack[i + 1].key);
    }
  }

  lemma PushKeeps(deps: Key -> seq<Key>, s: State, tid: Tid, stack: seq<Frame>)
    requires Inv(deps, s) && ThreadOf(s, tid) == Running(stack) && stack != [] && stack[|stack| - 1].Building?
    requires |stack[|stack| - 1].parts| < |deps(stack[|stack| - 1].key)|
    ensures Inv(deps, AdvanceTop(deps, s, tid, stack))
  {
    hide FrameOk;
    var at := |stack| - 1;
    var f := Loading(deps(stack[at].key)[|stack[at].parts|]);
    var th := Running(stack + [f]);
    var s' := With(s, tid, th);
    assert ThreadOk(deps, s, tid);
    forall i | 0 <= i <= at
      ensures FrameOk(deps, s', tid, i, (stack + [f])[i]) && Awaits(deps, (stack + [f])[i], (stack + [f])[i + 1].key)
    {
      FrameAt(deps, s, tid, i);
      FrameSame(deps, s, s', tid, i, stack[i]);
      if i < at { assert Awaits(deps, stack[i], stack[i + 1].key); }
    }
    assert FrameOk(deps, s', tid, at + 1, f) by { LoadingOk(deps, s', tid, at + 1, f); }
    OwnersListed(deps, s, tid);
    ControlKeeps(deps, s, tid, th);
  }

  lemma LoadingOk(deps: Key -> seq<Key>, s: State, tid: Tid, i: nat, f: Frame)
    requires !Owns(f)
    ensures FrameOk(deps, s, tid, i, f)
  {
  }

  lemma OwnersListed(deps: Key -> seq<Key>, s: State, tid: Tid)
    requires Inv(deps, s)
    ensures forall o :: (o in s.heap && s.heap[o].Deferred? && !s.heap[o].done && s.heap[o].builder == tid) ==>
      StackOwns(ThreadOf(s, tid), s.heap[o].level, o)
  {
    forall o | o in s.heap && s.heap[o].Deferred? && !s.heap[o].done && s.heap[o].builder == tid
      ensures StackOwns(ThreadOf(s, tid), s.heap[o].level, o)
    {
      assert ObjectOk(deps, s, o);
    }
  }

  // ---------------------------------------------------------------- steps that change shared state

  /** What a step on key `k` by the top frame needs, so that the invariant holds afterwards. */
  lemma TopStep(deps: Key -> seq<Key>, s: State, s': State, tid: Tid, stack: seq<Frame>, f: Frame)
    requires Inv(deps, s) && ThreadOf(s, tid) == Running(stack) && stack != []
    requires var at := |stack| - 1; var k := stack[at].key;
      && f.key == k && (Owns(stack[at]) || k !in s.known)
      && ThreadOf(s', tid) == Running(stack[at := f]) && Touches(s, s', tid, k)
      && FrameOk(deps, s', tid, at, f)
    requires Core(deps, s')
    ensures Inv(deps, s')
  {
    hide Core, FrameOk, Touches;
    var at := |stack| - 1;
    if Owns(stack[at]) { BuilderIsSole(deps, s, tid, at); } else { FreshIsSole(deps, s, tid, at, stack[at].key); }
    OthersKept(deps, s, s', tid, at, stack[at].key);
    BelowReplaced(deps, s', s', tid, stack, f);
  }

  /** Goroutine `tid` keeps its frames, except perhaps the one at `at`, which is about `k`. */
  ghost predicate StackKept(s: State, s': State, tid: Tid, at: nat, k: Key)
  {
    var th, th' := ThreadOf(s, tid), ThreadOf(s', tid);
    th' == th
    || (th.Running? && th'.Running? && at < |th.stack| == |th'.stack| && th.stack[at].key == k
        && forall i :: 0 <= i < |th.stack| && i != at ==> th'.stack[i] == th.stack[i])
  }

  /** An object of another key stays as good as it was. */
  lemma ObjectKept(deps: Key -> seq<Key>, s: State, s': State, tid: Tid, at: nat, k: Key, o: Obj)
    requires o in s.heap && ObjectOk(deps, s, o) && s.heap[o].key != k
    requires Touches(s, s', tid, k) && StackKept(s, s', tid, at, k)
    requires forall x :: x in s.known ==> IsFor(s, s.known[x], x)
    requires ThreadOf(s, tid).Running? && at < |ThreadOf(s, tid).stack| ==>
      FrameOk(deps, s, tid, at, ThreadOf(s, tid).stack[at])
    ensures ObjectOk(deps, s', o)
  {
    var x := s.heap[o].key;
    match s.heap[o] {
      case Deferred(_, final, done, t, level) =>
      case Final(_, parts) => PartsKept(deps, s, s', x, parts);
      case Registered(_) =>
    }
  }

  /** What is left to show, after a step on key `k`, of the shared state: the objects of `k`. */
  ghost predicate KeyCore(deps: Key -> seq<Key>, s: State, s': State, k: Key)
  {
    && (forall o :: o in s'.heap && s'.heap[o].key == k ==> o < s'.next && ObjectOk(deps, s', o))
    && (forall o :: o in s'.heap && o !in s.heap ==> s'.heap[o].key == k)
    && (k in s'.known ==> IsFor(s', s'.known[k], k))
    && (forall t :: t in s'.base && Key(t, []) != k ==> t in s.base && s'.base[t] == s.base[t])
    && (forall t :: t in s'.base && Key(t, []) == k ==> Published(s', k, s'.base[t]))
    && (forall c, d :: (c in s'.heap && d in s'.heap && s'.heap[c].Deferred? && s'.heap[d].Deferred?
          && s'.heap[c].key == k && s'.heap[d].key == k) ==> c == d)
  }

  lemma CoreTouched(deps: Key -> seq<Key>, s: State, s': State, tid: Tid, at: nat, k: Key)
    requires Core(deps, s) && ThreadOk(deps, s, tid)
    requires Touches(s, s', tid, k) && StackKept(s, s', tid, at, k) && KeyCore(deps, s, s', k)
    ensures Core(deps, s')
  {
    hide ObjectOk, StackKept, FrameOk, BelowOk, Awaits;
    forall o | o in s'.heap ensures o < s'.next && ObjectOk(deps, s', o) {
      if s'.heap[o].key != k {
        assert ObjectOk(deps, s, o);
        if ThreadOf(s, tid).Running? && at < |ThreadOf(s, tid).stack| { FrameAt(deps, s, tid, at); }
        ObjectKept(deps, s, s', tid, at, k, o);
      }
    }
    forall t | t in s'.base ensures Published(s', Key(t, []), s'.base[t]) {
      if Key(t, []) != k { assert Published(s, Key(t, []), s.base[t]); }
    }
  }

  /** All there is about the key of frame `f`: its deferred codec, and its codec once that is built. */
  ghost predicate KeyView(deps: Key -> seq<Key>, s: State, tid: Tid, at: nat, f: Frame)
  {
    && Owns(f) && FrameOk(deps, s, tid, at, f) && f.dc < s.next
    && (forall o :: o in s.heap && s.heap[o].key == f.key ==> o == f.dc || (!f.Building? && o == f.cc))
    && (!f.Building? ==> f.cc < s.next && ObjectOk(deps, s, f.cc))
    && (forall t :: t in s.base && Key(t, []) == f.key ==> Published(s, f.key, s.base[t]))
    && (forall o :: o in s.heap ==> o < s.next)
  }

  lemma TopFacts(deps: Key -> seq<Key>, s: State, tid: Tid, stack: seq<Frame>)
    requires Inv(deps, s) && ThreadOf(s, tid) == Running(stack) && stack != [] && Owns(stack[|stack| - 1])
    ensures KeyView(deps, s, tid, |stack| - 1, stack[|stack| - 1])
  {
    var at := |stack| - 1;
    var f := stack[at];
    assert ThreadOk(deps, s, tid);
    forall o | o in s.heap && s.heap[o].key == f.key && o != f.dc ensures !f.Building? && o == f.cc {
      assert ObjectOk(deps, s, o);
    }
  }

  /** An unknown key has no objects and no base entry. */
  lemma NoneOf(deps: Key -> seq<Key>, s: State, k: Key)
    requires Inv(deps, s) && k !in s.known
    ensures forall o :: o in s.heap ==> s.heap[o].key != k && o < s.next
    ensures forall t :: t in s.base ==> Key(t, []) != k
  {
    forall o | o in s.heap ensures s.heap[o].key != k { assert ObjectOk(deps, s, o); }
    forall t | t in s.base ensures Key(t, []) != k { assert Published(s, Key(t, []), s.base[t]); }
  }

  predicate RunsAt(s: State, tid: Tid, at: nat, f: Frame)
  {
    ThreadOf(s, tid).Running? && at < |ThreadOf(s, tid).stack| && ThreadOf(s, tid).stack[at] == f
  }

  lemma StepOn(deps: Key -> seq<Key>, s: State, s': State, tid: Tid, stack: seq<Frame>, f: Frame)
    requires Inv(deps, s) && ThreadOf(s, tid) == Running(stack) && stack != []
    requires var at := |stack| - 1; var k := stack[at].key;
      && f.key == k && (Owns(stack[at]) || k !in s.known)
      && ThreadOf(s', tid) == Running(stack[at := f]) && Touches(s, s', tid, k)
      && FrameOk(deps, s', tid, at, f) && KeyCore(deps, s, s', k)
    ensures Inv(deps, s')
  {
    hide Core, FrameOk, Touches, KeyCore;
    assert StackKept(s, s', tid, |stack| - 1, f.key);
    CoreTouched(deps, s, s', tid, |stack| - 1, f.key);
    TopStep(deps, s, s', tid, stack, f);
  }

  lemma ReserveKeeps(deps: Key -> seq<Key>, s: State, tid: Tid, stack: seq<Frame>)
    requires Inv(deps, s) && ThreadOf(s, tid) == Running(stack) && stack != []
    requires stack[|stack| - 1].Storing? && stack[|stack| - 1].key !in s.known
    ensures Inv(deps, AdvanceTop(deps, s, tid, stack))
  {
    hide Inv, Touches, KeyCore, FrameOk;
    var at, s' := |stack| - 1, AdvanceTop(deps, s, tid, stack);
    var k, f := stack[at].key, Building(stack[at].key, s.next, []);
    NoneOf(deps, s, k);
    ReserveCore(deps, s, s', tid, at, k);
    StepOn(deps, s, s', tid, stack, f);
  }

  lemma ReserveCore(deps: Key -> seq<Key>, s: State, s': State, tid: Tid, at: nat, k: Key)
    requires forall o :: o in s.heap ==> s.heap[o].key != k && o < s.next
    requires forall t :: t in s.base ==> Key(t, []) != k
    requires k !in s.known && RunsAt(s', tid, at, Building(k, s.next, []))
    requires s' == s.(known := s.known[k := s.next], heap := s.heap[s.next := Deferred(k, None, false, tid, at)],
                      next := s.next + 1, threads := s.threads[tid := ThreadOf(s', tid)])
    ensures Touches(s, s', tid, k) && KeyCore(deps, s, s', k)
    ensures FrameOk(deps, s', tid, at, Building(k, s.next, []))
  {
    assert ObjectOk(deps, s', s.next);
  }

  /** The five steps of a builder that change shared state, and the frame each leaves on top. */
  lemma BuilderKeeps(deps: Key -> seq<Key>, s: State, tid: Tid, stack: seq<Frame>)
    requires Inv(deps, s) && ThreadOf(s, tid) == Running(stack) && stack != [] && Owns(stack[|stack| - 1])
    requires var f := stack[|stack| - 1]; !f.Releasing? && (f.Building? ==> |f.parts| == |deps(f.key)|)
    ensures Inv(deps, AdvanceTop(deps, s, tid, stack))
  {
    hide Inv, Touches, KeyCore, FrameOk, KeyView;
    var at, s' := |stack| - 1, AdvanceTop(deps, s, tid, stack);
    var f := stack[at];
    TopFacts(deps, s, tid, stack);
    TopFrame(deps, s, tid, at, f);
    var f' := ThreadOf(s', tid).stack[at];
    match f {
      case Building(_, _, _) => FinishCore(deps, s, s', tid, at, f);
      case Publishing(_, _, _) => PublishCore(deps, s, s', tid, at, f, f');
      case PublishingBase(_, _, _) => PublishBaseCore(deps, s, s', tid, at, f);
      case Resolving(_, _, _) => ResolveCore(deps, s, s', tid, at, f);
    }
    StepOn(deps, s, s', tid, stack, f');
  }

  lemma TopFrame(deps: Key -> seq<Key>, s: State, tid: Tid, at: nat, f: Frame)
    requires KeyView(deps, s, tid, at, f)
    ensures f.dc in s.heap && s.heap[f.dc] == Deferred(f.key, if f.Releasing? then Some(f.cc) else None, false, tid, at)
  {
  }

  lemma FinishCore(deps: Key -> seq<Key>, s: State, s': State, tid: Tid, at: nat, f: Frame)
    requires KeyView(deps, s, tid, at, f) && f.Building? && |f.parts| == |deps(f.key)|
    requires RunsAt(s', tid, at, Publishing(f.key, f.dc, s.next))
    requires s' == s.(heap := s.heap[s.next := Final(f.key, f.parts)], next := s.next + 1,
                      threads := s.threads[tid := ThreadOf(s', tid)])
    ensures Touches(s, s', tid, f.key) && KeyCore(deps, s, s', f.key)
    ensures FrameOk(deps, s', tid, at, Publishing(f.key, f.dc, s.next))
  {
    PartsKept(deps, s, s', f.key, f.parts);
    assert ObjectOk(deps, s', s.next) && ObjectOk(deps, s', f.dc);
  }

  lemma PublishCore(deps: Key -> seq<Key>, s: State, s': State, tid: Tid, at: nat, f: Frame, f': Frame)
    requires KeyView(deps, s, tid, at, f) && f.Publishing? && RunsAt(s', tid, at, f')
    requires f' == if f.key.tag == [] then PublishingBase(f.key, f.dc, f.cc) else Resolving(f.key, f.dc, f.cc)
    requires s' == s.(known := s.known[f.key := f.cc], threads := s.threads[tid := ThreadOf(s', tid)])
    ensures Touches(s, s', tid, f.key) && KeyCore(deps, s, s', f.key)
    ensures FrameOk(deps, s', tid, at, f')
  {
    PartsKept(deps, s, s', f.key, s.heap[f.cc].parts);
    assert ObjectOk(deps, s', f.cc) && ObjectOk(deps, s', f.dc);
  }

  lemma PublishBaseCore(deps: Key -> seq<Key>, s: State, s': State, tid: Tid, at: nat, f: Frame)
    requires KeyView(deps, s, tid, at, f) && f.PublishingBase?
    requires RunsAt(s', tid, at, Resolving(f.key, f.dc, f.cc))
    requires s' == s.(base := s.base[f.key.t := f.cc], threads := s.threads[tid := ThreadOf(s', tid)])
    ensures Touches(s, s', tid, f.key) && KeyCore(deps, s, s', f.key)
    ensures FrameOk(deps, s', tid, at, Resolving(f.key, f.dc, f.cc))
  {
    PartsKept(deps, s, s', f.key, s.heap[f.cc].parts);
    assert f.key == Key(f.key.t, []);
    assert ObjectOk(deps, s', f.cc) && ObjectOk(deps, s', f.dc);
  }

  lemma ResolveCore(deps: Key -> seq<Key>, s: State, s': State, tid: Tid, at: nat, f: Frame)
    requires KeyView(deps, s, tid, at, f) && f.Resolving?
    requires RunsAt(s', tid, at, Releasing(f.key, f.dc, f.cc))
    requires s' == s.(heap := s.heap[f.dc := Deferred(f.key, Some(f.cc), false, tid, at)],
                      threads := s.threads[tid := ThreadOf(s', tid)])
    ensures Touches(s, s', tid, f.key) && KeyCore(deps, s, s', f.key)
    ensures FrameOk(deps, s', tid, at, Releasing(f.key, f.dc, f.cc))
  {
    PartsKept(deps, s, s', f.key, s.heap[f.cc].parts);
    assert ObjectOk(deps, s', f.cc) && ObjectOk(deps, s', f.dc);
  }

  lemma ReleaseCore(deps: Key -> seq<Key>, s: State, s': State, tid: Tid, at: nat, f: Frame)
    requires KeyView(deps, s, tid, at, f) && f.Releasing?
    requires s' == s.(heap := s.heap[f.dc := Deferred(f.key, Some(f.cc), true, tid, at)])
    ensures Touches(s, s', tid, f.key) && KeyCore(deps, s, s', f.key)
    ensures IsFor(s', f.cc, f.key) && s.heap[f.dc] == s'.heap[f.dc].(done := false)
  {
    PartsKept(deps, s, s', f.key, s.heap[f.cc].parts);
    assert ObjectOk(deps, s', f.cc) && ObjectOk(deps, s', f.dc);
  }

  lemma ReleaseKeeps(deps: Key -> seq<Key>, s: State, tid: Tid, stack: seq<Frame>)
    requires Inv(deps, s) && ThreadOf(s, tid) == Running(stack) && stack != [] && stack[|stack| - 1].Releasing?
    ensures Inv(deps, AdvanceTop(deps, s, tid, stack))
  {
    hide KeyCore, Core, Touches, FrameOk, KeyView, BelowOk, Return;
    var at := |stack| - 1;
    var f := stack[at];
    TopFacts(deps, s, tid, stack);
    TopFrame(deps, s, tid, at, f);
    var s1 := s.(heap := s.heap[f.dc := Deferred(f.key, Some(f.cc), true, tid, at)]);
    ReleaseCore(deps, s, s1, tid, at, f);
    CoreTouched(deps, s, s1, tid, at, f.key);
    BuilderIsSole(deps, s, tid, at);
    OthersKept(deps, s, s1, tid, at, f.key);
    LevelsInside(deps, s, tid, stack, f.dc);
    ReturnKeeps(deps, s1, tid, stack, f.cc);
  }

  /** The top frame's deferred codec is the only one at its level. */
  lemma LevelsInside(deps: Key -> seq<Key>, s: State, tid: Tid, stack: seq<Frame>, dc: Obj)
    requires Inv(deps, s) && ThreadOf(s, tid) == Running(stack) && stack != []
    requires StackOwns(Running(stack), |stack| - 1, dc)
    ensures forall o :: (o in s.heap && s.heap[o].Deferred? && !s.heap[o].done && s.heap[o].builder == tid
                          && o != dc) ==>
      s.heap[o].level < |stack| - 1
  {
    OwnersListed(deps, s, tid);
  }

  lemma RegisterKeeps(deps: Key -> seq<Key>, s: State, tid: Tid, t: Types.TypeId)
    requires Inv(deps, s) && Do(deps, s, tid, Register(t)).Some?
    ensures Inv(deps, Do(deps, s, tid, Register(t)).value)
  {
    hide KeyCore, Core, Touches, FrameOk, BelowOk;
    var s', k := Do(deps, s, tid, Register(t)).value, Key(t, []);
    NoneOf(deps, s, k);
    FreshIsSole(deps, s, tid, 0, k);
    RegisterCore(deps, s, s', tid, k);
    CoreTouched(deps, s, s', tid, 0, k);
    OthersKept(deps, s, s', tid, 0, k);
    OwnerKept(deps, s, s', tid, k);
  }

  lemma RegisterCore(deps: Key -> seq<Key>, s: State, s': State, tid: Tid, k: Key)
    requires forall o :: o in s.heap ==> s.heap[o].key != k && o < s.next
    requires forall t :: t in s.base ==> Key(t, []) != k
    requires k !in s.known && k.tag == []
    requires s' == s.(known := s.known[k := s.next], heap := s.heap[s.next := Registered(k)], next := s.next + 1)
    ensures Touches(s, s', tid, k) && KeyCore(deps, s, s', k)
  {
    assert ObjectOk(deps, s', s.next);
  }

  lemma OwnerKept(deps: Key -> seq<Key>, s: State, s': State, tid: Tid, k: Key)
    requires ThreadOk(deps, s, tid) && !ThreadOf(s, tid).Running?
    requires Touches(s, s', tid, k) && ThreadOf(s', tid) == ThreadOf(s, tid)
    ensures ThreadOk(deps, s', tid)
  {
  }

  lemma AdvanceKeeps(deps: Key -> seq<Key>, s: State, tid: Tid, stack: seq<Frame>)
    requires Inv(deps, s) && ThreadOf(s, tid) == Running(stack) && stack != []
    ensures Inv(deps, AdvanceTop(deps, s, tid, stack))
  {
    hide Inv, AdvanceTop;
    var f := stack[|stack| - 1];
    match f
    case Loading(_) => LookupKeeps(deps, s, tid, stack);
    case Storing(k) =>
      if k in s.known { LookupKeeps(deps, s, tid, stack); } else { ReserveKeeps(deps, s, tid, stack); }
    case Building(k, _, parts) =>
      PartsBounded(deps, s, tid, stack);
      if |parts| < |deps(k)| { PushKeeps(deps, s, tid, stack); } else { BuilderKeeps(deps, s, tid, stack); }
    case Releasing(_, _, _) => ReleaseKeeps(deps, s, tid, stack);
    case _ => BuilderKeeps(deps, s, tid, stack);
  }

  lemma PartsBounded(deps: Key -> seq<Key>, s: State, tid: Tid, stack: seq<Frame>)
    requires Inv(deps, s) && ThreadOf(s, tid) == Running(stack) && stack != [] && stack[|stack| - 1].Building?
    ensures |stack[|stack| - 1].parts| <= |deps(stack[|stack| - 1].key)|
  {
    FrameAt(deps, s, tid, |stack| - 1);
  }

  /** Every step of every goroutine keeps the invariant. */
  lemma StepKeeps(deps: Key -> seq<Key>, s: State, tid: Tid, a: Action)
    requires Inv(deps, s) && Do(deps, s, tid, a).Some?
    ensures Inv(deps, Do(deps, s, tid, a).value)
  {
    hide Core;
    var s' := Do(deps, s, tid, a).value;
    if a.Advance? {
      AdvanceKeeps(deps, s, tid, ThreadOf(s, tid).stack);
    } else if a.Register? {
      RegisterKeeps(deps, s, tid, a.t);
    } else {
      var th := ThreadOf(s', tid);
      assert s' == With(s, tid, th);
      FreeOwnsNothing(deps, s, tid, th);
      ReachedObject(deps, s, tid, a);
      ControlKeeps(deps, s, tid, th);
    }
  }

  /** Lookups and calls only ever reach existing objects. */
  lemma ReachedObject(deps: Key -> seq<Key>, s: State, tid: Tid, a: Action)
    requires Inv(deps, s) && Do(deps, s, tid, a).Some? && !a.Advance? && !a.Register?
    ensures ThreadOk(deps, Do(deps, s, tid, a).value, tid)
  {
    assert ThreadOk(deps, s, tid);
    var th := ThreadOf(s, tid);
    if th.Calling? || th.Waiting? {
      assert ObjectOk(deps, s, th.obj);
      if a.Into? { assert IsFor(s, s.heap[th.obj].parts[a.part], deps(s.heap[th.obj].key)[a.part]); }
    }
  }
}
