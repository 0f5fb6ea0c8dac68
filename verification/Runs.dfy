/** What the publication protocol guarantees over whole runs, whatever the interleaving: one builder
    per key, entries that only move forward, codecs resolved once, no deadlock, and lookups that end. */
module Runs {
  import opened Words
  import opened Shapes
  import opened Protocol
  import Types

  type Steps = seq<(Tid, Action)>

  // ---------------------------------------------------------------- every run keeps the invariant

  lemma {:induction false} RunKeeps(deps: Key -> seq<Key>, s: State, steps: Steps)
    requires Inv(deps, s) && Run(deps, s, steps).Some?
    ensures Inv(deps, Run(deps, s, steps).value)
    decreases |steps|
  {
    hide Inv, Do;
    if steps != [] {
      StepKeeps(deps, s, steps[0].0, steps[0].1);
      RunKeeps(deps, Do(deps, s, steps[0].0, steps[0].1).value, steps[1..]);
    }
  }

  /** In every state any run reaches from the empty coder, the invariant holds. */
  lemma EveryRunKeeps(deps: Key -> seq<Key>, steps: Steps)
    requires Run(deps, INITIAL, steps).Some?
    ensures Inv(deps, Run(deps, INITIAL, steps).value)
  {
    RunKeeps(deps, INITIAL, steps);
  }

  // ---------------------------------------------------------------- one builder per key

  /** Frame `i` of goroutine `t` is building, publishing or resolving the codec of `k`. */
  predicate Builds(s: State, t: Tid, i: nat, k: Key)
  {
    ThreadOf(s, t).Running? && i < |ThreadOf(s, t).stack|
    && Owns(ThreadOf(s, t).stack[i]) && ThreadOf(s, t).stack[i].key == k
  }

  /** No key is ever built by two goroutines, nor twice by one, not even one build inside another. */
  lemma OneBuilder(deps: Key -> seq<Key>, steps: Steps, s: State, k: Key, t: Tid, i: nat, u: Tid, j: nat)
    requires Run(deps, INITIAL, steps) == Some(s) && Builds(s, t, i, k) && Builds(s, u, j, k)
    ensures t == u && i == j
  {
    hide Inv;
    EveryRunKeeps(deps, steps);
    BuilderIsSole(deps, s, t, i);
  }

  // ---------------------------------------------------------------- entries only move forward

  /** The states of a cache entry. */
  datatype Entry = Absent | Pending(dc: Obj) | Finished(codec: Obj) | Custom(codec: Obj)

  function EntryOf(s: State, k: Key): Entry
  {
    if k !in s.known || s.known[k] !in s.heap then Absent else
    match s.heap[s.known[k]]
    case Deferred(_, _, _, _, _) => Pending(s.known[k])
    case Final(_, _) => Finished(s.known[k])
    case Registered(_) => Custom(s.known[k])
  }

  predicate EntryFollows(e: Entry, e': Entry)
  {
    match e
    case Absent => true
    case Pending(d) => e' == e || e'.Finished?
    case _ => e' == e
  }

  predicate ObjectFollows(o: Object, o': Object)
  {
    match o
    case Deferred(k, final, done, t, i) =>
      o'.Deferred? && o'.key == k && o'.builder == t && o'.level == i
      && (final.Some? ==> o'.final == final) && (done ==> o'.done)
    case _ => o' == o
  }

  /** How one state may differ from an earlier one. */
  ghost predicate Follows(s: State, s': State)
  {
    && (forall k :: EntryFollows(EntryOf(s, k), EntryOf(s', k)))
    && (forall o :: o in s.heap ==> o in s'.heap && ObjectFollows(s.heap[o], s'.heap[o]))
    && (forall t :: t in s.base ==> t in s'.base && s'.base[t] == s.base[t])
  }

  lemma FollowsFurther(a: State, b: State, c: State)
    requires Follows(a, b) && Follows(b, c)
    ensures Follows(a, c)
  {
    forall k ensures EntryFollows(EntryOf(a, k), EntryOf(c, k)) {
      assert EntryFollows(EntryOf(a, k), EntryOf(b, k)) && EntryFollows(EntryOf(b, k), EntryOf(c, k));
    }
  }

  /** Nothing shared changes. */
  lemma ControlFollows(s: State, s': State)
    requires s'.known == s.known && s'.heap == s.heap && s'.base == s.base
    ensures Follows(s, s')
  {
  }

  lemma AdvanceFollows(deps: Key -> seq<Key>, s: State, tid: Tid, stack: seq<Frame>)
    requires Inv(deps, s) && ThreadOf(s, tid) == Running(stack) && stack != []
    ensures Follows(s, AdvanceTop(deps, s, tid, stack))
  {
    hide Inv, Follows, KeyView;
    var at, s' := |stack| - 1, AdvanceTop(deps, s, tid, stack);
    var f := stack[at];
    if Owns(f) {
      TopFacts(deps, s, tid, stack);
      TopFrame(deps, s, tid, at, f);
      BuilderFollows(deps, s, s', tid, stack);
    } else if f.Storing? && f.key !in s.known {
      NoneOf(deps, s, f.key);
      AddFollows(s, s', f.key);
    } else {
      ControlFollows(s, s');
    }
  }

  lemma AddFollows(s: State, s': State, k: Key)
    requires k !in s.known && s.next !in s.heap && s'.base == s.base && s.next in s'.heap
    requires s'.known == s.known[k := s.next] && s'.heap == s.heap[s.next := s'.heap[s.next]]
    ensures Follows(s, s')
  {
  }

  lemma BuilderFollows(deps: Key -> seq<Key>, s: State, s': State, tid: Tid, stack: seq<Frame>)
    requires stack != [] && s' == AdvanceTop(deps, s, tid, stack)
    requires KeyView(deps, s, tid, |stack| - 1, stack[|stack| - 1])
    ensures Follows(s, s')
  {
    hide AdvanceTop;
    BuilderEffect(deps, s, tid, stack);
    ChangeFollows(deps, s, s', tid, |stack| - 1, stack[|stack| - 1]);
  }

  /** What a builder's step does to the caches and objects. */
  predicate Changes(s: State, s': State, f: Frame)
  {
    && Owns(f)
    && s'.known == (if f.Publishing? then s.known[f.key := f.cc] else s.known)
    && s'.base == (if f.PublishingBase? then s.base[f.key.t := f.cc] else s.base)
    && (if f.Building? then s'.heap == s.heap || s'.heap == s.heap[s.next := Final(f.key, f.parts)]
        else if f.Publishing? || f.PublishingBase? then s'.heap == s.heap
        else
          f.dc in s.heap && s.heap[f.dc].Deferred?
          && s'.heap == s.heap[f.dc := if f.Resolving? then s.heap[f.dc].(final := Some(f.cc))
                                       else s.heap[f.dc].(done := true)])
  }

  lemma BuilderEffect(deps: Key -> seq<Key>, s: State, tid: Tid, stack: seq<Frame>)
    requires stack != [] && KeyView(deps, s, tid, |stack| - 1, stack[|stack| - 1]) && Owns(stack[|stack| - 1])
    ensures Changes(s, AdvanceTop(deps, s, tid, stack), stack[|stack| - 1])
  {
    hide KeyView, Return;
    TopFrame(deps, s, tid, |stack| - 1, stack[|stack| - 1]);
    var f := stack[|stack| - 1];
    if f.Releasing? {
      ReturnLocal(s.(heap := s.heap[f.dc := s.heap[f.dc].(done := true)]), tid, stack, f.cc, tid);
    }
  }

  lemma ChangeFollows(deps: Key -> seq<Key>, s: State, s': State, tid: Tid, at: nat, f: Frame)
    requires KeyView(deps, s, tid, at, f) && Changes(s, s', f)
    ensures Follows(s, s')
  {
    hide PartsFor, ObjectOk;
  }

  lemma StepFollows(deps: Key -> seq<Key>, s: State, tid: Tid, a: Action)
    requires Inv(deps, s) && Do(deps, s, tid, a).Some?
    ensures Follows(s, Do(deps, s, tid, a).value)
  {
    hide Inv, Follows, AdvanceTop;
    var s' := Do(deps, s, tid, a).value;
    if a.Advance? {
      AdvanceFollows(deps, s, tid, ThreadOf(s, tid).stack);
    } else if a.Register? {
      NoneOf(deps, s, Key(a.t, []));
      AddFollows(s, s', Key(a.t, []));
    } else {
      ControlFollows(s, s');
    }
  }

  /** Over any run an entry goes from absent to deferred to final, or from absent to registered; a
      deferred codec gets its codec at most once; base entries, once there, stay. */
  lemma {:induction false} RunFollows(deps: Key -> seq<Key>, s: State, steps: Steps)
    requires Inv(deps, s) && Run(deps, s, steps).Some?
    ensures Follows(s, Run(deps, s, steps).value)
    decreases |steps|
  {
    hide Inv, Do, Follows;
    if steps == [] {
      ControlFollows(s, s);
    } else {
      var s1 := Do(deps, s, steps[0].0, steps[0].1).value;
      StepKeeps(deps, s, steps[0].0, steps[0].1);
      StepFollows(deps, s, steps[0].0, steps[0].1);
      RunFollows(deps, s1, steps[1..]);
      FollowsFurther(s, s1, Run(deps, s, steps).value);
    }
  }

  // ---------------------------------------------------------------- resolution

  /** A codec handed out for a key is, or will be resolved to, the codec the cache ends up with:
      in every reachable state, all codecs of a key with a final entry lead to that entry. */
  lemma HandlesNeverGoStale(deps: Key -> seq<Key>, steps: Steps, s: State, o: Obj)
    requires Run(deps, INITIAL, steps) == Some(s) && o in s.heap
    ensures var e := EntryOf(s, s.heap[o].key);
      match s.heap[o]
      case Deferred(_, None, _, _, _) => e == Pending(o) || e.Finished?
      case Deferred(_, Some(c), _, _, _) => e == Finished(c)
      case Final(_, _) => e == Finished(o) || e.Pending?
      case Registered(_) => e == Custom(o)
  {
    EveryRunKeeps(deps, steps);
    if s.heap[o].Deferred? && s.heap[o].final.None? {
      UnresolvedIsBuilt(deps, s, o);
    } else {
      hide Inv, FrameOk;
      ResolvedIsPublished(deps, s, o);
    }
  }

  /** An unresolved deferred codec is owned by a running builder, and is the entry until replaced. */
  lemma UnresolvedIsBuilt(deps: Key -> seq<Key>, s: State, o: Obj)
    requires Inv(deps, s) && o in s.heap && s.heap[o].Deferred? && s.heap[o].final.None?
    ensures ThreadOf(s, s.heap[o].builder).Running?
    ensures EntryOf(s, s.heap[o].key) == Pending(o) || EntryOf(s, s.heap[o].key).Finished?
  {
    hide BeingPublished, PartsFor, BelowOk, Awaits;
    assert ObjectOk(deps, s, o);
    FrameAt(deps, s, s.heap[o].builder, s.heap[o].level);
  }

  lemma ResolvedIsPublished(deps: Key -> seq<Key>, s: State, o: Obj)
    requires Inv(deps, s) && o in s.heap && !(s.heap[o].Deferred? && s.heap[o].final.None?)
    ensures var e := EntryOf(s, s.heap[o].key);
      match s.heap[o]
      case Deferred(_, final, _, _, _) => e == Finished(final.value)
      case Final(_, _) => e == Finished(o) || e.Pending?
      case Registered(_) => e == Custom(o)
  {
    hide PartsFor, BelowOk, Awaits, FrameOk;
    assert ObjectOk(deps, s, o);
  }

  /** A deferred codec is resolved at most once, and its wait group released at most once: the steps
      that do so start from a codec neither resolved nor released. */
  lemma ResolvedOnce(deps: Key -> seq<Key>, steps: Steps, s: State, tid: Tid, stack: seq<Frame>)
    requires Run(deps, INITIAL, steps) == Some(s) && ThreadOf(s, tid) == Running(stack) && stack != []
    ensures var f := stack[|stack| - 1];
      && (f.Resolving? || f.Releasing? ==>
            f.dc in s.heap && s.heap[f.dc].Deferred? && EntryOf(s, f.key) == Finished(f.cc))
      && (f.Resolving? ==>
            s.heap[f.dc].final == None && AdvanceTop(deps, s, tid, stack).heap[f.dc].final == Some(f.cc))
      && (f.Releasing? ==> !s.heap[f.dc].done && AdvanceTop(deps, s, tid, stack).heap[f.dc].done)
  {
    EveryRunKeeps(deps, steps);
    FrameAt(deps, s, tid, |stack| - 1);
  }

  /** What `getBaseCodec` finds without building is the finished codec of the empty-tag entry. */
  lemma BaseEntriesAreFinal(deps: Key -> seq<Key>, steps: Steps, s: State, t: Types.TypeId)
    requires Run(deps, INITIAL, steps) == Some(s) && t in s.base
    ensures EntryOf(s, Key(t, [])) == Finished(s.base[t])
  {
    EveryRunKeeps(deps, steps);
    assert Published(s, Key(t, []), s.base[t]);
  }

  /** A goroutine woken from `wg.Wait` finds the codec there, and it is the published one. */
  lemma WokenFindsCodec(deps: Key -> seq<Key>, steps: Steps, s: State, tid: Tid)
    requires Run(deps, INITIAL, steps) == Some(s) && ThreadOf(s, tid).Waiting?
    ensures var o := ThreadOf(s, tid).obj;
      && o in s.heap && s.heap[o].Deferred?
      && (s.heap[o].done ==>
            && s.heap[o].final.Some? && EntryOf(s, s.heap[o].key) == Finished(s.heap[o].final.value)
            && Do(deps, s, tid, Wake) == Some(With(s, tid, Calling(s.heap[o].final.value))))
  {
    EveryRunKeeps(deps, steps);
    assert ThreadOk(deps, s, tid);
    assert ObjectOk(deps, s, ThreadOf(s, tid).obj);
  }

  // ---------------------------------------------------------------- no deadlock

  /** Building never waits: a goroutine in a lookup or build can always take its next step. */
  predicate CanAdvance(deps: Key -> seq<Key>, s: State, tid: Tid)
  {
    ThreadOf(s, tid).Running? && Do(deps, s, tid, Advance).Some?
  }

  /** A waiting goroutine can wake, or the builder it waits for can step. */
  lemma NoDeadlock(deps: Key -> seq<Key>, steps: Steps, s: State, tid: Tid)
    requires Run(deps, INITIAL, steps) == Some(s) && ThreadOf(s, tid).Waiting?
    ensures var o := ThreadOf(s, tid).obj;
      && o in s.heap && s.heap[o].Deferred?
      && (Do(deps, s, tid, Wake).Some? || CanAdvance(deps, s, s.heap[o].builder))
  {
    EveryRunKeeps(deps, steps);
    WokenFindsCodec(deps, steps, s, tid);
    assert ObjectOk(deps, s, ThreadOf(s, tid).obj);
  }

  lemma RunningAdvances(deps: Key -> seq<Key>, steps: Steps, s: State, tid: Tid)
    requires Run(deps, INITIAL, steps) == Some(s) && ThreadOf(s, tid).Running?
    ensures CanAdvance(deps, s, tid)
  {
    EveryRunKeeps(deps, steps);
    assert ThreadOk(deps, s, tid);
  }

  /** The codec a call on `o` ends up in: none while `o` is unresolved. */
  function RealOf(s: State, o: Obj): Option<Obj>
  {
    if o !in s.heap then None
    else if s.heap[o].Deferred? then s.heap[o].final
    else Some(o)
  }

  /** When no goroutine is looking up or building, nothing is left unresolved: every entry is final or
      registered, and every part of every codec leads to the finished codec of the key asked for. */
  lemma AtRest(deps: Key -> seq<Key>, steps: Steps, s: State)
    requires Run(deps, INITIAL, steps) == Some(s) && forall t :: !ThreadOf(s, t).Running?
    ensures forall k :: k in s.known ==> EntryOf(s, k).Finished? || EntryOf(s, k).Custom?
    ensures forall o :: o in s.heap ==> s.heap[o].key in s.known && RealOf(s, o) == Some(s.known[s.heap[o].key])
    ensures forall o :: o in s.heap && s.heap[o].Final? ==>
      && |s.heap[o].parts| == |deps(s.heap[o].key)|
      && forall i :: 0 <= i < |s.heap[o].parts| ==>
           deps(s.heap[o].key)[i] in s.known && RealOf(s, s.heap[o].parts[i]) == Some(s.known[deps(s.heap[o].key)[i]])
  {
    EveryRunKeeps(deps, steps);
    forall o | o in s.heap
      ensures s.heap[o].key in s.known && RealOf(s, o) == Some(s.known[s.heap[o].key])
    {
      assert ObjectOk(deps, s, o);
    }
    forall k | k in s.known ensures EntryOf(s, k).Finished? || EntryOf(s, k).Custom? {
      assert IsFor(s, s.known[k], k) && ObjectOk(deps, s, s.known[k]);
    }
    forall o | o in s.heap && s.heap[o].Final?
      ensures |s.heap[o].parts| == |deps(s.heap[o].key)|
      ensures forall i :: 0 <= i < |s.heap[o].parts| ==> IsFor(s, s.heap[o].parts[i], deps(s.heap[o].key)[i])
    {
      assert ObjectOk(deps, s, o);
    }
  }

  // ---------------------------------------------------------------- one goroutine alone

  ghost predicate Alone(s: State, tid: Tid) { forall t :: t != tid ==> ThreadOf(s, t).Idle? }

  /** A step of one goroutine leaves the others' control state alone and makes no key unknown. */
  lemma OtherStep(deps: Key -> seq<Key>, s: State, t: Tid, a: Action, tid: Tid)
    requires t != tid && Do(deps, s, t, a).Some?
    ensures ThreadOf(Do(deps, s, t, a).value, tid) == ThreadOf(s, tid)
    ensures forall k :: k in s.known ==> k in Do(deps, s, t, a).value.known
  {
    hide AdvanceTop;
    if a.Advance? { AdvanceLocal(deps, s, t, ThreadOf(s, t).stack, tid); }
  }

  lemma AdvanceLocal(deps: Key -> seq<Key>, s: State, t: Tid, stack: seq<Frame>, tid: Tid)
    requires stack != []
    ensures forall k :: k in s.known ==> k in AdvanceTop(deps, s, t, stack).known
    ensures t != tid ==> ThreadOf(AdvanceTop(deps, s, t, stack), tid) == ThreadOf(s, tid)
  {
    hide Return;
    forall r, s1: State ensures Return(s1, t, stack, r).known == s1.known {
      ReturnLocal(s1, t, stack, r, tid);
    }
    forall r, s1: State ensures t != tid ==> ThreadOf(Return(s1, t, stack, r), tid) == ThreadOf(s1, tid) {
      ReturnLocal(s1, t, stack, r, tid);
    }
  }

  lemma ReturnLocal(s: State, t: Tid, stack: seq<Frame>, r: Obj, tid: Tid)
    requires stack != []
    ensures var s' := Return(s, t, stack, r); s'.known == s.known && s'.base == s.base && s'.heap == s.heap
    ensures t != tid ==> ThreadOf(Return(s, t, stack, r), tid) == ThreadOf(s, tid)
  {
  }

  lemma AdvanceEnds(deps: Key -> seq<Key>, s: State, t: Tid, stack: seq<Frame>)
    requires ThreadOf(s, t) == Running(stack) && stack != []
    ensures !ThreadOf(AdvanceTop(deps, s, t, stack), t).Waiting?
  {
  }

  lemma AloneStep(deps: Key -> seq<Key>, s: State, tid: Tid, a: Action)
    requires Inv(deps, s) && Alone(s, tid) && !ThreadOf(s, tid).Waiting? && Do(deps, s, tid, a).Some?
    ensures var s' := Do(deps, s, tid, a).value; Alone(s', tid) && !ThreadOf(s', tid).Waiting?
  {
    hide Inv, AdvanceTop;
    var o := if a.Call? then ThreadOf(s, tid).obj else 0;
    if a.Call? && s.heap[o].final.None? { UnresolvedIsBuilt(deps, s, o); }
    forall t | t != tid ensures ThreadOf(Do(deps, s, tid, a).value, t).Idle? { OtherStep(deps, s, tid, a, t); }
    if a.Advance? { AdvanceEnds(deps, s, tid, ThreadOf(s, tid).stack); }
  }

  lemma {:induction false} AloneRun(deps: Key -> seq<Key>, s: State, steps: Steps, tid: Tid)
    requires Inv(deps, s) && Alone(s, tid) && !ThreadOf(s, tid).Waiting?
    requires Run(deps, s, steps).Some? && forall x :: x in steps ==> x.0 == tid
    ensures !ThreadOf(Run(deps, s, steps).value, tid).Waiting?
    decreases |steps|
  {
    hide Inv, Do;
    if steps != [] {
      var s1 := Do(deps, s, steps[0].0, steps[0].1).value;
      assert steps[0] in steps;
      StepKeeps(deps, s, tid, steps[0].1);
      AloneStep(deps, s, tid, steps[0].1);
      AloneRun(deps, s1, steps[1..], tid);
    }
  }

  /** A program with one goroutine never waits on a deferred codec, cyclic types included. */
  lemma OneGoroutineNeverWaits(deps: Key -> seq<Key>, steps: Steps, tid: Tid)
    requires Run(deps, INITIAL, steps).Some? && forall x :: x in steps ==> x.0 == tid
    ensures !ThreadOf(Run(deps, INITIAL, steps).value, tid).Waiting?
  {
    AloneRun(deps, INITIAL, steps, tid);
  }

  // ---------------------------------------------------------------- lookups end

  /** Building a key of `u` asks only for keys of `u`, at most `width` of them. */
  ghost predicate AsksWithin(deps: Key -> seq<Key>, u: set<Key>, width: nat)
  {
    forall k :: k in u ==> |deps(k)| <= width && forall x :: x in deps(k) ==> x in u
  }

  predicate Within(u: set<Key>, stack: seq<Frame>) { forall f :: f in stack ==> f.key in u }

  /** Own steps left to frame `f`, apart from those of the lookups it still has to make finding
      nothing; a frame below the top has one lookup under way. */
  function Work(deps: Key -> seq<Key>, f: Frame, top: bool): nat
  {
    match f
    case Loading(_) => 2
    case Storing(_) => 1
    case Building(k, _, parts) =>
      var left := |deps(k)| - |parts| - (if top then 0 else 1);
      5 + 3 * (if left < 0 then 0 else left)
    case Publishing(_, _, _) => 4
    case PublishingBase(_, _, _) => 3
    case Resolving(_, _, _) => 2
    case Releasing(_, _, _) => 1
  }

  function StackWork(deps: Key -> seq<Key>, stack: seq<Frame>, top: bool): nat
  {
    if stack == [] then 0 else
    var n := |stack| - 1;
    StackWork(deps, stack[..n], false) + Work(deps, stack[n], top)
  }

  function Missing(u: set<Key>, s: State): nat { |u - s.known.Keys| }

  function Product(a: nat, b: nat): nat { a * b }

  /** A bound on the steps goroutine `tid` still takes before its lookup returns: six steps and three
      for each key it asks for, for every key not yet known, besides what its stack still has to do. */
  function Budget(deps: Key -> seq<Key>, u: set<Key>, width: nat, s: State, stack: seq<Frame>): nat
  {
    StackWork(deps, stack, true) + Product(6 + 3 * width, Missing(u, s))
  }

  lemma MissingShrinks(u: set<Key>, s: State, s': State)
    requires forall k :: k in s.known ==> k in s'.known
    ensures Missing(u, s') <= Missing(u, s)
    ensures (exists k :: k in u && k !in s.known && k in s'.known) ==> Missing(u, s') + 1 <= Missing(u, s)
  {
    Smaller(u - s'.known.Keys, u - s.known.Keys);
    if k :| k in u && k !in s.known && k in s'.known {
      Smaller(u - s'.known.Keys, u - s.known.Keys - {k});
    }
  }

  /** Known keys stay known; a key that becomes known pays for its own build. */
  lemma CostShrinks(u: set<Key>, width: nat, s: State, s': State)
    requires forall k :: k in s.known ==> k in s'.known
    ensures (6 + 3 * width) * Missing(u, s') <= (6 + 3 * width) * Missing(u, s)
    ensures (exists k :: k in u && k !in s.known && k in s'.known) ==>
      (6 + 3 * width) * Missing(u, s') + 6 + 3 * width <= (6 + 3 * width) * Missing(u, s)
  {
    hide Missing;
    MissingShrinks(u, s, s');
    Times(6 + 3 * width, Missing(u, s'), Missing(u, s));
    if Missing(u, s') + 1 <= Missing(u, s) { Times(6 + 3 * width, Missing(u, s') + 1, Missing(u, s)); }
  }

  lemma Times(c: nat, a: nat, b: nat)
    requires a <= b
    ensures c * a <= c * b
    ensures c * (a + 1) == c * a + c
  {
  }

  lemma Replaced(deps: Key -> seq<Key>, u: set<Key>, stack: seq<Frame>, f: Frame)
    requires stack != [] && Within(u, stack) && f.key in u
    ensures var stack' := stack[|stack| - 1 := f];
      && Within(u, stack')
      && StackWork(deps, stack', true) == StackWork(deps, stack, true) - Work(deps, stack[|stack| - 1], true)
           + Work(deps, f, true)
  {
    assert stack[|stack| - 1 := f][..|stack| - 1] == stack[..|stack| - 1];
  }

  lemma Pushed(deps: Key -> seq<Key>, u: set<Key>, stack: seq<Frame>, f: Frame)
    requires stack != [] && Within(u, stack) && f.key in u && f.Loading?
    requires stack[|stack| - 1].Building? && |stack[|stack| - 1].parts| < |deps(stack[|stack| - 1].key)|
    ensures Within(u, stack + [f]) && StackWork(deps, stack + [f], true) == StackWork(deps, stack, true) - 1
  {
    assert (stack + [f])[..|stack|] == stack;
  }

  /** Frames below the top wait for the frame above. */
  ghost predicate Waiters(deps: Key -> seq<Key>, stack: seq<Frame>)
  {
    forall i :: 0 <= i < |stack| - 1 ==> Awaits(deps, stack[i], stack[i + 1].key)
  }

  lemma RunningFacts(deps: Key -> seq<Key>, u: set<Key>, width: nat, s: State, tid: Tid, stack: seq<Frame>)
    requires Inv(deps, s) && ThreadOf(s, tid) == Running(stack) && stack != []
    requires AsksWithin(deps, u, width) && Within(u, stack)
    ensures Waiters(deps, stack) && (Owns(stack[|stack| - 1]) ==> stack[|stack| - 1].key in s.known)
    ensures var f := stack[|stack| - 1];
      && f.key in u && |deps(f.key)| <= width
      && (f.Building? ==> |f.parts| <= |deps(f.key)| && forall i :: 0 <= i < |deps(f.key)| ==> deps(f.key)[i] in u)
      && (f.Resolving? || f.Releasing? ==> f.dc in s.heap && s.heap[f.dc].Deferred?)
  {
    assert ThreadOk(deps, s, tid);
    FrameAt(deps, s, tid, |stack| - 1);
    assert stack[|stack| - 1] in stack;
  }

  lemma Returned(deps: Key -> seq<Key>, u: set<Key>, s: State, tid: Tid, stack: seq<Frame>, r: Obj)
    requires stack != [] && Waiters(deps, stack) && Within(u, stack)
    ensures var th := ThreadOf(Return(s, tid, stack, r), tid);
      th.Running? ==>
        && Within(u, th.stack) && th.stack != []
        && StackWork(deps, th.stack, true) < StackWork(deps, stack, true)
  {
    var n := |stack| - 1;
    if n > 0 {
      var below := stack[..n];
      assert Awaits(deps, stack[n - 1], stack[n].key);
      var caller := below[n - 1].(parts := below[n - 1].parts + [r]);
      assert below[n - 1 := caller][..n - 1] == below[..n - 1];
      assert forall g :: g in below ==> g in stack;
      assert caller.key == stack[n - 1].key;
    }
  }

  /** Each own step either ends the lookup or spends budget. */
  lemma OwnStepSpends(deps: Key -> seq<Key>, u: set<Key>, width: nat, s: State, tid: Tid, stack: seq<Frame>)
    requires Inv(deps, s) && ThreadOf(s, tid) == Running(stack) && stack != []
    requires AsksWithin(deps, u, width) && Within(u, stack)
    ensures var s' := AdvanceTop(deps, s, tid, stack); var th := ThreadOf(s', tid);
      th.Running? ==>
        th.stack != [] && Within(u, th.stack)
        && Budget(deps, u, width, s', th.stack) < Budget(deps, u, width, s, stack)
  {
    hide Inv, StackWork, Within, AsksWithin, Return, Missing, Waiters;
    var at, s' := |stack| - 1, AdvanceTop(deps, s, tid, stack);
    var f := stack[at];
    RunningFacts(deps, u, width, s, tid, stack);
    AdvanceLocal(deps, s, tid, stack, tid);
    CostShrinks(u, width, s, s');
    match f {
      case Loading(k) =>
        if k in s.known { Returned(deps, u, s, tid, stack, s.known[k]); } else { Replaced(deps, u, stack, Storing(k)); }
      case Storing(k) =>
        if k in s.known {
          Returned(deps, u, s, tid, stack, s.known[k]);
        } else {
          Replaced(deps, u, stack, Building(k, s.next, []));
        }
      case Building(k, _, parts) =>
        if |parts| < |deps(k)| {
          Pushed(deps, u, stack, Loading(deps(k)[|parts|]));
        } else {
          Replaced(deps, u, stack, ThreadOf(s', tid).stack[at]);
        }
      case Releasing(_, dc, cc) =>
        var s1 := s.(heap := s.heap[dc := s.heap[dc].(done := true)]);
        Returned(deps, u, s1, tid, stack, cc);
      case _ => Replaced(deps, u, stack, ThreadOf(s', tid).stack[at]);
    }
  }

  function OwnSteps(steps: Steps, tid: Tid): nat
  {
    if steps == [] then 0 else (if steps[0].0 == tid then 1 else 0) + OwnSteps(steps[1..], tid)
  }

  /** Goroutine `tid` does nothing but go on with the lookup it is in. */
  predicate OnlyAdvances(steps: Steps, tid: Tid)
  {
    forall x :: x in steps && x.0 == tid ==> x.1.Advance?
  }

  lemma {:induction false} NoMoreSteps(deps: Key -> seq<Key>, s: State, steps: Steps, tid: Tid)
    requires !ThreadOf(s, tid).Running? && Run(deps, s, steps).Some? && OnlyAdvances(steps, tid)
    ensures OwnSteps(steps, tid) == 0
    decreases |steps|
  {
    hide AdvanceTop;
    if steps != [] {
      assert steps[0] in steps;
      OtherStep(deps, s, steps[0].0, steps[0].1, tid);
      NoMoreSteps(deps, Do(deps, s, steps[0].0, steps[0].1).value, steps[1..], tid);
    }
  }

  /** However the other goroutines run, a lookup takes at most its budget of own steps. */
  lemma {:induction false} LookupEnds(deps: Key -> seq<Key>, u: set<Key>, width: nat, s: State, steps: Steps, tid: Tid,
                                      stack: seq<Frame>)
    requires Inv(deps, s) && ThreadOf(s, tid) == Running(stack) && stack != []
    requires AsksWithin(deps, u, width) && Within(u, stack)
    requires Run(deps, s, steps).Some? && OnlyAdvances(steps, tid)
    ensures OwnSteps(steps, tid) <= Budget(deps, u, width, s, stack)
    decreases |steps|
  {
    hide Inv, AdvanceTop, Within, AsksWithin, Missing, StackWork;
    if steps != [] {
      var (t, a) := steps[0];
      assert steps[0] in steps;
      var s1 := Do(deps, s, t, a).value;
      StepKeeps(deps, s, t, a);
      if t != tid {
        OtherStep(deps, s, t, a, tid);
        CostShrinks(u, width, s, s1);
        LookupEnds(deps, u, width, s1, steps[1..], tid, stack);
      } else {
        OwnStepSpends(deps, u, width, s, tid, stack);
        SomeWork(deps, stack);
        if ThreadOf(s1, tid).Running? {
          LookupEnds(deps, u, width, s1, steps[1..], tid, ThreadOf(s1, tid).stack);
        } else {
          NoMoreSteps(deps, s1, steps[1..], tid);
        }
      }
    }
  }

  lemma SomeWork(deps: Key -> seq<Key>, stack: seq<Frame>)
    requires stack != []
    ensures StackWork(deps, stack, true) > 0
  {
  }

  /** Looking up or compiling a key is wait-free: at any point of any run it takes the goroutine a number
      of steps bounded in advance by the number of keys in the universe. */
  lemma LookupsAreWaitFree(deps: Key -> seq<Key>, u: set<Key>, width: nat, before: Steps, s: State, tid: Tid, k: Key,
                           steps: Steps)
    requires AsksWithin(deps, u, width) && k in u
    requires Run(deps, INITIAL, before) == Some(s) && ThreadOf(s, tid) == Running([Loading(k)])
    requires Run(deps, s, steps).Some? && OnlyAdvances(steps, tid)
    ensures OwnSteps(steps, tid) <= 2 + (6 + 3 * width) * |u|
  {
    hide Inv, Run, OwnSteps, OnlyAdvances, AsksWithin;
    EveryRunKeeps(deps, before);
    LookupEnds(deps, u, width, s, steps, tid, [Loading(k)]);
    Smaller(u - s.known.Keys, u);
    Times(6 + 3 * width, Missing(u, s), |u|);
    assert [Loading(k)][..0] == [];
    assert StackWork(deps, [Loading(k)], true) == StackWork(deps, [], false) + 2;
  }

  // ---------------------------------------------------------------- builds that never go on

  /** A goroutine that takes no step stays where it is. */
  lemma {:induction false} StaysPut(deps: Key -> seq<Key>, s: State, steps: Steps, tid: Tid)
    requires Run(deps, s, steps).Some? && forall x :: x in steps ==> x.0 != tid
    ensures ThreadOf(Run(deps, s, steps).value, tid) == ThreadOf(s, tid)
    decreases |steps|
  {
    hide Do;
    if steps != [] {
      assert steps[0] in steps;
      OtherStep(deps, s, steps[0].0, steps[0].1, tid);
      StaysPut(deps, Do(deps, s, steps[0].0, steps[0].1).value, steps[1..], tid);
    }
  }

  /** A build whose goroutine never goes on, as after the panic over an unsupported switch, strands its key:
      from then on, whatever the others do, no goroutine that waits for its deferred codec wakes, and until
      the builder has resolved it every call on it waits; a build that had published nothing keeps the key. */
  lemma AbandonedBuildStrands(deps: Key -> seq<Key>, before: Steps, s: State, tid: Tid, i: nat, k: Key, steps: Steps,
                              s': State, t: Tid)
    requires Run(deps, INITIAL, before) == Some(s) && Builds(s, tid, i, k)
    requires Run(deps, s, steps) == Some(s') && forall x :: x in steps ==> x.0 != tid
    ensures var f := ThreadOf(s, tid).stack[i];
      && f.dc in s'.heap && s'.heap[f.dc].Deferred? && !s'.heap[f.dc].done
      && (s'.heap[f.dc].final.None? <==> !f.Releasing?)
      && (f.Building? || f.Publishing? ==> EntryOf(s', k) == Pending(f.dc))
      && (ThreadOf(s', t) == Waiting(f.dc) ==> Do(deps, s', t, Wake) == None)
      && (ThreadOf(s', t) == Calling(f.dc) && !f.Releasing?
        ==> Do(deps, s', t, Call) == Some(With(s', t, Waiting(f.dc))))
  {
    hide Core;
    EveryRunKeeps(deps, before);
    RunKeeps(deps, s, steps);
    StaysPut(deps, s, steps, tid);
    FrameAt(deps, s', tid, i);
  }

  // ---------------------------------------------------------------- base entries

  /** Goroutine `t` is about to enter the finished codec of `k` into the base cache. */
  predicate EntersBase(s: State, t: Tid, k: Key)
  {
    var th := ThreadOf(s, t);
    th.Running? && th.stack != [] && th.stack[|th.stack| - 1].PublishingBase? && th.stack[|th.stack| - 1].key == k
  }

  /** Each finished codec of an untagged type is in the base cache, or about to be entered there. */
  ghost predicate AllBased(s: State)
  {
    forall k :: EntryOf(s, k).Finished? && k.tag == [] ==> k.t in s.base || exists t :: EntersBase(s, t, k)
  }

  /** What a step does to the entry of `k` and to entering it. */
  lemma AdvanceBases(deps: Key -> seq<Key>, s: State, tid: Tid, stack: seq<Frame>, k: Key)
    requires Inv(deps, s) && ThreadOf(s, tid) == Running(stack) && stack != [] && k.tag == []
    ensures var s' := AdvanceTop(deps, s, tid, stack);
      && (k.t in s.base ==> k.t in s'.base)
      && (EntersBase(s, tid, k) ==> k.t in s'.base)
      && (EntryOf(s', k).Finished? && !EntryOf(s, k).Finished? ==> EntersBase(s', tid, k))
  {
    hide Inv, Return;
    var at, s' := |stack| - 1, AdvanceTop(deps, s, tid, stack);
    var f := stack[at];
    if Owns(f) {
      TopFacts(deps, s, tid, stack);
      TopFrame(deps, s, tid, at, f);
    } else {
      HeapBounds(deps, s);
    }
    forall r, s1: State ensures Return(s1, tid, stack, r).base == s1.base && Return(s1, tid, stack, r).heap == s1.heap
      && Return(s1, tid, stack, r).known == s1.known
    {
      ReturnLocal(s1, tid, stack, r, tid);
    }
    EntryChanges(deps, s, tid, stack, k);
  }

  /** Only publishing turns an entry into a finished one. */
  lemma EntryChanges(deps: Key -> seq<Key>, s: State, tid: Tid, stack: seq<Frame>, k: Key)
    requires Inv(deps, s) && ThreadOf(s, tid) == Running(stack) && stack != []
    ensures EntryOf(AdvanceTop(deps, s, tid, stack), k).Finished? && !EntryOf(s, k).Finished? ==>
      stack[|stack| - 1].Publishing? && stack[|stack| - 1].key == k
  {
    hide Inv, Return, KeyView;
    var at, s' := |stack| - 1, AdvanceTop(deps, s, tid, stack);
    var f := stack[at];
    HeapBounds(deps, s);
    if Owns(f) {
      TopFacts(deps, s, tid, stack);
      TopFrame(deps, s, tid, at, f);
      BuilderEffect(deps, s, tid, stack);
    } else {
      forall r, s1: State
        ensures Return(s1, tid, stack, r).heap == s1.heap && Return(s1, tid, stack, r).known == s1.known
      {
        ReturnLocal(s1, tid, stack, r, tid);
      }
    }
  }

  lemma HeapBounds(deps: Key -> seq<Key>, s: State)
    requires Inv(deps, s)
    ensures forall o :: o in s.heap ==> o < s.next
    ensures forall k :: k in s.known ==> s.known[k] in s.heap
  {
    forall k | k in s.known ensures s.known[k] in s.heap { assert IsFor(s, s.known[k], k); }
  }

  lemma StepBased(deps: Key -> seq<Key>, s: State, tid: Tid, a: Action)
    requires Inv(deps, s) && AllBased(s) && Do(deps, s, tid, a).Some?
    ensures AllBased(Do(deps, s, tid, a).value)
  {
    hide Inv, AdvanceTop, EntryOf;
    var s' := Do(deps, s, tid, a).value;
    forall k | EntryOf(s', k).Finished? && k.tag == [] ensures k.t in s'.base || exists t :: EntersBase(s', t, k) {
      if a.Advance? {
        AdvanceBases(deps, s, tid, ThreadOf(s, tid).stack, k);
      } else {
        OtherBases(deps, s, tid, a, k);
      }
      if EntryOf(s, k).Finished? && k.t !in s'.base {
        var t :| EntersBase(s, t, k);
        if t != tid { OtherStep(deps, s, tid, a, t); }
        assert EntersBase(s', t, k);
      }
    }
  }

  lemma OtherBases(deps: Key -> seq<Key>, s: State, tid: Tid, a: Action, k: Key)
    requires Inv(deps, s) && Do(deps, s, tid, a).Some? && !a.Advance?
    ensures var s' := Do(deps, s, tid, a).value;
      s'.base == s.base && (EntryOf(s', k).Finished? ==> EntryOf(s, k).Finished?)
    ensures a.Register? || !ThreadOf(s, tid).Running?
    ensures a.Register? ==> ThreadOf(Do(deps, s, tid, a).value, tid) == ThreadOf(s, tid)
  {
    hide Inv;
    HeapBounds(deps, s);
  }

  lemma {:induction false} RunBased(deps: Key -> seq<Key>, s: State, steps: Steps)
    requires Inv(deps, s) && AllBased(s) && Run(deps, s, steps).Some?
    ensures AllBased(Run(deps, s, steps).value)
    decreases |steps|
  {
    hide Inv, Do, AllBased;
    if steps != [] {
      StepKeeps(deps, s, steps[0].0, steps[0].1);
      StepBased(deps, s, steps[0].0, steps[0].1);
      RunBased(deps, Do(deps, s, steps[0].0, steps[0].1).value, steps[1..]);
    }
  }

  /** Once no lookup is under way the base cache has just the finished codecs of untagged types. */
  lemma BaseIsComplete(deps: Key -> seq<Key>, steps: Steps, s: State, t: Types.TypeId)
    requires Run(deps, INITIAL, steps) == Some(s) && forall u :: !ThreadOf(s, u).Running?
    ensures t in s.base <==> EntryOf(s, Key(t, [])).Finished?
    ensures t in s.base ==> EntryOf(s, Key(t, [])) == Finished(s.base[t])
  {
    EveryRunKeeps(deps, []);
    RunBased(deps, INITIAL, steps);
    if t in s.base { BaseEntriesAreFinal(deps, steps, s, t); }
  }

  // ---------------------------------------------------------------- calls and registration

  /** A call on a deferred codec goes on to the published codec once that is there, and waits until then; a call on
      a finished one goes on to codecs for the keys its build asked for. */
  lemma CallsGoOn(deps: Key -> seq<Key>, steps: Steps, s: State, tid: Tid, o: Obj)
    requires Run(deps, INITIAL, steps) == Some(s) && ThreadOf(s, tid) == Calling(o)
    ensures o in s.heap
    ensures match s.heap[o]
      case Deferred(k, Some(c), _, _, _) =>
        Do(deps, s, tid, Call) == Some(With(s, tid, Calling(c))) && EntryOf(s, k) == Finished(c)
      case Deferred(_, None, _, _, _) => Do(deps, s, tid, Call) == Some(With(s, tid, Waiting(o)))
      case Final(k, parts) =>
        |parts| == |deps(k)|
        && forall i :: 0 <= i < |parts| ==>
             IsFor(s, parts[i], deps(k)[i]) && Do(deps, s, tid, Into(i)) == Some(With(s, tid, Calling(parts[i])))
      case Registered(_) => true
  {
    hide BelowOk, Awaits, FrameOk;
    EveryRunKeeps(deps, steps);
    assert ThreadOk(deps, s, tid);
    assert ObjectOk(deps, s, o);
  }

  /** A goroutine that neither looks up nor waits can start a lookup: of a key by loading its entry, of a type by the
      base entry if there is one, else by reserving the key. */
  lemma LookupsStart(deps: Key -> seq<Key>, s: State, tid: Tid, k: Key, t: Types.TypeId)
    requires !ThreadOf(s, tid).Running? && !ThreadOf(s, tid).Waiting?
    ensures Do(deps, s, tid, StartGet(k)) == Some(With(s, tid, Running([Loading(k)])))
    ensures Do(deps, s, tid, StartBase(t))
         == Some(With(s, tid, if t in s.base then Calling(s.base[t]) else Running([Storing(Key(t, []))])))
  {
  }

  /** Registration enters the codec given under the type without a tag, if the type is not known yet, and changes
      nothing else. */
  lemma RegisterStores(deps: Key -> seq<Key>, s: State, tid: Tid, t: Types.TypeId)
    requires Inv(deps, s)
    ensures Do(deps, s, tid, Register(t)).Some? <==>
      !ThreadOf(s, tid).Running? && !ThreadOf(s, tid).Waiting? && Key(t, []) !in s.known
    ensures Do(deps, s, tid, Register(t)).Some? ==>
      var s' := Do(deps, s, tid, Register(t)).value;
      && EntryOf(s', Key(t, [])).Custom? && s'.base == s.base && s'.threads == s.threads
      && forall k :: k != Key(t, []) ==> EntryOf(s', k) == EntryOf(s, k)
  {
    hide Inv;
    HeapBounds(deps, s);
  }
}
