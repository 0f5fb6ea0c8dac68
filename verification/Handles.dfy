/** Codecs that goroutines keep: what a lookup returned stays good for its type and tag at any later time, and
    all codecs ever returned for one type and tag are, or are about to become, the same. */
module Handles {
  import opened Words
  import opened Shapes
  import opened Protocol
  import opened Runs
  import Types

  /** A codec for `k` that a lookup may have returned: a finished one must have been published. */
  predicate Handle(s: State, k: Key, o: Obj)
  {
    IsFor(s, o, k) && (s.heap[o].Final? ==> k in s.known && s.known[k] == o)
  }

  // ---------------------------------------------------------------- lookups return handles

  lemma ReturnGives(s: State, tid: Tid, stack: seq<Frame>, r: Obj)
    requires stack != [] && (|stack| > 1 ==> stack[|stack| - 2].Building?)
    ensures match ThreadOf(Return(s, tid, stack, r), tid)
      case Calling(o) => o == r && |stack| == 1
      case Running(stack') => stack' != [] && stack'[0].key == stack[0].key
      case _ => false
  {
  }

  /** A step of a lookup ends it with a handle for the key looked up, or leaves it under way. */
  lemma LookupGivesHandle(deps: Key -> seq<Key>, s: State, tid: Tid, stack: seq<Frame>)
    requires Inv(deps, s) && ThreadOf(s, tid) == Running(stack) && stack != []
    ensures var s' := AdvanceTop(deps, s, tid, stack);
      match ThreadOf(s', tid)
      case Calling(o) => Handle(s', stack[0].key, o)
      case Running(stack') => stack' != [] && stack'[0].key == stack[0].key
      case _ => false
  {
    hide Inv, Return;
    var at, s' := |stack| - 1, AdvanceTop(deps, s, tid, stack);
    var f := stack[at];
    TopOfStack(deps, s, tid, stack);
    if !Owns(f) && f.key in s.known {
      ReturnGives(s, tid, stack, s.known[f.key]);
      ReturnLocal(s, tid, stack, s.known[f.key], tid);
    } else if f.Releasing? {
      var s1 := s.(heap := s.heap[f.dc := s.heap[f.dc].(done := true)]);
      ReturnGives(s1, tid, stack, f.cc);
      ReturnLocal(s1, tid, stack, f.cc, tid);
    }
  }

  /** What a lookup returns, to the program or to the build that asked for it, is the entry the cache has for the
      key just then; a lookup that built the codec returns the finished one. */
  lemma LookupReturns(deps: Key -> seq<Key>, s: State, tid: Tid, stack: seq<Frame>)
    requires Inv(deps, s) && ThreadOf(s, tid) == Running(stack) && stack != []
    ensures var s' := AdvanceTop(deps, s, tid, stack); var n := |stack| - 1; var k := stack[n].key;
      match ThreadOf(s', tid)
      case Calling(o) => n == 0 && k in s'.known && o == s'.known[k] && (Owns(stack[n]) ==> s'.heap[o].Final?)
      case Running(stack') =>
        |stack'| >= n
        && (|stack'| == n ==>
              && k in s'.known && stack[n - 1].Building? && (Owns(stack[n]) ==> s'.heap[s'.known[k]].Final?)
              && stack' == stack[..n - 1] + [stack[n - 1].(parts := stack[n - 1].parts + [s'.known[k]])])
      case _ => false
  {
    hide Inv, Return;
    var n, s' := |stack| - 1, AdvanceTop(deps, s, tid, stack);
    var f := stack[n];
    TopOfStack(deps, s, tid, stack);
    if !Owns(f) && f.key in s.known {
      ReturnHands(s, tid, stack, s.known[f.key]);
    } else if f.Releasing? {
      ReturnHands(s.(heap := s.heap[f.dc := s.heap[f.dc].(done := true)]), tid, stack, f.cc);
    }
  }

  lemma ReturnHands(s: State, tid: Tid, stack: seq<Frame>, r: Obj)
    requires stack != [] && (|stack| > 1 ==> stack[|stack| - 2].Building?)
    ensures var s' := Return(s, tid, stack, r); var n := |stack| - 1;
      && s'.known == s.known && s'.heap == s.heap
      && ThreadOf(s', tid) == if n == 0 then Calling(r)
                              else Running(stack[..n - 1] + [stack[n - 1].(parts := stack[n - 1].parts + [r])])
  {
    var n := |stack| - 1;
    if n > 0 {
      var f := stack[n - 1].(parts := stack[n - 1].parts + [r]);
      assert stack[..n][n - 1 := f] == stack[..n - 1] + [f];
    }
  }

  lemma TopOfStack(deps: Key -> seq<Key>, s: State, tid: Tid, stack: seq<Frame>)
    requires Inv(deps, s) && ThreadOf(s, tid) == Running(stack) && stack != []
    ensures |stack| > 1 ==> stack[|stack| - 2].Building?
    ensures var f := stack[|stack| - 1];
      && (f.key in s.known ==> IsFor(s, s.known[f.key], f.key))
      && (f.Resolving? || f.Releasing? ==> f.dc in s.heap && s.heap[f.dc].Deferred?)
      && (f.Releasing? ==> f.cc != f.dc && Published(s, f.key, f.cc))
  {
    assert ThreadOk(deps, s, tid);
    FrameAt(deps, s, tid, |stack| - 1);
    if |stack| > 1 { assert Awaits(deps, stack[|stack| - 2], stack[|stack| - 1].key); }
  }

  /** `getBaseCodec` returns a handle at once, or starts a lookup of the type with the empty tag. */
  lemma StartGivesHandle(deps: Key -> seq<Key>, s: State, tid: Tid, t: Types.TypeId)
    requires Inv(deps, s) && Do(deps, s, tid, StartBase(t)).Some?
    ensures var s' := Do(deps, s, tid, StartBase(t)).value;
      match ThreadOf(s', tid)
      case Calling(o) => Handle(s', Key(t, []), o)
      case Running(stack) => stack != [] && stack[0].key == Key(t, [])
      case _ => false
  {
    if t in s.base { assert Published(s, Key(t, []), s.base[t]); }
  }

  // ---------------------------------------------------------------- handles agree

  /** The frame that is to resolve a deferred codec. */
  function BuilderFrame(s: State, o: Obj): Frame
    requires o in s.heap && s.heap[o].Deferred? && StackOwns(ThreadOf(s, s.heap[o].builder), s.heap[o].level, o)
  {
    ThreadOf(s, s.heap[o].builder).stack[s.heap[o].level]
  }

  /** `o` is unresolved; its builder runs, and is to resolve it to `u` unless that is `o` itself. */
  predicate AboutToBe(s: State, o: Obj, u: Obj)
  {
    && o in s.heap && s.heap[o].Deferred? && StackOwns(ThreadOf(s, s.heap[o].builder), s.heap[o].level, o)
    && (u == o || (var f := BuilderFrame(s, o); (f.PublishingBase? || f.Resolving?) && u == f.cc))
  }

  lemma UnresolvedFrame(deps: Key -> seq<Key>, s: State, k: Key, o: Obj)
    requires Inv(deps, s) && IsFor(s, o, k) && RealOf(s, o) == None
    ensures AboutToBe(s, o, o)
    ensures var f := BuilderFrame(s, o);
      f.key == k && FrameOk(deps, s, s.heap[o].builder, s.heap[o].level, f) && !f.Releasing?
  {
    hide BeingPublished, PartsFor, BelowOk, Awaits;
    assert ObjectOk(deps, s, o);
    FrameAt(deps, s, s.heap[o].builder, s.heap[o].level);
  }

  /** A resolved handle leads to the cache's entry. */
  lemma ResolvedHandle(deps: Key -> seq<Key>, s: State, k: Key, o: Obj)
    requires Inv(deps, s) && Handle(s, k, o) && RealOf(s, o).Some?
    ensures k in s.known && RealOf(s, o) == Some(s.known[k]) && !s.heap[s.known[k]].Deferred?
  {
    hide BeingPublished, PartsFor;
    assert ObjectOk(deps, s, o);
    if s.heap[o].Deferred? { assert Published(s, k, s.heap[o].final.value); }
  }

  /** Two handles for the same key lead to the same codec; one that is not resolved yet is the other, or is
      about to be resolved to it. */
  lemma HandlesAgree(deps: Key -> seq<Key>, s: State, k: Key, o: Obj, u: Obj)
    requires Inv(deps, s) && Handle(s, k, o) && Handle(s, k, u)
    ensures RealOf(s, o).Some? && RealOf(s, u).Some? ==> RealOf(s, o) == RealOf(s, u)
    ensures RealOf(s, o) == None ==> AboutToBe(s, o, u) && CanAdvance(deps, s, s.heap[o].builder)
  {
    hide Inv, FrameOk;
    if RealOf(s, o).Some? {
      if RealOf(s, u).Some? {
        ResolvedHandle(deps, s, k, o);
        ResolvedHandle(deps, s, k, u);
      }
    } else {
      UnresolvedFrame(deps, s, k, o);
      if s.heap[u].Deferred? {
        OneDeferred(deps, s, o, u);
      } else {
        ResolvedHandle(deps, s, k, u);
        BuilderKnows(deps, s, s.heap[o].builder, s.heap[o].level, BuilderFrame(s, o));
      }
    }
  }

  lemma OneDeferred(deps: Key -> seq<Key>, s: State, o: Obj, u: Obj)
    requires Inv(deps, s) && o in s.heap && u in s.heap && s.heap[o].Deferred? && s.heap[u].Deferred?
    requires s.heap[o].key == s.heap[u].key
    ensures o == u
  {
  }

  lemma BuilderKnows(deps: Key -> seq<Key>, s: State, tid: Tid, i: nat, f: Frame)
    requires FrameOk(deps, s, tid, i, f) && Owns(f)
    ensures f.key in s.known && s.known[f.key] == if f.Building? || f.Publishing? then f.dc else f.cc
    ensures f.dc in s.heap && s.heap[f.dc].Deferred?
    ensures !f.Building? && !f.Publishing? ==> f.cc in s.heap && s.heap[f.cc].Final?
  {
  }

  /** Once a handle, always a handle; and once resolved, resolved to the same codec for ever. */
  lemma HandleStays(deps: Key -> seq<Key>, s: State, steps: Steps, k: Key, o: Obj)
    requires Inv(deps, s) && Handle(s, k, o) && Run(deps, s, steps).Some?
    ensures var s' := Run(deps, s, steps).value;
      && Inv(deps, s') && Handle(s', k, o) && (RealOf(s, o).Some? ==> RealOf(s', o) == RealOf(s, o))
  {
    hide Inv, Run;
    RunKeeps(deps, s, steps);
    RunFollows(deps, s, steps);
    var s' := Run(deps, s, steps).value;
    assert ObjectFollows(s.heap[o], s'.heap[o]);
    assert EntryFollows(EntryOf(s, k), EntryOf(s', k));
  }

  // ---------------------------------------------------------------- looking up again

  /** What a lookup of `t` that is not interrupted returns, if the type is known. */
  function Now(s: State, t: Types.TypeId): Option<Obj>
  {
    if t in s.base then Some(s.base[t]) else if Key(t, []) in s.known then Some(s.known[Key(t, [])]) else None
  }

  /** That is what `getBaseCodec` gives a goroutine that nobody interrupts: at its first step or its second. */
  lemma NowIsFound(deps: Key -> seq<Key>, s: State, tid: Tid, t: Types.TypeId)
    requires !ThreadOf(s, tid).Running? && !ThreadOf(s, tid).Waiting? && Now(s, t).Some?
    ensures var s1 := Do(deps, s, tid, StartBase(t));
      && s1.Some?
      && var s2 := Do(deps, s1.value, tid, Advance);
         || ThreadOf(s1.value, tid) == Calling(Now(s, t).value)
         || (s2.Some? && ThreadOf(s2.value, tid) == Calling(Now(s, t).value))
  {
  }

  /** Compared with a new lookup a kept codec waits longer at most from the publication of its real codec to
      its resolution, and never less. */
  lemma KeptAgainstNow(deps: Key -> seq<Key>, s: State, t: Types.TypeId, o: Obj)
    requires Inv(deps, s) && Handle(s, Key(t, []), o)
    ensures Now(s, t).Some? && Handle(s, Key(t, []), Now(s, t).value)
    ensures RealOf(s, o).Some? ==> RealOf(s, Now(s, t).value) == RealOf(s, o)
    ensures RealOf(s, o) == None ==> AboutToBe(s, o, Now(s, t).value)
    ensures RealOf(s, o) == None ==>
      (RealOf(s, Now(s, t).value).Some? <==> BuilderFrame(s, o).PublishingBase? || BuilderFrame(s, o).Resolving?)
  {
    hide FrameOk, BeingPublished, PartsFor;
    var k := Key(t, []);
    HandleIsKnown(deps, s, k, o);
    if t in s.base { assert Published(s, k, s.base[t]); } else { assert IsFor(s, s.known[k], k); }
    var u := Now(s, t).value;
    HandlesAgree(deps, s, k, o, u);
    if RealOf(s, o).Some? {
      ResolvedHandle(deps, s, k, o);
    } else {
      UnresolvedFrame(deps, s, k, o);
      BuilderKnows(deps, s, s.heap[o].builder, s.heap[o].level, BuilderFrame(s, o));
      if RealOf(s, u).Some? { ResolvedHandle(deps, s, k, u); }
    }
  }

  lemma HandleIsKnown(deps: Key -> seq<Key>, s: State, k: Key, o: Obj)
    requires Inv(deps, s) && IsFor(s, o, k)
    ensures k in s.known
  {
    assert ObjectOk(deps, s, o);
  }
}
