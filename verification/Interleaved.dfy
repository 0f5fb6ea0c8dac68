/** Compilation by any number of goroutines, in any interleaving, preserves meaning: at any time every codec
    anyone holds encodes and decodes as its type and tag say, or waits for a codec still being built. */
module Interleaved {
  import opened Words
  import opened Types
  import opened Codecs
  import opened Shapes
  import opened Compiler
  import opened Meaning
  import opened Protocol
  import opened Runs
  import opened Asks
  import opened TypeGraph

  // ---------------------------------------------------------------- keys asked for

  /** The lookups that goroutines start are for types of the table. */
  ghost predicate StartsWithin(u: set<Key>, a: Action)
  {
    match a
    case StartBase(t) => Key(t, []) in u
    case StartGet(k) => k in u
    case _ => true
  }

  /** Nothing but keys of `u` is looked up or built; and no codec is registered. */
  ghost predicate KeysWithin(u: set<Key>, s: State)
  {
    && (forall o :: o in s.heap ==> s.heap[o].key in u && !s.heap[o].Registered?)
    && (forall t :: ThreadOf(s, t).Running? ==> Within(u, ThreadOf(s, t).stack))
  }

  lemma AdvanceWithin(deps: Key -> seq<Key>, u: set<Key>, width: nat, s: State, tid: Tid, stack: seq<Frame>)
    requires Inv(deps, s) && KeysWithin(u, s) && AsksWithin(deps, u, width)
    requires ThreadOf(s, tid) == Running(stack) && stack != []
    ensures KeysWithin(u, AdvanceTop(deps, s, tid, stack))
  {
    hide Inv, AdvanceTop, Within, AsksWithin;
    var s' := AdvanceTop(deps, s, tid, stack);
    OwnStepSpends(deps, u, width, s, tid, stack);
    Bounded(deps, s);
    forall t | t != tid ensures ThreadOf(s', t) == ThreadOf(s, t) { AdvanceLocal(deps, s, tid, stack, t); }
    forall o | o in s'.heap ensures s'.heap[o].key in u && !s'.heap[o].Registered? {
      TopInside(u, stack);
      ObjectWithin(deps, s, tid, stack, o);
    }
  }

  lemma TopInside(u: set<Key>, stack: seq<Frame>)
    requires Within(u, stack) && stack != []
    ensures stack[|stack| - 1].key in u
  {
    assert stack[|stack| - 1] in stack;
  }

  /** A step of a lookup or build makes objects of its own key only, and registers nothing. */
  lemma ObjectWithin(deps: Key -> seq<Key>, s: State, tid: Tid, stack: seq<Frame>, o: Obj)
    requires stack != [] && s.next !in s.heap && o in AdvanceTop(deps, s, tid, stack).heap
    ensures var x := AdvanceTop(deps, s, tid, stack).heap[o];
      if o in s.heap then x.key == s.heap[o].key && (x.Registered? <==> s.heap[o].Registered?)
      else x.key == stack[|stack| - 1].key && !x.Registered?
  {
    hide Return;
    forall r, s1: State ensures Return(s1, tid, stack, r).heap == s1.heap { ReturnLocal(s1, tid, stack, r, tid); }
  }

  lemma StepWithin(deps: Key -> seq<Key>, u: set<Key>, width: nat, s: State, tid: Tid, a: Action)
    requires Inv(deps, s) && KeysWithin(u, s) && AsksWithin(deps, u, width)
    requires Do(deps, s, tid, a).Some? && StartsWithin(u, a) && !a.Register?
    ensures KeysWithin(u, Do(deps, s, tid, a).value)
  {
    hide Inv, AdvanceTop, AsksWithin;
    if a.Advance? {
      AdvanceWithin(deps, u, width, s, tid, ThreadOf(s, tid).stack);
    } else {
      var s' := Do(deps, s, tid, a).value;
      forall t | t != tid ensures ThreadOf(s', t) == ThreadOf(s, t) { OtherStep(deps, s, tid, a, t); }
    }
  }

  /** Steps that start lookups of keys of `u` only, and register nothing. */
  ghost predicate StepsWithin(u: set<Key>, steps: Steps)
  {
    forall x :: x in steps ==> StartsWithin(u, x.1) && !x.1.Register?
  }

  lemma {:induction false} RunWithin(deps: Key -> seq<Key>, u: set<Key>, width: nat, s: State, steps: Steps)
    requires Inv(deps, s) && KeysWithin(u, s) && AsksWithin(deps, u, width)
    requires Run(deps, s, steps).Some? && StepsWithin(u, steps)
    ensures KeysWithin(u, Run(deps, s, steps).value)
    decreases |steps|
  {
    hide Inv, Do, AsksWithin, KeysWithin;
    if steps != [] {
      assert steps[0] in steps;
      StepKeeps(deps, s, steps[0].0, steps[0].1);
      StepWithin(deps, u, width, s, steps[0].0, steps[0].1);
      RunWithin(deps, u, width, Do(deps, s, steps[0].0, steps[0].1).value, steps[1..]);
    }
  }

  // ---------------------------------------------------------------- the graph left behind

  function Origin(s: State): map<nat, Key> { map o | o in s.heap :: s.heap[o].key }

  /** The keys of the codecs a build was given. */
  function Given(s: State, parts: seq<Obj>): map<nat, Key>
    requires forall p :: p in parts ==> p in s.heap
  {
    map p | p in parts :: s.heap[p].key
  }

  /** `g` is a graph of codecs the builds may have made: each finished codec is its shape, with a codec the
      build was given in the place of each key. */
  ghost predicate MadeBy(tbl: Table, s: State, g: Graph<nat>)
  {
    && g.Keys == s.heap.Keys
    && (forall o :: o in s.heap ==>
          match s.heap[o]
          case Deferred(_, final, _, _, _) => g[o] == DeferredCodec(final)
          case Final(k, parts) =>
            && (forall p :: p in parts ==> p in s.heap) && !g[o].DeferredCodec?
            && Matches(Given(s, parts), g[o], ShapeOf(tbl, k))
          case Registered(_) => true)
  }

  function SnapOf(s: State, g: Graph<nat>): Snapshot { Snapshot(s.known, s.base, g, Origin(s), {}, s.next) }

  ghost predicate Resting(s: State) { forall t :: !ThreadOf(s, t).Running? }

  lemma Bounded(deps: Key -> seq<Key>, s: State)
    requires Inv(deps, s)
    ensures forall o :: o in s.heap ==> o < s.next
  {
  }

  lemma DeferredLeads(deps: Key -> seq<Key>, steps: Steps, s: State, o: Obj)
    requires Run(deps, INITIAL, steps) == Some(s) && Resting(s) && o in s.heap && s.heap[o].Deferred?
    ensures var f := s.heap[o].final;
      f.Some? && f.value in s.heap && s.heap[f.value].Final? && s.heap[f.value].key == s.heap[o].key
  {
    hide Run, Inv, ThreadOf;
    AtRest(deps, steps, s);
    EveryRunKeeps(deps, steps);
    HandlesNeverGoStale(deps, steps, s, o);
    KnownIsFor(deps, s, s.heap[o].key);
  }

  lemma DeferredSound(tbl: Table, deps: Key -> seq<Key>, steps: Steps, s: State, g: Graph<nat>, o: Obj)
    requires Run(deps, INITIAL, steps) == Some(s) && Resting(s) && MadeBy(tbl, s, g)
    requires o in s.heap && s.heap[o].Deferred?
    ensures NodeSound(tbl, SnapOf(s, g), o)
  {
    hide ShapeOf, Matches, Run, ThreadOf, Resting, Universe, MadeBy;
    DeferredLeads(deps, steps, s, o);
    MadeObjects(tbl, s, g, o);
    MadeObjects(tbl, s, g, s.heap[o].final.value);
  }

  lemma MadeObjects(tbl: Table, s: State, g: Graph<nat>, o: Obj)
    requires MadeBy(tbl, s, g) && o in s.heap
    ensures o in g && g.Keys == s.heap.Keys
    ensures s.heap[o].Deferred? ==> g[o] == DeferredCodec(s.heap[o].final)
    ensures s.heap[o].Final? ==> !g[o].DeferredCodec?
  {
    hide ShapeOf, Matches;
  }

  lemma FinalSound(tbl: Table, s: State, g: Graph<nat>, o: Obj)
    requires MadeBy(tbl, s, g) && o in s.heap && s.heap[o].Final?
    ensures NodeSound(tbl, SnapOf(s, g), o)
  {
    hide ShapeOf, Matches;
    MatchesExtends(Given(s, s.heap[o].parts), Origin(s), g[o], ShapeOf(tbl, s.heap[o].key));
  }

  lemma KnownIsFinal(tbl: Table, deps: Key -> seq<Key>, steps: Steps, s: State, g: Graph<nat>, k: Key)
    requires Run(deps, INITIAL, steps) == Some(s) && Resting(s) && MadeBy(tbl, s, g) && k in s.known
    requires forall o :: o in s.heap ==> !s.heap[o].Registered?
    ensures s.known[k] in g && s.known[k] in s.heap && s.heap[s.known[k]].key == k && !g[s.known[k]].DeferredCodec?
  {
    hide ShapeOf, Matches, Run, Inv, ThreadOf;
    AtRest(deps, steps, s);
    EveryRunKeeps(deps, steps);
    KnownIsFor(deps, s, k);
  }

  lemma MadeOfObjects(tbl: Table, s: State, g: Graph<nat>)
    requires MadeBy(tbl, s, g)
    ensures g.Keys == s.heap.Keys
  {
  }

  /** When all goroutines have come out of their lookups, the caches are as one goroutine would leave them. */
  lemma InterleavedIsReady(tbl: Table, steps: Steps, s: State, g: Graph<nat>)
    requires ClosedTable(tbl) && SwitchesSupported(tbl) && StepsWithin(Universe(tbl), steps)
    requires Run(DepsOf(tbl), INITIAL, steps) == Some(s) && Resting(s) && MadeBy(tbl, s, g)
    ensures Meaning.Ready(tbl, SnapOf(s, g))
  {
    hide Universe, Run, Inv, DepsOf, NodeSound, ClosedTable, SwitchesSupported, MadeBy, Resting, StepsWithin,
        KeysWithin;
    KeysStayWithin(tbl, steps, s);
    forall o | o in s.heap
      ensures o in g && o < s.next && s.heap[o].key in Universe(tbl) && NodeSound(tbl, SnapOf(s, g), o)
    {
      ObjectIsSound(tbl, steps, s, g, o);
    }
    MadeOfObjects(tbl, s, g);
    forall o | o in s.heap ensures !s.heap[o].Registered? { NotRegistered(tbl, s, o); }
    forall k | k in s.known
      ensures s.known[k] in s.heap && s.heap[s.known[k]].key == k && !g[s.known[k]].DeferredCodec?
    {
      KnownIsFinal(tbl, DepsOf(tbl), steps, s, g, k);
    }
    forall t | t in s.base ensures Key(t, []) in s.known && s.base[t] == s.known[Key(t, [])] {
      BaseIsKnown(DepsOf(tbl), steps, s, t);
    }
  }

  lemma ObjectIsSound(tbl: Table, steps: Steps, s: State, g: Graph<nat>, o: Obj)
    requires ClosedTable(tbl) && Run(DepsOf(tbl), INITIAL, steps) == Some(s) && Resting(s) && MadeBy(tbl, s, g)
    requires KeysWithin(Universe(tbl), s) && o in s.heap
    ensures o in g && o < s.next && s.heap[o].key in Universe(tbl) && NodeSound(tbl, SnapOf(s, g), o)
  {
    hide Universe, Run, Inv, DepsOf, NodeSound, ClosedTable, MadeBy, Resting;
    EveryRunKeeps(DepsOf(tbl), steps);
    Bounded(DepsOf(tbl), s);
    MadeObjects(tbl, s, g, o);
    NotRegistered(tbl, s, o);
    if s.heap[o].Deferred? { DeferredSound(tbl, DepsOf(tbl), steps, s, g, o); } else { FinalSound(tbl, s, g, o); }
  }

  lemma BaseIsKnown(deps: Key -> seq<Key>, steps: Steps, s: State, t: TypeId)
    requires Run(deps, INITIAL, steps) == Some(s) && t in s.base
    ensures Key(t, []) in s.known && s.base[t] == s.known[Key(t, [])]
  {
    hide Run, EntryOf;
    BaseEntriesAreFinal(deps, steps, s, t);
    FinishedIsKnown(s, Key(t, []), s.base[t]);
  }

  lemma FinishedIsKnown(s: State, k: Key, c: Obj)
    requires EntryOf(s, k) == Finished(c)
    ensures k in s.known && s.known[k] == c
  {
  }

  lemma NothingYet(deps: Key -> seq<Key>, u: set<Key>)
    ensures Inv(deps, INITIAL) && KeysWithin(u, INITIAL)
  {
  }

  lemma KnownIsFor(deps: Key -> seq<Key>, s: State, k: Key)
    requires Inv(deps, s) && k in s.known
    ensures s.known[k] in s.heap && s.heap[s.known[k]].key == k
  {
    assert IsFor(s, s.known[k], k);
  }

  // ---------------------------------------------------------------- there is such a graph

  ghost function NodeOf(tbl: Table, s: State, o: Obj): Node<nat>
    requires o in s.heap
  {
    match s.heap[o]
    case Deferred(_, final, _, _, _) => DeferredCodec(final)
    case Final(k, parts) =>
      if forall p :: p in parts ==> p in s.heap then NodeFrom(Given(s, parts), ShapeOf(tbl, k)) else DeferredCodec(None)
    case Registered(_) => DeferredCodec(None)
  }

  lemma NodeIsMade(tbl: Table, steps: Steps, s: State, o: Obj)
    requires ClosedTable(tbl) && Run(DepsOf(tbl), INITIAL, steps) == Some(s)
    requires o in s.heap && s.heap[o].Final? && s.heap[o].key in Universe(tbl)
    ensures forall p :: p in s.heap[o].parts ==> p in s.heap
    ensures Matches(Given(s, s.heap[o].parts), NodeOf(tbl, s, o), ShapeOf(tbl, s.heap[o].key))
    ensures !NodeOf(tbl, s, o).DeferredCodec?
  {
    hide Universe, ShapeOf, Matches, Run, ThreadOf, AsksOf, RefersTo, ClosedTable, NodeFrom, BeingPublished;
    var k, parts := s.heap[o].key, s.heap[o].parts;
    EveryRunKeeps(DepsOf(tbl), steps);
    assert ObjectOk(DepsOf(tbl), s, o);
    forall p | p in parts ensures p in s.heap {
      var i :| 0 <= i < |parts| && parts[i] == p;
      assert IsFor(s, parts[i], DepsOf(tbl)(k)[i]);
    }
    forall x | RefersTo(ShapeOf(tbl, k), x) ensures exists p :: RefIs(Given(s, parts), p, x) {
      AsksSuffice(tbl, k, x);
      var i :| 0 <= i < |AsksOf(tbl, k)| && AsksOf(tbl, k)[i] == x;
      assert IsFor(s, parts[i], DepsOf(tbl)(k)[i]) && parts[i] in parts;
      assert RefIs(Given(s, parts), parts[i], x);
    }
    ShapeNotDeferred(tbl, k);
    NodeFromMatches(Given(s, parts), ShapeOf(tbl, k));
  }

  /** Every build got all the codecs its node needs. */
  lemma GraphIsMade(tbl: Table, steps: Steps, s: State)
    requires ClosedTable(tbl) && StepsWithin(Universe(tbl), steps) && Run(DepsOf(tbl), INITIAL, steps) == Some(s)
    ensures exists g: Graph<nat> :: MadeBy(tbl, s, g)
  {
    hide Universe, ShapeOf, Matches, Run, Inv, ThreadOf, DepsOf, ClosedTable, StepsWithin, AsksWithin;
    var deps := DepsOf(tbl);
    CompilingAsksWithin(tbl);
    NothingYet(deps, Universe(tbl));
    RunWithin(deps, Universe(tbl), Widest(tbl, tbl.Keys), INITIAL, steps);
    var g := map o | o in s.heap :: NodeOf(tbl, s, o);
    forall o | o in s.heap && s.heap[o].Final?
      ensures forall p :: p in s.heap[o].parts ==> p in s.heap
      ensures Matches(Given(s, s.heap[o].parts), g[o], ShapeOf(tbl, s.heap[o].key)) && !g[o].DeferredCodec?
    {
      NodeIsMade(tbl, steps, s, o);
    }
    assert MadeBy(tbl, s, g);
  }

  // ---------------------------------------------------------------- while others still build

  /** What an unresolved, a resolved and a finished codec lead to. */
  lemma TargetIsMade(tbl: Table, steps: Steps, s: State, g: Graph<nat>, o: Obj)
    requires ClosedTable(tbl) && Run(DepsOf(tbl), INITIAL, steps) == Some(s) && MadeBy(tbl, s, g)
    requires o in s.heap && !s.heap[o].Registered?
    ensures Target(g, o).DeferredCodec? <==> RealOf(s, o) == None
    ensures !Target(g, o).DeferredCodec? ==> Matches(Origin(s), Target(g, o), ShapeOf(tbl, s.heap[o].key))
  {
    hide ShapeOf, Matches, Run, ThreadOf, FrameOk, BeingPublished, ClosedTable;
    EveryRunKeeps(DepsOf(tbl), steps);
    assert ObjectOk(DepsOf(tbl), s, o);
    if RealOf(s, o).Some? {
      var c := RealOf(s, o).value;
      MatchesExtends(Given(s, s.heap[c].parts), Origin(s), g[c], ShapeOf(tbl, s.heap[c].key));
    }
  }

  /** In every state of every run, the codecs made so far follow the type graph as far as they are resolved. */
  lemma MadeFollows(tbl: Table, steps: Steps, s: State, g: Graph<nat>)
    requires ClosedTable(tbl) && StepsWithin(Universe(tbl), steps)
    requires Run(DepsOf(tbl), INITIAL, steps) == Some(s) && MadeBy(tbl, s, g)
    ensures FollowsTypes(tbl, Origin(s), g, true)
  {
    hide Universe, ShapeOf, Matches, Run, Inv, DepsOf, ClosedTable, StepsWithin, AsksWithin, MadeBy, RealOf;
    KeysStayWithin(tbl, steps, s);
    forall o | o in Origin(s) ensures FollowsAt(tbl, Origin(s), g, true, o) { TargetIsMade(tbl, steps, s, g, o); }
  }

  lemma KeysStayWithin(tbl: Table, steps: Steps, s: State)
    requires ClosedTable(tbl) && StepsWithin(Universe(tbl), steps) && Run(DepsOf(tbl), INITIAL, steps) == Some(s)
    ensures KeysWithin(Universe(tbl), s)
  {
    hide Universe, Run, Inv, DepsOf, ClosedTable, StepsWithin, AsksWithin, KeysWithin;
    CompilingAsksWithin(tbl);
    NothingYet(DepsOf(tbl), Universe(tbl));
    RunWithin(DepsOf(tbl), Universe(tbl), Widest(tbl, tbl.Keys), INITIAL, steps);
  }

  /** Whatever goroutines are looking codecs up, and however they interleave, a call on any codec they were
      handed does what the type and tag asked for say, unless it stops at a codec not resolved yet, where the
      goroutine waits; what it wrote until then is the beginning of what it is to write. */
  lemma InterleavedMeaning(tbl: Table, steps: Steps, s: State, g: Graph<nat>, o: Obj, v: Value, input: seq<byte>,
                           depth: nat)
    requires ClosedTable(tbl) && SwitchesSupported(tbl) && StepsWithin(Universe(tbl), steps)
    requires Run(DepsOf(tbl), INITIAL, steps) == Some(s) && MadeBy(tbl, s, g) && o in s.heap
    ensures Alike(true, Encode(g, o, v), TypedEncode(tbl, s.heap[o].key.t, s.heap[o].key.tag, v))
    ensures ReadAlike(true, Decode(g, o, input, depth),
                      TypedDecode(tbl, s.heap[o].key.t, s.heap[o].key.tag, input, depth))
  {
    hide Universe, Run, MadeBy, StepsWithin, Encode, Decode, TypedEncode, TypedDecode, FollowsTypes, ClosedTable,
        DepsOf;
    MadeFollows(tbl, steps, s, g);
    FollowedMeaning(tbl, Origin(s), g, true, o, v, input, depth);
  }

  /** Every codec of `c` is resolved and refers to codecs of `c` only. */
  ghost predicate Settled(g: Graph<nat>, c: set<Obj>)
  {
    forall x :: x in c ==> !Target(g, x).DeferredCodec? && forall y: nat :: RefersTo(Target(g, x), y) ==> y in c
  }

  /** A call that can reach only resolved codecs means what the type and tag say, whatever is still being
      built elsewhere. */
  lemma SettledMeaning(tbl: Table, steps: Steps, s: State, g: Graph<nat>, c: set<Obj>, o: Obj, v: Value,
                       input: seq<byte>, depth: nat)
    requires ClosedTable(tbl) && SwitchesSupported(tbl) && StepsWithin(Universe(tbl), steps)
    requires Run(DepsOf(tbl), INITIAL, steps) == Some(s) && MadeBy(tbl, s, g)
    requires o in c && c <= s.heap.Keys && Settled(g, c)
    ensures Encode(g, o, v) == TypedEncode(tbl, s.heap[o].key.t, s.heap[o].key.tag, v)
    ensures Decode(g, o, input, depth) == TypedDecode(tbl, s.heap[o].key.t, s.heap[o].key.tag, input, depth)
  {
    hide Universe, ShapeOf, Matches, Run, MadeBy, StepsWithin, Encode, Decode, TypedEncode, TypedDecode, ClosedTable,
        DepsOf;
    hide RefersTo;
    MadeFollows(tbl, steps, s, g);
    var origin := map x | x in c :: s.heap[x].key;
    forall x | x in origin ensures FollowsAt(tbl, origin, g, false, x) {
      assert FollowsAt(tbl, Origin(s), g, true, x);
      MatchesInside(Origin(s), origin, Target(g, x), ShapeOf(tbl, origin[x]));
    }
    FollowedMeaning(tbl, origin, g, false, o, v, input, depth);
  }

  /** What a codec matches depends on the codecs it refers to only. */
  lemma MatchesInside(origin: map<nat, Key>, origin': map<nat, Key>, n: Node<nat>, m: Node<Key>)
    requires Matches(origin, n, m)
    requires forall y: nat, k: Key :: RefersTo(n, y) && RefIs(origin, y, k) ==> RefIs(origin', y, k)
    ensures Matches(origin', n, m)
  {
    hide RefIs;
    match n {
      case StructCodec(_, _, fields) =>
        forall i | 0 <= i < |fields| ensures FieldIs(origin', fields[i], m.fields[i]) {
          assert RefersTo(n, fields[i].codec) && FieldIs(origin, fields[i], m.fields[i]);
        }
      case UnionCodec(_, _, sw, _, body, _, _) =>
        assert RefersTo(n, sw.codec);
        forall a | a in body ensures FieldIs(origin', body[a], m.body[a]) { assert RefersTo(n, body[a].codec); }
      case _ =>
    }
  }

  lemma RestingSettled(tbl: Table, steps: Steps, s: State, g: Graph<nat>)
    requires ClosedTable(tbl) && StepsWithin(Universe(tbl), steps) && Resting(s)
    requires Run(DepsOf(tbl), INITIAL, steps) == Some(s) && MadeBy(tbl, s, g)
    ensures Settled(g, s.heap.Keys)
  {
    hide Universe, ShapeOf, Matches, Run, Inv, DepsOf, ClosedTable, StepsWithin, MadeBy, RefersTo, KeysWithin;
    AtRest(DepsOf(tbl), steps, s);
    MadeFollows(tbl, steps, s, g);
    KeysStayWithin(tbl, steps, s);
    forall x | x in s.heap
      ensures !Target(g, x).DeferredCodec? && forall y: nat :: RefersTo(Target(g, x), y) ==> y in s.heap
    {
      NotRegistered(tbl, s, x);
      TargetIsMade(tbl, steps, s, g, x);
      RefersInside(Origin(s), Target(g, x), ShapeOf(tbl, s.heap[x].key));
    }
  }

  lemma NotRegistered(tbl: Table, s: State, o: Obj)
    requires KeysWithin(Universe(tbl), s) && o in s.heap
    ensures !s.heap[o].Registered? && s.heap[o].key in Universe(tbl)
  {
    hide Universe;
  }

  lemma RefersInside(origin: map<nat, Key>, n: Node<nat>, m: Node<Key>)
    requires Matches(origin, n, m)
    ensures forall y: nat :: RefersTo(n, y) ==> y in origin
  {
    forall y: nat | RefersTo(n, y) ensures y in origin {
      if n.StructCodec? {
        var i :| 0 <= i < |n.fields| && n.fields[i].codec == y;
        assert FieldIs(origin, n.fields[i], m.fields[i]);
      }
    }
  }

  /** Once no lookup or build is under way no call waits: every codec ever handed out means just what the type
      and tag say. */
  lemma RestingMeaning(tbl: Table, steps: Steps, s: State, g: Graph<nat>, o: Obj, v: Value, input: seq<byte>,
                       depth: nat)
    requires ClosedTable(tbl) && SwitchesSupported(tbl) && StepsWithin(Universe(tbl), steps)
    requires Run(DepsOf(tbl), INITIAL, steps) == Some(s) && Resting(s) && MadeBy(tbl, s, g) && o in s.heap
    ensures Encode(g, o, v) == TypedEncode(tbl, s.heap[o].key.t, s.heap[o].key.tag, v)
    ensures Decode(g, o, input, depth) == TypedDecode(tbl, s.heap[o].key.t, s.heap[o].key.tag, input, depth)
  {
    hide Universe, Run, MadeBy, Settled, StepsWithin, Encode, Decode, TypedEncode, TypedDecode, ClosedTable, DepsOf,
        Resting;
    RestingSettled(tbl, steps, s, g);
    SettledMeaning(tbl, steps, s, g, s.heap.Keys, o, v, input, depth);
  }
}
