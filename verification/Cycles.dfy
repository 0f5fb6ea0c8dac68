/** Decoding ends on every input exactly when no cycle of calls that take nothing can be reached. */
module Cycles {
  import opened Words
  import opened Codecs
  import opened Termination
  import opened Progress
  import opened Ending
  import opened Exhaustion

  // ---------------------------------------------------------------- cycles in reach

  /** Codecs that each may call the next before taking anything, the last one the first. */
  ghost predicate Cycle<R>(g: Graph<R>, c: seq<R>)
  {
    c != [] && forall i :: 0 <= i < |c| ==> Starts(g, c[i], c[if i + 1 < |c| then i + 1 else 0])
  }

  /** A chain of calls leads from `r` to `s`. */
  ghost predicate ReachesIn<R(!new)>(g: Graph<R>, r: R, s: R, n: nat)
  {
    if n == 0 then r == s else exists m :: ReachesIn(g, r, m, n - 1) && Calls(g, m, s)
  }

  ghost predicate Reaches<R(!new)>(g: Graph<R>, r: R, s: R) { exists n: nat :: ReachesIn(g, r, s, n) }

  ghost predicate CycleInReach<R(!new)>(g: Graph<R>, r: R)
  {
    exists c: seq<R> :: Cycle(g, c) && Reaches(g, r, c[0])
  }

  /** Decoding `input` with codec `r` comes to an end. */
  ghost predicate Ends<R>(g: Graph<R>, r: R, input: seq<byte>)
  {
    exists d: nat :: !StackedOut(Decode(g, r, input, d))
  }

  lemma ReachesFurther<R(!new)>(g: Graph<R>, r: R, m: R, s: R)
    requires Reaches(g, r, m) && Calls(g, m, s)
    ensures Reaches(g, r, s)
  {
    hide Calls;
    var n: nat :| ReachesIn(g, r, m, n);
    assert ReachesIn(g, r, s, n + 1);
  }

  lemma ReachesItself<R(!new)>(g: Graph<R>, r: R)
    ensures Reaches(g, r, r)
  {
    assert ReachesIn(g, r, r, 0);
  }

  // ---------------------------------------------------------------- a cycle in reach never ends

  /** Each codec of the set starts with one of the set. */
  ghost predicate Unguarded<R>(g: Graph<R>, u: set<R>) { forall x :: x in u ==> StartsInside(g, u, x) }

  ghost predicate StartsInside<R>(g: Graph<R>, u: set<R>, x: R) { exists y :: y in u && Starts(g, x, y) }

  lemma NextInside<R>(g: Graph<R>, u: set<R>, x: R) returns (y: R)
    requires Unguarded(g, u) && x in u
    ensures y in u && Starts(g, x, y)
  {
    hide Starts;
    assert StartsInside(g, u, x);
    y :| y in u && Starts(g, x, y);
  }

  /** Inside such a set decoding exhausts any stack on any input. */
  lemma {:induction false} UnguardedNeverEnds<R>(g: Graph<R>, u: set<R>, r: R, input: seq<byte>, d: nat)
    requires Proper(g) && Unguarded(g, u) && r in u
    ensures StackedOut(Decode(g, r, input, d))
  {
    hide Proper, Unguarded, Starts, Decode;
    var y := NextInside(g, u, r);
    if d > 0 { UnguardedNeverEnds(g, u, y, input, d - 1); }
    StartsRunOut(g, r, y, input, d);
  }

  lemma CycleIsUnguarded<R>(g: Graph<R>, c: seq<R>)
    requires Cycle(g, c)
    ensures Unguarded(g, set x | x in c)
  {
    hide Starts;
    var u := set x | x in c;
    forall x | x in u ensures StartsInside(g, u, x) {
      var i :| 0 <= i < |c| && c[i] == x;
      assert c[if i + 1 < |c| then i + 1 else 0] in u;
    }
  }

  lemma {:induction false} ChainEndless<R(!new)>(g: Graph<R>, r: R, s: R, n: nat,
                                          input: seq<byte>) returns (w: seq<byte>)
    requires Proper(g) && ReachesIn(g, r, s, n) && Endless(g, s, input)
    ensures Endless(g, r, w)
    decreases n
  {
    hide Proper, Calls, Endless;
    w := input;
    if n > 0 {
      var m :| ReachesIn(g, r, m, n - 1) && Calls(g, m, s);
      var w' := CallEndless(g, m, s, input);
      w := ChainEndless(g, r, m, n - 1, w');
    }
  }

  /** If a cycle is in reach, there is input on which decoding never ends. */
  lemma CyclesNeverEnd<R(!new)>(g: Graph<R>, r: R) returns (w: seq<byte>)
    requires Proper(g) && CycleInReach(g, r)
    ensures !Ends(g, r, w)
  {
    hide Proper, Starts, Calls, Unguarded, Decode;
    var c: seq<R> :| Cycle(g, c) && Reaches(g, r, c[0]);
    CycleIsUnguarded(g, c);
    forall d: nat ensures StackedOut(Decode(g, c[0], [], d)) {
      UnguardedNeverEnds(g, (set x | x in c), c[0], [], d);
    }
    var n: nat :| ReachesIn(g, r, c[0], n);
    w := ChainEndless(g, r, c[0], n, []);
  }

  // ---------------------------------------------------------------- an unguarded set holds a cycle

  /** A walk of `n` steps inside an unguarded set. */
  lemma {:induction false} Walk<R>(g: Graph<R>, u: set<R>, r: R, n: nat) returns (w: seq<R>)
    requires Unguarded(g, u) && r in u
    ensures |w| == n + 1 && w[0] == r && forall i :: 0 <= i <= n ==> w[i] in u
    ensures forall i :: 0 <= i < n ==> Starts(g, w[i], w[i + 1])
    decreases n
  {
    hide Unguarded, Starts;
    w := [r];
    if n > 0 {
      var before := Walk(g, u, r, n - 1);
      var y := NextInside(g, u, before[n - 1]);
      w := before + [y];
    }
  }

  lemma {:induction false} DistinctFit<R>(w: seq<R>, u: set<R>)
    requires forall i, j :: 0 <= i < j < |w| ==> w[i] != w[j]
    requires forall i :: 0 <= i < |w| ==> w[i] in u
    ensures |w| <= |u|
    decreases |w|
  {
    if w != [] {
      var n := |w| - 1;
      DistinctFit(w[..n], u - {w[n]});
    }
  }

  lemma UnguardedHasCycle<R>(g: Graph<R>, u: set<R>, r: R) returns (c: seq<R>)
    requires Unguarded(g, u) && r in u
    ensures Cycle(g, c) && forall i :: 0 <= i < |c| ==> c[i] in u
  {
    hide Unguarded, Starts;
    var w := Walk(g, u, r, |u|);
    if forall i, j :: 0 <= i < j < |w| ==> w[i] != w[j] { DistinctFit(w, u); }
    var i, j :| 0 <= i < j < |w| && w[i] == w[j];
    c := w[i..j];
    forall k | 0 <= k < |c| ensures Starts(g, c[k], c[if k + 1 < |c| then k + 1 else 0]) {
      assert Starts(g, w[i + k], w[i + k + 1]);
    }
  }

  // ---------------------------------------------------------------- no cycle in reach: decoding ends

  /** Ranks for a finite set without unguarded subsets: a start inside it always drops. */
  lemma {:induction false} Ranks<R>(g: Graph<R>, u: set<R>) returns (rank: map<R, nat>)
    requires forall c: set<R> :: c <= u && c != {} ==> !Unguarded(g, c)
    ensures rank.Keys == u && forall x :: x in u ==> rank[x] < |u|
    ensures forall x, y :: x in u && y in u && Starts(g, x, y) ==> rank[y] < rank[x]
    decreases u
  {
    hide Starts;
    rank := map[];
    if u != {} {
      assert !Unguarded(g, u);
      var sink :| sink in u && !StartsInside(g, u, sink);
      var above := Ranks(g, u - {sink});
      rank := map x | x in u :: if x == sink then 0 else above[x] + 1;
      forall x, y | x in u && y in u && Starts(g, x, y) ensures rank[y] < rank[x] {
        assert x != sink;
      }
    }
  }

  ghost function Reached<R(!new)>(g: Graph<R>, r: R): set<R> { set x | x in g.Keys && Reaches(g, r, x) }

  lemma OnlyNodesCall<R>(g: Graph<R>, r: R, s: R)
    requires Calls(g, r, s) || Starts(g, r, s)
    ensures r in g
  {
  }

  lemma GuardedWithin<R(!new)>(g: Graph<R>, r: R, m: map<R, nat>)
    requires Proper(g) && m.Keys == Reached(g, r) && (forall x :: x in m ==> m[x] < |m|)
    requires forall x, y :: x in m && y in m && Starts(g, x, y) ==> m[y] < m[x]
    ensures Guarded(g, x => Reaches(g, r, x), x => if x in m then m[x] + 1 else 0, |m|)
  {
    hide Starts, Calls, Proper, Reaches;
    var live := x => Reaches(g, r, x);
    var rank := x => if x in m then m[x] + 1 else 0;
    forall x, y | Calls(g, x, y) && live(x) ensures live(y) { ReachesFurther(g, r, x, y); }
    forall x, y | Starts(g, x, y) && live(x) ensures rank(y) < rank(x) {
      OnlyNodesCall(g, x, y);
      StartsIsCall(g, x, y);
      ReachesFurther(g, r, x, y);
    }
  }

  lemma UnguardedInReach<R(!new)>(g: Graph<R>, r: R, u: set<R>)
    requires Unguarded(g, u) && u != {} && u <= Reached(g, r)
    ensures CycleInReach(g, r)
  {
    hide Starts, Calls, Reaches, Unguarded;
    var x :| x in u;
    var c := UnguardedHasCycle(g, u, x);
    assert c[0] in Reached(g, r);
  }

  lemma NoCycleEnds<R(!new)>(g: Graph<R>, r: R, input: seq<byte>)
    requires Proper(g) && !CycleInReach(g, r)
    ensures Ends(g, r, input)
  {
    hide Proper, Starts, Calls, Reaches, Guarded, Decode, Unguarded, Cycle;
    var u := Reached(g, r);
    forall c: set<R> | c <= u && c != {} ensures !Unguarded(g, c) {
      if Unguarded(g, c) { UnguardedInReach(g, r, c); }
    }
    var m := Ranks(g, u);
    GuardedWithin(g, r, m);
    ReachesItself(g, r);
    var rank := x => if x in m then m[x] + 1 else 0;
    var d := Bound(|m|, |input|, rank(r));
    DecodingEnds(g, x => Reaches(g, r, x), rank, |m|, r, input, d);
  }

  /** Decoding ends on every input if and only if no cycle of calls that take nothing is in reach. */
  lemma DecodingEndsIff<R(!new)>(g: Graph<R>, r: R)
    requires Proper(g)
    ensures (forall input: seq<byte> :: Ends(g, r, input)) <==> !CycleInReach(g, r)
  {
    hide Proper, CycleInReach, Ends;
    if CycleInReach(g, r) {
      var w := CyclesNeverEnd(g, r);
      assert !Ends(g, r, w);
    } else {
      forall input: seq<byte> ensures Ends(g, r, input) { NoCycleEnds(g, r, input); }
    }
  }

  // ---------------------------------------------------------------- three types

  /** `type T *T` */
  const SELF: Graph<nat> := map[0 := PtrCodec(0)]

  /** `struct { E struct{}; Next *T }`: the first field takes nothing. */
  const HOLLOW: Graph<nat> :=
    map[0 := StructCodec("T", 2, [Field("E", 0, 1), Field("Next", 1, 2)]),
        1 := StructCodec("", 0, []), 2 := PtrCodec(0)]

  /** `struct { H [4]byte; Next *T }`, with an opaque header: the first field takes a word. */
  const HEADED: Graph<nat> :=
    map[0 := StructCodec("T", 2, [Field("H", 0, 1), Field("Next", 1, 2)]), 1 := OpaqueArrayCodec(4), 2 := PtrCodec(0)]

  lemma SelfNeverEnds(input: seq<byte>)
    ensures CycleInReach(SELF, 0) && !Ends(SELF, 0, input)
  {
    hide Decode, Reaches;
    var c: seq<nat> := [0];
    assert Starts(SELF, 0, 0);
    assert Cycle(SELF, c);
    ReachesItself(SELF, c[0]);
    assert StartsInside(SELF, {0}, 0);
    forall d: nat ensures StackedOut(Decode(SELF, 0, input, d)) { UnguardedNeverEnds(SELF, {0}, 0, input, d); }
  }

  lemma HollowNeverEnds(input: seq<byte>)
    ensures !Ends(HOLLOW, 0, input)
  {
    hide Decode;
    var fields := HOLLOW[0].fields;
    assert fields[0].codec == 1 && fields[1].codec == 2;
    assert EmptyIn(HOLLOW, 1, 1);
    assert StartsField(HOLLOW, fields, 1, 2);
    assert Starts(HOLLOW, 0, 2) && Starts(HOLLOW, 2, 0);
    assert StartsInside(HOLLOW, {0, 2}, 0) && StartsInside(HOLLOW, {0, 2}, 2);
    forall d: nat ensures StackedOut(Decode(HOLLOW, 0, input, d)) { UnguardedNeverEnds(HOLLOW, {0, 2}, 0, input, d); }
  }

  lemma HeadedAlwaysEnds(input: seq<byte>)
    ensures Ends(HEADED, 0, input)
  {
    hide Decode;
    var live := (x: nat) => true;
    var rank := (x: nat) => if x == 2 then 2 else if x == 0 then 1 else 0;
    var fields := HEADED[0].fields;
    forall r, s | Starts(HEADED, r, s) && live(r) ensures rank(s) < rank(r) {
      if r == 0 {
        var i :| StartsField(HEADED, fields, i, s);
        assert i == 1 ==> Empty(HEADED, fields[0].codec);
      }
    }
    DecodingEnds(HEADED, live, rank, 2, 0, input, Bound(2, |input|, 1));
  }
}
