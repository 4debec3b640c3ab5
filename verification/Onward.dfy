/** Where the forward walk of auto-possessification can get to without a character, told
  * by single steps from instruction to instruction. The main results are that everything
  * behind a repeat is settled exactly if no way leads to something that blocks, and that
  * the walks started are as many as there are ways.
  */
module Onward {
  import opened Opcodes
  import opened Tree
  import opened Meaning
  import opened Machine
  import opened Decoding
  import opened Closure
  import opened Backtrack
  import opened PropertyLists
  import opened Settling

  /** At o is a bracket, but not one in the S form, which says that the group loops and
    * could match nothing. */
  predicate Opening(code: seq<byte>, o: nat) {
    o < |code| && IsBra(code[o]) && code[o] != OP_SBRA && code[o] != OP_SCBRA
  }

  /** The steps that take no character: over an optional repeat, into a group, from the end
    * of an alternative to the ket and over a plain ket, and both into and over an
    * optional group. */
  predicate OnTo(code: seq<byte>, a: nat, b: nat) {
    match Decode(code, a)
    case IRep(_, min, _, _, next) => min == 0 && b == next
    case IOpen(starts) => Opening(code, a) && b in starts
    case IAlt(end) => b == end
    case IKet(next, back) => back.None? && b == next
    case IZero(inside, after) =>
      inside.Some? && Opening(code, inside.value) && (b == after || b == inside.value)
    case _ => false
  }

  /** They are the steps of the machine at the end of the subject, calls and anchors aside,
    * where nothing loops and nothing is skipped for good. */
  lemma OnToIsStep(env: Env, code: seq<byte>, a: nat, b: nat)
    requires env.Ok()
    ensures var i := Decode(code, a);
            OnTo(code, a, b)
            <==> && Does(env, iset{}, i, Conf(a, 0, |env.s|), Conf(b, 0, |env.s|)) && !i.IAnchor?
                 && (i.IOpen? ==> Opening(code, a)) && !(i.IKet? && i.back.Some?)
                 && !(i.IZero? && (i.inside.None? || !Opening(code, i.inside.value)))
  {
    hide Decode;
  }

  /** What stops the walk: a loop, a call, a group that is skipped, an item that has a
    * character in common with the repeated one, and for a lazy repeat any end. */
  ghost predicate Blocked(code: seq<byte>, o: nat, t: Tables, base: Atom, greedy: bool)
    requires |t.ctypes| == 256 && |t.fcc| == 256 && AtomOk(base)
  {
    o >= |code| ||
    var i := Decode(code, o);
    match i
    case IBad => code[o] != OP_END || !greedy
    case IAlt(_) => false
    case IKet(_, back) => back.Some? || !greedy
    case IOpen(_) => !Opening(code, o)
    case IZero(inside, _) => inside.None? || !Opening(code, inside.value)
    case ICall(_, _, _) => true
    case _ => !InstrOk(i) || !Exclusive(t, base, i)
  }

  ghost predicate IsWay(code: seq<byte>, way: seq<nat>) {
    |way| > 0 && forall k: nat :: k + 1 < |way| ==> OnTo(code, way[k], way[k + 1])
  }

  /** Does a way lead from a to o? */
  ghost predicate WayTo(code: seq<byte>, a: nat, way: seq<nat>, o: nat) {
    IsWay(code, way) && way[0] == a && way[|way| - 1] == o
  }

  /** No way leads from a to something that blocks. */
  ghost predicate Free(code: seq<byte>, a: nat, t: Tables, base: Atom, greedy: bool)
    requires |t.ctypes| == 256 && |t.fcc| == 256 && AtomOk(base)
  {
    forall way: seq<nat>, o: nat :: WayTo(code, a, way, o) ==> !Blocked(code, o, t, base, greedy)
  }

  // ---------- settled means free ----------

  lemma DecodeBracket(code: seq<byte>, a: nat)
    ensures Decode(code, a).IOpen? ==> a < |code| && (Entered(code, a) <==> Opening(code, a))
    ensures Decode(code, a).IZero? && Decode(code, a).inside.Some? ==>
              var o := Decode(code, a).inside.value; o < |code| && (Entered(code, o) <==> Opening(code, o))
    ensures a >= |code| ==> Decode(code, a) == IBad
  {
    hide ChainOk, EndOf, AltStarts;
  }

  lemma SettledParts(code: seq<byte>, a: nat, t: Tables, base: Atom, greedy: bool)
    requires |t.ctypes| == 256 && |t.fcc| == 256 && AtomOk(base) && a < |code|
    requires var i := Decode(code, a); i.IAnchor? || i.IOne? || i.IRep?
    ensures var i := Decode(code, a);
            Settled(code, a, t, base, greedy)
            <==> InstrOk(i) && Exclusive(t, base, i) && (MayBeEmpty(i) ==> Settled(code, NextOf(i), t, base, greedy))
  {
    hide Decode, Exclusive;
  }

  lemma SettledGoesOn(code: seq<byte>, a: nat, b: nat, t: Tables, base: Atom, greedy: bool)
    requires |t.ctypes| == 256 && |t.fcc| == 256 && AtomOk(base)
    requires Settled(code, a, t, base, greedy)
    ensures !Blocked(code, a, t, base, greedy) && (OnTo(code, a, b) ==> Settled(code, b, t, base, greedy))
  {
    DecodeBracket(code, a);
    hide Decode, Entered, Opening, Exclusive;
    var i := Decode(code, a);
    if a < |code| && (i.IAnchor? || i.IOne? || i.IRep?) {
      SettledParts(code, a, t, base, greedy);
      hide Settled;
      assert !Blocked(code, a, t, base, greedy);
      assert OnTo(code, a, b) ==> Settled(code, b, t, base, greedy);
    } else {
      assert !Blocked(code, a, t, base, greedy);
      if i.IOpen? && OnTo(code, a, b) {
        var j :| 0 <= j < |i.starts| && i.starts[j] == b;
        assert Settled(code, i.starts[j], t, base, greedy);
      }
      assert OnTo(code, a, b) ==> Settled(code, b, t, base, greedy);
    }
  }

  lemma {:induction false} SettledAlong(code: seq<byte>, way: seq<nat>, t: Tables, base: Atom, greedy: bool)
    requires |t.ctypes| == 256 && |t.fcc| == 256 && AtomOk(base)
    requires IsWay(code, way) && Settled(code, way[0], t, base, greedy)
    ensures !Blocked(code, way[|way| - 1], t, base, greedy)
    decreases |way|
  {
    hide Settled, Blocked, OnTo;
    if |way| == 1 {
      SettledGoesOn(code, way[0], 0, t, base, greedy);
    } else {
      SettledGoesOn(code, way[0], way[1], t, base, greedy);
      SettledAlong(code, way[1..], t, base, greedy);
    }
  }

  lemma StepFirst(code: seq<byte>, a: nat, b: nat, way: seq<nat>, o: nat)
    requires OnTo(code, a, b) && WayTo(code, b, way, o)
    ensures WayTo(code, a, [a] + way, o)
  {
    hide OnTo;
    var all := [a] + way;
    forall k: nat | k + 1 < |all| ensures OnTo(code, all[k], all[k + 1]) {
      if k > 0 {
        assert all[k] == way[k - 1] && all[k + 1] == way[k];
        var j := k - 1;
        assert OnTo(code, way[j], way[j + 1]);
      }
    }
  }

  /** If something is not settled, a step leads on to something that is not. */
  lemma Unsettled(code: seq<byte>, a: nat, t: Tables, base: Atom, greedy: bool) returns (b: nat)
    requires |t.ctypes| == 256 && |t.fcc| == 256 && AtomOk(base)
    requires !Settled(code, a, t, base, greedy) && !Blocked(code, a, t, base, greedy)
    ensures OnTo(code, a, b) && !Settled(code, b, t, base, greedy) && b > a && a < |code|
  {
    DecodeBracket(code, a);
    DecodeForward(code, a);
    hide Decode, Entered, Opening, Exclusive;
    var i := Decode(code, a);
    b := 0;
    match i
    case IRep(_, _, _, _, next) => b := next;
    case IOpen(starts) =>
      var j :| 0 <= j < |starts| && !Settled(code, starts[j], t, base, greedy);
      b := starts[j];
    case IAlt(end) => b := end;
    case IKet(next, _) => b := next;
    case IZero(inside, after) => b := if Settled(code, after, t, base, greedy) then inside.value else after;
    case _ =>
  }

  lemma {:induction false} BlockedWay(code: seq<byte>, a: nat, t: Tables, base: Atom, greedy: bool)
    returns (way: seq<nat>, o: nat)
    requires |t.ctypes| == 256 && |t.fcc| == 256 && AtomOk(base) && !Settled(code, a, t, base, greedy)
    ensures WayTo(code, a, way, o) && Blocked(code, o, t, base, greedy)
    decreases |code| - a
  {
    hide Settled, Blocked, OnTo;
    if Blocked(code, a, t, base, greedy) {
      way, o := [a], a;
    } else {
      var b := Unsettled(code, a, t, base, greedy);
      var rest;
      rest, o := BlockedWay(code, b, t, base, greedy);
      StepFirst(code, a, b, rest, o);
      way := [a] + rest;
    }
  }

  /** Everything is settled exactly if no way leads to something that blocks. */
  lemma SettledIsFree(code: seq<byte>, a: nat, t: Tables, base: Atom, greedy: bool)
    requires |t.ctypes| == 256 && |t.fcc| == 256 && AtomOk(base)
    ensures Settled(code, a, t, base, greedy) <==> Free(code, a, t, base, greedy)
  {
    hide Settled, Blocked, IsWay;
    if Settled(code, a, t, base, greedy) {
      forall way: seq<nat>, o: nat | WayTo(code, a, way, o) ensures !Blocked(code, o, t, base, greedy) {
        SettledAlong(code, way, t, base, greedy);
      }
    } else {
      var way, o := BlockedWay(code, a, t, base, greedy);
      assert WayTo(code, a, way, o);
    }
  }

  // ---------- counting the ways ----------

  ghost predicate Stops(code: seq<byte>, o: nat) {
    forall b: nat :: !OnTo(code, o, b)
  }

  /** A way that goes as far as it can. */
  ghost predicate FullWay(code: seq<byte>, a: nat, way: seq<nat>) {
    IsWay(code, way) && way[0] == a && Stops(code, way[|way| - 1])
  }

  /** The full ways from a are those of the set. */
  ghost predicate WaysAre(code: seq<byte>, a: nat, ways: set<seq<nat>>) {
    forall way: seq<nat> :: way in ways <==> FullWay(code, a, way)
  }

  ghost predicate Through(code: seq<byte>, a: nat, starts: seq<nat>, way: seq<nat>) {
    |way| > 1 && way[0] == a && way[1] in starts && FullWay(code, way[1], way[1..])
  }

  /** The full ways from a that go to one of the starts first. */
  ghost predicate WaysThrough(code: seq<byte>, a: nat, starts: seq<nat>, ways: set<seq<nat>>) {
    forall way: seq<nat> :: way in ways <==> Through(code, a, starts, way)
  }

  lemma FullWayOn(code: seq<byte>, a: nat, way: seq<nat>)
    ensures FullWay(code, a, way) && |way| > 1 ==> OnTo(code, a, way[1]) && FullWay(code, way[1], way[1..])
    ensures |way| > 1 && way[0] == a && OnTo(code, a, way[1]) && FullWay(code, way[1], way[1..]) ==>
              FullWay(code, a, way)
  {
    hide OnTo, Stops;
    if |way| > 1 && way[0] == a && OnTo(code, a, way[1]) && FullWay(code, way[1], way[1..]) {
      var rest := way[1..];
      StepFirst(code, a, way[1], rest, rest[|rest| - 1]);
      assert [a] + rest == way;
    }
    if |way| > 1 && FullWay(code, a, way) {
      var rest := way[1..];
      assert OnTo(code, way[0], way[0 + 1]);
      forall k: nat | k + 1 < |rest| ensures OnTo(code, rest[k], rest[k + 1]) {
        var j := k + 1;
        assert OnTo(code, way[j], way[j + 1]);
      }
    }
  }

  /** Where the steps from a lead, in order. */
  function Nexts(code: seq<byte>, a: nat): seq<nat> {
    match Decode(code, a)
    case IRep(_, min, _, _, next) => if min == 0 then [next] else []
    case IOpen(starts) => if Entered(code, a) then starts else []
    case IAlt(end) => [end]
    case IKet(next, back) => if back.None? then [next] else []
    case IZero(inside, after) => if inside.Some? && Entered(code, inside.value) then [after, inside.value] else []
    case _ => []
  }

  lemma NextsAre(code: seq<byte>, a: nat)
    ensures forall b: nat :: OnTo(code, a, b) <==> b in Nexts(code, a)
    ensures AllDifferent(Nexts(code, a))
    ensures forall b :: b in Nexts(code, a) ==> a < b
    ensures Decode(code, a).IOpen? ==> |Decode(code, a).starts| > 0
  {
    DecodeBracket(code, a);
    DecodeForward(code, a);
    NextsDiffer(code, a);
    hide Decode, Entered, Opening;
  }

  lemma NextsDiffer(code: seq<byte>, a: nat)
    ensures AllDifferent(Nexts(code, a))
    ensures Decode(code, a).IOpen? ==> |Decode(code, a).starts| > 0
  {
    hide ChainOk, AltStarts, EndOf;
    if Decode(code, a).IOpen? {
      StartsDiffer(code, a, a + BraSize(code[a]));
    } else if Decode(code, a).IZero? && Decode(code, a).inside.Some? {
      assert Decode(code, a).inside.value < Decode(code, a).after;
    }
  }

  /** The ways with an offset in front. */
  ghost function Prefixed(a: nat, ways: set<seq<nat>>): set<seq<nat>> {
    set way | way in ways :: [a] + way
  }

  lemma {:induction false} AsMany(a: nat, ways: set<seq<nat>>)
    ensures |Prefixed(a, ways)| == |ways|
    decreases |ways|
  {
    if ways == {} {
      assert Prefixed(a, ways) == {};
    } else {
      var way :| way in ways;
      AsMany(a, ways - {way});
      assert Prefixed(a, ways) == Prefixed(a, ways - {way}) + {[a] + way};
      assert [a] + way !in Prefixed(a, ways - {way}) by {
        forall other | other in ways - {way} ensures [a] + other != [a] + way {
          assert ([a] + other)[1..] == other && ([a] + way)[1..] == way;
        }
      }
    }
  }

  lemma PrefixedAre(code: seq<byte>, a: nat, b: nat, ways: set<seq<nat>>)
    requires WaysAre(code, b, ways)
    ensures WaysThrough(code, a, [b], Prefixed(a, ways))
  {
    hide FullWay;
    forall way: seq<nat> | way in Prefixed(a, ways) ensures Through(code, a, [b], way) {
      var w :| w in ways && way == [a] + w;
      assert FullWay(code, b, w);
      FullStart(code, b, w);
      assert way[1..] == w;
    }
    forall way: seq<nat> | Through(code, a, [b], way) ensures way in Prefixed(a, ways) {
      assert way == [a] + way[1..];
    }
  }

  lemma FullStart(code: seq<byte>, b: nat, w: seq<nat>)
    requires FullWay(code, b, w)
    ensures |w| > 0 && w[0] == b
  {
  }

  /** Ways through different starts are different. */
  lemma ThroughMore(code: seq<byte>, a: nat, b: nat, rest: seq<nat>, w1: set<seq<nat>>, w2: set<seq<nat>>)
    requires WaysThrough(code, a, [b], w1) && WaysThrough(code, a, rest, w2) && b !in rest
    ensures WaysThrough(code, a, [b] + rest, w1 + w2) && |w1 + w2| == |w1| + |w2|
  {
    hide FullWay;
    forall way: seq<nat> ensures way in w1 + w2 <==> Through(code, a, [b] + rest, way) {
    }
    assert forall way :: way in w1 ==> Through(code, a, [b], way);
    assert w1 !! w2;
  }

  /** There is one way more than the walk starts other walks. */
  lemma {:induction false} CountWays(code: seq<byte>, a: nat) returns (ways: set<seq<nat>>)
    ensures WaysAre(code, a, ways) && |ways| == Inner(code, a) + 1
    decreases |code| - a, 1
  {
    hide Decode, WaysAre, WaysThrough, InnerAll, OnTo, AllDifferent, FullWay, Inner;
    NextsAre(code, a);
    var nexts := Nexts(code, a);
    InnerNexts(code, a);
    if nexts == [] {
      ways := {[a]};
      OnlyHere(code, a);
    } else {
      ways := CountThrough(code, a, nexts);
      AllThrough(code, a, ways);
    }
  }

  lemma {:induction false} CountThrough(code: seq<byte>, a: nat, starts: seq<nat>) returns (ways: set<seq<nat>>)
    requires a < |code| && starts != [] && AllFrom(starts, a + 1) && AllDifferent(starts)
    ensures WaysThrough(code, a, starts, ways) && |ways| == InnerAll(code, a + 1, starts) + 1
    decreases |code| - a, 0, |starts|
  {
    hide WaysAre, WaysThrough, Inner, OnTo;
    var b, rest := starts[0], starts[1..];
    var first := CountWays(code, b);
    PrefixedAre(code, a, b, first);
    AsMany(a, first);
    ways := Prefixed(a, first);
    if rest == [] {
      assert starts == [b];
      assert InnerAll(code, a + 1, rest) == 0;
    } else {
      assert b !in rest && AllFrom(rest, a + 1) && AllDifferent(rest) by {
        assert forall j :: 0 <= j < |rest| ==> rest[j] == starts[j + 1];
      }
      var more := CountThrough(code, a, rest);
      ThroughMore(code, a, b, rest, ways, more);
      assert starts == [b] + rest;
      ways := ways + more;
    }
  }

  lemma InnerNexts(code: seq<byte>, a: nat)
    ensures var nexts := Nexts(code, a);
            if nexts == [] then Inner(code, a) == 0
            else a < |code| && AllFrom(nexts, a + 1) && Inner(code, a) == InnerAll(code, a + 1, nexts)
  {
    DecodeBracket(code, a);
    DecodeForward(code, a);
    NextsAre(code, a);
    hide Decode;
    var nexts := Nexts(code, a);
    if |nexts| == 1 {
      assert nexts[1..] == [] && InnerAll(code, a + 1, []) == 0;
    } else if |nexts| == 2 {
      assert nexts[1..] == [nexts[1]] && [nexts[1]][1..] == [] && InnerAll(code, a + 1, []) == 0;
    }
  }

  lemma OnlyHere(code: seq<byte>, a: nat)
    requires Nexts(code, a) == []
    ensures WaysAre(code, a, {[a]})
  {
    NextsAre(code, a);
    hide OnTo;
    assert Stops(code, a);
    forall way: seq<nat> ensures way in {[a]} <==> FullWay(code, a, way) {
      FullWayOn(code, a, way);
      if FullWay(code, a, way) && |way| == 1 {
        assert way == [a];
      }
    }
  }

  lemma AllThrough(code: seq<byte>, a: nat, ways: set<seq<nat>>)
    requires Nexts(code, a) != [] && WaysThrough(code, a, Nexts(code, a), ways)
    ensures WaysAre(code, a, ways)
  {
    NextsAre(code, a);
    hide OnTo, Nexts;
    assert OnTo(code, a, Nexts(code, a)[0]);
    assert !Stops(code, a);
    forall way: seq<nat> ensures way in ways <==> FullWay(code, a, way) {
      FullWayOn(code, a, way);
      assert way in ways <==> Through(code, a, Nexts(code, a), way);
    }
  }

  /** No more than limit ways lead on from a. */
  ghost predicate WaysWithin(code: seq<byte>, a: nat, limit: nat) {
    exists ways: set<seq<nat>> :: WaysAre(code, a, ways) && |ways| <= limit
  }

  lemma WaysAreCounted(code: seq<byte>, a: nat, limit: nat)
    ensures WaysWithin(code, a, limit) <==> Inner(code, a) < limit
  {
    var ways := CountWays(code, a);
    hide FullWay, Inner;
    if other: set<seq<nat>> :| WaysAre(code, a, other) && |other| <= limit {
      assert forall way: seq<nat> :: way in other <==> way in ways;
      assert other == ways;
    }
  }

  /** The answer of the walk: nothing blocks, and there are not too many ways. */
  lemma FreeIsSettled(code: seq<byte>, a: nat, t: Tables, base: Atom, greedy: bool, limit: nat)
    requires |t.ctypes| == 256 && |t.fcc| == 256 && AtomOk(base)
    ensures Settled(code, a, t, base, greedy) && Inner(code, a) < limit
            <==> Free(code, a, t, base, greedy) && WaysWithin(code, a, limit)
  {
    hide Settled, Inner, Free, WaysWithin;
    SettledIsFree(code, a, t, base, greedy);
    WaysAreCounted(code, a, limit);
  }
}
