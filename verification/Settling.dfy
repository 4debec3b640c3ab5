/** What the forward walk of auto-possessification decides, independent of how it goes
  * about it: everything that can come next is settled, by a character that the repeated
  * item does not match, or, behind a greedy repeat, by the end of the pattern. Also the
  * kets and ends that can be reached without a character.
  */
module Settling {
  import opened Opcodes
  import opened Tree
  import opened Meaning
  import opened Machine
  import opened Decoding
  import opened Closure
  import opened Backtrack
  import opened PropertyLists

  /** May the item match nothing, in the eyes of the walk? */
  predicate MayBeEmpty(i: Instr) {
    i.IRep? && i.min == 0
  }

  /** Brackets into which the walk goes. */
  predicate Entered(code: seq<byte>, a: nat) {
    a < |code| && (code[a] == OP_BRA || code[a] == OP_CBRA)
  }

  /** All that can follow at offset a is settled. */
  ghost predicate Settled(code: seq<byte>, a: nat, t: Tables, base: Atom, greedy: bool)
    requires |t.ctypes| == 256 && |t.fcc| == 256 && AtomOk(base)
    decreases |code| - a
  {
    DecodeForward(code, a);
    a < |code| &&
    match Decode(code, a)
    case IBad => code[a] == OP_END && greedy
    case IAlt(end) => Settled(code, end, t, base, greedy)
    case IKet(next, back) => back.None? && greedy && Settled(code, next, t, base, greedy)
    case IOpen(starts) =>
      Entered(code, a) && forall j :: 0 <= j < |starts| ==> Settled(code, starts[j], t, base, greedy)
    case IZero(inside, after) =>
      inside.Some? && Entered(code, inside.value)
      && Settled(code, after, t, base, greedy) && Settled(code, inside.value, t, base, greedy)
    case ICall(_, _, _) => false
    case _ => SettledItem(code, a, t, base, greedy)
  }

  /** An item of a single character, or an anchor. */
  ghost predicate SettledItem(code: seq<byte>, a: nat, t: Tables, base: Atom, greedy: bool)
    requires |t.ctypes| == 256 && |t.fcc| == 256 && AtomOk(base) && a < |code|
    requires !Decode(code, a).IBad? && !Decode(code, a).IAlt? && !Decode(code, a).IKet? && !Decode(code, a).IOpen?
    requires !Decode(code, a).IZero? && !Decode(code, a).ICall?
    decreases |code| - a, 0
  {
    DecodeForward(code, a);
    var i := Decode(code, a);
    InstrOk(i) && Exclusive(t, base, i) && (MayBeEmpty(i) ==> Settled(code, NextOf(i), t, base, greedy))
  }

  /** The kets and the end that can be reached from offset a without a character. */
  function Passed(code: seq<byte>, a: nat): set<nat>
    decreases |code| - a, 1
  {
    DecodeForward(code, a);
    if a >= |code| then {}
    else
      match Decode(code, a)
      case IBad => {a}
      case IAlt(end) => Passed(code, end)
      case IKet(next, back) => if back.None? then {a} + Passed(code, next) else {}
      case IOpen(starts) => if Entered(code, a) then PassedAny(code, a + 1, starts) else {}
      case IZero(inside, after) =>
        if inside.Some? && Entered(code, inside.value) then Passed(code, after) + Passed(code, inside.value) else {}
      case IRep(_, min, _, _, next) => if min == 0 then Passed(code, next) else {}
      case _ => {}
  }

  predicate AllFrom(starts: seq<nat>, from: nat) {
    forall j :: 0 <= j < |starts| ==> starts[j] >= from
  }

  function PassedAny(code: seq<byte>, from: nat, starts: seq<nat>): set<nat>
    requires from <= |code| && AllFrom(starts, from)
    decreases |code| - from, 2 + |starts|
  {
    if starts == [] then {} else Passed(code, starts[0]) + PassedAny(code, from, starts[1..])
  }

  /** How many more walks are started on the way, if everything is settled. */
  function Inner(code: seq<byte>, a: nat): nat
    decreases |code| - a, 1
  {
    DecodeForward(code, a);
    if a >= |code| then 0
    else
      match Decode(code, a)
      case IAlt(end) => Inner(code, end)
      case IKet(next, back) => if back.None? then Inner(code, next) else 0
      case IOpen(starts) => if Entered(code, a) then InnerAll(code, a + 1, starts) else 0
      case IZero(inside, after) =>
        if inside.Some? && Entered(code, inside.value) then 1 + Inner(code, after) + Inner(code, inside.value) else 0
      case IRep(_, min, _, _, next) => if min == 0 then Inner(code, next) else 0
      case _ => 0
  }

  function InnerAll(code: seq<byte>, from: nat, starts: seq<nat>): nat
    requires from <= |code| && AllFrom(starts, from)
    decreases |code| - from, 2 + |starts|
  {
    if starts == [] then 0
    else (if |starts| == 1 then 0 else 1) + Inner(code, starts[0]) + InnerAll(code, from, starts[1..])
  }
}
