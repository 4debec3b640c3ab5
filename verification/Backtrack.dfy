/** Ordered backtracking over compiled code: alternatives from left to right, greedy
  * repeats from the longest run down, lazy ones from the shortest up, and the first
  * way through to the end counts. A subroutine call is atomic: it takes the first
  * match of the called group. This is the matcher that auto-possessification must
  * not disturb.
  */
module Backtrack {
  import opened Opcodes
  import opened Tree
  import opened Meaning
  import opened Machine
  import opened Decoding

  /** One run: it ends at offset endc, at one of the subject positions in ends. What
    * calls match is answered by calls, from the offset of the called group and the
    * position. */
  datatype Ctx = Ctx(env: Env, calls: (nat, nat) -> Option<nat>, endc: nat, ends: iset<nat>)

  ghost const ANYWHERE: iset<nat> := iset q: nat | q >= 0

  function First(r: Option<nat>, s: Option<nat>): Option<nat> {
    if r.Some? then r else s
  }

  /** The length of the longest run of the atom from p on, at most max. */
  function RunLength(env: Env, atom: Atom, p: nat, max: int): (n: nat)
    requires p <= |env.s| && max >= -1
    ensures p + n <= |env.s| && (max == -1 || n <= max)
    decreases |env.s| - p
  {
    if max == 0 || !HitAt(env, atom, p) then 0
    else 1 + RunLength(env, atom, p + 1, if max == -1 then -1 else max - 1)
  }

  /** How many of the remembered group starts lie before p. */
  function Earlier(st: seq<nat>, p: nat): nat {
    if st == [] then 0 else (if st[0] < p then 1 else 0) + Earlier(st[1..], p)
  }

  lemma EarlierPush(st: seq<nat>, p: nat)
    ensures Earlier([p] + st, p) == Earlier(st, p)
  {
    assert ([p] + st)[1..] == st;
  }

  /** Does the repeat at offset a try the shortest run first? */
  predicate Lazy(code: seq<byte>, a: nat)
    requires a < |code|
  {
    if IsClass(code[a]) then
      && a + 1 + BITMAP_SIZE < |code|
      && OP_CRSTAR <= code[a + 1 + BITMAP_SIZE] <= OP_CRMINRANGE
      && code[a + 1 + BITMAP_SIZE] % 2 == 1
    else
      IsRepeat(code[a]) && (code[a] - OP_STAR) % 13 in {K_MINSTAR, K_MINPLUS, K_MINQUERY, K_MINUPTO}
  }

  /** Instructions lead forward, except that a ket can go back to its bracket. */
  predicate Forward(o: nat, i: Instr) {
    match i
    case IBad => true
    case IAnchor(_, next) => next > o
    case IOne(_, next) => next > o
    case IRep(_, min, max, _, next) => next > o && max >= -1
    case IOpen(starts) => forall j :: 0 <= j < |starts| ==> starts[j] > o
    case IAlt(end) => end > o
    case IKet(next, _) => next > o
    case IZero(inside, after) => after > o && (inside.Some? ==> inside.value > o)
    case ICall(_, _, next) => next > o
  }

  lemma {:induction false} AltStartsForward(code: seq<byte>, h: nat, st: nat, o: nat)
    requires ChainOk(code, h) && o <= h && o < st
    ensures forall j :: 0 <= j < |AltStarts(code, h, st)| ==> AltStarts(code, h, st)[j] > o
    decreases |code| - h
  {
    var n := h + Get(code, h + 1);
    if code[n] == OP_ALT {
      AltStartsForward(code, n, n + 3, o);
    }
  }

  lemma DecodeForward(code: seq<byte>, o: nat)
    ensures Forward(o, Decode(code, o))
  {
    hide ChainOk, EndOf, AltStarts, RepOk, RepMin;
    if o < |code| && IsBra(code[o]) && ChainOk(code, o) {
      AltStartsForward(code, o, o + BraSize(code[o]), o);
    }
  }

  /** The first way from offset a and position p to the end of the run, given the
    * starts of the groups that are open. */
  ghost function Bt(code: seq<byte>, c: Ctx, a: nat, p: nat, st: seq<nat>): Option<nat>
    requires p <= |c.env.s|
    decreases |c.env.s| - p, Earlier(st, p), |code| - a, 0
  {
    if a == c.endc then (if p in c.ends then Some(p) else None)
    else if a >= |code| then None
    else
      DecodeForward(code, a);
      match Decode(code, a)
      case IBad => None
      case IAnchor(op, next) => if AnchorHolds(c.env, op, p) then Bt(code, c, next, p, st) else None
      case IOne(atom, next) => if HitAt(c.env, atom, p) then Bt(code, c, next, p + 1, st) else None
      case IRep(atom, min, max, poss, next) =>
        var n := RunLength(c.env, atom, p, max);
        if n < min then None
        else if poss then Bt(code, c, next, p + n, st)
        else if Lazy(code, a) then BtUp(code, c, next, p + min, p + n, st)
        else BtDown(code, c, next, p + min, p + n, st)
      case IOpen(starts) => EarlierPush(st, p); BtAlts(code, c, a + 1, starts, p, [p] + st)
      case IAlt(end) => Bt(code, c, end, p, st)
      case IKet(next, back) =>
        if back.None? || st == [] || st[0] >= p then Bt(code, c, next, p, if st == [] then st else st[1..])
        else if code[a] == OP_KETRMIN then First(Bt(code, c, next, p, st[1..]), Bt(code, c, back.value, p, st[1..]))
        else First(Bt(code, c, back.value, p, st[1..]), Bt(code, c, next, p, st[1..]))
      case IZero(inside, after) =>
        if inside.None? then Bt(code, c, after, p, st)
        else if code[a] == OP_BRAMINZERO then First(Bt(code, c, after, p, st), Bt(code, c, inside.value, p, st))
        else First(Bt(code, c, inside.value, p, st), Bt(code, c, after, p, st))
      case ICall(_, target, next) =>
        var q := c.calls(target, p);
        if q.Some? && p <= q.value <= |c.env.s| then Bt(code, c, next, q.value, st) else None
  }

  /** Go on at next from position hi, or else from one before it, down to lo. */
  ghost function BtDown(code: seq<byte>, c: Ctx, next: nat, lo: nat, hi: nat, st: seq<nat>): Option<nat>
    requires lo <= hi <= |c.env.s|
    decreases |c.env.s| - lo, Earlier(st, lo), |code| - next, 1 + hi - lo
  {
    First(Bt(code, c, next, hi, st), if hi == lo then None else BtDown(code, c, next, lo, hi - 1, st))
  }

  /** Go on at next from position lo, or else from one after it, up to hi. */
  ghost function BtUp(code: seq<byte>, c: Ctx, next: nat, lo: nat, hi: nat, st: seq<nat>): Option<nat>
    requires lo <= hi <= |c.env.s|
    decreases |c.env.s| - lo, Earlier(st, lo), |code| - next, 1
  {
    First(Bt(code, c, next, lo, st), if hi == lo then None else BtUp(code, c, next, lo + 1, hi, st))
  }

  /** The first alternative that leads to the end. */
  ghost function BtAlts(code: seq<byte>, c: Ctx, from: nat, starts: seq<nat>, p: nat, st: seq<nat>): Option<nat>
    requires p <= |c.env.s| && from <= |code| && forall j :: 0 <= j < |starts| ==> starts[j] >= from
    decreases |c.env.s| - p, Earlier(st, p), |code| - from, 1 + |starts|
  {
    if starts == [] then None
    else First(Bt(code, c, starts[0], p, st), BtAlts(code, c, from, starts[1..], p, st))
  }

  /** What calls match when they are nested less than d deep: the first match of the
    * called group, run up to its ket. */
  ghost function CallsAt(code: seq<byte>, env: Env, d: nat): (nat, nat) -> Option<nat>
    decreases d
  {
    if d == 0 then (t: nat, p: nat) => None
    else
      var inner := CallsAt(code, env, d - 1);
      (t: nat, p: nat) =>
        if p <= |env.s| && t < |code| && IsBra(code[t]) && ChainOk(code, t)
        then Bt(code, Ctx(env, inner, EndOf(code, t), ANYWHERE), t, p, [])
        else None
  }

  /** The end of the first match of the whole pattern from p that ends at one of these
    * positions. */
  ghost function FirstEnd(code: seq<byte>, env: Env, d: nat, ends: iset<nat>, p: nat): Option<nat>
    requires p <= |env.s| && |code| > 0
  {
    Bt(code, Ctx(env, CallsAt(code, env, d), |code| - 1, ends), 0, p, [])
  }

  /** Where a match from p may end, given the options on empty matches. */
  ghost function AllowedEnds(env: Env, p: nat): iset<nat> {
    iset q: nat | q >= p && env.Allowed(p, q)
  }

  /** The end of the first match of the whole pattern from p. */
  ghost function FirstMatch(code: seq<byte>, env: Env, d: nat, p: nat): Option<nat>
    requires p <= |env.s| && |code| > 0
  {
    FirstEnd(code, env, d, AllowedEnds(env, p), p)
  }

  // ---------- one step at a time ----------

  lemma BtAnchor(code: seq<byte>, c: Ctx, a: nat, p: nat, st: seq<nat>, op: byte, next: nat)
    requires a != c.endc && a < |code| && Decode(code, a) == IAnchor(op, next) && p <= |c.env.s|
    ensures Bt(code, c, a, p, st) == if AnchorHolds(c.env, op, p) then Bt(code, c, next, p, st) else None
  {
  }

  lemma BtOne(code: seq<byte>, c: Ctx, a: nat, p: nat, st: seq<nat>, atom: Atom, next: nat)
    requires a != c.endc && a < |code| && Decode(code, a) == IOne(atom, next) && p <= |c.env.s|
    ensures Bt(code, c, a, p, st) == if HitAt(c.env, atom, p) then Bt(code, c, next, p + 1, st) else None
  {
  }

  /** What a repeat comes down to: going on after one of the runs it may take. */
  lemma BtRep(code: seq<byte>, c: Ctx, a: nat, p: nat, st: seq<nat>, i: Instr)
    requires a != c.endc && a < |code| && Decode(code, a) == i && i.IRep? && p <= |c.env.s|
    ensures i.max >= -1
    ensures var n := RunLength(c.env, i.atom, p, i.max);
            Bt(code, c, a, p, st) ==
            if n < i.min then None
            else if i.poss then Bt(code, c, i.next, p + n, st)
            else if Lazy(code, a) then BtUp(code, c, i.next, p + i.min, p + n, st)
            else BtDown(code, c, i.next, p + i.min, p + n, st)
  {
    DecodeForward(code, a);
    hide BtUp, BtDown;
  }

  lemma BtOpen(code: seq<byte>, c: Ctx, a: nat, p: nat, st: seq<nat>, starts: seq<nat>)
    requires a != c.endc && a < |code| && Decode(code, a) == IOpen(starts) && p <= |c.env.s|
    ensures forall j :: 0 <= j < |starts| ==> starts[j] >= a + 1
    ensures Bt(code, c, a, p, st) == BtAlts(code, c, a + 1, starts, p, [p] + st)
  {
    DecodeForward(code, a);
  }

  lemma BtAlt(code: seq<byte>, c: Ctx, a: nat, p: nat, st: seq<nat>, end: nat)
    requires a != c.endc && a < |code| && Decode(code, a) == IAlt(end) && p <= |c.env.s|
    ensures Bt(code, c, a, p, st) == Bt(code, c, end, p, st)
  {
  }

  lemma BtKet(code: seq<byte>, c: Ctx, a: nat, p: nat, st: seq<nat>, next: nat, back: Option<nat>)
    requires a != c.endc && a < |code| && Decode(code, a) == IKet(next, back) && p <= |c.env.s|
    ensures Bt(code, c, a, p, st) ==
            if back.None? || st == [] || st[0] >= p then Bt(code, c, next, p, if st == [] then st else st[1..])
            else if code[a] == OP_KETRMIN then First(Bt(code, c, next, p, st[1..]), Bt(code, c, back.value, p, st[1..]))
            else First(Bt(code, c, back.value, p, st[1..]), Bt(code, c, next, p, st[1..]))
  {
  }

  lemma BtZero(code: seq<byte>, c: Ctx, a: nat, p: nat, st: seq<nat>, inside: Option<nat>, after: nat)
    requires a != c.endc && a < |code| && Decode(code, a) == IZero(inside, after) && p <= |c.env.s|
    ensures Bt(code, c, a, p, st) ==
            if inside.None? then Bt(code, c, after, p, st)
            else if code[a] == OP_BRAMINZERO then First(Bt(code, c, after, p, st), Bt(code, c, inside.value, p, st))
            else First(Bt(code, c, inside.value, p, st), Bt(code, c, after, p, st))
  {
  }

  lemma BtCall(code: seq<byte>, c: Ctx, a: nat, p: nat, st: seq<nat>, num: nat, target: nat, next: nat)
    requires a != c.endc && a < |code| && Decode(code, a) == ICall(num, target, next) && p <= |c.env.s|
    ensures var q := c.calls(target, p);
            Bt(code, c, a, p, st)
            == if q.Some? && p <= q.value <= |c.env.s| then Bt(code, c, next, q.value, st) else None
  {
  }

  lemma BtStop(code: seq<byte>, c: Ctx, a: nat, p: nat, st: seq<nat>)
    requires p <= |c.env.s|
    ensures a == c.endc ==> Bt(code, c, a, p, st) == if p in c.ends then Some(p) else None
    ensures a != c.endc && a < |code| && Decode(code, a) == IBad ==> Bt(code, c, a, p, st) == None
  {
  }

  lemma {:induction false} DownSucceeds(code: seq<byte>, c: Ctx, next: nat, lo: nat, hi: nat, st: seq<nat>)
    requires lo <= hi <= |c.env.s| && Bt(code, c, next, hi, st).Some?
    ensures BtDown(code, c, next, lo, hi, st) == Bt(code, c, next, hi, st)
  {
    hide Bt;
  }

  lemma {:induction false} UpSucceeds(code: seq<byte>, c: Ctx, next: nat, lo: nat, hi: nat, st: seq<nat>)
    requires lo <= hi <= |c.env.s| && Bt(code, c, next, lo, st).Some?
    ensures BtUp(code, c, next, lo, hi, st) == Bt(code, c, next, lo, st)
  {
    hide Bt;
  }

  lemma OnlyOne(code: seq<byte>, c: Ctx, next: nat, p: nat, st: seq<nat>)
    requires p <= |c.env.s|
    ensures BtDown(code, c, next, p, p, st) == Bt(code, c, next, p, st) == BtUp(code, c, next, p, p, st)
  {
    hide Bt;
  }

  lemma DownStep(code: seq<byte>, c: Ctx, next: nat, lo: nat, hi: nat, st: seq<nat>)
    requires lo < hi <= |c.env.s|
    ensures BtDown(code, c, next, lo, hi, st) == First(Bt(code, c, next, hi, st), BtDown(code, c, next, lo, hi - 1, st))
  {
    hide Bt;
  }

  lemma UpStep(code: seq<byte>, c: Ctx, next: nat, lo: nat, hi: nat, st: seq<nat>)
    requires lo < hi <= |c.env.s|
    ensures BtUp(code, c, next, lo, hi, st) == First(Bt(code, c, next, lo, st), BtUp(code, c, next, lo + 1, hi, st))
  {
    hide Bt;
  }
}
