/** Auto-possessification: repeats that would never profitably give characters back
  * are made possessive in the finished code. The main result is that this leaves
  * the first match of ordered backtracking as it was, for every subject, start and
  * depth of subroutine calls.
  */
module AutoPossession {
  import opened Opcodes
  import opened Tree
  import opened Meaning
  import opened Machine
  import opened Runs
  import opened Decoding
  import opened Program
  import opened CodeScan
  import opened Closure
  import opened Backtrack
  import opened PropertyLists
  import opened Following
  import opened Settling
  import opened Comparing
  import opened Hardening
  import opened HardSets
  import opened Rewriting
  import opened Walk
  import opened Strictness

  // ---------- giving characters back does not help ----------

  lemma {:induction false} RunHits(env: Env, atom: Atom, p: nat, max: int, e: nat)
    requires p <= |env.s| && max >= -1 && p <= e < p + RunLength(env, atom, p, max)
    ensures HitAt(env, atom, e)
    decreases |env.s| - p
  {
    if e > p {
      RunHits(env, atom, p + 1, if max == -1 then -1 else max - 1, e);
    }
  }

  lemma {:induction false} DownFails(code: seq<byte>, c: Ctx, next: nat, lo: nat, hi: nat, st: seq<nat>)
    requires lo <= hi <= |c.env.s| && forall e: nat :: lo <= e <= hi ==> Bt(code, c, next, e, st) == None
    ensures BtDown(code, c, next, lo, hi, st) == None
    decreases hi - lo
  {
    hide Bt;
    if lo < hi {
      DownFails(code, c, next, lo, hi - 1, st);
    }
  }

  lemma {:induction false} DownCollapses(code: seq<byte>, c: Ctx, next: nat, lo: nat, hi: nat, st: seq<nat>)
    requires lo <= hi <= |c.env.s| && forall e: nat :: lo <= e < hi ==> Bt(code, c, next, e, st) == None
    ensures BtDown(code, c, next, lo, hi, st) == Bt(code, c, next, hi, st)
  {
    hide Bt;
    if lo < hi {
      DownFails(code, c, next, lo, hi - 1, st);
    }
  }

  lemma {:induction false} UpCollapses(code: seq<byte>, c: Ctx, next: nat, lo: nat, hi: nat, st: seq<nat>)
    requires lo <= hi <= |c.env.s| && forall e: nat :: lo <= e < hi ==> Bt(code, c, next, e, st) == None
    ensures BtUp(code, c, next, lo, hi, st) == Bt(code, c, next, hi, st)
    decreases hi - lo
  {
    hide Bt;
    if lo < hi {
      UpCollapses(code, c, next, lo + 1, hi, st);
    }
  }

  /** When what comes next follows the repeat, only its longest run matters. */
  lemma LongestDecides(code: seq<byte>, c: Ctx, a: nat, i: Instr, greedy: bool, p: nat, st: seq<nat>)
    requires a < |code| && a != c.endc && Decode(code, a) == i && i.IRep? && !i.poss
    requires greedy <==> !Lazy(code, a)
    requires Follows(code, c, i.next, i.atom, greedy) && p <= |c.env.s| && Upward(c.ends)
    ensures i.max >= -1
    ensures var n := RunLength(c.env, i.atom, p, i.max);
            Bt(code, c, a, p, st) == if n < i.min then None else Bt(code, c, i.next, p + n, st)
  {
    hide Decode, Bt, BtUp, BtDown, RunLength, Stuck, Through, Idle, Upward, Lazy;
    BtRep(code, c, a, p, st, i);
    var n := RunLength(c.env, i.atom, p, i.max);
    if i.min <= n {
      if Stuck(code, c, i.next, i.atom) {
        StuckDecides(code, c, a, i, p, st);
      } else if p + n in c.ends {
        ThroughAt(code, c, i.next, p + n, st);
        DownSucceeds(code, c, i.next, p + i.min, p + n, st);
      } else {
        IdleBefore(code, c, i, p, st, n);
        DownCollapses(code, c, i.next, p + i.min, p + n, st);
      }
    }
  }

  lemma StuckDecides(code: seq<byte>, c: Ctx, a: nat, i: Instr, p: nat, st: seq<nat>)
    requires a < |code| && a != c.endc && Decode(code, a) == i && i.IRep? && !i.poss
    requires Stuck(code, c, i.next, i.atom) && p <= |c.env.s|
    ensures i.max >= -1
    ensures var n := RunLength(c.env, i.atom, p, i.max);
            Bt(code, c, a, p, st) == if n < i.min then None else Bt(code, c, i.next, p + n, st)
  {
    hide Decode, Bt, BtUp, BtDown, RunLength, Stuck, Lazy;
    BtRep(code, c, a, p, st, i);
    var n := RunLength(c.env, i.atom, p, i.max);
    if i.min <= n {
      StuckBefore(code, c, i, p, st, n);
      DownCollapses(code, c, i.next, p + i.min, p + n, st);
      UpCollapses(code, c, i.next, p + i.min, p + n, st);
    }
  }

  lemma IdleBefore(code: seq<byte>, c: Ctx, i: Instr, p: nat, st: seq<nat>, n: nat)
    requires i.IRep? && i.max >= -1 && p <= |c.env.s| && n == RunLength(c.env, i.atom, p, i.max)
    requires Idle(code, c, i.next, i.atom) && Upward(c.ends) && p + n !in c.ends
    ensures forall e: nat :: p <= e < p + n ==> Bt(code, c, i.next, e, st) == None
  {
    hide Bt, RunLength;
    forall e: nat | p <= e < p + n ensures Bt(code, c, i.next, e, st) == None {
      RunHits(c.env, i.atom, p, i.max, e);
    }
  }

  lemma StuckBefore(code: seq<byte>, c: Ctx, i: Instr, p: nat, st: seq<nat>, n: nat)
    requires i.IRep? && i.max >= -1 && p <= |c.env.s| && n == RunLength(c.env, i.atom, p, i.max)
    requires Stuck(code, c, i.next, i.atom)
    ensures forall e: nat :: p <= e < p + n ==> Bt(code, c, i.next, e, st) == None
  {
    hide Bt, RunLength;
    forall e: nat | p <= e < p + n ensures Bt(code, c, i.next, e, st) == None {
      RunHits(c.env, i.atom, p, i.max, e);
    }
  }

  lemma ThroughAt(code: seq<byte>, c: Ctx, a: nat, p: nat, st: seq<nat>)
    requires Through(code, c, a) && p in c.ends && p <= |c.env.s|
    ensures Bt(code, c, a, p, st).Some?
  {
  }

  // ---------- the rewritten code finds the same ----------

  /** The code before and after the repeat at t was made possessive. */
  ghost predicate Hardened(code: seq<byte>, code': seq<byte>, offs: set<nat>, tb: Tables, t: nat) {
    && Closed(code, offs) && |code'| == |code| && t in offs
    && (forall o: nat :: o in offs && o != |code| - 1 ==> SameAt(code, code', o, t))
    && (forall o: nat :: o in offs && o != t ==> code'[o] == code[o] && Lazy(code', o) == Lazy(code, o))
    && code'[|code| - 1] == OP_END && t < |code| - 1
    && var i := Decode(code, t); i.IRep? && MayFollow(code, tb, i.next, i.atom, !Lazy(code, t))
  }

  /** The same run of the other code: calls of groups match the same there. */
  ghost predicate SameRun(c: Ctx, c': Ctx, offs: set<nat>) {
    && c'.env == c.env && c'.endc == c.endc && c'.ends == c.ends
    && forall o: nat, p: nat :: o in offs ==> c'.calls(o, p) == c.calls(o, p)
  }

  /** Call targets are offsets of the program. */
  ghost predicate CallsInside(code: seq<byte>, offs: set<nat>) {
    forall o: nat :: o in offs && Decode(code, o).ICall? ==> Decode(code, o).target in offs
  }

  lemma InstrAt(code: seq<byte>, code': seq<byte>, offs: set<nat>, tb: Tables, t: nat, a: nat)
    requires Hardened(code, code', offs, tb, t) && a in offs
    ensures a < |code| == |code'|
    ensures a == |code| - 1 ==> Decode(code, a) == IBad && Decode(code', a) == IBad
    ensures a != |code| - 1 ==> Leads(Decode(code, a), a, offs) && Forward(a, Decode(code, a))
    ensures a != |code| - 1 && a != t ==>
              Decode(code', a) == Decode(code, a) && code'[a] == code[a] && Lazy(code', a) == Lazy(code, a)
    ensures a == t ==>
              && a != |code| - 1
              && Decode(code, a).IRep?
              && Decode(code', a) == Decode(code, a).(poss := true)
              && !Decode(code, a).poss
  {
    hide Decode, Leads, Forward, Lazy, MayFollow, ChainOk, EndOf;
    DecodeForward(code, a);
    if a == |code| - 1 {
      assert code[a] == OP_END && code'[a] == OP_END;
      EndIsBad(code, a);
      EndIsBad(code', a);
    } else {
      assert SameAt(code, code', a, t);
    }
  }

  lemma EndIsBad(code: seq<byte>, a: nat)
    requires a < |code| && code[a] == OP_END
    ensures Decode(code, a) == IBad
  {
  }

  /** The two runs: everything that stays the same while they go on. */
  ghost predicate Alike(code: seq<byte>, code': seq<byte>, offs: set<nat>, tb: Tables, t: nat, c: Ctx, c': Ctx) {
    && Hardened(code, code', offs, tb, t) && CtxOk(code, c, tb) && SameRun(c, c', offs) && CallsInside(code, offs)
    && Upward(c.ends)
  }

  lemma AlikeParts(code: seq<byte>, code': seq<byte>, offs: set<nat>, tb: Tables, t: nat, c: Ctx, c': Ctx)
    requires Alike(code, code', offs, tb, t, c, c')
    ensures Hardened(code, code', offs, tb, t) && c'.env == c.env && c'.endc == c.endc && c'.ends == c.ends
  {
  }

  lemma CallAlike(code: seq<byte>, code': seq<byte>, offs: set<nat>, tb: Tables, t: nat, c: Ctx, c': Ctx, a: nat,
                  p: nat)
    requires Alike(code, code', offs, tb, t, c, c') && a in offs && Decode(code, a).ICall?
    ensures c'.calls(Decode(code, a).target, p) == c.calls(Decode(code, a).target, p)
  {
    hide Decode, Hardened;
  }

  lemma TargetDecides(code: seq<byte>, code': seq<byte>, offs: set<nat>, tb: Tables, t: nat, c: Ctx, c': Ctx, p: nat,
                      st: seq<nat>)
    requires Alike(code, code', offs, tb, t, c, c') && t != c.endc && p <= |c.env.s|
    ensures var i := Decode(code, t);
            && t < |code| && i.IRep? && i.max >= -1
            && var n := RunLength(c.env, i.atom, p, i.max);
               Bt(code, c, t, p, st) == if n < i.min then None else Bt(code, c, i.next, p + n, st)
  {
    hide Decode, Bt, BtUp, BtDown, RunLength, Lazy, Stuck, Through, Idle, Upward;
    InstrAt(code, code', offs, tb, t, t);
    LongestDecides(code, c, t, Decode(code, t), !Lazy(code, t), p, st);
  }

  lemma {:induction false} SameBt(code: seq<byte>, code': seq<byte>, offs: set<nat>, tb: Tables, t: nat, c: Ctx,
                                  c': Ctx,
                                  a: nat, p: nat, st: seq<nat>)
    requires Alike(code, code', offs, tb, t, c, c') && a in offs && p <= |c.env.s|
    ensures p <= |c'.env.s| && Bt(code', c', a, p, st) == Bt(code, c, a, p, st)
    decreases |c.env.s| - p, Earlier(st, p), |code| - a, 0
  {
    hide Alike, Hardened, Decode, Bt, BtUp, BtDown, BtAlts, RunLength, Lazy, AnchorHolds, HitAt;
    AlikeParts(code, code', offs, tb, t, c, c');
    InstrAt(code, code', offs, tb, t, a);
    BtStop(code, c, a, p, st);
    BtStop(code', c', a, p, st);
    if a != c.endc && a != |code| - 1 {
      match Decode(code, a)
      case IBad =>
      case IAnchor(op, next) =>
        BtAnchor(code, c, a, p, st, op, next);
        BtAnchor(code', c', a, p, st, op, next);
        SameBt(code, code', offs, tb, t, c, c', next, p, st);
      case IOne(atom, next) =>
        BtOne(code, c, a, p, st, atom, next);
        BtOne(code', c', a, p, st, atom, next);
        if HitAt(c.env, atom, p) {
          HitInside(c.env, atom, p);
          SameBt(code, code', offs, tb, t, c, c', next, p + 1, st);
        }
      case IRep(_, _, _, _, _) => SameRepeat(code, code', offs, tb, t, c, c', a, p, st);
      case IOpen(starts) =>
        BtOpen(code, c, a, p, st, starts);
        BtOpen(code', c', a, p, st, starts);
        EarlierPush(st, p);
        SameAlternatives(code, code', offs, tb, t, c, c', a + 1, starts, p, [p] + st);
      case IAlt(end) =>
        BtAlt(code, c, a, p, st, end);
        BtAlt(code', c', a, p, st, end);
        SameBt(code, code', offs, tb, t, c, c', end, p, st);
      case IKet(next, back) =>
        BtKet(code, c, a, p, st, next, back);
        BtKet(code', c', a, p, st, next, back);
        SameBt(code, code', offs, tb, t, c, c', next, p, if st == [] then st else st[1..]);
        if back.Some? && st != [] && st[0] < p {
          SameBt(code, code', offs, tb, t, c, c', back.value, p, st[1..]);
        }
      case IZero(inside, after) =>
        BtZero(code, c, a, p, st, inside, after);
        BtZero(code', c', a, p, st, inside, after);
        SameBt(code, code', offs, tb, t, c, c', after, p, st);
        if inside.Some? {
          SameBt(code, code', offs, tb, t, c, c', inside.value, p, st);
        }
      case ICall(num, target, next) =>
        BtCall(code, c, a, p, st, num, target, next);
        BtCall(code', c', a, p, st, num, target, next);
        CallAlike(code, code', offs, tb, t, c, c', a, p);
        var q := c.calls(target, p);
        if q.Some? && p <= q.value <= |c.env.s| {
          SameBt(code, code', offs, tb, t, c, c', next, q.value, st);
        }
    }
  }

  lemma HitInside(env: Env, atom: Atom, p: nat)
    requires HitAt(env, atom, p)
    ensures p < |env.s|
  {
  }

  lemma {:induction false} SameRepeat(code: seq<byte>, code': seq<byte>, offs: set<nat>, tb: Tables, t: nat, c: Ctx,
                                      c': Ctx,
                                      a: nat, p: nat, st: seq<nat>)
    requires Alike(code, code', offs, tb, t, c, c') && a in offs && p <= |c.env.s|
    requires a < |code| - 1 && a != c.endc && Decode(code, a).IRep?
    ensures p <= |c'.env.s| && Bt(code', c', a, p, st) == Bt(code, c, a, p, st)
    decreases |c.env.s| - p, Earlier(st, p), |code| - a - 1, |c.env.s| + 2
  {
    hide Alike, Hardened, Decode, Bt, BtUp, BtDown, RunLength, Lazy;
    AlikeParts(code, code', offs, tb, t, c, c');
    InstrAt(code, code', offs, tb, t, a);
    var i := Decode(code, a);
    BtRep(code', c', a, p, st, Decode(code', a));
    var n := RunLength(c.env, i.atom, p, i.max);
    if a == t {
      TargetDecides(code, code', offs, tb, t, c, c', p, st);
      if i.min <= n {
        SameBt(code, code', offs, tb, t, c, c', i.next, p + n, st);
      }
    } else {
      BtRep(code, c, a, p, st, i);
      if i.min <= n {
        if i.poss {
          SameBt(code, code', offs, tb, t, c, c', i.next, p + n, st);
        } else if Lazy(code, a) {
          SameUp(code, code', offs, tb, t, c, c', i.next, p + i.min, p + n, st);
        } else {
          SameDown(code, code', offs, tb, t, c, c', i.next, p + i.min, p + n, st);
        }
      }
    }
  }

  lemma {:induction false} SameDown(code: seq<byte>, code': seq<byte>, offs: set<nat>, tb: Tables, t: nat, c: Ctx,
                                    c': Ctx,
                                    next: nat, lo: nat, hi: nat, st: seq<nat>)
    requires Alike(code, code', offs, tb, t, c, c') && next in offs && lo <= hi <= |c.env.s|
    ensures hi <= |c'.env.s| && BtDown(code', c', next, lo, hi, st) == BtDown(code, c, next, lo, hi, st)
    decreases |c.env.s| - lo, Earlier(st, lo), |code| - next, 1 + hi - lo
  {
    hide Alike, Hardened, Bt, BtDown, Earlier;
    AlikeParts(code, code', offs, tb, t, c, c');
    SameBt(code, code', offs, tb, t, c, c', next, hi, st);
    if lo == hi {
      OnlyOne(code, c, next, lo, st);
      OnlyOne(code', c', next, lo, st);
    } else {
      DownStep(code, c, next, lo, hi, st);
      DownStep(code', c', next, lo, hi, st);
      SameDown(code, code', offs, tb, t, c, c', next, lo, hi - 1, st);
    }
  }

  lemma {:induction false} SameUp(code: seq<byte>, code': seq<byte>, offs: set<nat>, tb: Tables, t: nat, c: Ctx,
                                  c': Ctx,
                                  next: nat, lo: nat, hi: nat, st: seq<nat>)
    requires Alike(code, code', offs, tb, t, c, c') && next in offs && lo <= hi <= |c.env.s|
    ensures hi <= |c'.env.s| && BtUp(code', c', next, lo, hi, st) == BtUp(code, c, next, lo, hi, st)
    decreases |c.env.s| - lo, Earlier(st, lo), |code| - next, 1
  {
    hide Alike, Hardened, Bt, BtUp, Earlier;
    AlikeParts(code, code', offs, tb, t, c, c');
    SameBt(code, code', offs, tb, t, c, c', next, lo, st);
    if lo == hi {
      OnlyOne(code, c, next, lo, st);
      OnlyOne(code', c', next, lo, st);
    } else {
      UpStep(code, c, next, lo, hi, st);
      UpStep(code', c', next, lo, hi, st);
      SameUp(code, code', offs, tb, t, c, c', next, lo + 1, hi, st);
    }
  }

  lemma {:induction false} SameAlternatives(code: seq<byte>, code': seq<byte>, offs: set<nat>, tb: Tables, t: nat,
                                            c: Ctx, c': Ctx,
                                            from: nat, starts: seq<nat>, p: nat, st: seq<nat>)
    requires Alike(code, code', offs, tb, t, c, c') && p <= |c.env.s|
    requires from <= |code| == |code'| && forall j :: 0 <= j < |starts| ==> starts[j] in offs && starts[j] >= from
    ensures p <= |c'.env.s| && BtAlts(code', c', from, starts, p, st) == BtAlts(code, c, from, starts, p, st)
    decreases |c.env.s| - p, Earlier(st, p), |code| - from, 1 + |starts|
  {
    hide Alike, Hardened, Bt;
    AlikeParts(code, code', offs, tb, t, c, c');
    if starts != [] {
      SameBt(code, code', offs, tb, t, c, c', starts[0], p, st);
      SameAlternatives(code, code', offs, tb, t, c, c', from, starts[1..], p, st);
    }
  }

  // ---------- calls, whole matches ----------

  lemma RepIsNoBra(code: seq<byte>, a: nat)
    requires Decode(code, a).IRep?
    ensures a < |code| && !IsBra(code[a])
  {
  }

  lemma BraAlike(code: seq<byte>, code': seq<byte>, offs: set<nat>, tb: Tables, t: nat, o: nat)
    requires Hardened(code, code', offs, tb, t) && o in offs
    ensures o < |code| == |code'| && (IsBra(code'[o]) <==> IsBra(code[o]))
    ensures IsBra(code[o]) ==>
              ChainOk(code, o) && ChainOk(code', o) && EndOf(code', o) == EndOf(code, o) && IsKet(code[EndOf(code, o)])
  {
    hide Decode, ChainOk, EndOf, Lazy, MayFollow;
    InstrAt(code, code', offs, tb, t, o);
    if o == t {
      RepIsNoBra(code, o);
      RepIsNoBra(code', o);
    } else if o != |code| - 1 {
      assert SameAt(code, code', o, t);
    }
  }

  /** A call of the same group matches the same in both. */
  lemma {:induction false} SameCalls(code: seq<byte>, code': seq<byte>, offs: set<nat>, tb: Tables, t: nat, env: Env,
                                     d: nat, o: nat, p: nat)
    requires Hardened(code, code', offs, tb, t) && CallsInside(code, offs) && Fits(env, tb) && o in offs
    ensures CallsAt(code', env, d)(o, p) == CallsAt(code, env, d)(o, p)
    decreases d
  {
    hide Hardened, CallsInside, Fits, Bt, ChainOk, EndOf;
    if d > 0 {
      BraAlike(code, code', offs, tb, t, o);
      if p <= |env.s| && IsBra(code[o]) {
        var inner, inner' := CallsAt(code, env, d - 1), CallsAt(code', env, d - 1);
        forall o: nat, p: nat | o in offs ensures inner'(o, p) == inner(o, p) {
          SameCalls(code, code', offs, tb, t, env, d - 1, o, p);
        }
        var c := Ctx(env, inner, EndOf(code, o), ANYWHERE);
        AnywhereUpward();
        SameBt(code, code', offs, tb, t, c, Ctx(env, inner', EndOf(code', o), ANYWHERE), o, p, []);
      }
    }
  }

  lemma AnywhereUpward()
    ensures Upward(ANYWHERE)
  {
  }

  /** Both find the same first match among those that end at given positions. */
  lemma SameFirst(code: seq<byte>, code': seq<byte>, offs: set<nat>, tb: Tables, t: nat, env: Env, d: nat,
                  ends: iset<nat>, p: nat)
    requires Hardened(code, code', offs, tb, t) && CallsInside(code, offs) && Fits(env, tb) && p <= |env.s|
    requires Upward(ends)
    ensures |code| == |code'| > 0 && FirstEnd(code', env, d, ends, p) == FirstEnd(code, env, d, ends, p)
  {
    hide CallsInside, Fits, Bt, CallsAt, MayFollow, Decode, SameAt, Lazy, Upward;
    var calls, calls' := CallsAt(code, env, d), CallsAt(code', env, d);
    forall o: nat, p: nat | o in offs ensures calls'(o, p) == calls(o, p) {
      SameCalls(code, code', offs, tb, t, env, d, o, p);
    }
    SameBt(code, code', offs, tb, t, Ctx(env, calls, |code| - 1, ends), Ctx(env, calls', |code'| - 1, ends), 0, p, []);
  }

  /** Two codes find the same first match of every subject, from every start, among all
    * matches or among those that end at some position or later. */
  ghost predicate SameMatches(code: seq<byte>, code': seq<byte>, tb: Tables) {
    && |code| > 0 && |code'| > 0
    && forall env: Env, d: nat, ends: iset<nat>, p: nat :: Fits(env, tb) && p <= |env.s| && Upward(ends) ==>
         FirstEnd(code', env, d, ends, p) == FirstEnd(code, env, d, ends, p)
  }

  lemma AllowedUpward(env: Env, p: nat)
    ensures Upward(AllowedEnds(env, p))
  {
  }

  /** In particular the first match of all is the same. */
  lemma SameFirstMatch(code: seq<byte>, code': seq<byte>, tb: Tables, env: Env, d: nat, p: nat)
    requires SameMatches(code, code', tb) && Fits(env, tb) && p <= |env.s|
    ensures |code| > 0 && |code'| > 0 && FirstMatch(code', env, d, p) == FirstMatch(code, env, d, p)
  {
    AllowedUpward(env, p);
    hide Fits, FirstEnd, AllowedEnds, Upward;
  }

  // ---------- one rewrite of a program ----------

  lemma ClassRepeatIsBad(code: seq<byte>, o: nat)
    requires o < |code| && IsClassRepeat(code[o])
    ensures Decode(code, o) == IBad
  {
  }

  lemma NotClassRepeat(code: seq<byte>, offs: set<nat>, o: nat)
    requires Closed(code, offs) && o in offs
    ensures o < |code| && !IsClassRepeat(code[o])
  {
    hide Decode;
    if IsClassRepeat(code[o]) {
      ClassRepeatIsBad(code, o);
    }
  }

  /** Bytes at other instructions do not change, nor does their laziness. */
  lemma BytesElsewhere(code: seq<byte>, code': seq<byte>, offs: set<nat>, t: nat, o: nat)
    requires Closed(code, offs) && t in offs && o in offs && o != t && Rewrites(code, code', t)
    ensures |code'| == |code| && o < |code| && code'[o] == code[o] && Lazy(code', o) == Lazy(code, o)
  {
    hide Closed, Decode;
    NotClassRepeat(code, offs, o);
  }

  lemma RewriteKeepsEnd(code: seq<byte>, code': seq<byte>, offs: set<nat>, t: nat)
    requires Closed(code, offs) && Rewrites(code, code', t)
    ensures |code'| == |code| && code'[|code| - 1] == OP_END && t < |code| - 1
  {
  }

  lemma RewriteHardens(x: PlainLinks, code: seq<byte>, code': seq<byte>, root: Item, tb: Tables, t: nat)
    requires IsProgram(x, code, root) && Rewrites(code, code', t) && t in Offsets(root, 0)
    requires var i := Decode(code, t); i.IRep? && MayFollow(code, tb, i.next, i.atom, !Lazy(code, t))
    ensures Hardened(code, code', AllOffsets(root), tb, t) && CallsInside(code, AllOffsets(root))
  {
    hide LayItem, Offsets, Rewrites, SameAt, Decode, MayFollow, Leads, Lazy, FindOffset;
    var offs := AllOffsets(root);
    ProgramIsClosed(x, code, root);
    RewriteKeepsEnd(code, code', offs, t);
    forall o: nat | o in offs && o != |code| - 1 ensures SameAt(code, code', o, t) {
      SameProgram(x, code, code', root, t, o);
    }
    forall o: nat | o in offs && o != t ensures code'[o] == code[o] && Lazy(code', o) == Lazy(code, o) {
      BytesElsewhere(code, code', offs, t, o);
    }
    forall o: nat | o in offs && Decode(code, o).ICall? ensures Decode(code, o).target in offs {
      if o == Size(root) {
        EndIsBad(code, o);
      } else {
        CallIsInside(x, code, root, o);
      }
    }
  }

  /** Making the repeat at t possessive changes no first match, and the result is
    * again a program with the same offsets. */
  lemma RewriteIsSafe(x: PlainLinks, code: seq<byte>, code': seq<byte>, root: Item, tb: Tables, t: nat)
    requires IsProgram(x, code, root) && Rewrites(code, code', t) && t in Offsets(root, 0)
    requires var i := Decode(code, t); i.IRep? && MayFollow(code, tb, i.next, i.atom, !Lazy(code, t))
    ensures IsProgram(x, code', HardItem(root, 0, t)) && AllOffsets(HardItem(root, 0, t)) == AllOffsets(root)
    ensures SameMatches(code, code', tb)
  {
    hide IsProgram, LayItem, Offsets, Rewrites, Hardened, CallsInside, Decode, MayFollow, Lazy, FirstEnd, HardItem,
      Fits, Upward;
    HardProgram(x, code, code', root, t);
    SameOffsets(root, 0, t);
    RewriteHardens(x, code, code', root, tb, t);
    ProgramSize(x, code, root);
    ProgramSize(x, code', HardItem(root, 0, t));
    forall env: Env, d: nat, ends: iset<nat>, p: nat | Fits(env, tb) && p <= |env.s| && Upward(ends)
      ensures FirstEnd(code', env, d, ends, p) == FirstEnd(code, env, d, ends, p)
    {
      SameFirst(code, code', AllOffsets(root), tb, t, env, d, ends, p);
    }
  }

  lemma SameTwice(code: seq<byte>, code': seq<byte>, code'': seq<byte>, tb: Tables)
    requires SameMatches(code, code', tb) && SameMatches(code', code'', tb)
    ensures SameMatches(code, code'', tb)
  {
    hide FirstEnd, Fits, Upward;
  }

  lemma ProgramSize(x: PlainLinks, code: seq<byte>, root: Item)
    requires IsProgram(x, code, root)
    ensures |code| == Size(root) + 1 && code[Size(root)] == OP_END
  {
    hide LayItem, FindOffset;
  }

  // ---------- the walk over the code ----------

  /** At an instruction, or at the repeat behind a class. */
  ghost predicate At(code: seq<byte>, offs: set<nat>, i: nat) {
    || i in offs
    || (1 + BITMAP_SIZE <= i < |code| && var o := i - 1 - BITMAP_SIZE;
        o in offs && IsClass(code[o]) && IsClassRepeat(code[i]) && Decode(code, o).IRep?)
  }

  lemma AtInside(code: seq<byte>, offs: set<nat>, i: nat)
    requires Closed(code, offs) && At(code, offs, i)
    ensures i < |code| && (!IsClassRepeat(code[i]) ==> i in offs)
  {
    hide Decode, Leads;
  }

  lemma StepFrom(code: seq<byte>, offs: set<nat>, i: nat)
    requires i < |code| && Leads(Decode(code, i), i, offs) && code[i] != OP_END
    requires !IsClass(code[i]) && !IsBra(code[i])
    ensures OpLength(code[i]) > 0 && i + OpLength(code[i]) in offs
  {
    hide ChainOk, EndOf, AltStarts, RepOk;
  }

  lemma StepFromClass(code: seq<byte>, offs: set<nat>, i: nat)
    requires i < |code| && Leads(Decode(code, i), i, offs) && IsClass(code[i])
    ensures OpLength(code[i]) == 1 + BITMAP_SIZE && i + 1 + BITMAP_SIZE < |code|
    ensures if IsClassRepeat(code[i + 1 + BITMAP_SIZE]) then Decode(code, i).IRep? else i + 1 + BITMAP_SIZE in offs
  {
    hide RepOk;
  }

  lemma StepFromRepeat(code: seq<byte>, offs: set<nat>, o: nat)
    requires o < |code| && Leads(Decode(code, o), o, offs) && IsClass(code[o]) && Decode(code, o).IRep?
    ensures var i := o + 1 + BITMAP_SIZE;
            i < |code| && IsClassRepeat(code[i]) && OpLength(code[i]) > 0 && i + OpLength(code[i]) in offs
  {
    hide RepOk;
  }

  /** The length of the opcode leads on to the next place. */
  lemma GoesOn(code: seq<byte>, offs: set<nat>, i: nat)
    requires Closed(code, offs) && i < |code| && At(code, offs, i) && code[i] != OP_END
    ensures OpLength(code[i]) > 0 && At(code, offs, i + OpLength(code[i]))
  {
    hide Decode, Leads, OpLength, ChainOk, AltStarts;
    if i in offs {
      NotClassRepeat(code, offs, i);
      if IsClass(code[i]) {
        StepFromClass(code, offs, i);
      } else if IsBra(code[i]) {
        Comparing.BraAt(code, i, offs);
        FirstStart(code, i);
      } else {
        StepFrom(code, offs, i);
      }
    } else {
      StepFromRepeat(code, offs, i - 1 - BITMAP_SIZE);
    }
  }

  lemma FirstStart(code: seq<byte>, i: nat)
    requires i < |code| && ChainOk(code, i)
    ensures AltStarts(code, i, i + OpLength(code[i]))[0] == i + OpLength(code[i])
  {
  }

  /** What a repeat at i looks like, to be compared with what follows it. */
  lemma RepeatAt(code: seq<byte>, offs: set<nat>, tb: Tables, i: nat, k: int, end: Option<nat>, list: PropList)
    requires TablesOk(tb) && Closed(code, offs) && i in offs && Softens(code, i)
    requires k == if IsClass(code[i]) then code[i + 1 + BITMAP_SIZE] - OP_CRSTAR else (code[i] - OP_STAR) % 13
    requires end.Some? <==> Listed(Decode(code, i))
    requires end.Some? ==> end.value == NextOf(Decode(code, i)) && ListsInstr(tb.fcc, code, list, Decode(code, i))
    ensures end.Some? && Decode(code, i).IRep? && end.value == Decode(code, i).next && end.value in offs
    ensures Comparable(code, tb, offs, list, end.value, Decode(code, i).atom)
    ensures Lazy(code, i) <==> k % 2 == 1
  {
    hide TablesOk, ListsInstr, Decode;
    HereIsInside(code, i, offs);
    SoftIsRep(code, i);
    hide Leads;
    ListedAt(code, i, offs);
    IRepLists(tb, code, list, Decode(code, i));
  }

  lemma SoftIsRep(code: seq<byte>, i: nat)
    requires Softens(code, i) && Decode(code, i) != IBad
    ensures Decode(code, i).IRep? && AtomOk(Decode(code, i).atom)
  {
  }

  lemma IRepLists(tb: Tables, code: seq<byte>, list: PropList, i: Instr)
    requires TablesOk(tb) && i.IRep? && ListsInstr(tb.fcc, code, list, i)
    ensures Lists(tb.fcc, code, i.next, list, i.atom)
  {
  }

  /** Can the repeat at i be made possessive? */
  method CanHarden(code: seq<byte>, i: nat, t: Tables, ghost offs: set<nat>) returns (ok: bool)
    requires TablesOk(t) && Closed(code, offs) && i in offs && Softens(code, i)
    ensures ok <==> Due(code, t, i)
  {
    hide TablesOk, Closed, Decode, ListsInstr, Comparable, Settled, Inner, Lazy;
    var k: int;
    if IsClass(code[i]) {
      k := code[i + 1 + BITMAP_SIZE] - OP_CRSTAR;
    } else {
      k := (code[i] - OP_STAR) % 13;
    }
    HereIsInside(code, i, offs);
    TableSizes(t);
    var end, list := GetChrPropertyList(code, i, t.fcc);
    RepeatAt(code, offs, t, i, k, end, list);
    var limit;
    ok, limit := CompareOpcodes(code, end.value, t, list, end.value, k % 2 == 0, WALK_LIMIT, offs,
                                Decode(code, i).atom);
  }

  lemma SoftInside(x: PlainLinks, code: seq<byte>, root: Item, i: nat)
    requires IsProgram(x, code, root) && Softens(code, i) && i in AllOffsets(root)
    ensures i in Offsets(root, 0)
  {
    hide LayItem, FindOffset;
  }

  /** A program and what it was rewritten to: the repeats in the set are possessive and
    * nothing else has changed, no first match is another one, and nothing is matched that
    * was not. */
  ghost predicate Hardenings(x: PlainLinks, code0: seq<byte>, root: Item, code: seq<byte>, tb: Tables, made: set<nat>) {
    && IsProgram(x, code0, root) && IsProgram(x, code, HardSet(root, 0, made))
    && SameExcept(code0, code, AllOffsets(root), made)
    && SameMatches(code0, code, tb) && Stricter(HardSet(root, 0, made), root)
  }

  /** The code so far: what the walk at its next steps relies on. */
  ghost predicate SoFar(x: PlainLinks, code0: seq<byte>, root: Item, code: seq<byte>, tb: Tables, made: set<nat>) {
    && Hardenings(x, code0, root, code, tb, made) && SameLengths(code0, code)
    && Closed(code0, AllOffsets(root)) && Closed(code, AllOffsets(root))
    && AllOffsets(HardSet(root, 0, made)) == AllOffsets(root)
  }

  lemma RootIsGroup(x: PlainLinks, code: seq<byte>, root: Item)
    requires IsProgram(x, code, root)
    ensures root.Group?
  {
  }

  lemma RipeFollows(code: seq<byte>, offs: set<nat>, tb: Tables, t: nat)
    requires TablesOk(tb) && Closed(code, offs) && t in offs && Ripe(code, tb, t)
    ensures var i := Decode(code, t); t < |code| && i.IRep? && MayFollow(code, tb, i.next, i.atom, !Lazy(code, t))
  {
    RepeatInside(code, tb, t);
    hide TablesOk, Closed, Decode, Settled, MayFollow, Lazy, Softens, Leads;
    var i := Decode(code, t);
    LeadsFromRep(code, offs, t);
    NextInside(i, t, offs);
    SettledFollows(code, i.next, tb, i.atom, !Lazy(code, t), offs);
  }

  lemma RepeatInside(code: seq<byte>, tb: Tables, t: nat)
    requires Ripe(code, tb, t)
    ensures t < |code|
  {
    hide Settled, Decode;
  }

  lemma LeadsFromRep(code: seq<byte>, offs: set<nat>, t: nat)
    requires Closed(code, offs) && t in offs && Decode(code, t).IRep?
    ensures Leads(Decode(code, t), t, offs)
  {
    RepByte(code, t);
    hide Decode;
  }

  /** What the rewriting of one instruction changes, and what it does not. */
  lemma OneChanged(x: PlainLinks, code: seq<byte>, code': seq<byte>, root: Item, t: nat)
    requires IsProgram(x, code, root) && Closed(code, AllOffsets(root)) && t in Offsets(root, 0)
    requires Rewrites(code, code', t)
    ensures |code'| == |code|
    ensures forall o: nat :: o in AllOffsets(root) ==> SameButFor(code, code', {t}, o)
  {
    hide IsProgram, Closed, Offsets, Rewrites, Decode, Lazy, Softens, SameAt;
    var offs := AllOffsets(root);
    RewriteParts(code, code', t);
    forall o: nat | o in offs ensures SameButFor(code, code', {t}, o) {
      NotClassRepeat(code, offs, o);
      NotClassRepeat(code, offs, t);
      if o != t {
        BytesElsewhere(code, code', offs, t, o);
        SoftElsewhere(code, code', offs, t, o);
      }
      if o in Offsets(root, 0) {
        SameProgram(x, code, code', root, t, o);
        SameAtParts(code, code', o, t);
      } else {
        EndAt(x, code, root);
        EndIsBad(code, o);
        EndIsBad(code', o);
        RepByteAt(code, t);
      }
    }
  }

  lemma EndAt(x: PlainLinks, code: seq<byte>, root: Item)
    requires IsProgram(x, code, root)
    ensures Size(root) < |code| && code[Size(root)] == OP_END
  {
    hide LayItem, FindOffset;
  }

  lemma RepByteAt(code: seq<byte>, t: nat)
    requires Softens(code, t)
    ensures t < |code| && code[t] != OP_END
  {
  }

  lemma SameAtParts(code: seq<byte>, code': seq<byte>, o: nat, t: nat)
    requires SameAt(code, code', o, t)
    ensures o < |code| == |code'|
    ensures o == t ==>
              Decode(code, o).IRep? && !Decode(code, o).poss && Decode(code', o) == Decode(code, o).(poss := true)
    ensures o != t ==> Decode(code', o) == Decode(code, o)
  {
    hide Decode, ChainOk, EndOf;
  }

  lemma OneMore(x: PlainLinks, code0: seq<byte>, root: Item, code: seq<byte>, code': seq<byte>, tb: Tables,
                made: set<nat>, t: nat)
    requires SoFar(x, code0, root, code, tb, made) && TablesOk(tb)
    requires t in AllOffsets(root) && t !in made && Rewrites(code, code', t) && Ripe(code, tb, t)
    ensures SoFar(x, code0, root, code', tb, made + {t})
  {
    hide IsProgram, Rewrites, Decode, MayFollow, Lazy, HardItem, HardSet, SameMatches, Stricter, Closed, SameExcept,
      SameLengths, TablesOk, Settled, Softens, SameButFor;
    var soft, hard := HardSet(root, 0, made), HardSet(root, 0, made + {t});
    RewriteParts(code, code', t);
    SoftInside(x, code, soft, t);
    RipeFollows(code, AllOffsets(root), tb, t);
    HardOneMore(root, 0, made, t);
    RewriteIsSafe(x, code, code', soft, tb, t);
    SameTwice(code0, code, code', tb);
    OneChanged(x, code, code', soft, t);
    SameStep(code0, code, code', AllOffsets(root), made, t);
    RewriteKeepsLengths(code0, code, code', t);
    RootIsGroup(x, code, soft);
    HardIsStricter(soft, t);
    StricterTwice(hard, soft, root);
    ProgramIsClosed(x, code', hard);
  }

  // ---------- how far the walk has come ----------

  /** The repeats before i have been looked at, and no others. */
  ghost predicate Looked(code0: seq<byte>, tb: Tables, offs: set<nat>, made: set<nat>, i: nat) {
    forall o: nat :: o in made <==> o in offs && o < i && Due(code0, tb, o)
  }

  /** The walk stands at i. */
  ghost predicate Stands(x: PlainLinks, code0: seq<byte>, root: Item, code: seq<byte>, tb: Tables, made: set<nat>,
                         i: nat) {
    && SoFar(x, code0, root, code, tb, made) && At(code, AllOffsets(root), i) && Walks(code0, 0, i)
    && Looked(code0, tb, AllOffsets(root), made, i)
  }

  /** The walk is about to leave i. */
  ghost predicate Leaves(x: PlainLinks, code0: seq<byte>, root: Item, code: seq<byte>, tb: Tables, made: set<nat>,
                         i: nat) {
    && SoFar(x, code0, root, code, tb, made) && At(code, AllOffsets(root), i) && Walks(code0, 0, i)
    && Looked(code0, tb, AllOffsets(root), made, i + 1)
  }

  lemma StandsAt(x: PlainLinks, code0: seq<byte>, root: Item, code: seq<byte>, tb: Tables, made: set<nat>, i: nat)
    requires Stands(x, code0, root, code, tb, made, i) || Leaves(x, code0, root, code, tb, made, i)
    ensures Closed(code, AllOffsets(root)) && i < |code| == |code0| && At(code, AllOffsets(root), i)
    ensures !IsClassRepeat(code[i]) ==> i in AllOffsets(root)
  {
    hide Hardenings, Looked, Walks, Decode, Leads, AllOffsets, Closed, HardSet;
    AtInside(code, AllOffsets(root), i);
    SameSize(code0, code);
  }

  lemma SameSize(code0: seq<byte>, code: seq<byte>)
    requires SameLengths(code0, code)
    ensures |code| == |code0|
  {
  }

  lemma StaysAt(code: seq<byte>, offs: set<nat>, i: nat)
    requires i in offs
    ensures At(code, offs, i)
  {
  }

  /** The repeat at i is made possessive. */
  lemma Made(x: PlainLinks, code0: seq<byte>, root: Item, code: seq<byte>, code': seq<byte>, tb: Tables, made: set<nat>,
             i: nat)
    requires Stands(x, code0, root, code, tb, made, i) && TablesOk(tb)
    requires i in AllOffsets(root) && Rewrites(code, code', i) && Due(code, tb, i)
    ensures Leaves(x, code0, root, code', tb, made + {i}, i)
  {
    hide SoFar, Rewrites, Ripe, Inner, TablesOk, At, Walks, AllOffsets;
    OneMore(x, code0, root, code, code', tb, made, i);
    StaysAt(code', AllOffsets(root), i);
    AlsoBefore(x, code0, root, code, tb, made, i);
  }

  /** What is ripe now was so before. */
  lemma AlsoBefore(x: PlainLinks, code0: seq<byte>, root: Item, code: seq<byte>, tb: Tables, made: set<nat>, i: nat)
    requires SoFar(x, code0, root, code, tb, made) && i in AllOffsets(root) && i !in made
    ensures (Ripe(code, tb, i) <==> Ripe(code0, tb, i)) && (Due(code, tb, i) <==> Due(code0, tb, i))
  {
    hide IsProgram, Closed, SameExcept, SameMatches, Stricter, Ripe, Due, HardSet, AllOffsets;
    RipeSame(code0, code, AllOffsets(root), made, tb, i);
  }

  /** What is at i stays as it is. */
  lemma Left(x: PlainLinks, code0: seq<byte>, root: Item, code: seq<byte>, tb: Tables, made: set<nat>, i: nat)
    requires Stands(x, code0, root, code, tb, made, i) && (i in AllOffsets(root) ==> !Due(code, tb, i))
    ensures Leaves(x, code0, root, code, tb, made, i)
  {
    hide SoFar, Ripe, Due, At, Walks, AllOffsets;
    if i in AllOffsets(root) {
      AlsoBefore(x, code0, root, code, tb, made, i);
    }
  }

  lemma SteppedOn(x: PlainLinks, code0: seq<byte>, root: Item, code: seq<byte>, tb: Tables, made: set<nat>, i: nat)
    requires Leaves(x, code0, root, code, tb, made, i) && i < |code| && code[i] != OP_END
    ensures OpLength(code[i]) > 0 && Stands(x, code0, root, code, tb, made, i + OpLength(code[i]))
  {
    hide Hardenings, Closed, Ripe, Due, At, Walks, OpLength, HardSet, IsProgram;
    GoesOn(code, AllOffsets(root), i);
    var next := i + OpLength(code[i]);
    ProgramBefore(x, code0, root, code, tb, made);
    assert OpLength(code0[i]) == OpLength(code[i]) && code0[i] != OP_END;
    StandsInside(code, AllOffsets(root), next);
    WalkOne(code0, i, next);
    Walk.WalkOn(code0, 0, i, next);
    forall o: nat | o in AllOffsets(root) && o < next && Due(code0, tb, o) ensures o in made {
      if o in Offsets(root, 0) {
        NoneBetween(x, code0, root, i, o);
      } else {
        NotDueAtEnd(x, code0, root, tb);
      }
    }
  }

  lemma StandsInside(code: seq<byte>, offs: set<nat>, i: nat)
    requires Closed(code, offs) && At(code, offs, i)
    ensures i < |code|
  {
    hide Decode, Leads;
  }

  lemma ProgramBefore(x: PlainLinks, code0: seq<byte>, root: Item, code: seq<byte>, tb: Tables, made: set<nat>)
    requires Hardenings(x, code0, root, code, tb, made)
    ensures IsProgram(x, code0, root)
  {
  }

  lemma NotDueAtEnd(x: PlainLinks, code0: seq<byte>, root: Item, tb: Tables)
    requires IsProgram(x, code0, root)
    ensures !Due(code0, tb, Size(root))
  {
    hide IsProgram, Settled, Inner, Decode;
    EndAt(x, code0, root);
  }

  lemma WalkEnds(x: PlainLinks, code0: seq<byte>, root: Item, code: seq<byte>, tb: Tables, made: set<nat>, i: nat)
    requires Leaves(x, code0, root, code, tb, made, i) && i < |code| && code[i] == OP_END
    ensures Hardenings(x, code0, root, code, tb, made) && Rightly(code0, tb, AllOffsets(root), made)
  {
    hide Hardenings, Closed, Ripe, Due, At, Walks, OpLength, HardSet, IsProgram;
    ProgramBefore(x, code0, root, code, tb, made);
    MadeInside(x, code0, root, code, tb, made);
    assert code0[i] == OP_END;
    forall o: nat | o in AllOffsets(root) && Due(code0, tb, o) ensures o in made {
      if o in Offsets(root, 0) {
        NoneBetween(x, code0, root, i, o);
      } else {
        NotDueAtEnd(x, code0, root, tb);
      }
    }
  }

  lemma MadeInside(x: PlainLinks, code0: seq<byte>, root: Item, code: seq<byte>, tb: Tables, made: set<nat>)
    requires Hardenings(x, code0, root, code, tb, made)
    ensures made <= AllOffsets(root)
  {
    hide IsProgram, SameMatches, Stricter, HardSet, AllOffsets, SameButFor;
  }

  lemma NothingMade(x: PlainLinks, code: seq<byte>, root: Item, tb: Tables)
    requires IsProgram(x, code, root)
    ensures Hardenings(x, code, root, code, tb, {}) && Closed(code, AllOffsets(root)) && HardSet(root, 0, {}) == root
  {
    RootIsGroup(x, code, root);
    StricterSelf(root);
    hide IsProgram, FirstEnd, Fits, Upward, Stricter, SameExcept, Closed, HardSet, AllOffsets;
    HardNone(root, 0);
    ProgramSize(x, code, root);
    ProgramIsClosed(x, code, root);
    SameExceptSelf(code, AllOffsets(root));
  }

  lemma StartsSo(x: PlainLinks, code: seq<byte>, root: Item, tb: Tables)
    requires IsProgram(x, code, root)
    ensures Stands(x, code, root, code, tb, {}, 0)
  {
    hide IsProgram, Hardenings, Closed, HardSet, Due, Ripe, Offsets;
    NothingMade(x, code, root, tb);
    FirstOffset(root, 0);
    StaysAt(code, AllOffsets(root), 0);
    hide At;
  }

  /** Make every repeat possessive that can be made so without a difference to the
    * first match, walking over the code from its start. */
  method AutoPossessify(code: array<byte>, t: Tables, ghost x: PlainLinks, ghost root: Item)
    returns (ghost made: set<nat>)
    requires IsProgram(x, code[..], root) && TablesOk(t)
    modifies code
    ensures Hardenings(x, old(code[..]), root, code[..], t, made)
    ensures Rightly(old(code[..]), t, AllOffsets(root), made)
    ensures forall o: nat :: o in made <==> o in AllOffsets(root) && Deserves(old(code[..]), t, o)
  {
    hide IsProgram, TablesOk, At, Stands, Leaves, Hardenings, Decode, Closed, AllOffsets, OpLength, Softens, Ripe, Due,
      Rightly, Deserves;
    ghost var code0 := code[..];
    made := {};
    StartsSo(x, code0, root, t);
    var i := 0;
    while true
      invariant 0 <= i <= code.Length
      invariant Stands(x, code0, root, code[..], t, made, i)
      decreases code.Length - i
    {
      StandsAt(x, code0, root, code[..], t, made, i);
      ghost var before := code[..];
      var c := code[i];
      if IsRepeat(c) && Yielding(c - GetRepeatBase(c)) {
        SoftRepeat(before, i);
        var ok := CanHarden(code[..], i, t, AllOffsets(root));
        if ok {
          code[i] := c + PossessiveOf(false, c - GetRepeatBase(c)) - (c - GetRepeatBase(c));
          Made(x, code0, root, before, code[..], t, made, i);
          made := made + {i};
        } else {
          Left(x, code0, root, before, t, made, i);
        }
        c := code[i];
      } else if IsClass(c) {
        var repeatOpcode := i + 1 + BITMAP_SIZE;
        ClassGoesOn(code[..], AllOffsets(root), i);
        var r := code[repeatOpcode];
        var ok := false;
        if OP_CRSTAR <= r <= OP_CRMINRANGE {
          SoftClass(before, i);
          ok := CanHarden(code[..], i, t, AllOffsets(root));
        } else {
          HardClass(before, i, t);
        }
        if ok {
          code[repeatOpcode] := OP_CRSTAR + PossessiveOf(true, r - OP_CRSTAR);
          Made(x, code0, root, before, code[..], t, made, i);
          made := made + {i};
        } else {
          Left(x, code0, root, before, t, made, i);
        }
        c := code[i];
      } else {
        NoRepeat(before, i, t);
        Left(x, code0, root, before, t, made, i);
      }
      StandsAt(x, code0, root, code[..], t, made, i);
      if c == OP_END {
        WalkEnds(x, code0, root, code[..], t, made, i);
        RightlyIsDeserved(code0, t, AllOffsets(root), made);
        return;
      }
      SteppedOn(x, code0, root, code[..], t, made, i);
      i := i + OpLength(c);
      StandsAt(x, code0, root, code[..], t, made, i);
    }
  }

  lemma SoftRepeat(code: seq<byte>, i: nat)
    requires i < |code| && IsRepeat(code[i]) && Yielding(code[i] - GetRepeatBase(code[i]))
    ensures Softens(code, i) && (code[i] - OP_STAR) % 13 == code[i] - GetRepeatBase(code[i]) && !IsClass(code[i])
    ensures !IsClassRepeat(code[i])
    ensures Harder(code, i)
            == code[i] + PossessiveOf(false, code[i] - GetRepeatBase(code[i])) - (code[i] - GetRepeatBase(code[i]))
    ensures RepeatOpcode(code, i) == i
  {
    var base := GetRepeatBase(code[i]);
    assert base - OP_STAR == 13 * ((base - OP_STAR) / 13);
  }

  lemma ClassGoesOn(code: seq<byte>, offs: set<nat>, i: nat)
    requires Closed(code, offs) && i in offs && i < |code| && IsClass(code[i])
    ensures i + 1 + BITMAP_SIZE < |code| && !IsClassRepeat(code[i])
  {
    hide Decode, Leads;
    StepFromClass(code, offs, i);
  }

  lemma SoftClass(code: seq<byte>, i: nat)
    requires i + 1 + BITMAP_SIZE < |code| && IsClass(code[i]) && OP_CRSTAR <= code[i + 1 + BITMAP_SIZE] <= OP_CRMINRANGE
    ensures Softens(code, i) && RepeatOpcode(code, i) == i + 1 + BITMAP_SIZE
    ensures Harder(code, i) == OP_CRSTAR + PossessiveOf(true, code[i + 1 + BITMAP_SIZE] - OP_CRSTAR)
  {
  }

  lemma HardClass(code: seq<byte>, i: nat, t: Tables)
    requires i + 1 + BITMAP_SIZE < |code| && IsClass(code[i])
    requires !(OP_CRSTAR <= code[i + 1 + BITMAP_SIZE] <= OP_CRMINRANGE)
    ensures !Due(code, t, i)
  {
    hide Settled, Inner, Decode;
  }

  lemma NoRepeat(code: seq<byte>, i: nat, t: Tables)
    requires i < |code| && !IsClass(code[i]) && !(IsRepeat(code[i]) && Yielding(code[i] - GetRepeatBase(code[i])))
    ensures !Due(code, t, i)
  {
    hide Settled, Inner, Decode;
    if IsRepeat(code[i]) {
      var base := GetRepeatBase(code[i]);
      assert base - OP_STAR == 13 * ((base - OP_STAR) / 13);
    }
  }
}
