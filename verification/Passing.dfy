/** What a repeat made possessive takes away from the runs of the engine, which takes
  * every way and not only the first. A run that leaves such a repeat in front of a
  * character which it could still take stops right there, at a ket that the walk behind
  * the repeat has passed; and then there is a run that goes further and stops there too.
  * Whatever subroutine calls match is given.
  */
module Passing {
  import opened Opcodes
  import opened Tree
  import opened Meaning
  import opened Machine
  import opened Runs
  import opened Decoding
  import opened Program
  import opened CodeScan
  import opened Closure
  import opened Backtrack
  import opened PropertyLists
  import opened Following
  import opened Settling
  import opened Comparing
  import opened Hardening
  import opened Rewriting
  import opened Finding

  /** The machine that runs the code up to endc. */
  ghost function Over(code: seq<byte>, env: Env, endc: nat, facts: iset<Fact>): Machine {
    Machine(Decoded(code), env, endc, facts)
  }

  /** Matching with the tables of the compilation; a run ends at a ket. */
  ghost predicate Runnable(code: seq<byte>, offs: set<nat>, tb: Tables, env: Env, endc: nat) {
    TablesOk(tb) && Closed(code, offs) && Fits(env, tb) && endc < |code| && IsKet(code[endc])
  }

  lemma StepOver(code: seq<byte>, env: Env, endc: nat, facts: iset<Fact>, c: Conf, d: Conf)
    ensures Step(Over(code, env, endc, facts), c, d)
       <==> c.o != endc && c.o < |code| && Does(env, facts, Decode(code, c.o), c, d)
  {
    hide Decode, Does, DecodedTo;
    if c.o < |code| {
      InstrIs(code, c.o);
    }
  }

  // ---------- behind the repeat ----------

  lemma PassedAlt(code: seq<byte>, a: nat)
    requires a < |code| && Decode(code, a).IAlt?
    ensures Passed(code, a) == Passed(code, Decode(code, a).end)
  {
    hide Decode;
  }

  lemma PassedKet(code: seq<byte>, a: nat)
    requires a < |code| && Decode(code, a).IKet?
    ensures var i := Decode(code, a); Passed(code, a) == if i.back.None? then {a} + Passed(code, i.next) else {}
  {
    hide Decode;
  }

  lemma PassedOpen(code: seq<byte>, a: nat)
    requires a < |code| && Decode(code, a).IOpen?
    ensures var starts := Decode(code, a).starts;
            AllFrom(starts, a + 1) && Passed(code, a) == if Entered(code, a) then PassedAny(code, a + 1, starts) else {}
  {
    DecodeForward(code, a);
    hide Decode;
  }

  lemma PassedZero(code: seq<byte>, a: nat)
    requires a < |code| && Decode(code, a).IZero?
    ensures var i := Decode(code, a);
            Passed(code, a) == if i.inside.Some? && Entered(code, i.inside.value)
                               then Passed(code, i.after) + Passed(code, i.inside.value) else {}
  {
    hide Decode;
  }

  lemma PassedItem(code: seq<byte>, a: nat)
    requires a < |code| && var i := Decode(code, a); i.IAnchor? || i.IOne? || i.IRep? || i.ICall?
    ensures var i := Decode(code, a); Passed(code, a) == if MayBeEmpty(i) then Passed(code, i.next) else {}
  {
    hide Decode;
  }

  lemma PassedBad(code: seq<byte>, a: nat)
    requires a < |code| && Decode(code, a).IBad?
    ensures Passed(code, a) == {a}
  {
    hide Decode;
  }

  lemma {:induction false} PassedOne(code: seq<byte>, from: nat, starts: seq<nat>, j: nat)
    requires from <= |code| && AllFrom(starts, from) && j < |starts|
    ensures Passed(code, starts[j]) <= PassedAny(code, from, starts)
    decreases |starts|
  {
    hide Passed;
    if j > 0 {
      PassedOne(code, from, starts[1..], j - 1);
    }
  }

  lemma {:induction false} PassedSome(code: seq<byte>, from: nat, starts: seq<nat>, k: nat) returns (j: nat)
    requires from <= |code| && AllFrom(starts, from) && k in PassedAny(code, from, starts)
    ensures j < |starts| && k in Passed(code, starts[j])
    decreases |starts|
  {
    hide Passed;
    j := 0;
    if k !in Passed(code, starts[0]) {
      j := PassedSome(code, from, starts[1..], k);
      j := j + 1;
    }
  }

  /** The item at a does not match where the base does. */
  lemma ItemBlocks(code: seq<byte>, offs: set<nat>, tb: Tables, env: Env, base: Atom, greedy: bool, a: nat, e: nat)
    requires TablesOk(tb) && Closed(code, offs) && Fits(env, tb) && a in offs && AtomOk(base) && HitAt(env, base, e)
    requires |tb.ctypes| == 256 && |tb.fcc| == 256 && Settled(code, a, tb, base, greedy) && a < |code|
    requires var i := Decode(code, a); i.IAnchor? || i.IOne? || i.IRep? || i.ICall?
    ensures var i := Decode(code, a);
            && !i.ICall? && (i.IAnchor? ==> !AnchorHolds(env, i.op, e)) && (i.IOne? ==> !HitAt(env, i.atom, e))
            && (i.IRep? ==> !HitAt(env, i.atom, e) && i.next in offs)
            && (MayBeEmpty(i) ==> Settled(code, i.next, tb, base, greedy))
  {
    hide TablesOk, Closed, Decode, Settled, Exclusive, Fits, Excludes, HitAt, AnchorHolds;
    var i := Decode(code, a);
    SettledAtItem(code, a, tb, base, greedy);
    ListedAt(code, a, offs);
    EnvSizes(env, tb);
    ExclusiveExcludes(env, tb, base, i);
    ItemExcluded(env, base, i, e);
  }

  lemma ItemExcluded(env: Env, base: Atom, i: Instr, e: nat)
    requires |env.ctypes| == 256 && |env.fcc| == 256 && AtomOk(base) && Listed(i)
    requires Excludes(env, base, i) && HitAt(env, base, e)
    ensures i.IAnchor? ==> !AnchorHolds(env, i.op, e)
    ensures i.IOne? || i.IRep? ==> !HitAt(env, i.atom, e)
  {
  }

  /** Where the base matches, a run of settled code gets nowhere but to a ket that the
    * walk has passed. */
  lemma {:induction false} RunIsStuck(code: seq<byte>, offs: set<nat>, tb: Tables, env: Env, endc: nat,
                                      facts: iset<Fact>,
                                      base: Atom, greedy: bool, a: nat, e: nat, n: nat, q: nat)
    requires Runnable(code, offs, tb, env, endc) && a in offs && AtomOk(base) && HitAt(env, base, e)
    requires |tb.ctypes| == 256 && |tb.fcc| == 256 && Settled(code, a, tb, base, greedy)
    requires Path(Over(code, env, endc, facts), n, Conf(a, 0, e), Conf(endc, 0, q))
    ensures q == e && endc in Passed(code, a)
    decreases n
  {
    hide TablesOk, Closed, Decode, Settled, Passed, PassedAny, Exclusive, Leads, Path, Fits, HitAt, AnchorHolds;
    HereIsInside(code, a, offs);
    KindsOf(code, a, offs);
    var m, t := Over(code, env, endc, facts), Conf(endc, 0, q);
    if a == endc {
      PathStops(m, n, e, t);
      SettledKet(code, a, tb, base, greedy);
      PassedKet(code, a);
    } else {
      var d := FirstStep(m, n, Conf(a, 0, e), t);
      StepOver(code, env, endc, facts, Conf(a, 0, e), d);
      LeadsAt(code, a, offs);
      var i := Decode(code, a);
      LeadsWhere(i, a, offs);
      match i
      case IAlt(end) =>
        SettledAlt(code, a, tb, base, greedy);
        PassedAlt(code, a);
        RunIsStuck(code, offs, tb, env, endc, facts, base, greedy, end, e, n - 1, q);
      case IKet(next, _) =>
        SettledKet(code, a, tb, base, greedy);
        PassedKet(code, a);
        RunIsStuck(code, offs, tb, env, endc, facts, base, greedy, next, e, n - 1, q);
      case IOpen(starts) =>
        SettledOpen(code, a, tb, base, greedy);
        PassedOpen(code, a);
        var j: nat :| j < |starts| && starts[j] == d.o;
        RunIsStuck(code, offs, tb, env, endc, facts, base, greedy, d.o, e, n - 1, q);
        PassedOne(code, a + 1, starts, j);
      case IZero(inside, after) =>
        SettledZero(code, a, tb, base, greedy);
        PassedZero(code, a);
        RunIsStuck(code, offs, tb, env, endc, facts, base, greedy, d.o, e, n - 1, q);
      case IBad =>
      case IRep(_, _, _, _, next) =>
        ItemBlocks(code, offs, tb, env, base, greedy, a, e);
        PassedItem(code, a);
        RunIsStuck(code, offs, tb, env, endc, facts, base, greedy, next, e, n - 1, q);
      case _ => ItemBlocks(code, offs, tb, env, base, greedy, a, e);
    }
  }

  lemma PathStops(m: Machine, n: nat, e: nat, t: Conf)
    requires Path(m, n, Conf(m.endc, 0, e), t)
    ensures t == Conf(m.endc, 0, e)
  {
  }

  /** From everywhere a run goes through to a ket that the walk passes. */
  lemma {:induction false} RunGoesThrough(code: seq<byte>, offs: set<nat>, env: Env, endc: nat, facts: iset<Fact>,
                                          a: nat, e: nat)
    returns (r: nat)
    requires Closed(code, offs) && endc < |code| && a in offs && endc in Passed(code, a) && e <= |env.s|
    ensures e <= r <= |env.s| && Reaches(Over(code, env, endc, facts), Conf(a, 0, e), Conf(endc, 0, r))
    decreases |code| - a
  {
    hide Closed, Decode, Passed, PassedAny, Leads, Path, HitAt, AnchorHolds;
    HereIsInside(code, a, offs);
    KindsOf(code, a, offs);
    DecodeForward(code, a);
    var m := Over(code, env, endc, facts);
    r := e;
    if a == endc {
      ReachesSelf(m, Conf(a, 0, e));
    } else if Decode(code, a).IBad? {
      PassedBad(code, a);
    } else if Decode(code, a).IAnchor? || Decode(code, a).IOne? || Decode(code, a).ICall? {
      PassedItem(code, a);
    } else if Decode(code, a).IRep? {
      PassedItem(code, a);
      LeadsAt(code, a, offs);
      r := RepGoesThrough(code, offs, env, endc, facts, a, e);
    } else {
      LeadsAt(code, a, offs);
      var i := Decode(code, a);
      LeadsWhere(i, a, offs);
      var o := a;
      match i {
        case IAlt(end) => PassedAlt(code, a); o := end;
        case IKet(next, _) => PassedKet(code, a); o := next;
        case IOpen(starts) =>
          PassedOpen(code, a);
          var j := PassedSome(code, a + 1, starts, endc);
          o := starts[j];
        case IZero(inside, after) =>
          PassedZero(code, a);
          o := if endc in Passed(code, after) then after else inside.value;
      }
      r := RunGoesThrough(code, offs, env, endc, facts, o, e);
      StepOver(code, env, endc, facts, Conf(a, 0, e), Conf(o, 0, e));
      ReachesStep(m, Conf(a, 0, e), Conf(o, 0, e), Conf(endc, 0, r));
    }
  }

  /** An optional repeat takes what it can. */
  lemma {:induction false} RepGoesThrough(code: seq<byte>, offs: set<nat>, env: Env, endc: nat, facts: iset<Fact>,
                                          a: nat, e: nat)
    returns (r: nat)
    requires Closed(code, offs) && endc < |code| && a in offs && a < |code| && a != endc && e <= |env.s|
    requires MayBeEmpty(Decode(code, a)) && endc in Passed(code, Decode(code, a).next)
    requires Leads(Decode(code, a), a, offs)
    ensures e <= r <= |env.s| && Reaches(Over(code, env, endc, facts), Conf(a, 0, e), Conf(endc, 0, r))
    decreases |code| - a, 0
  {
    DecodeForward(code, a);
    DecodedBounds(code, a);
    hide Closed, Decode, Passed, Path, HitAt, MRep, RunLength;
    var i, m := Decode(code, a), Over(code, env, endc, facts);
    var q := e + RunLength(env, i.atom, e, i.max);
    InstrIs(code, a);
    RepRuns(env, i.atom, i.min, i.max, i.poss, e, q);
    WalkRep(m, a, e, 0, e, q);
    r := RunGoesThrough(code, offs, env, endc, facts, i.next, q);
    ReachesTrans(m, Conf(a, 0, e), Conf(i.next, 0, q), Conf(endc, 0, r));
  }

  // ---------- which runs are kept ----------

  /** A repeat that may take different numbers of characters. */
  predicate Slack(i: Instr) {
    i.IRep? && (i.max == -1 || i.min < i.max)
  }

  /** The repeat at o could take the character at q, and from behind it the walk has
    * passed the ket at endc. */
  ghost predicate Clashes(code: seq<byte>, env: Env, endc: nat, o: nat, q: nat) {
    var i := Decode(code, o); Slack(i) && endc in Passed(code, i.next) && HitAt(env, i.atom, q)
  }

  /** The counts in configurations stay below the maximum. */
  ghost predicate Counted(code: seq<byte>, c: Conf) {
    var i := Decode(code, c.o); i.IRep? ==> i.max == -1 || c.cnt < i.max
  }

  /** The two codes as auto-possessification leaves them, run with the same calls. */
  ghost predicate Paired(code: seq<byte>, code': seq<byte>, offs: set<nat>, made: set<nat>, tb: Tables, env: Env,
                         endc: nat) {
    && Runnable(code, offs, tb, env, endc) && SameExcept(code, code', offs, made)
    && forall o: nat :: o in made ==> Ripe(code, tb, o)
  }

  /** Instructions of a group: they lead to each other and to its ket. */
  ghost predicate Inside(code: seq<byte>, inner: set<nat>, endc: nat) {
    forall o: nat :: o in inner ==> o < |code| && o != endc && Leads(Decode(code, o), o, inner + {endc})
  }

  lemma StepStaysCounted(code: seq<byte>, env: Env, facts: iset<Fact>, c: Conf, d: Conf)
    requires Counted(code, c) && Does(env, facts, Decode(code, c.o), c, d)
    ensures Counted(code, d)
  {
    DecodedBounds(code, d.o);
    hide Decode;
  }

  lemma StepStaysInside(code: seq<byte>, inner: set<nat>, endc: nat, env: Env, facts: iset<Fact>, c: Conf, d: Conf)
    requires Leads(Decode(code, c.o), c.o, inner + {endc}) && c.o in inner && Does(env, facts, Decode(code, c.o), c, d)
    ensures d.o in inner || d.o == endc
  {
    hide Decode;
  }

  /** A step that the rewritten code takes too, or that leaves a possessive repeat too
    * early. */
  lemma StepKept(code: seq<byte>, code': seq<byte>, made: set<nat>, env: Env, facts: iset<Fact>, c: Conf, d: Conf)
    requires SameButFor(code, code', made, c.o) && Does(env, facts, Decode(code, c.o), c, d)
    ensures Does(env, facts, Decode(code', c.o), c, d)
         || (c.o in made && var i := Decode(code, c.o);
             i.IRep? && !i.poss && c.cnt >= i.min && HitAt(env, i.atom, c.p) && d == Conf(i.next, 0, c.p))
  {
    hide Decode, HitAt, AnchorHolds, Lazy, Softens;
  }

  /** One more character, and then on to the ket. */
  lemma TakesMore(code: seq<byte>, offs: set<nat>, env: Env, endc: nat, facts: iset<Fact>, c: Conf) returns (r: nat)
    requires Closed(code, offs) && endc < |code| && c.o in offs && c.o < |code| && c.o != endc && Counted(code, c)
    requires var i := Decode(code, c.o);
             && i.IRep?
             && !i.poss
             && c.cnt >= i.min
             && HitAt(env, i.atom, c.p)
             && i.next in offs
             && endc in Passed(code, i.next)
    ensures c.p < r <= |env.s| && Reaches(Over(code, env, endc, facts), c, Conf(endc, 0, r))
  {
    hide Closed, Decode, Passed, Path;
    var i, m := Decode(code, c.o), Over(code, env, endc, facts);
    r := RunGoesThrough(code, offs, env, endc, facts, i.next, c.p + 1);
    var d, u := AfterHit(c.o, c.cnt, c.p, i.min, i.max, i.next), Conf(i.next, 0, c.p + 1);
    StepOver(code, env, endc, facts, c, d);
    if d != u {
      StepOver(code, env, endc, facts, d, u);
      ReachesStep(m, d, u, Conf(endc, 0, r));
    }
    ReachesStep(m, c, d, Conf(endc, 0, r));
  }

  /** The rewritten code makes the run too; or the run ends in front of a character that
    * a repeat it has passed could take, and then another one goes further. */
  lemma {:induction false} RunKept(code: seq<byte>, code': seq<byte>, offs: set<nat>, made: set<nat>, tb: Tables,
                                   env: Env, endc: nat,
                                   facts: iset<Fact>, inner: set<nat>, n: nat, c: Conf, q: nat)
    returns (o: nat, r: nat)
    requires Paired(code, code', offs, made, tb, env, endc) && inner <= offs && Inside(code, inner, endc)
    requires (c.o in inner || c.o == endc) && Counted(code, c)
    requires Path(Over(code, env, endc, facts), n, c, Conf(endc, 0, q))
    ensures Reaches(Over(code', env, endc, facts), c, Conf(endc, 0, q))
         || (o in made && o in inner && Clashes(code, env, endc, o, q)
             && q < r <= |env.s| && Reaches(Over(code, env, endc, facts), c, Conf(endc, 0, r)))
    decreases n
  {
    hide Paired, Inside, Decode, Passed, Path, HitAt, Counted;
    var m, m', t := Over(code, env, endc, facts), Over(code', env, endc, facts), Conf(endc, 0, q);
    o, r := c.o, q;
    if c == t {
      ReachesSelf(m', c);
    } else {
      var d := FirstStep(m, n, c, t);
      StepOver(code, env, endc, facts, c, d);
      StepOver(code', env, endc, facts, c, d);
      HereInside(code, code', offs, made, tb, env, endc, inner, c.o);
      StepKept(code, code', made, env, facts, c, d);
      StepStaysCounted(code, env, facts, c, d);
      StepStaysInside(code, inner, endc, env, facts, c, d);
      if Does(env, facts, Decode(code', c.o), c, d) {
        o, r := RunKept(code, code', offs, made, tb, env, endc, facts, inner, n - 1, d, q);
        if Reaches(m', d, t) {
          ReachesStep(m', c, d, t);
        } else {
          ReachesStep(m, c, d, Conf(endc, 0, r));
        }
      } else {
        r := LeftEarly(code, code', offs, made, tb, env, endc, facts, c, n - 1, q);
      }
    }
  }

  lemma HereInside(code: seq<byte>, code': seq<byte>, offs: set<nat>, made: set<nat>, tb: Tables, env: Env, endc: nat,
                   inner: set<nat>, o: nat)
    requires Paired(code, code', offs, made, tb, env, endc) && inner <= offs && Inside(code, inner, endc) && o in inner
    ensures o < |code| == |code'| && o != endc && SameButFor(code, code', made, o)
    ensures Leads(Decode(code, o), o, inner + {endc})
  {
    hide Decode, Leads, SameButFor, Closed, TablesOk, Fits, Ripe;
  }

  lemma LeftEarly(code: seq<byte>, code': seq<byte>, offs: set<nat>, made: set<nat>, tb: Tables, env: Env, endc: nat,
                  facts: iset<Fact>, c: Conf, n: nat, q: nat) returns (r: nat)
    requires Paired(code, code', offs, made, tb, env, endc) && c.o in made && c.o in offs && c.o != endc
    requires Counted(code, c)
    requires var i := Decode(code, c.o);
             i.IRep? && !i.poss && c.cnt >= i.min && HitAt(env, i.atom, c.p)
             && Path(Over(code, env, endc, facts), n, Conf(i.next, 0, c.p), Conf(endc, 0, q))
    ensures Clashes(code, env, endc, c.o, q)
    ensures q < r <= |env.s| && Reaches(Over(code, env, endc, facts), c, Conf(endc, 0, r))
  {
    hide Closed, TablesOk, Fits, Decode, Settled, Passed, Path, HitAt, SameExcept, Leads, Softens, Lazy;
    var i := Decode(code, c.o);
    assert Ripe(code, tb, c.o);
    RepLeads(code, offs, c.o);
    RunIsStuck(code, offs, tb, env, endc, facts, i.atom, !Lazy(code, c.o), i.next, c.p, n, q);
    r := TakesMore(code, offs, env, endc, facts, c);
  }

  lemma RepLeads(code: seq<byte>, offs: set<nat>, o: nat)
    requires Closed(code, offs) && o in offs && Decode(code, o).IRep?
    ensures o < |code| && Decode(code, o).next in offs
  {
    RepByte(code, o);
    hide Decode;
  }
}
