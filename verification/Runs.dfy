/** Completeness of the machine: whatever an item means, the machine can do; and
  * the summary for one pass through a group, which is what a run of the engine
  * over that group computes. Also the offsets a run can ever visit.
  */
module Runs {
  import opened Opcodes
  import opened Tree
  import opened Meaning
  import opened Machine

  ghost predicate Reaches(m: Machine, c: Conf, t: Conf) {
    exists n: nat :: Path(m, n, c, t)
  }

  lemma ReachesTrans(m: Machine, c: Conf, d: Conf, t: Conf)
    requires Reaches(m, c, d) && Reaches(m, d, t)
    ensures Reaches(m, c, t)
  {
    var n1: nat :| Path(m, n1, c, d);
    var n2: nat :| Path(m, n2, d, t);
    PathConcat(m, n1, c, d, n2, t);
  }

  lemma ReachesStep(m: Machine, c: Conf, d: Conf, t: Conf)
    requires Step(m, c, d) && Reaches(m, d, t)
    ensures Reaches(m, c, t)
  {
    var n: nat :| Path(m, n, d, t);
    assert Path(m, n + 1, c, t);
  }

  lemma ReachesSelf(m: Machine, c: Conf)
    ensures Reaches(m, c, c)
  {
    assert Path(m, 0, c, c);
  }

  // ---------- completeness ----------

  lemma {:induction false} WalkRep(m: Machine, a: nat, p0: nat, cnt: nat, p: nat, q: nat)
    requires a < |m.ins| && m.ins[a].IRep? && a != m.endc
    requires var r := m.ins[a];
             && MRep(m.env, r.atom, r.min, r.max, r.poss, p0, q) && p0 <= p <= q
             && cnt == (if r.min == 0 && r.max == -1 then 0 else p - p0)
             && (r.max == -1 || (p - p0 < r.max && r.min <= r.max))
    ensures Reaches(m, Conf(a, cnt, p), Conf(m.ins[a].next, 0, q))
    decreases q - p
  {
    var r := m.ins[a];
    var t := Conf(r.next, 0, q);
    if p == q {
      ReachesSelf(m, t);
      ReachesStep(m, Conf(a, cnt, p), t, t);
    } else {
      assert HitAt(m.env, r.atom, p);
      var d := AfterHit(a, cnt, p, r.min, r.max, r.next);
      if d == t {
        ReachesSelf(m, t);
      } else {
        WalkRep(m, a, p0, d.cnt, p + 1, q);
      }
      ReachesStep(m, Conf(a, cnt, p), d, t);
    }
  }

  lemma WalkSimple(m: Machine, it: Item, a: nat, p: nat, q: nat)
    requires it.Anchor? || it.One? || it.Call?
    requires CodeItem(m.ins, a, it) && a != m.endc && MItem(m.env, m.facts, it, p, q)
    ensures Reaches(m, Conf(a, 0, p), Conf(a + Size(it), 0, q))
  {
    var t := Conf(a + Size(it), 0, q);
    assert Step(m, Conf(a, 0, p), t);
    ReachesSelf(m, t);
    ReachesStep(m, Conf(a, 0, p), t, t);
  }

  lemma {:induction false} WalkItem(m: Machine, it: Item, a: nat, p: nat, q: nat)
    requires CodeItem(m.ins, a, it) && Outside(m.endc, a, a + Size(it))
    requires MItem(m.env, m.facts, it, p, q)
    ensures Reaches(m, Conf(a, 0, p), Conf(a + Size(it), 0, q))
    decreases it, 1
  {
    match it
    case Rep(_, _, _, _) => WalkRep(m, a, p, 0, p, q);
    case Group(_, _, alts, ket) =>
      if ket == OP_KET {
        assert MIter(m.env, m.facts, alts, 0, q, q);
        assert MIter(m.env, m.facts, alts, 1, p, q);
        WalkGroup(m, it, a, 1, p, q);
      } else {
        var n: nat :| n >= 1 && MIter(m.env, m.facts, alts, n, p, q);
        WalkGroup(m, it, a, n, p, q);
      }
    case Zero(op, g) =>
      var t := Conf(a + Size(it), 0, q);
      if p == q {
        ReachesSelf(m, t);
        ReachesStep(m, Conf(a, 0, p), t, t);
      } else {
        WalkItem(m, g, a + 1, p, q);
        ReachesStep(m, Conf(a, 0, p), Conf(a + 1, 0, p), t);
      }
    case _ => WalkSimple(m, it, a, p, q);
  }

  lemma {:induction false} WalkGroup(m: Machine, g: Item, a: nat, n: nat, p: nat, q: nat)
    requires g.Group? && CodeItem(m.ins, a, g) && Outside(m.endc, a, a + Size(g))
    requires n >= 1 && (g.ket == OP_KET ==> n == 1) && MIter(m.env, m.facts, g.alts, n, p, q)
    ensures Reaches(m, Conf(a, 0, p), Conf(a + Size(g), 0, q))
    decreases g.alts, n + 1
  {
    var r: nat :| MAlts(m.env, m.facts, g.alts, p, r) && MIter(m.env, m.facts, g.alts, n - 1, r, q);
    var k := KetOffset(a, g);
    var t := Conf(a + Size(g), 0, q);
    if n == 1 {
      ReachesSelf(m, t);
      ReachesStep(m, Conf(k, 0, r), t, t);
    } else {
      WalkGroup(m, g, a, n - 1, r, q);
      ReachesStep(m, Conf(k, 0, r), Conf(a, 0, r), t);
    }
    var o := WalkAlts(m, g.alts, a + BraSize(g.bra), k, p, r);
    ReachesTrans(m, Conf(o, 0, p), Conf(k, 0, r), t);
    ReachesStep(m, Conf(a, 0, p), Conf(o, 0, p), t);
  }

  lemma {:induction false} WalkBranch(m: Machine, b: Branch, a: nat, p: nat, q: nat)
    requires CodeBranch(m.ins, a, b) && Outside(m.endc, a, a + BranchSize(b))
    requires MBranch(m.env, m.facts, b, p, q)
    ensures Reaches(m, Conf(a, 0, p), Conf(a + BranchSize(b), 0, q))
    decreases b, 1
  {
    match b
    case Nil => ReachesSelf(m, Conf(a, 0, p));
    case Cons(it, rest) =>
      var r: nat :| MItem(m.env, m.facts, it, p, r) && MBranch(m.env, m.facts, rest, r, q);
      WalkItem(m, it, a, p, r);
      WalkBranch(m, rest, a + Size(it), r, q);
      ReachesTrans(m, Conf(a, 0, p), Conf(a + Size(it), 0, r), Conf(a + BranchSize(b), 0, q));
  }

  lemma {:induction false} WalkAlts(m: Machine, alts: Alts, st: nat, end: nat, p: nat, q: nat) returns (o: nat)
    requires CodeAlts(m.ins, st, alts, end) && Outside(m.endc, st, end)
    requires MAlts(m.env, m.facts, alts, p, q)
    ensures o in Starts(alts, st) && Reaches(m, Conf(o, 0, p), Conf(end, 0, q))
    decreases alts, 0
  {
    var e := st + BranchSize(alts.b);
    if MBranch(m.env, m.facts, alts.b, p, q) {
      o := st;
      WalkBranch(m, alts.b, st, p, q);
      if alts.More? {
        ReachesSelf(m, Conf(end, 0, q));
        ReachesStep(m, Conf(e, 0, q), Conf(end, 0, q), Conf(end, 0, q));
        ReachesTrans(m, Conf(st, 0, p), Conf(e, 0, q), Conf(end, 0, q));
      }
    } else {
      o := WalkAlts(m, alts.rest, e + 3, end, p, q);
    }
  }

  lemma StopsAtEnd(m: Machine, n: nat, p: nat, t: Conf)
    requires Path(m, n, Conf(m.endc, 0, p), t)
    ensures t == Conf(m.endc, 0, p)
  {
  }

  /** A run over a group: from the starts of its branches the machine reaches the
    * closing ket exactly over what one pass through the group means. */
  lemma RunOfGroup(m: Machine, g: Item, a: nat, p: nat, q: nat)
    requires g.Group? && Ready(m) && CodeItem(m.ins, a, g) && p <= |m.env.s|
    requires m.endc == KetOffset(a, g)
    ensures MAlts(m.env, m.facts, g.alts, p, q) <==>
            exists o :: o in Starts(g.alts, a + BraSize(g.bra)) && Reaches(m, Conf(o, 0, p), Conf(m.endc, 0, q))
  {
    var st := a + BraSize(g.bra);
    if MAlts(m.env, m.facts, g.alts, p, q) {
      var o := WalkAlts(m, g.alts, st, m.endc, p, q);
    }
    if o :| o in Starts(g.alts, st) && Reaches(m, Conf(o, 0, p), Conf(m.endc, 0, q)) {
      var n: nat :| Path(m, n, Conf(o, 0, p), Conf(m.endc, 0, q));
      var r, n' := ExitAlts(m, g.alts, st, m.endc, o, n, p, Conf(m.endc, 0, q));
      StopsAtEnd(m, n', r, Conf(m.endc, 0, q));
    }
  }

  // ---------- the offsets a run visits ----------

  /** The offsets of all instructions of an item, brackets and kets included. */
  function Offsets(it: Item, a: nat): set<nat>
    decreases it
  {
    match it
    case Group(bra, _, alts, _) => {a, KetOffset(a, it)} + AltsOffsets(alts, a + BraSize(bra))
    case Zero(_, g) => {a} + Offsets(g, a + 1)
    case _ => {a}
  }

  function BranchOffsets(b: Branch, a: nat): set<nat>
    decreases b
  {
    match b
    case Nil => {}
    case Cons(it, rest) => Offsets(it, a) + BranchOffsets(rest, a + Size(it))
  }

  function AltsOffsets(alts: Alts, st: nat): set<nat>
    decreases alts
  {
    match alts
    case Last(b) => BranchOffsets(b, st)
    case More(b, rest) =>
      var e := st + BranchSize(b);
      BranchOffsets(b, st) + {e} + AltsOffsets(rest, e + 3)
  }

  /** The successors of a configuration stay in the set or at the exit. */
  ghost predicate Confined(m: Machine, o: nat, offs: set<nat>, exit: nat) {
    && o < |m.ins| && m.ins[o] != IBad
    && forall c: Conf, d: Conf :: c.o == o && Step(m, c, d) ==> d.o in offs || d.o == exit
  }

  lemma {:induction false} ConfinedMono(m: Machine, o: nat, offs: set<nat>, exit: nat, offs': set<nat>, exit': nat)
    requires Confined(m, o, offs, exit) && offs <= offs' && (exit == exit' || exit in offs')
    ensures Confined(m, o, offs', exit')
  {
  }

  lemma FirstOffset(it: Item, a: nat)
    ensures a in Offsets(it, a)
  {
  }

  lemma BranchStart(b: Branch, a: nat)
    ensures a in BranchOffsets(b, a) || BranchSize(b) == 0
  {
    if b.Cons? {
      FirstOffset(b.head, a);
    }
  }

  lemma {:induction false} StartsAreOffsets(ins: seq<Instr>, alts: Alts, st: nat, end: nat, o: nat)
    requires CodeAlts(ins, st, alts, end) && o in Starts(alts, st)
    ensures o in AltsOffsets(alts, st) || o == end
    decreases alts
  {
    hide CodeBranch, Offsets, BranchOffsets, BranchSize;
    var e := st + BranchSize(alts.b);
    BranchStart(alts.b, st);
    if o != st {
      StartsAreOffsets(ins, alts.rest, e + 3, end, o);
    }
  }

  /** The bracket leads to the branch starts, the ket out of the group or back. */
  lemma BracketConfined(m: Machine, g: Item, a: nat, o: nat)
    requires g.Group? && CodeItem(m.ins, a, g) && (o == a || o == KetOffset(a, g))
    ensures Confined(m, o, Offsets(g, a), a + Size(g))
  {
    hide CodeAlts, Starts, AltsOffsets;
    forall c: Conf, d: Conf | c.o == o && Step(m, c, d) ensures d.o in Offsets(g, a) || d.o == a + Size(g) {
      if o == a {
        StartsAreOffsets(m.ins, g.alts, a + BraSize(g.bra), KetOffset(a, g), d.o);
      }
    }
  }

  lemma GroupParts(ins: seq<Instr>, g: Item, a: nat)
    requires g.Group? && CodeItem(ins, a, g)
    ensures CodeAlts(ins, a + BraSize(g.bra), g.alts, KetOffset(a, g))
    ensures Offsets(g, a) == {a, KetOffset(a, g)} + AltsOffsets(g.alts, a + BraSize(g.bra))
  {
  }

  lemma ZeroConfined(m: Machine, it: Item, a: nat)
    requires it.Zero? && CodeItem(m.ins, a, it)
    ensures it.group.Group? && CodeItem(m.ins, a + 1, it.group)
    ensures Offsets(it, a) == {a} + Offsets(it.group, a + 1) && a + Size(it) == a + 1 + Size(it.group)
    ensures Confined(m, a, Offsets(it, a), a + Size(it))
  {
    FirstOffset(it.group, a + 1);
  }

  lemma SimpleConfined(m: Machine, it: Item, a: nat, o: nat)
    requires CodeItem(m.ins, a, it) && o in Offsets(it, a) && !it.Group? && !it.Zero?
    ensures Confined(m, o, Offsets(it, a), a + Size(it))
  {
  }

  lemma {:induction false} ItemConfined(m: Machine, it: Item, a: nat, o: nat)
    requires CodeItem(m.ins, a, it) && o in Offsets(it, a)
    ensures Confined(m, o, Offsets(it, a), a + Size(it))
    decreases it
  {
    hide CodeItem, CodeAlts, Confined, Offsets, AltsOffsets, Size;
    match it
    case Group(bra, _, alts, ket) =>
      GroupParts(m.ins, it, a);
      if o == a || o == KetOffset(a, it) {
        BracketConfined(m, it, a, o);
      } else {
        AltsConfined(m, alts, a + BraSize(bra), KetOffset(a, it), o);
        ConfinedMono(m, o, AltsOffsets(alts, a + BraSize(bra)), KetOffset(a, it), Offsets(it, a), a + Size(it));
      }
    case Zero(_, g) =>
      ZeroConfined(m, it, a);
      if o != a {
        ItemConfined(m, g, a + 1, o);
        ConfinedMono(m, o, Offsets(g, a + 1), a + 1 + Size(g), Offsets(it, a), a + Size(it));
      }
    case _ => SimpleConfined(m, it, a, o);
  }

  lemma {:induction false} BranchConfined(m: Machine, b: Branch, a: nat, o: nat)
    requires CodeBranch(m.ins, a, b) && o in BranchOffsets(b, a)
    ensures Confined(m, o, BranchOffsets(b, a), a + BranchSize(b))
    decreases b
  {
    hide Confined, CodeItem, Offsets;
    var a2 := a + Size(b.head);
    if o in Offsets(b.head, a) {
      ItemConfined(m, b.head, a, o);
      BranchStart(b.tail, a2);
      ConfinedMono(m, o, Offsets(b.head, a), a2, BranchOffsets(b, a), a + BranchSize(b));
    } else {
      BranchConfined(m, b.tail, a2, o);
      ConfinedMono(m, o, BranchOffsets(b.tail, a2), a2 + BranchSize(b.tail), BranchOffsets(b, a), a + BranchSize(b));
    }
  }

  lemma {:induction false} AltsConfined(m: Machine, alts: Alts, st: nat, end: nat, o: nat)
    requires CodeAlts(m.ins, st, alts, end) && o in AltsOffsets(alts, st)
    ensures Confined(m, o, AltsOffsets(alts, st), end)
    decreases alts
  {
    var e := st + BranchSize(alts.b);
    if o in BranchOffsets(alts.b, st) {
      BranchConfined(m, alts.b, st, o);
      ConfinedMono(m, o, BranchOffsets(alts.b, st), e, AltsOffsets(alts, st), end);
    } else if o != e {
      AltsConfined(m, alts.rest, e + 3, end, o);
      ConfinedMono(m, o, AltsOffsets(alts.rest, e + 3), end, AltsOffsets(alts, st), end);
    }
  }
}
