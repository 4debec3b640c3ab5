/** The state machine of a pattern. A configuration is an offset in the code, a
  * repeat count and a subject position. The main results are that the machine
  * runs from the start of an item to its end exactly over the position pairs
  * that the item means, and that it never leaves the instructions of the tree.
  */
module Machine {
  import opened Opcodes
  import opened Tree
  import opened Meaning

  /** One decoded instruction with everything its execution needs. */
  datatype Instr =
    | IBad
    | IAnchor(op: byte, next: nat)
    | IOne(atom: Atom, next: nat)
    | IRep(atom: Atom, min: nat, max: int, poss: bool, next: nat)
    | IOpen(starts: seq<nat>)
    | IAlt(end: nat)
    | IKet(next: nat, back: Option<nat>)
    | IZero(inside: Option<nat>, after: nat)
    | ICall(num: nat, target: nat, next: nat)

  // ---------- the instructions of a tree ----------

  /** The starts of the branches when the first one starts at st. */
  function Starts(alts: Alts, st: nat): (r: seq<nat>)
    decreases alts
  {
    match alts
    case Last(_) => [st]
    case More(b, rest) => [st] + Starts(rest, st + BranchSize(b) + 3)
  }

  /** The offset of a group's closing ket. */
  function KetOffset(a: nat, g: Item): nat
    requires g.Group?
  {
    a + BraSize(g.bra) + AltsSize(g.alts)
  }

  /** The instructions from a on are those of the item. */
  predicate CodeItem(ins: seq<Instr>, a: nat, it: Item)
    decreases it, 0
  {
    && a + Size(it) <= |ins|
    && match it
       case Anchor(op) => ins[a] == IAnchor(op, a + 1)
       case One(atom) => ins[a] == IOne(atom, a + AtomSize(atom))
       case Rep(atom, k, lo, hi) =>
         && RepOk(atom, k, lo, hi)
         && ins[a] == IRep(atom, RepMin(atom, k, lo, hi), RepMax(atom, k, lo, hi), RepPoss(atom, k),
                           a + RepSize(atom, k))
       case Group(bra, _, alts, ket) =>
         var k := KetOffset(a, it);
         && ins[a] == IOpen(Starts(alts, a + BraSize(bra)))
         && ins[k] == IKet(k + 3, if ket == OP_KET then None else Some(a))
         && CodeAlts(ins, a + BraSize(bra), alts, k)
       case Zero(op, g) =>
         && g.Group?
         && ins[a] == IZero(if op == OP_SKIPZERO then None else Some(a + 1), a + Size(it))
         && CodeItem(ins, a + 1, g)
       case Call(num) => ins[a].ICall? && ins[a].num == num && ins[a].next == a + 3
  }

  predicate CodeBranch(ins: seq<Instr>, a: nat, b: Branch)
    decreases b, 0
  {
    b.Cons? ==> CodeItem(ins, a, b.head) && CodeBranch(ins, a + Size(b.head), b.tail)
  }

  /** The branches from st on; end is the offset of the group's ket. */
  predicate CodeAlts(ins: seq<Instr>, st: nat, alts: Alts, end: nat)
    decreases alts, 0
  {
    && st + AltsSize(alts) == end < |ins|
    && CodeBranch(ins, st, alts.b)
    && (alts.More? ==>
          var e := st + BranchSize(alts.b);
          ins[e] == IAlt(end) && CodeAlts(ins, e + 3, alts.rest, end))
  }

  // ---------- the machine ----------

  datatype Conf = Conf(o: nat, cnt: nat, p: nat)

  /** A run stops at the ket at endc; calls are answered by the facts. */
  datatype Machine = Machine(ins: seq<Instr>, env: Env, endc: nat, facts: iset<Fact>)

  /** After one more character of a repeat: past the item when the maximum is
    * reached, else at the item with a new count. Star repeats do not count. */
  function AfterHit(o: nat, cnt: nat, p: nat, min: nat, max: int, next: nat): Conf {
    if max != -1 && cnt + 1 >= max then Conf(next, 0, p + 1)
    else if min == 0 && max == -1 then Conf(o, 0, p + 1)
    else Conf(o, cnt + 1, p + 1)
  }

  /** What one instruction does, whatever its offset. */
  ghost predicate Does(env: Env, facts: iset<Fact>, i: Instr, c: Conf, d: Conf) {
    match i
    case IBad => false
    case IAnchor(op, next) => AnchorHolds(env, op, c.p) && d == Conf(next, 0, c.p)
    case IOne(atom, next) => HitAt(env, atom, c.p) && d == Conf(next, 0, c.p + 1)
    case IRep(atom, min, max, poss, next) =>
      || (c.cnt >= min && !(poss && HitAt(env, atom, c.p)) && d == Conf(next, 0, c.p))
      || (HitAt(env, atom, c.p) && d == AfterHit(c.o, c.cnt, c.p, min, max, next))
    case IOpen(starts) => d.o in starts && d.cnt == 0 && d.p == c.p
    case IAlt(end) => d == Conf(end, 0, c.p)
    case IKet(next, back) => d == Conf(next, 0, c.p) || (back.Some? && d == Conf(back.value, 0, c.p))
    case IZero(inside, after) => d == Conf(after, 0, c.p) || (inside.Some? && d == Conf(inside.value, 0, c.p))
    case ICall(num, _, next) => Fact(num, c.p, d.p) in facts && d == Conf(next, 0, d.p)
  }

  ghost predicate Step(m: Machine, c: Conf, d: Conf) {
    c.o != m.endc && c.o < |m.ins| && Does(m.env, m.facts, m.ins[c.o], c, d)
  }

  ghost predicate Path(m: Machine, n: nat, c: Conf, t: Conf) {
    if n == 0 then c == t else exists d :: Step(m, c, d) && Path(m, n - 1, d, t)
  }

  lemma {:induction false} PathConcat(m: Machine, n1: nat, c: Conf, d: Conf, n2: nat, t: Conf)
    requires Path(m, n1, c, d) && Path(m, n2, d, t)
    ensures Path(m, n1 + n2, c, t)
  {
    if n1 > 0 {
      var e :| Step(m, c, e) && Path(m, n1 - 1, e, d);
      PathConcat(m, n1 - 1, e, d, n2, t);
      assert Path(m, n1 + n2 - 1, e, t);
    }
  }

  // ---------- soundness: leaving an item means having matched it ----------

  ghost predicate Outside(o: nat, a: nat, b: nat) {
    o < a || b <= o
  }

  ghost predicate Ready(m: Machine) {
    m.env.Ok() && FactsOk(m.env, m.facts)
  }

  lemma FirstStep(m: Machine, n: nat, c: Conf, t: Conf) returns (d: Conf)
    requires Path(m, n, c, t) && c != t
    ensures n > 0 && Step(m, c, d) && Path(m, n - 1, d, t)
  {
    d :| Step(m, c, d) && Path(m, n - 1, d, t);
  }

  lemma {:induction false} ExitRep(m: Machine, a: nat, p0: nat, cnt: nat, p: nat, n: nat, t: Conf)
    returns (q: nat, n': nat)
    requires a < |m.ins| && m.ins[a].IRep? && a != m.endc && a != t.o
    requires var r := m.ins[a];
             && Run(m.env, r.atom, p0, p)
             && cnt == (if r.min == 0 && r.max == -1 then 0 else p - p0)
             && (r.max == -1 || p - p0 < r.max)
             && (r.max == -1 || r.min <= r.max)
    requires Path(m, n, Conf(a, cnt, p), t)
    ensures n' < n
    ensures var r := m.ins[a];
            MRep(m.env, r.atom, r.min, r.max, r.poss, p0, q) && Path(m, n', Conf(r.next, 0, q), t)
    decreases n
  {
    var r := m.ins[a];
    var d :| Step(m, Conf(a, cnt, p), d) && Path(m, n - 1, d, t);
    if d == Conf(r.next, 0, p) && cnt >= r.min && !(r.poss && HitAt(m.env, r.atom, p)) {
      return p, n - 1;
    }
    assert Run(m.env, r.atom, p0, p + 1);
    if r.max != -1 && cnt + 1 >= r.max {
      return p + 1, n - 1;
    }
    q, n' := ExitRep(m, a, p0, d.cnt, p + 1, n - 1, t);
  }

  lemma ExitSimple(m: Machine, it: Item, a: nat, n: nat, p: nat, t: Conf)
    returns (q: nat, n': nat)
    requires it.Anchor? || it.One? || it.Call?
    requires CodeItem(m.ins, a, it) && Path(m, n, Conf(a, 0, p), t) && t.o != a
    ensures n' < n && MItem(m.env, m.facts, it, p, q) && Path(m, n', Conf(a + Size(it), 0, q), t)
  {
    var d := FirstStep(m, n, Conf(a, 0, p), t);
    q, n' := d.p, n - 1;
  }

  lemma {:induction false} ExitItem(m: Machine, it: Item, a: nat, n: nat, p: nat, t: Conf)
    returns (q: nat, n': nat)
    requires Ready(m) && CodeItem(m.ins, a, it) && p <= |m.env.s|
    requires Outside(t.o, a, a + Size(it)) && Outside(m.endc, a, a + Size(it))
    requires Path(m, n, Conf(a, 0, p), t)
    ensures n' < n && MItem(m.env, m.facts, it, p, q) && Path(m, n', Conf(a + Size(it), 0, q), t)
    decreases n, it, 2
  {
    match it {
      case Rep(atom, k, lo, hi) =>
        q, n' := ExitRep(m, a, p, 0, p, n, t);
      case Group(_, _, alts, ket) =>
        var k;
        k, q, n' := ExitGroup(m, it, a, n, p, t);
        if ket == OP_KET {
          var r: nat :| MAlts(m.env, m.facts, alts, p, r) && MIter(m.env, m.facts, alts, 0, r, q);
        }
      case Zero(_, g) =>
        var d := FirstStep(m, n, Conf(a, 0, p), t);
        q, n' := p, n - 1;
        if d.o == a + 1 {
          q, n' := ExitItem(m, g, a + 1, n', p, t);
        }
      case _ =>
        q, n' := ExitSimple(m, it, a, n, p, t);
    }
  }

  /** From the bracket through one of its branches and over the ket. */
  lemma {:induction false} ExitPass(m: Machine, g: Item, a: nat, n: nat, p: nat, t: Conf)
    returns (q: nat, n': nat, again: bool)
    requires g.Group? && Ready(m) && CodeItem(m.ins, a, g) && p <= |m.env.s|
    requires Outside(t.o, a, a + Size(g)) && Outside(m.endc, a, a + Size(g))
    requires Path(m, n, Conf(a, 0, p), t)
    ensures n' < n && p <= q <= |m.env.s|
    ensures MAlts(m.env, m.facts, g.alts, p, q)
    ensures again ==> g.ket != OP_KET
    ensures Path(m, n', Conf(if again then a else a + Size(g), 0, q), t)
    decreases n, g, 0
  {
    var d := FirstStep(m, n, Conf(a, 0, p), t);
    var n1;
    assert d == Conf(d.o, 0, p) && d.o in Starts(g.alts, a + BraSize(g.bra));
    q, n1 := ExitAlts(m, g.alts, a + BraSize(g.bra), KetOffset(a, g), d.o, n - 1, p, t);
    var e := FirstStep(m, n1, Conf(KetOffset(a, g), 0, q), t);
    n', again := n1 - 1, e.o == a;
  }

  /** A run that leaves a group has made k passes through it, one pass when the
    * group is not repeated. */
  lemma {:induction false} ExitGroup(m: Machine, g: Item, a: nat, n: nat, p: nat, t: Conf)
    returns (k: nat, q: nat, n': nat)
    requires g.Group? && Ready(m) && CodeItem(m.ins, a, g) && p <= |m.env.s|
    requires Outside(t.o, a, a + Size(g)) && Outside(m.endc, a, a + Size(g))
    requires Path(m, n, Conf(a, 0, p), t)
    ensures n' < n && k >= 1 && (g.ket == OP_KET ==> k == 1)
    ensures MIter(m.env, m.facts, g.alts, k, p, q) && Path(m, n', Conf(a + Size(g), 0, q), t)
    decreases n, g, 1
  {
    var r, n1, again := ExitPass(m, g, a, n, p, t);
    if again {
      k, q, n' := ExitGroup(m, g, a, n1, r, t);
      k := k + 1;
    } else {
      assert MIter(m.env, m.facts, g.alts, 0, r, r);
      k, q, n' := 1, r, n1;
    }
  }

  lemma {:induction false} ExitBranch(m: Machine, b: Branch, a: nat, n: nat, p: nat, t: Conf)
    returns (q: nat, n': nat)
    requires Ready(m) && CodeBranch(m.ins, a, b) && p <= |m.env.s|
    requires Outside(t.o, a, a + BranchSize(b)) && Outside(m.endc, a, a + BranchSize(b))
    requires Path(m, n, Conf(a, 0, p), t)
    ensures n' <= n && p <= q <= |m.env.s|
    ensures MBranch(m.env, m.facts, b, p, q) && Path(m, n', Conf(a + BranchSize(b), 0, q), t)
    decreases n, b, 0
  {
    match b
    case Nil => return p, n;
    case Cons(it, rest) =>
      var r, n1 := ExitItem(m, it, a, n, p, t);
      ItemBounds(m.env, m.facts, it, p, r);
      q, n' := ExitBranch(m, rest, a + Size(it), n1, r, t);
  }

  /** From the start o of one of the alternatives to the closing ket. */
  lemma {:induction false} ExitAlts(m: Machine, alts: Alts, st: nat, end: nat, o: nat, n: nat, p: nat, t: Conf)
    returns (q: nat, n': nat)
    requires Ready(m) && CodeAlts(m.ins, st, alts, end) && p <= |m.env.s|
    requires o in Starts(alts, st)
    requires Outside(t.o, st, end) && Outside(m.endc, st, end)
    requires Path(m, n, Conf(o, 0, p), t)
    ensures n' <= n && p <= q <= |m.env.s|
    ensures MAlts(m.env, m.facts, alts, p, q) && Path(m, n', Conf(end, 0, q), t)
    decreases n, alts, 0
  {
    var e := st + BranchSize(alts.b);
    if o == st {
      q, n' := ExitBranch(m, alts.b, st, n, p, t);
      if alts.More? {
        var d := FirstStep(m, n', Conf(e, 0, q), t);
        n' := n' - 1;
      }
    } else {
      q, n' := ExitAlts(m, alts.rest, e + 3, end, o, n, p, t);
    }
  }
}
