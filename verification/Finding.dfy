/** Ordered backtracking against the meaning of the code. For code without subroutine
  * calls, which backtracking treats as atomic, it finds a match if there is one among
  * those asked for, and what it finds is a match; possessive repeats included.
  */
module Finding {
  import opened Opcodes
  import opened Tree
  import opened Meaning
  import opened Machine
  import opened Runs
  import opened Decoding
  import opened Program
  import opened References
  import opened Closure
  import opened Backtrack
  import opened Following

  // ---------- repeats ----------

  lemma {:induction false} RunIsHits(env: Env, atom: Atom, p: nat, max: int)
    requires p <= |env.s| && max >= -1
    ensures var n := RunLength(env, atom, p, max);
            Run(env, atom, p, p + n) && (n == max || !HitAt(env, atom, p + n))
    decreases |env.s| - p
  {
    if max != 0 && HitAt(env, atom, p) {
      RunIsHits(env, atom, p + 1, if max == -1 then -1 else max - 1);
    }
  }

  lemma {:induction false} RunIsLongest(env: Env, atom: Atom, p: nat, max: int, q: nat)
    requires p <= |env.s| && max >= -1 && Run(env, atom, p, q) && (max == -1 || q - p <= max)
    ensures q - p <= RunLength(env, atom, p, max)
    decreases |env.s| - p
  {
    if p < q {
      assert HitAt(env, atom, p);
      RunIsLongest(env, atom, p + 1, if max == -1 then -1 else max - 1, q);
    }
  }

  /** The runs that a repeat may take, and the one that a possessive repeat takes. */
  lemma RepRuns(env: Env, atom: Atom, min: nat, max: int, poss: bool, p: nat, q: nat)
    requires p <= |env.s| && max >= -1 && (max == -1 || min <= max)
    ensures var n := RunLength(env, atom, p, max);
            MRep(env, atom, min, max, poss, p, q)
            <==> min <= n && (if poss then q == p + n else p + min <= q <= p + n)
  {
    var n := RunLength(env, atom, p, max);
    RunIsHits(env, atom, p, max);
    if MRep(env, atom, min, max, poss, p, q) {
      RunIsLongest(env, atom, p, max, q);
      if q < p + n {
        assert HitAt(env, atom, q);
      }
    }
  }

  lemma {:induction false} DownFinds(code: seq<byte>, c: Ctx, next: nat, lo: nat, e: nat, hi: nat, st: seq<nat>)
    requires lo <= e <= hi <= |c.env.s| && Bt(code, c, next, e, st).Some?
    ensures BtDown(code, c, next, lo, hi, st).Some?
    decreases hi - lo
  {
    hide Bt;
    if e < hi {
      DownFinds(code, c, next, lo, e, hi - 1, st);
    }
  }

  lemma {:induction false} UpFinds(code: seq<byte>, c: Ctx, next: nat, lo: nat, e: nat, hi: nat, st: seq<nat>)
    requires lo <= e <= hi <= |c.env.s| && Bt(code, c, next, e, st).Some?
    ensures BtUp(code, c, next, lo, hi, st).Some?
    decreases hi - lo
  {
    hide Bt;
    if lo < e {
      UpFinds(code, c, next, lo + 1, e, hi, st);
    }
  }

  lemma {:induction false} DownFound(code: seq<byte>, c: Ctx, next: nat, lo: nat, hi: nat, st: seq<nat>)
    returns (e: nat)
    requires lo <= hi <= |c.env.s| && BtDown(code, c, next, lo, hi, st).Some?
    ensures lo <= e <= hi && Bt(code, c, next, e, st) == BtDown(code, c, next, lo, hi, st)
    decreases hi - lo
  {
    hide Bt;
    e := hi;
    if Bt(code, c, next, hi, st).None? {
      e := DownFound(code, c, next, lo, hi - 1, st);
    }
  }

  lemma {:induction false} UpFound(code: seq<byte>, c: Ctx, next: nat, lo: nat, hi: nat, st: seq<nat>) returns (e: nat)
    requires lo <= hi <= |c.env.s| && BtUp(code, c, next, lo, hi, st).Some?
    ensures lo <= e <= hi && Bt(code, c, next, e, st) == BtUp(code, c, next, lo, hi, st)
    decreases hi - lo
  {
    hide Bt;
    e := lo;
    if Bt(code, c, next, lo, st).None? {
      e := UpFound(code, c, next, lo + 1, hi, st);
    }
  }

  /** The instruction at an offset. */
  lemma InstrIs(code: seq<byte>, a: nat)
    requires a < |code|
    ensures |Decoded(code)| == |code| && Decoded(code)[a] == Decode(code, a)
  {
    hide Decode;
    DecodedToAt(code, |code|, a);
  }

  lemma RepFinds(code: seq<byte>, c: Ctx, a: nat, i: Instr, p: nat, r: nat, st: seq<nat>)
    requires a < |code| && a != c.endc && Decode(code, a) == i && i.IRep? && (i.max == -1 || i.min <= i.max)
    requires p <= |c.env.s|
    requires MRep(c.env, i.atom, i.min, i.max, i.poss, p, r) && r <= |c.env.s| && Bt(code, c, i.next, r, st).Some?
    ensures Bt(code, c, a, p, st).Some?
  {
    hide Decode, Bt, BtUp, BtDown, RunLength, MRep, Lazy;
    BtRep(code, c, a, p, st, i);
    RepRuns(c.env, i.atom, i.min, i.max, i.poss, p, r);
    var n := RunLength(c.env, i.atom, p, i.max);
    if !i.poss {
      DownFinds(code, c, i.next, p + i.min, r, p + n, st);
      UpFinds(code, c, i.next, p + i.min, r, p + n, st);
    }
  }

  lemma RepFound(code: seq<byte>, c: Ctx, a: nat, i: Instr, p: nat, st: seq<nat>) returns (r: nat)
    requires a < |code| && a != c.endc && Decode(code, a) == i && i.IRep? && (i.max == -1 || i.min <= i.max)
    requires p <= |c.env.s|
    requires Bt(code, c, a, p, st).Some?
    ensures p <= r <= |c.env.s| && MRep(c.env, i.atom, i.min, i.max, i.poss, p, r)
    ensures Bt(code, c, i.next, r, st) == Bt(code, c, a, p, st)
  {
    hide Decode, Bt, BtUp, BtDown, RunLength, MRep, Lazy;
    BtRep(code, c, a, p, st, i);
    var n := RunLength(c.env, i.atom, p, i.max);
    r := p + n;
    if !i.poss {
      if Lazy(code, a) {
        r := UpFound(code, c, i.next, p + i.min, p + n, st);
      } else {
        r := DownFound(code, c, i.next, p + i.min, p + n, st);
      }
    }
    RepRuns(c.env, i.atom, i.min, i.max, i.poss, p, r);
  }

  // ---------- what there is to know about each item ----------

  /** The instructions are those of the item, and the end of the run is not among them. */
  ghost predicate Coded(code: seq<byte>, c: Ctx, a: nat, it: Item) {
    CodeItem(Decoded(code), a, it) && Outside(c.endc, a, a + Size(it))
  }

  ghost predicate CodedBranch(code: seq<byte>, c: Ctx, a: nat, b: Branch) {
    CodeBranch(Decoded(code), a, b) && Outside(c.endc, a, a + BranchSize(b))
  }

  ghost predicate CodedAlts(code: seq<byte>, c: Ctx, st: nat, alts: Alts, end: nat) {
    CodeAlts(Decoded(code), st, alts, end) && Outside(c.endc, st, end)
  }

  lemma ItemInside(ins: seq<Instr>, a: nat, it: Item)
    requires CodeItem(ins, a, it)
    ensures a < a + Size(it) <= |ins|
  {
  }

  lemma CodedHere(code: seq<byte>, c: Ctx, a: nat, it: Item)
    requires Coded(code, c, a, it)
    ensures a < |code| && a != c.endc
    ensures it.Call? ==> Decode(code, a).ICall? && Decode(code, a).next == a + 3
    ensures it.Anchor? ==> Decode(code, a) == IAnchor(it.op, a + Size(it))
    ensures it.One? ==> Decode(code, a) == IOne(it.atom, a + Size(it))
    ensures it.Rep? ==>
              var min, max := RepMin(it.atom, it.k, it.lo, it.hi), RepMax(it.atom, it.k, it.lo, it.hi);
              && Decode(code, a) == IRep(it.atom, min, max, RepPoss(it.atom, it.k), a + Size(it))
              && (max == -1 || min <= max)
  {
    hide Decode, CodeAlts;
    DecodedLength(code);
    ItemInside(Decoded(code), a, it);
    InstrIs(code, a);
  }

  lemma DecodedLength(code: seq<byte>)
    ensures |Decoded(code)| == |code|
  {
  }

  lemma CodedGroup(code: seq<byte>, c: Ctx, a: nat, g: Item)
    requires Coded(code, c, a, g) && g.Group?
    ensures var k := KetOffset(a, g);
            && a < k < |code| && a != c.endc && k != c.endc && k + 3 == a + Size(g)
            && Decode(code, a) == IOpen(Starts(g.alts, a + BraSize(g.bra)))
            && Decode(code, k) == IKet(k + 3, if g.ket == OP_KET then None else Some(a))
            && CodedAlts(code, c, a + BraSize(g.bra), g.alts, k)
  {
    hide Decode, CodeAlts;
    DecodedLength(code);
    InstrIs(code, a);
    InstrIs(code, KetOffset(a, g));
  }

  lemma CodedZero(code: seq<byte>, c: Ctx, a: nat, it: Item)
    requires Coded(code, c, a, it) && it.Zero?
    ensures a < |code| && a != c.endc && it.group.Group? && a + Size(it) == a + 1 + Size(it.group)
    ensures Decode(code, a) == IZero(if it.op == OP_SKIPZERO then None else Some(a + 1), a + Size(it))
    ensures Coded(code, c, a + 1, it.group)
  {
    hide Decode, CodeAlts;
    DecodedLength(code);
    ItemInside(Decoded(code), a, it);
    InstrIs(code, a);
  }

  lemma CodedCons(code: seq<byte>, c: Ctx, a: nat, b: Branch)
    requires CodedBranch(code, c, a, b) && b.Cons?
    ensures Coded(code, c, a, b.head) && CodedBranch(code, c, a + Size(b.head), b.tail)
    ensures BranchSize(b) == Size(b.head) + BranchSize(b.tail)
  {
    hide CodeItem;
  }

  lemma CodedAlt(code: seq<byte>, c: Ctx, st: nat, alts: Alts, end: nat)
    requires CodedAlts(code, c, st, alts, end)
    ensures var e := st + BranchSize(alts.b);
            && CodedBranch(code, c, st, alts.b)
            && if alts.Last? then e == end
               else && e < |code| && e != c.endc && Decode(code, e) == IAlt(end)
                    && CodedAlts(code, c, e + 3, alts.rest, end)
  {
    hide Decode, CodeBranch;
    DecodedLength(code);
    if alts.More? {
      InstrIs(code, st + BranchSize(alts.b));
    }
  }

  // ---------- what is meant is found ----------

  lemma OpenFinds(code: seq<byte>, c: Ctx, a: nat, starts: seq<nat>, o: nat, p: nat, st: seq<nat>)
    requires a < |code| && a != c.endc && Decode(code, a) == IOpen(starts) && o in starts && p <= |c.env.s|
    requires Bt(code, c, o, p, [p] + st).Some?
    ensures Bt(code, c, a, p, st).Some?
  {
    hide Decode, Bt, BtAlts;
    BtOpen(code, c, a, p, st, starts);
    AltsResult(code, c, a + 1, starts, p, [p] + st);
  }

  lemma {:induction false} ItemFinds(code: seq<byte>, c: Ctx, facts: iset<Fact>, it: Item, a: nat, p: nat, r: nat,
                                     st: seq<nat>)
    requires Coded(code, c, a, it) && CallsIn(it) == {} && FactsOk(c.env, facts) && p <= |c.env.s|
    requires MItem(c.env, facts, it, p, r)
    requires r <= |c.env.s| && Bt(code, c, a + Size(it), r, st).Some?
    ensures Bt(code, c, a, p, st).Some?
    decreases it, 1
  {
    hide Coded, CodedAlts, Decode, Bt, BtAlts;
    match it
    case Anchor(op) => CodedHere(code, c, a, it); BtAnchor(code, c, a, p, st, op, a + Size(it));
    case One(atom) => CodedHere(code, c, a, it); BtOne(code, c, a, p, st, atom, a + Size(it));
    case Rep(atom, k, lo, hi) => CodedHere(code, c, a, it); RepFinds(code, c, a, Decode(code, a), p, r, st);
    case Group(_, _, alts, ket) =>
      if ket == OP_KET {
        assert MIter(c.env, facts, alts, 0, r, r);
        IterJoin(c.env, facts, alts, 0, p, r, r);
        GroupFinds(code, c, facts, it, a, 1, p, r, st);
      } else {
        var n := LoopPasses(c.env, facts, it, p, r);
        GroupFinds(code, c, facts, it, a, n, p, r, st);
      }
    case Zero(op, g) =>
      CodedZero(code, c, a, it);
      BtZero(code, c, a, p, st, if op == OP_SKIPZERO then None else Some(a + 1), a + Size(it));
      if p != r {
        ItemFinds(code, c, facts, g, a + 1, p, r, st);
      }
    case Call(_) => CodedHere(code, c, a, it);
  }

  /** A pass that matches nothing need not be made, unless it is the only one. */
  lemma {:induction false} GroupFinds(code: seq<byte>, c: Ctx, facts: iset<Fact>, g: Item, a: nat, n: nat, p: nat,
                                      r: nat, st: seq<nat>)
    requires g.Group? && Coded(code, c, a, g) && CallsIn(g) == {} && FactsOk(c.env, facts) && p <= |c.env.s|
    requires n >= 1 && (g.ket == OP_KET ==> n == 1) && MIter(c.env, facts, g.alts, n, p, r)
    requires r <= |c.env.s| && Bt(code, c, a + Size(g), r, st).Some?
    ensures Bt(code, c, a, p, st).Some?
    decreases g, 0, n
  {
    hide Coded, CodedAlts, Decode, Bt, BtAlts, Starts;
    var m := IterTake(c.env, facts, g.alts, n, p, r);
    AltsBounds(c.env, facts, g.alts, p, m);
    if n > 1 {
      GroupFinds(code, c, facts, g, a, n - 1, m, r, st);
    }
    if n == 1 || p < m {
      CodedGroup(code, c, a, g);
      var k := KetOffset(a, g);
      BtKet(code, c, k, m, [p] + st, k + 3, if g.ket == OP_KET then None else Some(a));
      assert ([p] + st)[1..] == st;
      var o := AltsFind(code, c, facts, g.alts, a + BraSize(g.bra), k, p, m, [p] + st);
      OpenFinds(code, c, a, Starts(g.alts, a + BraSize(g.bra)), o, p, st);
    }
  }

  lemma {:induction false} BranchFinds(code: seq<byte>, c: Ctx, facts: iset<Fact>, b: Branch, a: nat, p: nat, r: nat,
                                       st: seq<nat>)
    requires CodedBranch(code, c, a, b) && CallsInBranch(b) == {} && FactsOk(c.env, facts) && p <= |c.env.s|
    requires MBranch(c.env, facts, b, p, r)
    requires r <= |c.env.s| && Bt(code, c, a + BranchSize(b), r, st).Some?
    ensures Bt(code, c, a, p, st).Some?
    decreases b, 0
  {
    hide Coded, CodedBranch, Bt, MItem;
    if b.Cons? {
      CodedCons(code, c, a, b);
      var m := BranchSplit(c.env, facts, b, p, r);
      ItemBounds(c.env, facts, b.head, p, m);
      BranchFinds(code, c, facts, b.tail, a + Size(b.head), m, r, st);
      ItemFinds(code, c, facts, b.head, a, p, m, st);
    }
  }

  /** The branch that leads to the ket. */
  lemma {:induction false} AltsFind(code: seq<byte>, c: Ctx, facts: iset<Fact>, alts: Alts, start: nat, end: nat,
                                    p: nat, r: nat, st: seq<nat>)
    returns (o: nat)
    requires CodedAlts(code, c, start, alts, end) && CallsInAlts(alts) == {} && FactsOk(c.env, facts) && p <= |c.env.s|
    requires MAlts(c.env, facts, alts, p, r)
    requires r <= |c.env.s| && Bt(code, c, end, r, st).Some?
    ensures o in Starts(alts, start) && Bt(code, c, o, p, st).Some?
    decreases alts, 0
  {
    hide CodedBranch, CodedAlts, Decode, Bt, MBranch;
    CodedAlt(code, c, start, alts, end);
    var e := start + BranchSize(alts.b);
    if MBranch(c.env, facts, alts.b, p, r) {
      o := start;
      if alts.More? {
        BtAlt(code, c, e, r, st, end);
      }
      BranchFinds(code, c, facts, alts.b, start, p, r, st);
    } else {
      o := AltsFind(code, c, facts, alts.rest, e + 3, end, p, r, st);
    }
  }

  // ---------- what is found is meant ----------

  lemma {:induction false} ItemFound(code: seq<byte>, c: Ctx, facts: iset<Fact>, it: Item, a: nat, p: nat, st: seq<nat>)
    returns (r: nat)
    requires Coded(code, c, a, it) && CallsIn(it) == {} && p <= |c.env.s| && Bt(code, c, a, p, st).Some?
    ensures p <= r <= |c.env.s| && MItem(c.env, facts, it, p, r)
    ensures Bt(code, c, a + Size(it), r, st) == Bt(code, c, a, p, st)
    decreases |c.env.s| - p, it, 1
  {
    hide Coded, CodedAlts, Decode, Bt, BtAlts;
    r := p;
    match it
    case Anchor(op) => CodedHere(code, c, a, it); BtAnchor(code, c, a, p, st, op, a + Size(it));
    case One(atom) => CodedHere(code, c, a, it); BtOne(code, c, a, p, st, atom, a + Size(it)); r := p + 1;
    case Rep(atom, k, lo, hi) => CodedHere(code, c, a, it); r := RepFound(code, c, a, Decode(code, a), p, st);
    case Group(_, _, alts, ket) =>
      var n;
      n, r := GroupFound(code, c, facts, it, a, p, st);
      if ket == OP_KET {
        var m := IterTake(c.env, facts, alts, 1, p, r);
      }
    case Zero(op, g) =>
      CodedZero(code, c, a, it);
      BtZero(code, c, a, p, st, if op == OP_SKIPZERO then None else Some(a + 1), a + Size(it));
      if Bt(code, c, a + Size(it), p, st) != Bt(code, c, a, p, st) {
        r := ItemFound(code, c, facts, g, a + 1, p, st);
      }
    case Call(_) => CodedHere(code, c, a, it);
  }

  lemma {:induction false} GroupFound(code: seq<byte>, c: Ctx, facts: iset<Fact>, g: Item, a: nat, p: nat, st: seq<nat>)
    returns (n: nat, r: nat)
    requires g.Group? && Coded(code, c, a, g) && CallsIn(g) == {} && p <= |c.env.s| && Bt(code, c, a, p, st).Some?
    ensures p <= r <= |c.env.s| && n >= 1 && (g.ket == OP_KET ==> n == 1) && MIter(c.env, facts, g.alts, n, p, r)
    ensures Bt(code, c, a + Size(g), r, st) == Bt(code, c, a, p, st)
    decreases |c.env.s| - p, g, 0
  {
    hide Coded, CodedAlts, Decode, Bt, BtAlts, Starts;
    CodedGroup(code, c, a, g);
    var k, starts := KetOffset(a, g), Starts(g.alts, a + BraSize(g.bra));
    BtOpen(code, c, a, p, st, starts);
    var o := AltsFirst(code, c, a + 1, starts, p, [p] + st);
    r := AltsFound(code, c, facts, g.alts, a + BraSize(g.bra), k, o, p, [p] + st);
    n := 1;
    BtKet(code, c, k, r, [p] + st, k + 3, if g.ket == OP_KET then None else Some(a));
    assert ([p] + st)[1..] == st;
    assert MIter(c.env, facts, g.alts, 0, r, r);
    IterJoin(c.env, facts, g.alts, 0, p, r, r);
    if Bt(code, c, k + 3, r, st) != Bt(code, c, a, p, st) {
      var m := r;
      n, r := GroupFound(code, c, facts, g, a, m, st);
      IterJoin(c.env, facts, g.alts, n, p, m, r);
      n := n + 1;
    }
  }

  lemma {:induction false} AltsFirst(code: seq<byte>, c: Ctx, from: nat, starts: seq<nat>, p: nat, st: seq<nat>)
    returns (o: nat)
    requires p <= |c.env.s| && from <= |code| && (forall j :: 0 <= j < |starts| ==> starts[j] >= from)
    requires BtAlts(code, c, from, starts, p, st).Some?
    ensures o in starts && Bt(code, c, o, p, st) == BtAlts(code, c, from, starts, p, st)
    decreases |starts|
  {
    hide Bt;
    o := starts[0];
    if Bt(code, c, starts[0], p, st).None? {
      o := AltsFirst(code, c, from, starts[1..], p, st);
    }
  }

  lemma {:induction false} BranchFound(code: seq<byte>, c: Ctx, facts: iset<Fact>, b: Branch, a: nat, p: nat,
                                       st: seq<nat>)
    returns (r: nat)
    requires CodedBranch(code, c, a, b) && CallsInBranch(b) == {} && p <= |c.env.s| && Bt(code, c, a, p, st).Some?
    ensures p <= r <= |c.env.s| && MBranch(c.env, facts, b, p, r)
    ensures Bt(code, c, a + BranchSize(b), r, st) == Bt(code, c, a, p, st)
    decreases |c.env.s| - p, b, 0
  {
    hide Coded, CodedBranch, Bt, MItem;
    r := p;
    if b.Cons? {
      CodedCons(code, c, a, b);
      var m := ItemFound(code, c, facts, b.head, a, p, st);
      r := BranchFound(code, c, facts, b.tail, a + Size(b.head), m, st);
      BranchJoin(c.env, facts, b, p, m, r);
    }
  }

  lemma {:induction false} AltsFound(code: seq<byte>, c: Ctx, facts: iset<Fact>, alts: Alts, start: nat, end: nat,
                                     o: nat, p: nat, st: seq<nat>)
    returns (r: nat)
    requires CodedAlts(code, c, start, alts, end) && CallsInAlts(alts) == {} && o in Starts(alts, start)
    requires p <= |c.env.s|
    requires Bt(code, c, o, p, st).Some?
    ensures p <= r <= |c.env.s| && MAlts(c.env, facts, alts, p, r) && Bt(code, c, end, r, st) == Bt(code, c, o, p, st)
    decreases |c.env.s| - p, alts, 0
  {
    hide CodedBranch, CodedAlts, Decode, Bt, MBranch;
    CodedAlt(code, c, start, alts, end);
    var e := start + BranchSize(alts.b);
    if o == start {
      r := BranchFound(code, c, facts, alts.b, start, p, st);
      if alts.More? {
        BtAlt(code, c, e, r, st, end);
      }
    } else {
      r := AltsFound(code, c, facts, alts.rest, e + 3, end, o, p, st);
    }
  }

  // ---------- whole programs ----------

  lemma ProgramIsCoded(x: PlainLinks, code: seq<byte>, root: Item, c: Ctx)
    requires IsProgram(x, code, root) && c.endc == |code| - 1
    ensures root.Group? && root.ket == OP_KET && Coded(code, c, 0, root) && Size(root) == c.endc
  {
    hide LayItem, CodeItem, FindOffset;
    ProgramDecodes(x, code, root);
  }

  /** Without calls backtracking finds a match if there is one that ends where it may,
    * and what it finds is one. */
  lemma FindsMatches(x: PlainLinks, code: seq<byte>, root: Item, env: Env, d: nat, ends: iset<nat>, p: nat)
    requires IsProgram(x, code, root) && CallsIn(root) == {} && p <= |env.s|
    ensures |code| > 0 && root.Group?
    ensures var q := FirstEnd(code, env, d, ends, p);
            && (q.Some? ==> q.value in ends && MAlts(env, Facts(env, root), root.alts, p, q.value))
            && (q.None? ==> forall r: nat :: r in ends ==> !MAlts(env, Facts(env, root), root.alts, p, r))
  {
    hide LayItem, FindOffset, IsProgram, IsCode, Coded, Bt, CallsAt, Facts;
    ProgramSizes(x, code, root);
    var c := Ctx(env, CallsAt(code, env, d), |code| - 1, ends);
    ProgramIsCoded(x, code, root, c);
    FactsAreOk(env, root);
    var facts := Facts(env, root);
    if Bt(code, c, 0, p, []).Some? {
      var r := ItemFound(code, c, facts, root, 0, p, []);
      BtStop(code, c, c.endc, r, []);
    }
    forall r: nat | r in ends && MAlts(env, facts, root.alts, p, r) ensures Bt(code, c, 0, p, []).Some? {
      AltsBounds(env, facts, root.alts, p, r);
      BtStop(code, c, c.endc, r, []);
      ItemFinds(code, c, facts, root, 0, p, r, []);
    }
  }

  lemma ProgramSizes(x: PlainLinks, code: seq<byte>, root: Item)
    requires IsProgram(x, code, root)
    ensures |code| > 0 && root.Group?
  {
  }

  /** So the first match is a match, and there is none only if nothing matches. */
  lemma FirstIsMatch(x: PlainLinks, code: seq<byte>, root: Item, env: Env, d: nat, p: nat)
    requires IsProgram(x, code, root) && CallsIn(root) == {} && p <= |env.s|
    ensures |code| > 0 && root.Group?
    ensures var q := FirstMatch(code, env, d, p);
            && (q.Some? ==> Matches(env, root, p, q.value))
            && (q.None? ==> forall r: nat :: !Matches(env, root, p, r))
  {
    hide IsProgram, FirstEnd, MAlts, Facts;
    FindsMatches(x, code, root, env, d, AllowedEnds(env, p), p);
    forall r: nat | Matches(env, root, p, r) ensures r in AllowedEnds(env, p) {
      FactsAreOk(env, root);
      AltsBounds(env, Facts(env, root), root.alts, p, r);
    }
  }
}
