/** How the compiler spells quantifiers out. Single characters become runs of
  * EXACT, UPTO, STAR and QUERY; groups are copied, with the optional copies
  * nested; what has no possessive spelling of its own goes into an atomic group.
  * The main result is that the code tree means what the pattern means, for
  * patterns that need no atomic group.
  */
module Expansion {
  import opened Opcodes
  import opened Tree
  import opened Meaning
  import opened Pattern

  /** Patterns for which the compiler needs no atomic group: a subroutine call is
    * not repeated, a group is not repeated possessively, and a character type is
    * not repeated possessively with a minimum of one and a bounded maximum. */
  predicate PlainNode(n: Node) {
    match n
    case Sub(_, c) => PlainChoice(c)
    case Repeat(body, min, max, greed) =>
      && !body.Recurse?
      && (body.Sub? ==> greed != Possessive)
      && (body.Single? && body.atom.Type? && min == 1 && max > 1 ==> greed != Possessive)
      && PlainNode(body)
    case _ => true
  }

  predicate PlainSequence(s: Sequence) {
    s.Then? ==> PlainNode(s.first) && PlainSequence(s.rest)
  }

  predicate PlainChoice(c: Choice) {
    PlainSequence(c.seq0) && (c.Or? ==> PlainChoice(c.others))
  }

  // ---------- the expansion ----------

  function Append(b: Branch, c: Branch): (r: Branch)
    ensures BranchSize(r) == BranchSize(b) + BranchSize(c)
  {
    match b
    case Nil => c
    case Cons(it, rest) => Cons(it, Append(rest, c))
  }

  /** The repeat opcode's offset for the given greed; k is the greedy offset. */
  function Kind(atom: Atom, k: nat, greed: Greed): nat {
    match greed
    case Greedy => k
    case Lazy => k + 1
    case Possessive => k / 2 + (if atom.Cls? then K_CRPOSSTAR else K_POSSTAR)
  }

  function RepItem(atom: Atom, k: nat, greed: Greed, lo: nat, hi: nat): Item {
    Rep(atom, Kind(atom, k, greed), lo, hi)
  }

  /** A repeat of a class; its counts follow the class. */
  function ExpandClass(atom: Atom, min: nat, max: int, greed: Greed): Item
    requires max >= -1
  {
    if min == 0 && max == -1 then RepItem(atom, K_STAR, greed, 0, 0)
    else if min == 1 && max == -1 then RepItem(atom, K_PLUS, greed, 0, 0)
    else if min == 0 && max == 1 then RepItem(atom, K_QUERY, greed, 0, 0)
    else RepItem(atom, K_CRRANGE, greed, min, if max == -1 then 0 else max)
  }

  /** At most max further characters. */
  function ExpandUpto(atom: Atom, max: nat, greed: Greed): Item {
    if max == 1 then RepItem(atom, K_QUERY, greed, 0, 0) else RepItem(atom, K_UPTO, greed, 0, max)
  }

  function ExpandSingle(atom: Atom, min: nat, max: int, greed: Greed): Branch
    requires max == -1 || min <= max
  {
    if max == 0 then Nil
    else if atom.Cls? then Cons(ExpandClass(atom, min, max, greed), Nil)
    else if min == 0 then
      Cons(if max == -1 then RepItem(atom, K_STAR, greed, 0, 0) else ExpandUpto(atom, max, greed), Nil)
    else if min == 1 then
      if max == -1 then Cons(RepItem(atom, K_PLUS, greed, 0, 0), Nil)
      else Cons(One(atom), if max == 1 then Nil else Cons(RepItem(atom, K_UPTO, greed, 0, max - 1), Nil))
    else
      Cons(Rep(atom, K_EXACT, 0, min),
           if max == -1 then Cons(RepItem(atom, K_STAR, greed, 0, 0), Nil)
           else if max == min then Nil
           else Cons(ExpandUpto(atom, max - min, greed), Nil))
  }

  /** An atomic group. */
  function Once(b: Branch): (r: Item)
    ensures r.Group?
  {
    Group(OP_ONCE, 0, Last(b), OP_KET)
  }

  /** A possessive character type that follows one mandatory copy of itself has
    * no opcode of its own and goes into atomic brackets. */
  predicate WrapsSingle(atom: Atom, min: nat, max: int, greed: Greed) {
    atom.Type? && min == 1 && max > 1 && greed == Possessive
  }

  function ExpandAtom(atom: Atom, min: nat, max: int, greed: Greed): Branch
    requires max == -1 || min <= max
  {
    if WrapsSingle(atom, min, max, greed) then Cons(Once(ExpandSingle(atom, min, max, Greedy)), Nil)
    else ExpandSingle(atom, min, max, greed)
  }

  function GroupItem(num: nat, alts: Alts, ket: byte): (r: Item)
    ensures r.Group?
  {
    Group(if num == 0 then OP_BRA else OP_CBRA, num, alts, ket)
  }

  /** Possessive groups go into atomic brackets, except for unbounded ones with
    * at most one mandatory copy and those that are skipped altogether. */
  predicate WrapsGroup(min: nat, max: int, greed: Greed) {
    greed == Possessive && max != 0 && (max == -1 ==> min >= 2)
  }

  function ZeroOp(greed: Greed): byte {
    if greed == Lazy then OP_BRAMINZERO else OP_BRAZERO
  }

  function KetOp(greed: Greed): byte {
    if greed == Lazy then OP_KETRMIN else if greed == Possessive then OP_KETRPOS else OP_KETRMAX
  }

  /** The bracket of the last copy when the group loops possessively; an atomic
    * group then needs no bracket of its own kind. */
  function LoopBra(bra: byte, greed: Greed): byte {
    if greed != Possessive then bra else if bra == OP_CBRA then OP_CBRAPOS else OP_BRAPOS
  }

  function LoopItem(g: Item, greed: Greed): (r: Item)
    requires g.Group?
    ensures r.Group?
  {
    Group(LoopBra(g.bra, greed), g.num, g.alts, KetOp(greed))
  }

  /** In front of a group that may be skipped and otherwise loops. */
  function LoopZero(greed: Greed): byte {
    if greed == Possessive then OP_BRAPOSZERO else ZeroOp(greed)
  }

  /** At most k copies of g, each further one inside the brackets of the one
    * before. */
  function Nest(g: Item, k: nat, greed: Greed): (r: Item)
    requires k >= 1
    ensures r.Zero?
  {
    if k == 1 then Zero(ZeroOp(greed), g)
    else Zero(ZeroOp(greed), Group(OP_BRA, 0, Last(Cons(g, Cons(Nest(g, k - 1, greed), Nil))), OP_KET))
  }

  function Copies(g: Item, k: nat, tail: Branch): Branch {
    if k == 0 then tail else Cons(g, Copies(g, k - 1, tail))
  }

  /** The copies of a group that its quantifier makes. */
  function GroupCopies(g: Item, min: nat, max: int, greed: Greed): Branch
    requires g.Group? && (max == -1 || min <= max)
  {
    if max == 0 then Cons(Zero(OP_SKIPZERO, g), Nil)
    else if min == 0 && max == -1 then Cons(Zero(LoopZero(greed), LoopItem(g, greed)), Nil)
    else if max == -1 then Copies(g, min - 1, Cons(LoopItem(g, greed), Nil))
    else Copies(g, min, if max == min then Nil else Cons(Nest(g, max - min, greed), Nil))
  }

  function ExpandGroup(g: Item, min: nat, max: int, greed: Greed): Branch
    requires g.Group? && (max == -1 || min <= max)
  {
    var copies := GroupCopies(g, min, max, greed);
    if WrapsGroup(min, max, greed) then Cons(Once(copies), Nil) else copies
  }

  function ExpandNode(n: Node): Branch
    requires NodeOk(n)
    decreases n
  {
    match n
    case Assert(op) => Cons(Anchor(op), Nil)
    case Single(atom) => Cons(One(atom), Nil)
    case Sub(num, c) => Cons(GroupItem(num, ExpandChoice(c), OP_KET), Nil)
    case Recurse(num) => Cons(Call(num), Nil)
    case Repeat(body, min, max, greed) =>
      match body
      case Single(atom) =>
        ExpandAtom(atom, min, max, greed)
      case Sub(num, c) => assert NodeOk(body); ExpandGroup(GroupItem(num, ExpandChoice(c), OP_KET), min, max, greed)
      case Recurse(num) => ExpandGroup(Once(Cons(Call(num), Nil)), min, max, greed)
      case _ => Nil
  }

  function ExpandSequence(s: Sequence): Branch
    requires SequenceOk(s)
    decreases s
  {
    match s
    case End => Nil
    case Then(n, rest) => Append(ExpandNode(n), ExpandSequence(rest))
  }

  function ExpandChoice(c: Choice): Alts
    requires ChoiceOk(c)
    decreases c
  {
    match c
    case Only(s) => Last(ExpandSequence(s))
    case Or(s, others) => More(ExpandSequence(s), ExpandChoice(others))
  }

  /** The whole pattern is one non-capturing group. */
  function Expand(pattern: Choice): (r: Item)
    requires ChoiceOk(pattern)
    ensures r.Group?
  {
    GroupItem(0, ExpandChoice(pattern), OP_KET)
  }

  // ---------- composition and iteration ----------

  lemma {:induction false} AppendSplit(env: Env, facts: iset<Fact>, b: Branch, c: Branch, p: nat, q: nat)
    returns (r: nat)
    requires MBranch(env, facts, Append(b, c), p, q)
    ensures MBranch(env, facts, b, p, r) && MBranch(env, facts, c, r, q)
    decreases b
  {
    r := p;
    if b.Cons? {
      var m := BranchSplit(env, facts, Append(b, c), p, q);
      r := AppendSplit(env, facts, b.tail, c, m, q);
      BranchJoin(env, facts, b, p, m, r);
    }
  }

  lemma {:induction false} AppendJoin(env: Env, facts: iset<Fact>, b: Branch, c: Branch, p: nat, r: nat, q: nat)
    requires MBranch(env, facts, b, p, r) && MBranch(env, facts, c, r, q)
    ensures MBranch(env, facts, Append(b, c), p, q)
    decreases b
  {
    if b.Cons? {
      var m := BranchSplit(env, facts, b, p, r);
      AppendJoin(env, facts, b.tail, c, m, r, q);
      BranchJoin(env, facts, Append(b, c), p, m, q);
    }
  }

  lemma SingleItem(env: Env, facts: iset<Fact>, it: Item, p: nat, q: nat)
    ensures MBranch(env, facts, Cons(it, Nil), p, q) <==> MItem(env, facts, it, p, q)
  {
    if MItem(env, facts, it, p, q) {
      assert MBranch(env, facts, Nil, q, q);
    }
  }

  lemma {:induction false} IterSplit(env: Env, facts: iset<Fact>, alts: Alts, a: nat, b: nat, p: nat, q: nat)
    returns (r: nat)
    requires MIter(env, facts, alts, a + b, p, q)
    ensures MIter(env, facts, alts, a, p, r) && MIter(env, facts, alts, b, r, q)
    decreases a
  {
    r := p;
    if a > 0 {
      var m := IterTake(env, facts, alts, a + b, p, q);
      r := IterSplit(env, facts, alts, a - 1, b, m, q);
      IterJoin(env, facts, alts, a - 1, p, m, r);
    }
  }

  lemma {:induction false} IterConcat(env: Env, facts: iset<Fact>, alts: Alts, a: nat, b: nat, p: nat, r: nat, q: nat)
    requires MIter(env, facts, alts, a, p, r) && MIter(env, facts, alts, b, r, q)
    ensures MIter(env, facts, alts, a + b, p, q)
    decreases a
  {
    if a > 0 {
      var m := IterTake(env, facts, alts, a, p, r);
      IterConcat(env, facts, alts, a - 1, b, m, r, q);
      IterJoin(env, facts, alts, a - 1 + b, p, m, q);
    }
  }

  lemma {:induction false} CopiesSplit(env: Env, facts: iset<Fact>, g: Item, k: nat, tail: Branch, p: nat, q: nat)
    returns (r: nat)
    requires g.Group? && g.ket == OP_KET && MBranch(env, facts, Copies(g, k, tail), p, q)
    ensures MIter(env, facts, g.alts, k, p, r) && MBranch(env, facts, tail, r, q)
    decreases k
  {
    r := p;
    if k > 0 {
      var m := BranchSplit(env, facts, Copies(g, k, tail), p, q);
      r := CopiesSplit(env, facts, g, k - 1, tail, m, q);
      IterJoin(env, facts, g.alts, k - 1, p, m, r);
    }
  }

  lemma {:induction false} CopiesJoin(env: Env, facts: iset<Fact>, g: Item, k: nat, tail: Branch, p: nat, r: nat,
                                      q: nat)
    requires g.Group? && g.ket == OP_KET && MIter(env, facts, g.alts, k, p, r) && MBranch(env, facts, tail, r, q)
    ensures MBranch(env, facts, Copies(g, k, tail), p, q)
    decreases k
  {
    if k > 0 {
      var m := IterTake(env, facts, g.alts, k, p, r);
      CopiesJoin(env, facts, g, k - 1, tail, m, r, q);
      assert MItem(env, facts, g, p, m);
      BranchJoin(env, facts, Copies(g, k, tail), p, m, q);
    }
  }

  /** What a nest of more than one copy holds inside its brackets. */
  function NestBody(g: Item, k: nat, greed: Greed): Branch
    requires k >= 2
  {
    Cons(g, Cons(Nest(g, k - 1, greed), Nil))
  }

  lemma NestOpens(env: Env, facts: iset<Fact>, g: Item, k: nat, greed: Greed, p: nat, q: nat)
    requires k >= 2
    ensures MItem(env, facts, Nest(g, k, greed), p, q) <==> p == q || MBranch(env, facts, NestBody(g, k, greed), p, q)
  {
    assert MAlts(env, facts, Last(NestBody(g, k, greed)), p, q) <==> MBranch(env, facts, NestBody(g, k, greed), p, q);
  }

  lemma {:induction false} NestSplit(env: Env, facts: iset<Fact>, g: Item, k: nat, greed: Greed, p: nat, q: nat)
    returns (n: nat)
    requires g.Group? && g.ket == OP_KET && k >= 1 && MItem(env, facts, Nest(g, k, greed), p, q)
    ensures n <= k && MIter(env, facts, g.alts, n, p, q)
    decreases k
  {
    n := 0;
    if p != q {
      n := 1;
      if k == 1 {
        IterJoin(env, facts, g.alts, 0, p, q, q);
      } else {
        NestOpens(env, facts, g, k, greed, p, q);
        var m := BranchSplit(env, facts, NestBody(g, k, greed), p, q);
        SingleItem(env, facts, Nest(g, k - 1, greed), m, q);
        n := NestSplit(env, facts, g, k - 1, greed, m, q);
        IterJoin(env, facts, g.alts, n, p, m, q);
        n := n + 1;
      }
    }
  }

  lemma {:induction false} NestJoin(env: Env, facts: iset<Fact>, g: Item, k: nat, greed: Greed, n: nat, p: nat, q: nat)
    requires g.Group? && g.ket == OP_KET && n <= k && k >= 1 && MIter(env, facts, g.alts, n, p, q)
    ensures MItem(env, facts, Nest(g, k, greed), p, q)
    decreases k
  {
    if n > 0 {
      var m := IterTake(env, facts, g.alts, n, p, q);
      assert MItem(env, facts, g, p, m);
      if k > 1 {
        NestJoin(env, facts, g, k - 1, greed, n - 1, m, q);
        SingleItem(env, facts, Nest(g, k - 1, greed), m, q);
        BranchJoin(env, facts, NestBody(g, k, greed), p, m, q);
        NestOpens(env, facts, g, k, greed, p, q);
      }
    }
  }

  // ---------- repeated single characters ----------

  lemma {:induction false} TimesIsRun(env: Env, facts: iset<Fact>, atom: Atom, k: nat, p: nat, q: nat)
    requires p <= |env.s|
    ensures MeansTimes(env, facts, Single(atom), k, p, q) <==> Run(env, atom, p, q) && q - p == k
    decreases k
  {
    if k > 0 {
      if MeansTimes(env, facts, Single(atom), k, p, q) {
        var r := TimesTake(env, facts, Single(atom), k, p, q);
        TimesIsRun(env, facts, atom, k - 1, r, q);
      }
      if Run(env, atom, p, q) && q - p == k {
        assert HitAt(env, atom, p);
        TimesIsRun(env, facts, atom, k - 1, p + 1, q);
        TimesJoin(env, facts, Single(atom), k - 1, p, p + 1, q);
      }
    }
  }

  lemma RepeatIsRep(env: Env, facts: iset<Fact>, atom: Atom, min: nat, max: int, greed: Greed, p: nat, q: nat)
    requires p <= |env.s|
    ensures MeansNode(env, facts, Repeat(Single(atom), min, max, greed), p, q)
       <==> MRep(env, atom, min, max, greed == Possessive, p, q)
  {
    var body := Single(atom);
    assert HitAt(env, atom, q) ==> MeansNode(env, facts, body, q, q + 1);
    if k: nat :|
         && MeansTimes(env, facts, body, k, p, q)
         && min <= k && (max == -1 || k <= max)
         && (greed == Possessive ==> k == max || forall r: nat :: !MeansNode(env, facts, body, q, r))
    {
      TimesIsRun(env, facts, atom, k, p, q);
    }
    if MRep(env, atom, min, max, greed == Possessive, p, q) {
      TimesIsRun(env, facts, atom, q - p, p, q);
    }
  }

  /** Two repeats of one atom in a row, the first of a fixed count. */
  lemma TwoReps(env: Env, facts: iset<Fact>, b: Branch, atom: Atom, n: nat, max: int, poss: bool, p: nat, q: nat)
    requires b.Cons? && b.tail.Cons? && b.tail.tail.Nil? && max >= -1 && p <= |env.s|
    requires forall r: nat :: MItem(env, facts, b.head, p, r) <==> MRep(env, atom, n, n, false, p, r)
    requires forall r: nat :: MItem(env, facts, b.tail.head, r, q) <==> MRep(env, atom, 0, max, poss, r, q)
    ensures MBranch(env, facts, b, p, q) <==> MRep(env, atom, n, if max == -1 then -1 else n + max, poss, p, q)
  {
    if MBranch(env, facts, b, p, q) {
      var r := BranchSplit(env, facts, b, p, q);
      SingleItem(env, facts, b.tail.head, r, q);
      assert Run(env, atom, p, q);
    }
    if MRep(env, atom, n, if max == -1 then -1 else n + max, poss, p, q) {
      assert MRep(env, atom, n, n, false, p, p + n) && MRep(env, atom, 0, max, poss, p + n, q);
      SingleItem(env, facts, b.tail.head, p + n, q);
      BranchJoin(env, facts, b, p, p + n, q);
    }
  }

  lemma OneIsRep(env: Env, facts: iset<Fact>, atom: Atom, poss: bool, p: nat, q: nat)
    ensures MItem(env, facts, One(atom), p, q) <==> MRep(env, atom, 1, 1, poss, p, q)
  {
    assert MRep(env, atom, 1, 1, poss, p, q) ==> HitAt(env, atom, p);
  }

  /** A repeat that is spelt out as one item. */
  lemma OneRep(env: Env, facts: iset<Fact>, atom: Atom, min: nat, max: int, greed: Greed, p: nat, q: nat)
    requires AtomOk(atom) && (max == -1 || min <= max) && max != 0
    requires atom.Cls? || min == 0 || (min == 1 && max == -1)
    ensures MBranch(env, facts, ExpandSingle(atom, min, max, greed), p, q)
       <==> MRep(env, atom, min, max, greed == Possessive, p, q)
  {
    hide MRep;
    SingleItem(env, facts, ExpandSingle(atom, min, max, greed).head, p, q);
  }

  lemma SingleMeans(env: Env, facts: iset<Fact>, atom: Atom, min: nat, max: int, greed: Greed, p: nat, q: nat)
    requires AtomOk(atom) && (max == -1 || min <= max) && p <= |env.s|
    ensures MBranch(env, facts, ExpandSingle(atom, min, max, greed), p, q)
       <==> MRep(env, atom, min, max, greed == Possessive, p, q)
  {
    if max == 0 {
      assert MRep(env, atom, min, max, greed == Possessive, p, q) <==> p == q;
    } else if atom.Cls? || min == 0 || (min == 1 && max == -1) {
      OneRep(env, facts, atom, min, max, greed, p, q);
    } else {
      FixedThenRep(env, facts, atom, min, max, greed, p, q);
    }
  }

  lemma FixedThenRep(env: Env, facts: iset<Fact>, atom: Atom, min: nat, max: int, greed: Greed, p: nat, q: nat)
    requires AtomOk(atom) && (max == -1 || min <= max) && max != 0 && p <= |env.s|
    requires !atom.Cls? && min > 0 && !(min == 1 && max == -1)
    ensures MBranch(env, facts, ExpandSingle(atom, min, max, greed), p, q)
       <==> MRep(env, atom, min, max, greed == Possessive, p, q)
  {
    hide MRep;
    var b := ExpandSingle(atom, min, max, greed);
    var poss := greed == Possessive;
    forall r: nat ensures MItem(env, facts, b.head, p, r) <==> MRep(env, atom, min, min, false, p, r) {
      if min == 1 {
        OneIsRep(env, facts, atom, false, p, r);
      }
    }
    if max == min {
      SingleItem(env, facts, b.head, p, q);
      RepToMax(env, atom, min, poss, p, q);
    } else {
      TwoReps(env, facts, b, atom, min, if max == -1 then -1 else max - min, poss, p, q);
    }
  }

  /** A repeat of a fixed count is possessive anyway. */
  lemma RepToMax(env: Env, atom: Atom, n: nat, poss: bool, p: nat, q: nat)
    ensures MRep(env, atom, n, n, poss, p, q) <==> MRep(env, atom, n, n, false, p, q)
  {
  }

  // ---------- repeated groups ----------

  /** Between min and max passes through a group, in any number of copies. */
  lemma GroupSplit(env: Env, facts: iset<Fact>, g: Item, min: nat, max: int, greed: Greed, p: nat, q: nat)
    returns (k: nat)
    requires g.Group? && g.ket == OP_KET && (max == -1 || min <= max) && greed != Possessive
    requires MBranch(env, facts, ExpandGroup(g, min, max, greed), p, q)
    ensures MIter(env, facts, g.alts, k, p, q) && min <= k && (max == -1 || k <= max)
  {
    var loop := LoopItem(g, greed);
    var b := ExpandGroup(g, min, max, greed);
    if max == 0 {
      SingleItem(env, facts, b.head, p, q);
      k := 0;
    } else if min == 0 && max == -1 {
      SingleItem(env, facts, b.head, p, q);
      k := 0;
      if p != q {
        assert MItem(env, facts, loop, p, q);
        k :| k >= 1 && MIter(env, facts, g.alts, k, p, q);
      }
    } else if max == -1 {
      var r := CopiesSplit(env, facts, g, min - 1, Cons(loop, Nil), p, q);
      SingleItem(env, facts, loop, r, q);
      var j: nat :| j >= 1 && MIter(env, facts, g.alts, j, r, q);
      IterConcat(env, facts, g.alts, min - 1, j, p, r, q);
      k := min - 1 + j;
    } else {
      var tail := if max == min then Nil else Cons(Nest(g, max - min, greed), Nil);
      var r := CopiesSplit(env, facts, g, min, tail, p, q);
      var j := 0;
      if max != min {
        SingleItem(env, facts, tail.head, r, q);
        j := NestSplit(env, facts, g, max - min, greed, r, q);
      }
      IterConcat(env, facts, g.alts, min, j, p, r, q);
      k := min + j;
    }
  }

  lemma GroupJoin(env: Env, facts: iset<Fact>, g: Item, min: nat, max: int, greed: Greed, k: nat, p: nat, q: nat)
    requires g.Group? && g.ket == OP_KET && (max == -1 || min <= max) && greed != Possessive
    requires MIter(env, facts, g.alts, k, p, q) && min <= k && (max == -1 || k <= max)
    ensures MBranch(env, facts, ExpandGroup(g, min, max, greed), p, q)
  {
    var loop := LoopItem(g, greed);
    var b := ExpandGroup(g, min, max, greed);
    if max == 0 {
      SingleItem(env, facts, b.head, p, q);
    } else if min == 0 && max == -1 {
      if k > 0 {
        assert MItem(env, facts, loop, p, q);
      }
      assert MItem(env, facts, b.head, p, q);
      SingleItem(env, facts, b.head, p, q);
    } else if max == -1 {
      var r := IterSplit(env, facts, g.alts, min - 1, k - (min - 1), p, q);
      assert MItem(env, facts, loop, r, q);
      SingleItem(env, facts, loop, r, q);
      CopiesJoin(env, facts, g, min - 1, Cons(loop, Nil), p, r, q);
    } else {
      var tail := if max == min then Nil else Cons(Nest(g, max - min, greed), Nil);
      var r := IterSplit(env, facts, g.alts, min, k - min, p, q);
      if max != min {
        NestJoin(env, facts, g, max - min, greed, k - min, r, q);
        SingleItem(env, facts, tail.head, r, q);
      }
      CopiesJoin(env, facts, g, min, tail, p, r, q);
    }
  }

  // ---------- the expansion keeps the meaning, calls given ----------

  lemma {:induction false} NodeExpands(env: Env, facts: iset<Fact>, n: Node, p: nat, q: nat)
    requires FactsOk(env, facts) && NodeOk(n) && PlainNode(n) && p <= |env.s|
    ensures MBranch(env, facts, ExpandNode(n), p, q) <==> MeansNode(env, facts, n, p, q)
    decreases n, 1
  {
    match n
    case Sub(num, c) =>
      SingleItem(env, facts, GroupItem(num, ExpandChoice(c), OP_KET), p, q);
      ChoiceExpands(env, facts, c, p, q);
    case Repeat(body, min, max, greed) =>
      if body.Single? {
        SingleMeans(env, facts, body.atom, min, max, greed, p, q);
        RepeatIsRep(env, facts, body.atom, min, max, greed, p, q);
      } else {
        RepeatExpands(env, facts, n, p, q);
      }
    case Assert(_) => SingleItem(env, facts, ExpandNode(n).head, p, q);
    case Single(_) => SingleItem(env, facts, ExpandNode(n).head, p, q);
    case Recurse(_) => SingleItem(env, facts, ExpandNode(n).head, p, q);
  }

  lemma {:induction false} RepeatExpands(env: Env, facts: iset<Fact>, n: Node, p: nat, q: nat)
    requires FactsOk(env, facts) && NodeOk(n) && PlainNode(n) && n.Repeat? && n.body.Sub? && p <= |env.s|
    ensures MBranch(env, facts, ExpandNode(n), p, q) <==> MeansNode(env, facts, n, p, q)
    decreases n, 0
  {
    var c, min, max := n.body.choice, n.min, n.max;
    assert NodeOk(n.body) && PlainNode(n.body);
    var g := GroupItem(n.body.num, ExpandChoice(c), OP_KET);
    if MBranch(env, facts, ExpandNode(n), p, q) {
      var k := GroupSplit(env, facts, g, min, max, n.greed, p, q);
      TimesExpand(env, facts, n.body.num, c, k, p, q);
    }
    if MeansNode(env, facts, n, p, q) {
      var k := RepeatTake(env, facts, n, p, q);
      TimesExpand(env, facts, n.body.num, c, k, p, q);
      GroupJoin(env, facts, g, min, max, n.greed, k, p, q);
    }
  }

  lemma {:induction false} TimesExpand(env: Env, facts: iset<Fact>, num: nat, c: Choice, k: nat, p: nat, q: nat)
    requires FactsOk(env, facts) && ChoiceOk(c) && PlainChoice(c) && p <= |env.s|
    ensures MIter(env, facts, ExpandChoice(c), k, p, q) <==> MeansTimes(env, facts, Sub(num, c), k, p, q)
    decreases c, k + 1
  {
    var alts := ExpandChoice(c);
    if k > 0 {
      if MIter(env, facts, alts, k, p, q) {
        var r := IterTake(env, facts, alts, k, p, q);
        AltsBounds(env, facts, alts, p, r);
        ChoiceExpands(env, facts, c, p, r);
        TimesExpand(env, facts, num, c, k - 1, r, q);
        TimesJoin(env, facts, Sub(num, c), k - 1, p, r, q);
      }
      if MeansTimes(env, facts, Sub(num, c), k, p, q) {
        var r := TimesTake(env, facts, Sub(num, c), k, p, q);
        ChoiceExpands(env, facts, c, p, r);
        AltsBounds(env, facts, alts, p, r);
        TimesExpand(env, facts, num, c, k - 1, r, q);
        IterJoin(env, facts, alts, k - 1, p, r, q);
      }
    }
  }

  lemma {:induction false} SequenceExpands(env: Env, facts: iset<Fact>, s: Sequence, p: nat, q: nat)
    requires FactsOk(env, facts) && SequenceOk(s) && PlainSequence(s) && p <= |env.s|
    ensures MBranch(env, facts, ExpandSequence(s), p, q) <==> MeansSequence(env, facts, s, p, q)
    decreases s, 0
  {
    if s.Then? {
      var b, c := ExpandNode(s.first), ExpandSequence(s.rest);
      if MBranch(env, facts, ExpandSequence(s), p, q) {
        var r := AppendSplit(env, facts, b, c, p, q);
        BranchBounds(env, facts, b, p, r);
        NodeExpands(env, facts, s.first, p, r);
        SequenceExpands(env, facts, s.rest, r, q);
      }
      if MeansSequence(env, facts, s, p, q) {
        var r := SequenceTake(env, facts, s, p, q);
        NodeExpands(env, facts, s.first, p, r);
        BranchBounds(env, facts, b, p, r);
        SequenceExpands(env, facts, s.rest, r, q);
        AppendJoin(env, facts, b, c, p, r, q);
      }
    }
  }

  lemma {:induction false} ChoiceExpands(env: Env, facts: iset<Fact>, c: Choice, p: nat, q: nat)
    requires FactsOk(env, facts) && ChoiceOk(c) && PlainChoice(c) && p <= |env.s|
    ensures MAlts(env, facts, ExpandChoice(c), p, q) <==> MeansChoice(env, facts, c, p, q)
    decreases c, 0
  {
    SequenceExpands(env, facts, c.seq0, p, q);
    if c.Or? {
      ChoiceExpands(env, facts, c.others, p, q);
    }
  }

  // ---------- the expansion keeps what calls lead to ----------

  ghost predicate SameCallee(r: Option<Item>, c: Option<Choice>) {
    (r.Some? <==> c.Some?) && (r.Some? ==> ChoiceOk(c.value) && r.value.Group? && r.value.alts == ExpandChoice(c.value))
  }

  lemma {:induction false} FindAppended(b: Branch, c: Branch, num: nat)
    ensures FindInBranch(Append(b, c), num)
            == if FindInBranch(b, num).Some? then FindInBranch(b, num) else FindInBranch(c, num)
  {
    if b.Cons? {
      FindAppended(b.tail, c, num);
    }
  }

  lemma FindInOne(it: Item, num: nat)
    ensures FindInBranch(Cons(it, Nil), num) == FindGroup(it, num)
  {
  }

  lemma {:induction false} FindInNest(g: Item, k: nat, greed: Greed, num: nat)
    requires k >= 1
    ensures FindGroup(Nest(g, k, greed), num) == FindGroup(g, num)
    decreases k
  {
    if k > 1 {
      var inner := Nest(g, k - 1, greed);
      FindInNest(g, k - 1, greed, num);
      FindInOne(inner, num);
      var body := Last(NestBody(g, k, greed));
      assert FindInAlts(body, num) == FindInBranch(NestBody(g, k, greed), num) == FindGroup(g, num);
      assert Nest(g, k, greed).group == Group(OP_BRA, 0, body, OP_KET);
      assert FindGroup(Nest(g, k, greed).group, num) == FindInAlts(body, num);
    }
  }

  lemma {:induction false} FindInCopies(g: Item, k: nat, tail: Branch, num: nat)
    ensures FindInBranch(Copies(g, k, tail), num)
         == if k > 0 && FindGroup(g, num).Some? then FindGroup(g, num) else FindInBranch(tail, num)
    decreases k
  {
    if k > 0 {
      FindInCopies(g, k - 1, tail, num);
    }
  }

  lemma NoGroupInSingle(atom: Atom, min: nat, max: int, greed: Greed, num: nat)
    requires max == -1 || min <= max
    ensures FindInBranch(ExpandSingle(atom, min, max, greed), num).None?
  {
    var b := ExpandSingle(atom, min, max, greed);
    if b.Cons? {
      assert FindInBranch(b.tail, num).None?;
    }
  }

  lemma FindInOnce(b: Branch, num: nat)
    ensures FindInBranch(Cons(Once(b), Nil), num) == FindInBranch(b, num)
  {
    FindInOne(Once(b), num);
    assert FindInAlts(Last(b), num) == FindInBranch(b, num);
  }

  lemma FindInGroup(g: Item, min: nat, max: int, greed: Greed, num: nat)
    requires g.Group? && (max == -1 || min <= max)
    ensures var r, t := FindInBranch(ExpandGroup(g, min, max, greed), num), FindGroup(g, num);
            (r.Some? <==> t.Some?) && (r.Some? ==> r.value.alts == t.value.alts)
  {
    var loop := LoopItem(g, greed);
    var b := GroupCopies(g, min, max, greed);
    FindInOnce(b, num);
    if max == 0 || (min == 0 && max == -1) {
      FindInOne(b.head, num);
      assert FindGroup(b.head, num) == FindGroup(b.head.group, num);
    } else if max == -1 {
      FindInCopies(g, min - 1, Cons(loop, Nil), num);
      FindInOne(loop, num);
    } else {
      var tail := if max == min then Nil else Cons(Nest(g, max - min, greed), Nil);
      FindInCopies(g, min, tail, num);
      if max != min {
        FindInNest(g, max - min, greed, num);
        FindInOne(tail.head, num);
      }
    }
  }

  lemma {:induction false} NodeFound(n: Node, num: nat)
    requires NodeOk(n)
    ensures SameCallee(FindInBranch(ExpandNode(n), num), FindNode(n, num))
    decreases n
  {
    match n
    case Sub(k, c) =>
      ChoiceFound(c, num);
      FindInOne(ExpandNode(n).head, num);
    case Repeat(body, min, max, greed) =>
      assert FindNode(n, num) == FindNode(body, num) && NodeOk(body);
      if body.Single? {
        NoGroupInSingle(body.atom, min, max, greed, num);
        NoGroupInSingle(body.atom, min, max, Greedy, num);
        FindInOnce(ExpandSingle(body.atom, min, max, Greedy), num);
      } else if body.Sub? {
        ChoiceFound(body.choice, num);
        FindInGroup(GroupItem(body.num, ExpandChoice(body.choice), OP_KET), min, max, greed, num);
      } else {
        FindInOnce(Cons(Call(body.num), Nil), num);
        FindInOne(Once(Cons(Call(body.num), Nil)), num);
        FindInOne(Call(body.num), num);
        FindInGroup(Once(Cons(Call(body.num), Nil)), min, max, greed, num);
      }
    case Assert(_) => FindInOne(ExpandNode(n).head, num);
    case Single(_) => FindInOne(ExpandNode(n).head, num);
    case Recurse(_) => FindInOne(ExpandNode(n).head, num);
  }

  lemma {:induction false} SequenceFound(s: Sequence, num: nat)
    requires SequenceOk(s)
    ensures SameCallee(FindInBranch(ExpandSequence(s), num), FindSequence(s, num))
    decreases s
  {
    if s.Then? {
      NodeFound(s.first, num);
      SequenceFound(s.rest, num);
      FindAppended(ExpandNode(s.first), ExpandSequence(s.rest), num);
    }
  }

  lemma {:induction false} ChoiceFound(c: Choice, num: nat)
    requires ChoiceOk(c)
    ensures SameCallee(FindInAlts(ExpandChoice(c), num), FindChoice(c, num))
    decreases c
  {
    SequenceFound(c.seq0, num);
    if c.Or? {
      ChoiceFound(c.others, num);
    }
  }

  lemma CalleeFound(pattern: Choice, num: nat)
    requires ChoiceOk(pattern)
    ensures SameCallee(Callee(Expand(pattern), num), Called(pattern, num))
  {
    ChoiceFound(pattern, num);
  }

  lemma {:induction false} PlainFoundNode(n: Node, num: nat)
    requires PlainNode(n) && FindNode(n, num).Some?
    ensures PlainChoice(FindNode(n, num).value)
    decreases n
  {
    match n
    case Sub(k, c) => if k != num || num == 0 { PlainFound(c, num); }
    case Repeat(body, _, _, _) => PlainFoundNode(body, num);
  }

  lemma {:induction false} PlainFoundSequence(s: Sequence, num: nat)
    requires PlainSequence(s) && FindSequence(s, num).Some?
    ensures PlainChoice(FindSequence(s, num).value)
    decreases s
  {
    if FindNode(s.first, num).Some? {
      PlainFoundNode(s.first, num);
    } else {
      PlainFoundSequence(s.rest, num);
    }
  }

  lemma {:induction false} PlainFound(c: Choice, num: nat)
    requires PlainChoice(c) && FindChoice(c, num).Some?
    ensures PlainChoice(FindChoice(c, num).value)
    decreases c
  {
    if FindSequence(c.seq0, num).Some? {
      PlainFoundSequence(c.seq0, num);
    } else {
      PlainFound(c.others, num);
    }
  }

  // ---------- the whole pattern ----------

  /** The engine applies the options on empty matches to the matches of called groups
    * as well; here that makes no difference. */
  ghost predicate Unfiltered(env: Env, pattern: Choice) {
    forall f: Fact :: f in Calls(env, pattern) && f.num in CalledChoice(pattern) ==> env.Allowed(f.p, f.q)
  }

  /** What a call matches in the code and in the pattern, one level further out. */
  lemma CallExpands(env: Env, pattern: Choice, d: nat, f: Fact)
    requires ChoiceOk(pattern) && PlainChoice(pattern) && d > 0 && f.p <= |env.s| && Called(pattern, f.num).Some?
    ensures Callee(Expand(pattern), f.num).Some?
    ensures MAlts(env, FactsTo(env, Expand(pattern), d - 1), Callee(Expand(pattern), f.num).value.alts, f.p, f.q)
       <==> MeansChoice(env, FactsTo(env, Expand(pattern), d - 1), Called(pattern, f.num).value, f.p, f.q)
    ensures MAlts(env, CallsTo(env, pattern, d - 1), Callee(Expand(pattern), f.num).value.alts, f.p, f.q)
       <==> MeansChoice(env, CallsTo(env, pattern, d - 1), Called(pattern, f.num).value, f.p, f.q)
  {
    CalleeFound(pattern, f.num);
    if f.num != 0 {
      PlainFound(pattern, f.num);
    }
    FactsToOk(env, Expand(pattern), d - 1);
    CallsToOk(env, pattern, d - 1);
    ChoiceExpands(env, FactsTo(env, Expand(pattern), d - 1), Called(pattern, f.num).value, f.p, f.q);
    ChoiceExpands(env, CallsTo(env, pattern, d - 1), Called(pattern, f.num).value, f.p, f.q);
  }

  lemma {:induction false} CallsToExpand(env: Env, pattern: Choice, d: nat)
    requires ChoiceOk(pattern) && PlainChoice(pattern) && Unfiltered(env, pattern)
    ensures Agree(CallsTo(env, pattern, d), FactsTo(env, Expand(pattern), d), CalledChoice(pattern))
  {
    var root, nums := Expand(pattern), CalledChoice(pattern);
    hide Expand, PlainChoice, ChoiceOk, MeansChoice, CalledChoice;
    if d > 0 {
      CallsToExpand(env, pattern, d - 1);
    }
    forall f: Fact | f.num in nums ensures CallMeans(env, pattern, d, f) <==> FactAt(env, root, d, f) {
      CalleeFound(pattern, f.num);
      if d > 0 && f.p <= |env.s| && Called(pattern, f.num).Some? {
        CallExpands(env, pattern, d, f);
        CalledInside(pattern, f.num);
        ChoiceRelies(env, CallsTo(env, pattern, d - 1), FactsTo(env, root, d - 1), Called(pattern, f.num).value, f.p,
                     f.q);
        assert CallMeans(env, pattern, d, f) ==> f in Calls(env, pattern);
      }
    }
  }

  /** Calls match the same in the code and in the pattern exactly if no call makes an
    * empty match where the options forbid one. */
  lemma CallsExpand(env: Env, pattern: Choice)
    requires ChoiceOk(pattern) && PlainChoice(pattern)
    ensures Unfiltered(env, pattern) <==> Agree(Calls(env, pattern), Facts(env, Expand(pattern)), CalledChoice(pattern))
  {
    hide Expand, PlainChoice, ChoiceOk, CalledChoice;
    if Unfiltered(env, pattern) {
      forall f: Fact | f.num in CalledChoice(pattern)
        ensures CallMeansSome(env, pattern, f) <==> SomeDepth(env, Expand(pattern), f)
      {
        forall d: nat ensures CallMeans(env, pattern, d, f) <==> FactAt(env, Expand(pattern), d, f) {
          CallsToExpand(env, pattern, d);
          assert f in CallsTo(env, pattern, d) <==> f in FactsTo(env, Expand(pattern), d);
        }
      }
    }
    if Agree(Calls(env, pattern), Facts(env, Expand(pattern)), CalledChoice(pattern)) {
      forall f: Fact | f in Calls(env, pattern) && f.num in CalledChoice(pattern) ensures env.Allowed(f.p, f.q) {
        CallsAreClosed(env, Expand(pattern), f);
      }
    }
  }

  /** The code tree matches exactly what the pattern matches. */
  lemma ExpansionKeepsMeaning(env: Env, pattern: Choice, p: nat, q: nat)
    requires ChoiceOk(pattern) && PlainChoice(pattern) && p <= |env.s| && Unfiltered(env, pattern)
    ensures Matches(env, Expand(pattern), p, q) <==> Means(env, pattern, p, q)
  {
    CallsExpand(env, pattern);
    FactsAreOk(env, Expand(pattern));
    ChoiceExpands(env, Facts(env, Expand(pattern)), pattern, p, q);
    ChoiceRelies(env, Calls(env, pattern), Facts(env, Expand(pattern)), pattern, p, q);
  }

  lemma {:induction false} FactsAreCalls(env: Env, pattern: Choice, d: nat)
    requires ChoiceOk(pattern) && PlainChoice(pattern)
    ensures FactsTo(env, Expand(pattern), d) <= CallsTo(env, pattern, d)
  {
    var root := Expand(pattern);
    hide Expand, PlainChoice, ChoiceOk, MeansChoice;
    if d > 0 {
      FactsAreCalls(env, pattern, d - 1);
      forall f: Fact | FactAt(env, root, d, f) ensures CallMeans(env, pattern, d, f) {
        CalleeFound(pattern, f.num);
        CallExpands(env, pattern, d, f);
        AltsMono(env, FactsTo(env, root, d - 1), CallsTo(env, pattern, d - 1), Callee(root, f.num).value.alts,
                 f.p, f.q);
      }
    }
  }

  /** Whatever the options, what the code tree matches the pattern means. */
  lemma ExpansionIsSound(env: Env, pattern: Choice, p: nat, q: nat)
    requires ChoiceOk(pattern) && PlainChoice(pattern) && p <= |env.s| && Matches(env, Expand(pattern), p, q)
    ensures Means(env, pattern, p, q)
  {
    var root := Expand(pattern);
    hide Expand, PlainChoice, ChoiceOk, MeansChoice;
    forall f: Fact | f in Facts(env, root) ensures f in Calls(env, pattern) {
      var d: nat :| FactAt(env, root, d, f);
      FactsAreCalls(env, pattern, d);
      assert f in FactsTo(env, root, d);
      assert CallMeans(env, pattern, d, f);
    }
    assert root.alts == ExpandChoice(pattern) by {
      RootAlts(pattern);
    }
    AltsMono(env, Facts(env, root), Calls(env, pattern), root.alts, p, q);
    CallsAreOk(env, pattern);
    ChoiceExpands(env, Calls(env, pattern), pattern, p, q);
  }

  lemma RootAlts(pattern: Choice)
    requires ChoiceOk(pattern)
    ensures Expand(pattern).alts == ExpandChoice(pattern)
  {
  }

  /** What a caller can check beforehand: neither option is set, or every match of every
    * group that is called takes a character; in particular, if no group is called. */
  predicate CallsTake(env: Env, pattern: Choice) {
    || (!env.notempty && !env.notemptyAtStart)
    || forall n :: n in CalledChoice(pattern) && Called(pattern, n).Some? ==> TakesChoice(Called(pattern, n).value)
  }

  lemma CallsTakeUnfiltered(env: Env, pattern: Choice)
    requires CallsTake(env, pattern)
    ensures Unfiltered(env, pattern)
  {
    hide CalledChoice, TakesChoice, MeansChoice;
    forall f: Fact | f in Calls(env, pattern) && f.num in CalledChoice(pattern) ensures env.Allowed(f.p, f.q) {
      var d: nat :| CallMeans(env, pattern, d, f);
      CallsToOk(env, pattern, d - 1);
      if env.notempty || env.notemptyAtStart {
        ChoiceTakes(env, CallsTo(env, pattern, d - 1), Called(pattern, f.num).value, f.p, f.q);
      }
    }
  }
}
