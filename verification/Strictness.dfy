/** Making repeats possessive never adds a match: what the rewritten tree matches, the
  * original one matches too, subroutine calls included.
  */
module Strictness {
  import opened Opcodes
  import opened Tree
  import opened Meaning
  import opened Machine
  import opened Runs
  import opened References
  import opened Hardening

  // ---------- one rewrite, the calls given ----------

  lemma HardRepMeans(atom: Atom, k: nat, lo: nat, hi: nat)
    requires Yielding(k)
    ensures var h := HardRep(atom, k, lo, hi);
            && h.atom == atom
            && RepMin(atom, h.k, h.lo, h.hi) == RepMin(atom, k, lo, hi)
            && RepMax(atom, h.k, h.lo, h.hi) == RepMax(atom, k, lo, hi)
  {
  }

  lemma {:induction false} HardItemMeans(env: Env, facts: iset<Fact>, it: Item, a: nat, t: nat, p: nat, q: nat)
    requires MItem(env, facts, HardItem(it, a, t), p, q)
    ensures MItem(env, facts, it, p, q)
    decreases it, 0
  {
    match it
    case Rep(atom, k, lo, hi) =>
      if a == t && Yielding(k) {
        HardRepMeans(atom, k, lo, hi);
      }
    case Group(bra, _, alts, ket) =>
      var st := a + BraSize(bra);
      if ket == OP_KET {
        HardAltsMean(env, facts, alts, st, t, p, q);
      } else {
        var n := LoopPasses(env, facts, HardItem(it, a, t), p, q);
        HardIterMeans(env, facts, alts, st, t, n, p, q);
      }
    case Zero(_, g) => if p != q { HardItemMeans(env, facts, g, a + 1, t, p, q); }
    case _ =>
  }

  lemma {:induction false} HardBranchMeans(env: Env, facts: iset<Fact>, b: Branch, a: nat, t: nat, p: nat, q: nat)
    requires MBranch(env, facts, HardBranch(b, a, t), p, q)
    ensures MBranch(env, facts, b, p, q)
    decreases b, 0
  {
    if b.Cons? {
      var r := BranchSplit(env, facts, HardBranch(b, a, t), p, q);
      if t in Offsets(b.head, a) {
        HardItemMeans(env, facts, b.head, a, t, p, r);
      } else {
        HardBranchMeans(env, facts, b.tail, a + Size(b.head), t, r, q);
      }
      BranchJoin(env, facts, b, p, r, q);
    }
  }

  lemma {:induction false} HardAltsMean(env: Env, facts: iset<Fact>, alts: Alts, st: nat, t: nat, p: nat, q: nat)
    requires MAlts(env, facts, HardAlts(alts, st, t), p, q)
    ensures MAlts(env, facts, alts, p, q)
    decreases alts, 0
  {
    var hard := HardAlts(alts, st, t);
    if MBranch(env, facts, hard.b, p, q) {
      if hard.b != alts.b {
        HardBranchMeans(env, facts, alts.b, st, t, p, q);
      }
    } else if hard.rest != alts.rest {
      HardAltsMean(env, facts, alts.rest, st + BranchSize(alts.b) + 3, t, p, q);
    }
  }

  lemma {:induction false} HardIterMeans(env: Env, facts: iset<Fact>, alts: Alts, st: nat, t: nat, n: nat, p: nat,
                                         q: nat)
    requires MIter(env, facts, HardAlts(alts, st, t), n, p, q)
    ensures MIter(env, facts, alts, n, p, q)
    decreases alts, n + 1
  {
    if n > 0 {
      var r := IterTake(env, facts, HardAlts(alts, st, t), n, p, q);
      HardAltsMean(env, facts, alts, st, t, p, r);
      HardIterMeans(env, facts, alts, st, t, n - 1, r, q);
      IterJoin(env, facts, alts, n - 1, p, r, q);
    }
  }

  // ---------- the groups that calls lead to ----------

  /** What the hard group matches in one pass, the soft one matches, the calls given. */
  ghost predicate Within(hard: Option<Item>, soft: Option<Item>) {
    && (hard.Some? <==> soft.Some?)
    && (hard.Some? ==> hard.value.Group? && soft.value.Group?)
    && forall env: Env, facts: iset<Fact>, p: nat, q: nat ::
         hard.Some? && MAlts(env, facts, hard.value.alts, p, q) ==> MAlts(env, facts, soft.value.alts, p, q)
  }

  lemma {:induction false} FoundItemWithin(it: Item, a: nat, t: nat, num: nat)
    ensures Within(FindGroup(HardItem(it, a, t), num), FindGroup(it, num))
    decreases it
  {
    match it
    case Group(bra, n, alts, ket) =>
      var st := a + BraSize(bra);
      if n == num && num != 0 {
        forall env: Env, facts: iset<Fact>, p: nat, q: nat | MAlts(env, facts, HardAlts(alts, st, t), p, q)
          ensures MAlts(env, facts, alts, p, q)
        {
          HardAltsMean(env, facts, alts, st, t, p, q);
        }
      } else {
        FoundAltsWithin(alts, st, t, num);
      }
    case Zero(_, g) => FoundItemWithin(g, a + 1, t, num);
    case _ =>
  }

  lemma {:induction false} FoundBranchWithin(b: Branch, a: nat, t: nat, num: nat)
    ensures Within(FindInBranch(HardBranch(b, a, t), num), FindInBranch(b, num))
    decreases b
  {
    if b.Cons? {
      if t in Offsets(b.head, a) {
        FoundItemWithin(b.head, a, t, num);
      } else {
        FoundBranchWithin(b.tail, a + Size(b.head), t, num);
      }
    }
  }

  lemma {:induction false} FoundAltsWithin(alts: Alts, st: nat, t: nat, num: nat)
    ensures Within(FindInAlts(HardAlts(alts, st, t), num), FindInAlts(alts, num))
    decreases alts
  {
    FoundBranchWithin(alts.b, st, t, num);
    if alts.More? && t !in BranchOffsets(alts.b, st) {
      FoundAltsWithin(alts.rest, st + BranchSize(alts.b) + 3, t, num);
    }
  }

  lemma {:induction false} HardItemCalls(it: Item, a: nat, t: nat)
    ensures CallsIn(HardItem(it, a, t)) == CallsIn(it)
    decreases it
  {
    match it
    case Group(bra, _, alts, _) => HardAltsCalls(alts, a + BraSize(bra), t);
    case Zero(_, g) => HardItemCalls(g, a + 1, t);
    case _ =>
  }

  lemma {:induction false} HardBranchCalls(b: Branch, a: nat, t: nat)
    ensures CallsInBranch(HardBranch(b, a, t)) == CallsInBranch(b)
    decreases b
  {
    if b.Cons? {
      HardItemCalls(b.head, a, t);
      HardBranchCalls(b.tail, a + Size(b.head), t);
    }
  }

  lemma {:induction false} HardAltsCalls(alts: Alts, st: nat, t: nat)
    ensures CallsInAlts(HardAlts(alts, st, t)) == CallsInAlts(alts)
    decreases alts
  {
    HardBranchCalls(alts.b, st, t);
    if alts.More? {
      HardAltsCalls(alts.rest, st + BranchSize(alts.b) + 3, t);
    }
  }

  // ---------- whole trees ----------

  /** The first tree matches no more than the second, whatever group is called. */
  ghost predicate Stricter(hard: Item, soft: Item) {
    && hard.Group? && soft.Group? && CallsIn(hard) == CallsIn(soft)
    && forall num: nat :: Within(Callee(hard, num), Callee(soft, num))
  }

  lemma StricterSelf(root: Item)
    requires root.Group?
    ensures Stricter(root, root)
  {
  }

  lemma StricterTwice(a: Item, b: Item, c: Item)
    requires Stricter(a, b) && Stricter(b, c)
    ensures Stricter(a, c)
  {
    forall num: nat ensures Within(Callee(a, num), Callee(c, num)) {
      assert Within(Callee(a, num), Callee(b, num)) && Within(Callee(b, num), Callee(c, num));
    }
  }

  lemma HardIsStricter(root: Item, t: nat)
    requires root.Group?
    ensures Stricter(HardItem(root, 0, t), root)
  {
    HardItemCalls(root, 0, t);
    forall num: nat ensures Within(Callee(HardItem(root, 0, t), num), Callee(root, num)) {
      FoundItemWithin(root, 0, t, num);
      if num == 0 {
        forall env: Env, facts: iset<Fact>, p: nat, q: nat | MAlts(env, facts, HardItem(root, 0, t).alts, p, q)
          ensures MAlts(env, facts, root.alts, p, q)
        {
          HardAltsMean(env, facts, root.alts, BraSize(root.bra), t, p, q);
        }
      }
    }
  }

  lemma {:induction false} FactsToWithin(env: Env, hard: Item, soft: Item, d: nat)
    requires Stricter(hard, soft)
    ensures FactsTo(env, hard, d) <= FactsTo(env, soft, d)
  {
    if d > 0 {
      FactsToWithin(env, hard, soft, d - 1);
      forall f: Fact | FactAt(env, hard, d, f) ensures FactAt(env, soft, d, f) {
        assert Within(Callee(hard, f.num), Callee(soft, f.num));
        AltsMono(env, FactsTo(env, hard, d - 1), FactsTo(env, soft, d - 1), Callee(hard, f.num).value.alts, f.p, f.q);
      }
    }
  }

  /** What a stricter tree matches, the other one matches. */
  lemma StricterMatches(env: Env, hard: Item, soft: Item, p: nat, q: nat)
    requires Stricter(hard, soft) && Matches(env, hard, p, q)
    ensures Matches(env, soft, p, q)
  {
    forall f: Fact | f in Facts(env, hard) ensures f in Facts(env, soft) {
      var d: nat :| FactAt(env, hard, d, f);
      FactsToWithin(env, hard, soft, d);
      assert f in FactsTo(env, hard, d);
      assert FactAt(env, soft, d, f);
    }
    AltsMono(env, Facts(env, hard), Facts(env, soft), hard.alts, p, q);
    assert Within(Callee(hard, 0), Callee(soft, 0));
  }
}
