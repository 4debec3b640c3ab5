/** The tree of a program in which a set of repeats, given by their offsets, has been made
  * possessive, one after the other.
  */
module HardSets {
  import opened Opcodes
  import opened Tree
  import opened Meaning
  import opened Machine
  import opened Runs
  import opened Program
  import opened Hardening

  function HardSet(it: Item, a: nat, made: set<nat>): (r: Item)
    ensures Size(r) == Size(it) && r.Group? == it.Group?
    decreases it
  {
    match it
    case Rep(atom, k, lo, hi) => if a in made && Yielding(k) then HardRep(atom, k, lo, hi) else it
    case Group(bra, num, alts, ket) => Group(bra, num, HardSetAlts(alts, a + BraSize(bra), made), ket)
    case Zero(op, g) => Zero(op, HardSet(g, a + 1, made))
    case _ => it
  }

  function HardSetBranch(b: Branch, a: nat, made: set<nat>): (r: Branch)
    ensures BranchSize(r) == BranchSize(b)
    decreases b
  {
    match b
    case Nil => Nil
    case Cons(it, rest) => Cons(HardSet(it, a, made), HardSetBranch(rest, a + Size(it), made))
  }

  function HardSetAlts(alts: Alts, st: nat, made: set<nat>): (r: Alts)
    ensures AltsSize(r) == AltsSize(alts) && r.Last? == alts.Last? && BranchSize(r.b) == BranchSize(alts.b)
    decreases alts
  {
    match alts
    case Last(b) => Last(HardSetBranch(b, st, made))
    case More(b, rest) => More(HardSetBranch(b, st, made), HardSetAlts(rest, st + BranchSize(b) + 3, made))
  }

  // ---------- one after the other ----------

  lemma {:induction false} HardNone(it: Item, a: nat)
    ensures HardSet(it, a, {}) == it
    decreases it
  {
    match it
    case Group(bra, _, alts, _) => HardNoneAlts(alts, a + BraSize(bra));
    case Zero(_, g) => HardNone(g, a + 1);
    case _ =>
  }

  lemma {:induction false} HardNoneBranch(b: Branch, a: nat)
    ensures HardSetBranch(b, a, {}) == b
    decreases b
  {
    if b.Cons? {
      HardNone(b.head, a);
      HardNoneBranch(b.tail, a + Size(b.head));
    }
  }

  lemma {:induction false} HardNoneAlts(alts: Alts, st: nat)
    ensures HardSetAlts(alts, st, {}) == alts
    decreases alts
  {
    HardNoneBranch(alts.b, st);
    if alts.More? {
      HardNoneAlts(alts.rest, st + BranchSize(alts.b) + 3);
    }
  }

  /** One more repeat. */
  lemma {:induction false} HardOneMore(it: Item, a: nat, made: set<nat>, t: nat)
    ensures HardItem(HardSet(it, a, made), a, t) == HardSet(it, a, made + {t})
    decreases it
  {
    match it
    case Group(bra, _, alts, _) => HardOneMoreAlts(alts, a + BraSize(bra), made, t);
    case Zero(_, g) => HardOneMore(g, a + 1, made, t);
    case _ =>
  }

  lemma {:induction false} HardOneMoreBranch(b: Branch, a: nat, made: set<nat>, t: nat)
    ensures HardBranch(HardSetBranch(b, a, made), a, t) == HardSetBranch(b, a, made + {t})
    decreases b
  {
    if b.Cons? {
      HardCons(HardSetBranch(b, a, made), a, t);
      hide HardBranch, HardItem, HardSet;
      HardOneMore(b.head, a, made, t);
      HardOneMoreBranch(b.tail, a + Size(b.head), made, t);
    }
  }

  lemma {:induction false} HardOneMoreAlts(alts: Alts, st: nat, made: set<nat>, t: nat)
    ensures HardAlts(HardSetAlts(alts, st, made), st, t) == HardSetAlts(alts, st, made + {t})
    decreases alts
  {
    HardOneMoreBranch(alts.b, st, made, t);
    if alts.More? {
      HardMore(HardSetAlts(alts, st, made), st, t);
      hide HardAlts, HardBranch, HardSetBranch;
      HardOneMoreAlts(alts.rest, st + BranchSize(alts.b) + 3, made, t);
    }
  }

  // ---------- groups are found where they were ----------

  /** The group found in the rewritten tree is the rewritten group. */
  lemma {:induction false} HardFound(it: Item, a: nat, made: set<nat>, num: nat)
    ensures FindOffset(HardSet(it, a, made), a, num) == FindOffset(it, a, num)
    ensures FindGroup(it, num).None? ==> FindGroup(HardSet(it, a, made), num).None?
    ensures FindGroup(it, num).Some? ==>
              && FindOffset(it, a, num).Some?
              && FindGroup(HardSet(it, a, made), num)
                 == Some(HardSet(FindGroup(it, num).value, FindOffset(it, a, num).value, made))
    decreases it
  {
    match it
    case Group(bra, _, alts, _) => HardFoundAlts(alts, a + BraSize(bra), made, num);
    case Zero(_, g) => HardFound(g, a + 1, made, num);
    case _ =>
  }

  lemma {:induction false} HardFoundBranch(b: Branch, a: nat, made: set<nat>, num: nat)
    ensures FindOffsetInBranch(HardSetBranch(b, a, made), a, num) == FindOffsetInBranch(b, a, num)
    ensures FindInBranch(b, num).None? ==> FindInBranch(HardSetBranch(b, a, made), num).None?
    ensures FindInBranch(b, num).Some? ==>
              && FindOffsetInBranch(b, a, num).Some?
              && FindInBranch(HardSetBranch(b, a, made), num)
                 == Some(HardSet(FindInBranch(b, num).value, FindOffsetInBranch(b, a, num).value, made))
    decreases b
  {
    if b.Cons? {
      hide HardSet, FindGroup, FindOffset;
      NotFound(b.head, a, num);
      HardFound(b.head, a, made, num);
      HardFoundBranch(b.tail, a + Size(b.head), made, num);
    }
  }

  lemma {:induction false} HardFoundAlts(alts: Alts, st: nat, made: set<nat>, num: nat)
    ensures FindOffsetInAlts(HardSetAlts(alts, st, made), st, num) == FindOffsetInAlts(alts, st, num)
    ensures FindInAlts(alts, num).None? ==> FindInAlts(HardSetAlts(alts, st, made), num).None?
    ensures FindInAlts(alts, num).Some? ==>
              && FindOffsetInAlts(alts, st, num).Some?
              && FindInAlts(HardSetAlts(alts, st, made), num)
                 == Some(HardSet(FindInAlts(alts, num).value, FindOffsetInAlts(alts, st, num).value, made))
    decreases alts
  {
    NotFoundBranch(alts.b, st, num);
    HardFoundBranch(alts.b, st, made, num);
    if alts.More? {
      hide HardSetBranch, FindInBranch, FindOffsetInBranch;
      HardFoundAlts(alts.rest, st + BranchSize(alts.b) + 3, made, num);
    }
  }
}
