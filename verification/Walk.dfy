/** Walking the code from one instruction to the next by the length of each
  * opcode, the way find_bracket and find_recurse do, and what such a walk finds
  * in code that a tree is laid out in.
  */
module Walk {
  import opened Opcodes
  import opened Tree
  import opened Meaning
  import opened Program

  /** Whole instructions from i to j, none of them OP_END. */
  predicate Walks(code: seq<byte>, i: nat, j: nat)
    decreases j - i
  {
    i == j ||
    (i < j <= |code| && code[i] != OP_END && OpLength(code[i]) > 0 && i + OpLength(code[i]) <= j
      && Walks(code, i + OpLength(code[i]), j))
  }

  /** The first bracket numbered num that a walk from i to j meets. */
  function FirstIn(code: seq<byte>, i: nat, j: nat, num: nat): (r: Option<nat>)
    requires Walks(code, i, j)
    ensures r.Some? ==> i <= r.value && r.value + 5 <= j
    decreases j - i
  {
    if i == j then None
    else if IsCapturing(code[i]) && Get(code, i + 3) == num then Some(i)
    else FirstIn(code, i + OpLength(code[i]), j, num)
  }

  function Either(r: Option<nat>, s: Option<nat>): Option<nat> {
    if r.Some? then r else s
  }

  lemma {:induction false} WalksEnd(code: seq<byte>, i: nat, j: nat)
    requires Walks(code, i, j)
    ensures i <= j && (i < j ==> j <= |code|)
  {
  }

  /** Two walks from the same place go through the same instructions. */
  lemma {:induction false} WalksOrder(code: seq<byte>, g: nat, i: nat, j: nat)
    requires Walks(code, g, i) && Walks(code, g, j) && i <= j
    ensures Walks(code, i, j)
    ensures i < j ==> i + OpLength(code[i]) <= j
    decreases i - g
  {
    if g < i {
      WalksOrder(code, g + OpLength(code[g]), i, j);
    }
  }

  lemma {:induction false} WalkOn(code: seq<byte>, i: nat, j: nat, k: nat)
    requires Walks(code, i, j) && Walks(code, j, k)
    ensures Walks(code, i, k)
    ensures forall num :: FirstIn(code, i, k, num) == Either(FirstIn(code, i, j, num), FirstIn(code, j, k, num))
    decreases j - i
  {
    if i < j {
      var n := i + OpLength(code[i]);
      WalkOn(code, n, j, k);
      WalksEnd(code, j, k);
      forall num ensures FirstIn(code, i, k, num) == Either(FirstIn(code, i, j, num), FirstIn(code, j, k, num)) {
        assert FirstIn(code, n, k, num) == Either(FirstIn(code, n, j, num), FirstIn(code, j, k, num));
      }
    }
  }

  /** A walk looks at nothing outside the instructions it passes. */
  lemma {:induction false} WalkFrame(code: seq<byte>, code': seq<byte>, i: nat, j: nat)
    requires Walks(code, i, j) && j <= |code'|
    requires forall k :: i <= k < j && k < |code| ==> code'[k] == code[k]
    ensures Walks(code', i, j)
    ensures forall num :: FirstIn(code', i, j, num) == FirstIn(code, i, j, num)
    decreases j - i
  {
    if i < j {
      var n := i + OpLength(code[i]);
      WalkFrame(code, code', n, j);
      forall num ensures FirstIn(code', i, j, num) == FirstIn(code, i, j, num) {
        assert FirstIn(code', n, j, num) == FirstIn(code, n, j, num);
      }
    }
  }

  lemma WalkOne(code: seq<byte>, i: nat, j: nat)
    requires i < j <= |code| && code[i] != OP_END && OpLength(code[i]) == j - i
    ensures Walks(code, i, j)
    ensures forall num ::
              FirstIn(code, i, j, num) == if IsCapturing(code[i]) && Get(code, i + 3) == num then Some(i) else None
  {
    assert Walks(code, j, j);
  }

  // ---------- walking over code in which a tree is laid out ----------

  /** A walk from a to e meets the brackets that offset gives. */
  ghost predicate Meets(code: seq<byte>, a: nat, e: nat, offset: nat -> Option<nat>) {
    Walks(code, a, e) && forall num: nat | num > 0 :: FirstIn(code, a, e, num) == offset(num)
  }

  lemma MeetsThen(code: seq<byte>, a: nat, m: nat, e: nat, f: nat -> Option<nat>, g: nat -> Option<nat>,
                  h: nat -> Option<nat>)
    requires Meets(code, a, m, f) && Meets(code, m, e, g)
    requires forall num: nat | num > 0 :: h(num) == Either(f(num), g(num))
    ensures Meets(code, a, e, h)
  {
    WalkOn(code, a, m, e);
    forall num: nat | num > 0 ensures FirstIn(code, a, e, num) == h(num) {
      assert FirstIn(code, a, e, num) == Either(FirstIn(code, a, m, num), FirstIn(code, m, e, num));
    }
  }

  /** An instruction that is not a numbered bracket. */
  lemma MeetsNone(code: seq<byte>, a: nat, e: nat)
    requires a < e <= |code| && code[a] != OP_END && OpLength(code[a]) == e - a && !IsCapturing(code[a])
    ensures Meets(code, a, e, _ => None)
  {
    WalkOne(code, a, e);
  }

  lemma MeetsRep(code: seq<byte>, a: nat, atom: Atom, k: nat, lo: nat, hi: nat)
    requires LayRep(code, a, atom, k, lo, hi)
    ensures Meets(code, a, a + RepSize(atom, k), _ => None)
  {
    var e := a + RepSize(atom, k);
    if atom.Cls? {
      var m := a + AtomSize(atom);
      MeetsNone(code, a, m);
      MeetsNone(code, m, e);
      MeetsThen(code, a, m, e, _ => None, _ => None, _ => None);
    } else {
      MeetsNone(code, a, e);
    }
  }

  lemma {:induction false} WalkItem(x: Links, code: seq<byte>, a: nat, it: Item)
    requires LayItem(x, code, a, it)
    ensures Meets(code, a, a + Size(it), num => FindOffset(it, a, num))
    decreases it
  {
    var e := a + Size(it);
    match it
    case Anchor(_) => MeetsNone(code, a, e);
    case One(atom) => MeetsNone(code, a, e);
    case Rep(atom, k, lo, hi) => MeetsRep(code, a, atom, k, lo, hi);
    case Call(_) => MeetsNone(code, a, e);
    case Zero(_, g) =>
      WalkItem(x, code, a + 1, g);
      MeetsZero(code, a, it);
    case Group(bra, _, alts, ket) =>
      WalkAlts(x, code, a, a + BraSize(bra), alts, a, ket);
      MeetsGroup(x, code, a, it);
  }

  lemma MeetsZero(code: seq<byte>, a: nat, it: Item)
    requires it.Zero? && a + 1 <= |code| && IsAnyZero(code[a])
    requires Meets(code, a + 1, a + Size(it), num => FindOffset(it.group, a + 1, num))
    ensures Meets(code, a, a + Size(it), num => FindOffset(it, a, num))
  {
    MeetsNone(code, a, a + 1);
    MeetsThen(code, a, a + 1, a + Size(it), _ => None, num => FindOffset(it.group, a + 1, num),
              num => FindOffset(it, a, num));
  }

  lemma MeetsGroup(x: Links, code: seq<byte>, a: nat, g: Item)
    requires g.Group? && LayItem(x, code, a, g)
    requires Meets(code, a + BraSize(g.bra), a + Size(g), num => FindOffsetInAlts(g.alts, a + BraSize(g.bra), num))
    ensures Meets(code, a, a + Size(g), num => FindOffset(g, a, num))
  {
    var st := a + BraSize(g.bra);
    WalkOne(code, a, st);
    assert Meets(code, a, st, num => if num == g.num then Some(a) else None);
    MeetsThen(code, a, st, a + Size(g), num => if num == g.num then Some(a) else None,
              num => FindOffsetInAlts(g.alts, st, num), num => FindOffset(g, a, num));
  }

  lemma {:induction false} WalkBranch(x: Links, code: seq<byte>, a: nat, b: Branch)
    requires LayBranch(x, code, a, b)
    ensures Meets(code, a, a + BranchSize(b), num => FindOffsetInBranch(b, a, num))
    decreases b
  {
    if b.Cons? {
      var m := a + Size(b.head);
      WalkItem(x, code, a, b.head);
      WalkBranch(x, code, m, b.tail);
      MeetsThen(code, a, m, a + BranchSize(b), num => FindOffset(b.head, a, num),
                num => FindOffsetInBranch(b.tail, m, num), num => FindOffsetInBranch(b, a, num));
    }
  }

  /** From the first branch over the closing ket. */
  lemma {:induction false} WalkAlts(x: Links, code: seq<byte>, h: nat, st: nat, alts: Alts, bra: nat, ket: byte)
    requires LayAlts(x, code, h, st, alts, bra, ket) && IsAnyKet(ket)
    ensures Meets(code, st, st + AltsSize(alts) + 3, num => FindOffsetInAlts(alts, st, num))
    decreases alts
  {
    var e, end := st + BranchSize(alts.b), st + AltsSize(alts) + 3;
    WalkBranch(x, code, st, alts.b);
    MeetsNone(code, e, e + 3);
    if alts.More? {
      WalkAlts(x, code, e, e + 3, alts.rest, bra, ket);
      MeetsThen(code, e, e + 3, end, _ => None, num => FindOffsetInAlts(alts.rest, e + 3, num),
                num => FindOffsetInAlts(alts.rest, e + 3, num));
      MeetsThen(code, st, e, end, num => FindOffsetInBranch(alts.b, st, num),
                num => FindOffsetInAlts(alts.rest, e + 3, num), num => FindOffsetInAlts(alts, st, num));
    } else {
      MeetsThen(code, st, e, end, num => FindOffsetInBranch(alts.b, st, num), _ => None,
                num => FindOffsetInAlts(alts, st, num));
    }
  }
}
