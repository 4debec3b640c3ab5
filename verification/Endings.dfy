/** What the pattern as it is written says about the repeats of its code that are made
  * possessive: which of them can cost a match, and which of them are certain to be made
  * so because nothing but the end of the pattern follows.
  */
module Endings {
  import opened Opcodes
  import opened Tree
  import opened Meaning
  import opened Machine
  import opened Runs
  import opened Decoding
  import opened Pattern
  import opened Expansion
  import opened Program
  import opened References
  import opened CodeScan
  import opened Closure
  import opened Settling
  import opened Comparing
  import opened Hardening
  import opened HardSets
  import opened Rewriting
  import opened Passing
  import opened Trailing
  import opened Ends
  import opened Reaching
  import opened PropertyLists

  // ---------- patterns ----------

  /** Every call leads to a group all of whose repeats are settled within it. */
  predicate CallsSettled(pattern: Choice) {
    forall num :: num in CalledChoice(pattern) && Called(pattern, num).Some? ==>
                    TrailingChoice(Called(pattern, num).value) == {}
  }

  /** Then what the called groups match does not change. */
  lemma SettledIsContained(x: PlainLinks, code: seq<byte>, pattern: Choice, tb: Tables, made: set<nat>, nums: set<nat>)
    requires ChoiceOk(pattern) && PlainChoice(pattern) && IsProgram(x, code, Expand(pattern))
    requires forall o: nat :: o in made ==> Ripe(code, tb, o)
    requires forall num ::
              num in nums && Called(pattern, num).Some? ==> TrailingChoice(Called(pattern, num).value) == {}
    ensures Contained(code, Expand(pattern), made, nums)
  {
    hide ChoiceOk, PlainChoice, IsProgram, Expand, Ripe, Decode, Passed, Called, TrailingChoice, CalleeInner, CalleeKet,
      CalleeOffset;
    var root := Expand(pattern);
    forall num: nat, o: nat | num in nums && Callee(root, num).Some? && CalleeOffset(root, num).Some?
                              && o in made && o in CalleeInner(root, num) && Slack(Decode(code, o))
      ensures CalleeKet(root, num) !in Passed(code, Decode(code, o).next)
    {
      if CalleeKet(root, num) in Passed(code, Decode(code, o).next) {
        TrailingOf(x, code, pattern, tb, num, o);
      }
    }
  }

  lemma TrailingOf(x: PlainLinks, code: seq<byte>, pattern: Choice, tb: Tables, num: nat, o: nat)
    requires ChoiceOk(pattern) && PlainChoice(pattern) && IsProgram(x, code, Expand(pattern))
    requires Callee(Expand(pattern), num).Some? && CalleeOffset(Expand(pattern), num).Some?
    requires o in CalleeInner(Expand(pattern), num) && Ripe(code, tb, o) && Slack(Decode(code, o))
    requires CalleeKet(Expand(pattern), num) in Passed(code, Decode(code, o).next)
    ensures Called(pattern, num).Some? && Decode(code, o).atom in TrailingChoice(Called(pattern, num).value)
  {
    hide ChoiceOk, PlainChoice, IsProgram, Expand, ExpandChoice, Ripe, Decode, Passed, TrailingChoice, TrailAlts,
      CalleeInner, CalleeKet, CalleeOffset;
    PassedIsTrailing(x, code, Expand(pattern), tb, num, o);
    CalleeFound(pattern, num);
    PlainCalled(pattern, num);
    ChoiceTrails(Called(pattern, num).value);
  }

  lemma PlainCalled(pattern: Choice, num: nat)
    requires PlainChoice(pattern) && Called(pattern, num).Some?
    ensures PlainChoice(Called(pattern, num).value)
  {
    hide PlainChoice;
    if num != 0 {
      PlainFound(pattern, num);
    }
  }

  // ---------- a repeat in front of the end is made possessive ----------

  /** Every alternative ends with an unlimited repeat of the atom that is not lazy, perhaps
    * in brackets of its own. */
  predicate EndsWithNode(n: Node, atom: Atom)
    decreases n
  {
    match n
    case Sub(_, c) => EndsWithChoice(c, atom)
    case Repeat(body, _, max, greed) => body == Single(atom) && max == -1 && !greed.Lazy?
    case _ => false
  }

  predicate EndsWithSequence(s: Sequence, atom: Atom)
    decreases s
  {
    s.Then? && if s.rest.End? then EndsWithNode(s.first, atom) else EndsWithSequence(s.rest, atom)
  }

  predicate EndsWithChoice(c: Choice, atom: Atom)
    decreases c
  {
    EndsWithSequence(c.seq0, atom) && (c.Or? ==> EndsWithChoice(c.others, atom))
  }

  predicate EndsWithItem(it: Item, atom: Atom)
    decreases it
  {
    match it
    case Rep(a, k, lo, hi) => a == atom && RepMax(a, k, lo, hi) == -1 && (RepPoss(a, k) || Eager(k))
    case Group(_, _, alts, ket) => ket == OP_KET && EndsWithAlts(alts, atom)
    case _ => false
  }

  predicate EndsWithBranch(b: Branch, atom: Atom)
    decreases b
  {
    b.Cons? && if b.tail.Nil? then EndsWithItem(b.head, atom) else EndsWithBranch(b.tail, atom)
  }

  predicate EndsWithAlts(alts: Alts, atom: Atom)
    decreases alts
  {
    EndsWithBranch(alts.b, atom) && (alts.More? ==> EndsWithAlts(alts.rest, atom))
  }

  lemma {:induction false} AppendEnds(b: Branch, c: Branch, atom: Atom)
    ensures c.Nil? ==> Append(b, c) == b
    ensures EndsWithBranch(c, atom) ==> EndsWithBranch(Append(b, c), atom)
    decreases b
  {
    if b.Cons? {
      AppendEnds(b.tail, c, atom);
    }
  }

  lemma OneEnds(it: Item, atom: Atom)
    ensures EndsWithBranch(Cons(it, Nil), atom) <==> EndsWithItem(it, atom)
  {
  }

  lemma SingleEnds(atom: Atom, min: nat, greed: Greed)
    requires greed != Pattern.Lazy
    ensures EndsWithBranch(ExpandSingle(atom, min, -1, greed), atom)
  {
    hide EndsWithBranch;
    var b := ExpandSingle(atom, min, -1, greed);
    if b.tail.Nil? {
      OneEnds(b.head, atom);
    } else {
      OneEnds(b.tail.head, atom);
      assert Append(Cons(b.head, Nil), b.tail) == b;
      AppendEnds(Cons(b.head, Nil), b.tail, atom);
    }
  }

  lemma {:induction false} NodeEnds(n: Node, atom: Atom)
    requires NodeOk(n) && EndsWithNode(n, atom)
    ensures EndsWithBranch(ExpandNode(n), atom)
    decreases n
  {
    match n
    case Sub(num, c) =>
      ChoiceEnds(c, atom);
      OneEnds(GroupItem(num, ExpandChoice(c), OP_KET), atom);
    case Repeat(_, min, _, greed) => SingleEnds(atom, min, greed);
  }

  lemma {:induction false} SequenceEnds(s: Sequence, atom: Atom)
    requires SequenceOk(s) && EndsWithSequence(s, atom)
    ensures EndsWithBranch(ExpandSequence(s), atom)
    decreases s
  {
    if s.rest.End? {
      NodeEnds(s.first, atom);
    } else {
      SequenceEnds(s.rest, atom);
    }
    AppendEnds(ExpandNode(s.first), ExpandSequence(s.rest), atom);
  }

  lemma {:induction false} ChoiceEnds(c: Choice, atom: Atom)
    requires ChoiceOk(c) && EndsWithChoice(c, atom)
    ensures EndsWithAlts(ExpandChoice(c), atom)
    decreases c
  {
    SequenceEnds(c.seq0, atom);
    if c.Or? {
      ChoiceEnds(c.others, atom);
    }
  }

  /** Behind offset e nothing comes but kets and the end. */
  ghost predicate Clear(code: seq<byte>, t: Tables, e: nat) {
    && |t.ctypes| == 256 && |t.fcc| == 256
    && (forall base: Atom :: AtomOk(base) ==> Settled(code, e, t, base, true))
    && Inner(code, e) == 0
  }

  lemma ClearEnd(code: seq<byte>, t: Tables, e: nat)
    requires e < |code| && code[e] == OP_END && |t.ctypes| == 256 && |t.fcc| == 256
    ensures Clear(code, t, e)
  {
    hide Settled, Decode;
    forall base: Atom | AtomOk(base) ensures Settled(code, e, t, base, true) {
      SettledEnd(code, e, t, base, true);
    }
    EndDecodes(code, e);
    NoInner(code, e);
  }

  lemma EndDecodes(code: seq<byte>, e: nat)
    requires e < |code| && code[e] == OP_END
    ensures Decode(code, e) == IBad
  {
  }

  lemma ClearKet(code: seq<byte>, t: Tables, a: nat)
    requires a < |code| && Decode(code, a).IKet? && Decode(code, a).back.None? && Clear(code, t, Decode(code, a).next)
    ensures Clear(code, t, a)
  {
    hide Settled, Inner, Decode;
    var any := Type(OP_ALLANY);
    SettledKet(code, a, t, any, true);
    forall base: Atom | AtomOk(base) ensures Settled(code, a, t, base, true) {
      SettledKet(code, a, t, base, true);
    }
  }

  lemma ClearAlt(code: seq<byte>, t: Tables, a: nat)
    requires a < |code| && Decode(code, a).IAlt? && Clear(code, t, Decode(code, a).end)
    ensures Clear(code, t, a)
  {
    hide Settled, Inner, Decode;
    var any := Type(OP_ALLANY);
    SettledAlt(code, a, t, any, true);
    forall base: Atom | AtomOk(base) ensures Settled(code, a, t, base, true) {
      SettledAlt(code, a, t, base, true);
    }
  }

  lemma SoftRep(code: seq<byte>, a: nat, atom: Atom, k: nat, lo: nat, hi: nat)
    requires LayRep(code, a, atom, k, lo, hi) && Eager(k)
    ensures Softens(code, a) && !Backtrack.Lazy(code, a)
  {
    LaidRepByte(code, a, atom, k, lo, hi);
  }

  /** A greedy repeat in front of nothing but kets and the end is due. */
  lemma ClearIsDue(x: PlainLinks, code: seq<byte>, t: Tables, a: nat, it: Item)
    requires LayItem(x, code, a, it) && it.Rep? && Eager(it.k) && Clear(code, t, a + Size(it))
    ensures Due(code, t, a)
  {
    hide Decode, Settled, Inner, Softens, Backtrack.Lazy;
    RepDecoded(x, code, a, it.atom, it.k, it.lo, it.hi);
    SoftRep(code, a, it.atom, it.k, it.lo, it.hi);
  }

  lemma {:induction false} ItemHardens(x: PlainLinks, code: seq<byte>, t: Tables, offs: set<nat>, made: set<nat>,
                                       a: nat, it: Item, atom: Atom)
    requires LayItem(x, code, a, it) && CodeItem(Decoded(code), a, it) && Offsets(it, a) <= offs
    requires Rightly(code, t, offs, made) && Clear(code, t, a + Size(it)) && EndsWithItem(it, atom)
    ensures ItemRunsOut(HardSet(it, a, made), atom)
    decreases it
  {
    hide LayItem, CodeItem, CodeAlts, LayAlts, Decode, DecodedTo, Clear, Due, Ripe, AltsOffsets, HardSetAlts,
      EndsWithAlts, RunsOut;
    match it
    case Rep(_, k, lo, hi) =>
      if Eager(k) {
        ClearIsDue(x, code, t, a, it);
        RepDecoded(x, code, a, atom, k, lo, hi);
        PossessiveBounds(atom, k, lo, hi);
      }
    case Group(bra, num, alts, ket) =>
      OpenGroup(x, code, a, bra, num, alts, ket);
      GroupIs(code, a, it);
      ClearKet(code, t, KetOffset(a, it));
      AltsHarden(x, code, t, offs, made, a, a + BraSize(bra), alts, a, ket, KetOffset(a, it), atom);
  }

  lemma {:induction false} BranchHardens(x: PlainLinks, code: seq<byte>, t: Tables, offs: set<nat>, made: set<nat>,
                                         a: nat, b: Branch, atom: Atom)
    requires LayBranch(x, code, a, b) && CodeBranch(Decoded(code), a, b) && BranchOffsets(b, a) <= offs
    requires Rightly(code, t, offs, made) && Clear(code, t, a + BranchSize(b)) && EndsWithBranch(b, atom)
    ensures BranchRunsOut(HardSetBranch(b, a, made), atom)
    decreases b
  {
    hide LayItem, CodeItem, DecodedTo, Clear, Rightly, Offsets, HardSet, EndsWithItem, ItemRunsOut;
    if b.tail.Nil? {
      ItemHardens(x, code, t, offs, made, a, b.head, atom);
    } else {
      BranchHardens(x, code, t, offs, made, a + Size(b.head), b.tail, atom);
    }
  }

  lemma {:induction false} AltsHarden(x: PlainLinks, code: seq<byte>, t: Tables, offs: set<nat>, made: set<nat>,
                                      h: nat, st: nat, alts: Alts, bra: nat, ket: byte, end: nat, atom: Atom)
    requires LayAlts(x, code, h, st, alts, bra, ket) && CodeAlts(Decoded(code), st, alts, end)
    requires AltsOffsets(alts, st) <= offs
    requires Rightly(code, t, offs, made) && Clear(code, t, end) && EndsWithAlts(alts, atom)
    ensures RunsOut(HardSetAlts(alts, st, made), atom)
    decreases alts
  {
    hide LayAlts, LayBranch, CodeAlts, CodeBranch, Decode, DecodedTo, Clear, Rightly, BranchOffsets, HardSetBranch,
      EndsWithBranch, BranchRunsOut, BranchSize, AltsSize;
    AltIs(code, st, alts, end);
    LayFirst(x, code, h, st, alts, bra, ket);
    var e := st + BranchSize(alts.b);
    if alts.More? {
      ClearAlt(code, t, e);
      AltsHarden(x, code, t, offs, made, e, e + 3, alts.rest, bra, ket, end, atom);
    }
    BranchHardens(x, code, t, offs, made, st, alts.b, atom);
  }

  /** So every alternative of the rewritten code ends with a possessive repeat. */
  lemma EndIsHardened(x: PlainLinks, code: seq<byte>, pattern: Choice, t: Tables, made: set<nat>, atom: Atom)
    requires ChoiceOk(pattern) && IsProgram(x, code, Expand(pattern)) && |t.ctypes| == 256 && |t.fcc| == 256
    requires Rightly(code, t, AllOffsets(Expand(pattern)), made) && EndsWithChoice(pattern, atom)
    ensures HardSet(Expand(pattern), 0, made).Group? && RunsOut(HardSet(Expand(pattern), 0, made).alts, atom)
  {
    hide LayItem, CodeItem, DecodedTo, Clear, Rightly, Offsets, EndsWithAlts, EndsWithChoice, RunsOut, FindOffset,
      ExpandChoice, Due, Ripe;
    var root := Expand(pattern);
    ProgramDecodes(x, code, root);
    ClearEnd(code, t, Size(root));
    ChoiceEnds(pattern, atom);
    ItemHardens(x, code, t, AllOffsets(root), made, 0, root, atom);
  }
}
