/** Which patterns are found to be anchored, told by the pattern as it is written: those of
  * which every alternative starts with a start anchor, with an unlimited repeat of any
  * character, or with a group that has to match and is anchored itself.
  */
module Anchoring {
  import opened Opcodes
  import opened Tree
  import opened Meaning
  import opened Pattern
  import opened Expansion
  import opened Hardening
  import opened HardSets
  import opened Anchored

  predicate AnchoredNode(n: Node)
    decreases n
  {
    match n
    case Assert(op) => op == OP_SOD || op == OP_CIRC
    case Sub(_, c) => AnchoredChoice(c)
    case Repeat(body, min, max, _) =>
      if body.Single? then body.atom == Type(OP_ALLANY) && min == 0 && max == -1
      else min >= 1 && AnchoredNode(body)
    case _ => false
  }

  /** A character that may occur no time at all leaves no trace in the code. */
  predicate AnchoredSequence(s: Sequence)
    decreases s
  {
    s.Then? &&
    if s.first.Repeat? && s.first.body.Single? && s.first.max == 0 then AnchoredSequence(s.rest)
    else AnchoredNode(s.first)
  }

  predicate AnchoredChoice(c: Choice)
    decreases c
  {
    AnchoredSequence(c.seq0) && (c.Or? ==> AnchoredChoice(c.others))
  }

  // ---------- the code tree is anchored when the pattern is ----------

  lemma FirstItem(b: Branch, c: Branch)
    requires b.Cons?
    ensures AnchoredBranch(Append(b, c)) == AnchoredBranch(b)
  {
  }

  lemma SingleIsAnchored(atom: Atom, min: nat, max: int, greed: Greed)
    requires AtomOk(atom) && (max == -1 || min <= max) && max != 0
    ensures ExpandAtom(atom, min, max, greed).Cons?
    ensures AnchoredBranch(ExpandAtom(atom, min, max, greed)) <==> atom == Type(OP_ALLANY) && min == 0 && max == -1
  {
    if WrapsSingle(atom, min, max, greed) {
      assert AnchoredAlts(Last(ExpandSingle(atom, min, max, Greedy)))
        <==> AnchoredBranch(ExpandSingle(atom, min, max, Greedy));
    }
  }

  lemma CopiesAreAnchored(g: Item, min: nat, max: int, greed: Greed)
    requires g.Group? && (max == -1 || min <= max)
    ensures GroupCopies(g, min, max, greed).Cons?
    ensures AnchoredBranch(GroupCopies(g, min, max, greed)) <==> min >= 1 && max != 0 && AnchoredAlts(g.alts)
  {
  }

  lemma GroupIsAnchored(g: Item, min: nat, max: int, greed: Greed)
    requires g.Group? && (max == -1 || min <= max)
    ensures ExpandGroup(g, min, max, greed).Cons?
    ensures AnchoredBranch(ExpandGroup(g, min, max, greed)) <==> min >= 1 && max != 0 && AnchoredAlts(g.alts)
  {
    CopiesAreAnchored(g, min, max, greed);
    hide GroupCopies;
    assert AnchoredAlts(Last(GroupCopies(g, min, max, greed))) <==> AnchoredBranch(GroupCopies(g, min, max, greed));
  }

  lemma {:induction false} NodeIsAnchored(n: Node)
    requires NodeOk(n) && !(n.Repeat? && n.body.Single? && n.max == 0)
    ensures ExpandNode(n).Cons? && (AnchoredBranch(ExpandNode(n)) <==> AnchoredNode(n))
    decreases n
  {
    hide AnchoredAlts, ExpandGroup, ExpandAtom, ExpandChoice, AnchoredChoice;
    match n
    case Sub(_, c) => ChoiceIsAnchored(c);
    case Repeat(body, min, max, greed) =>
      match body {
        case Single(atom) => SingleIsAnchored(atom, min, max, greed);
        case Sub(num, c) =>
          ChoiceIsAnchored(c);
          GroupIsAnchored(GroupItem(num, ExpandChoice(c), OP_KET), min, max, greed);
        case Recurse(num) =>
          GroupIsAnchored(Once(Cons(Call(num), Nil)), min, max, greed);
          CallIsNot(num);
        case _ =>
      }
    case _ =>
  }

  lemma CallIsNot(num: nat)
    ensures !AnchoredAlts(Last(Cons(Call(num), Nil)))
  {
  }

  lemma {:induction false} SequenceIsAnchored(s: Sequence)
    requires SequenceOk(s)
    ensures AnchoredBranch(ExpandSequence(s)) <==> AnchoredSequence(s)
    decreases s
  {
    hide AnchoredBranch, ExpandNode, AnchoredNode;
    if s.End? {
      EndIsNot();
    } else {
      SequenceIsAnchored(s.rest);
      if s.first.Repeat? && s.first.body.Single? && s.first.max == 0 {
        LeavesNothing(s.first);
      } else {
        NodeIsAnchored(s.first);
        FirstItem(ExpandNode(s.first), ExpandSequence(s.rest));
      }
    }
  }

  lemma EndIsNot()
    ensures !AnchoredBranch(Nil)
  {
  }

  lemma LeavesNothing(n: Node)
    requires NodeOk(n) && n.Repeat? && n.body.Single? && n.max == 0
    ensures ExpandNode(n) == Nil
  {
  }

  lemma {:induction false} ChoiceIsAnchored(c: Choice)
    requires ChoiceOk(c)
    ensures AnchoredAlts(ExpandChoice(c)) <==> AnchoredChoice(c)
    decreases c
  {
    hide AnchoredBranch, AnchoredSequence, ExpandSequence;
    SequenceIsAnchored(c.seq0);
    if c.Or? {
      ChoiceIsAnchored(c.others);
    }
  }

  // ---------- rewriting makes no difference ----------

  lemma {:induction false} HardBranchAnchored(b: Branch, a: nat, made: set<nat>)
    ensures AnchoredBranch(HardSetBranch(b, a, made)) <==> AnchoredBranch(b)
    decreases b
  {
    if b.Cons? && b.head.Group? {
      HardAltsAnchored(b.head.alts, a + BraSize(b.head.bra), made);
    }
  }

  lemma {:induction false} HardAltsAnchored(alts: Alts, st: nat, made: set<nat>)
    ensures AnchoredAlts(HardSetAlts(alts, st, made)) <==> AnchoredAlts(alts)
    decreases alts
  {
    hide AnchoredBranch, HardSetBranch;
    HardBranchAnchored(alts.b, st, made);
    if alts.More? {
      HardAltsAnchored(alts.rest, st + BranchSize(alts.b) + 3, made);
    }
  }

  /** The code of a pattern is anchored exactly if the pattern is. */
  lemma CodeIsAnchored(pattern: Choice, made: set<nat>)
    requires ChoiceOk(pattern)
    ensures HardSet(Expand(pattern), 0, made).Group?
    ensures AnchoredAlts(HardSet(Expand(pattern), 0, made).alts) <==> AnchoredChoice(pattern)
  {
    hide AnchoredAlts, HardSetAlts, ExpandChoice, AnchoredChoice;
    ChoiceIsAnchored(pattern);
    HardAltsAnchored(ExpandChoice(pattern), 3, made);
  }
}
