/** Which repeats can be the last thing of a pattern, or of a group, to take a character:
  * greedy ones from behind which its end is reached by what need not take any. They can
  * be read off the pattern before it is compiled.
  */
module Trailing {
  import opened Opcodes
  import opened Tree
  import opened Meaning
  import opened Pattern
  import opened Expansion
  import opened Hardening

  // ---------- in the pattern ----------

  /** Can the walk get past the node without a character? */
  predicate SkippableNode(n: Node)
    decreases n
  {
    match n
    case Sub(_, c) => SkippableChoice(c)
    case Repeat(body, min, max, _) =>
      if body.Single? then min == 0
      else max != 0 && (min == 0 || (max != -1 && SkippableNode(body)))
    case _ => false
  }

  predicate SkippableSequence(s: Sequence)
    decreases s
  {
    s.Then? ==> SkippableNode(s.first) && SkippableSequence(s.rest)
  }

  predicate SkippableChoice(c: Choice)
    decreases c
  {
    SkippableSequence(c.seq0) || (c.Or? && SkippableChoice(c.others))
  }

  /** The atoms of the greedy repeats that can be the last to take a character. */
  function TrailingNode(n: Node): set<Atom>
    decreases n
  {
    match n
    case Sub(_, c) => TrailingChoice(c)
    case Repeat(body, min, max, greed) =>
      if body.Single? then (if greed == Greedy && (max == -1 || min < max) then {body.atom} else {})
      else if max == -1 then {}
      else TrailingNode(body)
    case _ => {}
  }

  function TrailingSequence(s: Sequence): set<Atom>
    decreases s
  {
    match s
    case End => {}
    case Then(n, rest) => TrailingSequence(rest) + if SkippableSequence(rest) then TrailingNode(n) else {}
  }

  function TrailingChoice(c: Choice): set<Atom>
    decreases c
  {
    TrailingSequence(c.seq0) + if c.Or? then TrailingChoice(c.others) else {}
  }

  // ---------- in the tree ----------

  predicate SkipsItem(it: Item)
    decreases it
  {
    match it
    case Rep(atom, k, lo, hi) => RepMin(atom, k, lo, hi) == 0
    case Group(_, _, alts, ket) => ket == OP_KET && SkipsAlts(alts)
    case Zero(op, _) => op != OP_SKIPZERO
    case _ => false
  }

  predicate SkipsBranch(b: Branch)
    decreases b
  {
    b.Cons? ==> SkipsItem(b.head) && SkipsBranch(b.tail)
  }

  predicate SkipsAlts(alts: Alts)
    decreases alts
  {
    SkipsBranch(alts.b) || (alts.More? && SkipsAlts(alts.rest))
  }

  /** A greedy repeat that is not possessive. */
  predicate Eager(k: nat) {
    Yielding(k) && k % 2 == 0
  }

  function TrailItem(it: Item): set<Atom>
    decreases it
  {
    match it
    case Rep(atom, k, lo, hi) =>
      if Eager(k) && (RepMax(atom, k, lo, hi) == -1 || RepMin(atom, k, lo, hi) < RepMax(atom, k, lo, hi))
      then {atom} else {}
    case Group(_, _, alts, ket) => if ket == OP_KET then TrailAlts(alts) else {}
    case Zero(_, g) => TrailItem(g)
    case _ => {}
  }

  function TrailBranch(b: Branch): set<Atom>
    decreases b
  {
    match b
    case Nil => {}
    case Cons(it, rest) => TrailBranch(rest) + if SkipsBranch(rest) then TrailItem(it) else {}
  }

  function TrailAlts(alts: Alts): set<Atom>
    decreases alts
  {
    TrailBranch(alts.b) + if alts.More? then TrailAlts(alts.rest) else {}
  }

  // ---------- from the pattern to the tree ----------

  lemma {:induction false} AppendTrails(b: Branch, c: Branch)
    ensures SkipsBranch(Append(b, c)) <==> SkipsBranch(b) && SkipsBranch(c)
    ensures TrailBranch(Append(b, c)) == TrailBranch(c) + if SkipsBranch(c) then TrailBranch(b) else {}
    decreases b
  {
    if b.Cons? {
      AppendTrails(b.tail, c);
    }
  }

  lemma OneTrails(it: Item)
    ensures SkipsBranch(Cons(it, Nil)) <==> SkipsItem(it)
    ensures TrailBranch(Cons(it, Nil)) == TrailItem(it)
  {
    assert TrailBranch(Nil) == {} && SkipsBranch(Nil);
  }

  lemma TwoTrail(it: Item, it': Item)
    ensures SkipsBranch(Cons(it, Cons(it', Nil))) <==> SkipsItem(it) && SkipsItem(it')
    ensures TrailBranch(Cons(it, Cons(it', Nil))) == TrailItem(it') + if SkipsItem(it') then TrailItem(it) else {}
  {
    hide SkipsItem, TrailItem;
    OneTrails(it');
  }

  lemma SingleTrails(atom: Atom, min: nat, max: int, greed: Greed)
    requires max == -1 || min <= max
    ensures SkipsBranch(ExpandSingle(atom, min, max, greed)) ==> min == 0
    ensures TrailBranch(ExpandSingle(atom, min, max, greed)) <=
              if greed == Greedy && (max == -1 || min < max) then {atom} else {}
  {
    hide SkipsBranch, TrailBranch;
    var b := ExpandSingle(atom, min, max, greed);
    if b.Nil? {
      NilTrails();
    } else if b.tail.Nil? {
      OneTrails(b.head);
    } else {
      TwoTrail(b.head, b.tail.head);
    }
  }

  lemma NilTrails()
    ensures SkipsBranch(Nil) && TrailBranch(Nil) == {}
  {
  }

  lemma {:induction false} NestTrails(g: Item, k: nat, greed: Greed)
    requires g.Group? && k >= 1
    ensures TrailItem(Nest(g, k, greed)) <= TrailItem(g)
    decreases k
  {
    hide TrailBranch, SkipsBranch;
    if k > 1 {
      NestTrails(g, k - 1, greed);
      TwoTrail(g, Nest(g, k - 1, greed));
      assert TrailItem(Nest(g, k, greed)) == TrailAlts(Last(NestBody(g, k, greed)));
    }
  }

  lemma {:induction false} CopiesTrail(g: Item, k: nat, tail: Branch)
    ensures SkipsBranch(Copies(g, k, tail)) ==> SkipsBranch(tail) && (k == 0 || SkipsItem(g))
    ensures TrailBranch(Copies(g, k, tail)) <= TrailBranch(tail) + if SkipsBranch(tail) then TrailItem(g) else {}
    decreases k
  {
    if k > 0 {
      CopiesTrail(g, k - 1, tail);
    }
  }

  lemma LoopTrails(g: Item, greed: Greed)
    requires g.Group? && greed != Possessive
    ensures !SkipsItem(LoopItem(g, greed)) && TrailItem(LoopItem(g, greed)) == {}
    ensures TrailItem(Zero(LoopZero(greed), LoopItem(g, greed))) == {}
    ensures !SkipsItem(Zero(OP_SKIPZERO, g)) && TrailItem(Zero(OP_SKIPZERO, g)) == TrailItem(g)
  {
  }

  lemma GroupTrails(g: Item, min: nat, max: int, greed: Greed)
    requires g.Group? && g.ket == OP_KET && (max == -1 || min <= max) && greed != Possessive
    ensures SkipsBranch(ExpandGroup(g, min, max, greed)) ==> max != 0 && (min == 0 || (max != -1 && SkipsItem(g)))
    ensures TrailBranch(ExpandGroup(g, min, max, greed)) <= if max == -1 then {} else TrailItem(g)
  {
    hide SkipsBranch, TrailBranch, SkipsItem, TrailItem, Copies, Nest, LoopItem, LoopZero;
    LoopTrails(g, greed);
    NilTrails();
    if max == 0 {
      OneTrails(Zero(OP_SKIPZERO, g));
    } else if min == 0 && max == -1 {
      OneTrails(Zero(LoopZero(greed), LoopItem(g, greed)));
    } else if max == -1 {
      OneTrails(LoopItem(g, greed));
      CopiesTrail(g, min - 1, Cons(LoopItem(g, greed), Nil));
    } else if max == min {
      CopiesTrail(g, min, Nil);
    } else {
      NestTrails(g, max - min, greed);
      OneTrails(Nest(g, max - min, greed));
      CopiesTrail(g, min, Cons(Nest(g, max - min, greed), Nil));
    }
  }

  lemma {:induction false} NodeTrails(n: Node)
    requires NodeOk(n) && PlainNode(n)
    ensures SkipsBranch(ExpandNode(n)) ==> SkippableNode(n)
    ensures TrailBranch(ExpandNode(n)) <= TrailingNode(n)
    decreases n
  {
    hide SkipsBranch, TrailBranch;
    match n
    case Sub(num, c) =>
      ChoiceTrails(c);
      OneTrails(GroupItem(num, ExpandChoice(c), OP_KET));
    case Repeat(body, min, max, greed) =>
      if body.Single? {
        SingleTrails(body.atom, min, max, greed);
        SingleTrails(body.atom, min, max, Greedy);
      } else {
        assert NodeOk(body) && PlainNode(body);
        ChoiceTrails(body.choice);
        GroupTrails(GroupItem(body.num, ExpandChoice(body.choice), OP_KET), min, max, greed);
      }
    case _ => OneTrails(ExpandNode(n).head);
  }

  lemma {:induction false} SequenceTrails(s: Sequence)
    requires SequenceOk(s) && PlainSequence(s)
    ensures SkipsBranch(ExpandSequence(s)) ==> SkippableSequence(s)
    ensures TrailBranch(ExpandSequence(s)) <= TrailingSequence(s)
    decreases s
  {
    if s.Then? {
      NodeTrails(s.first);
      SequenceTrails(s.rest);
      AppendTrails(ExpandNode(s.first), ExpandSequence(s.rest));
    }
  }

  lemma {:induction false} ChoiceTrails(c: Choice)
    requires ChoiceOk(c) && PlainChoice(c)
    ensures SkipsAlts(ExpandChoice(c)) ==> SkippableChoice(c)
    ensures TrailAlts(ExpandChoice(c)) <= TrailingChoice(c)
    decreases c
  {
    SequenceTrails(c.seq0);
    if c.Or? {
      ChoiceTrails(c.others);
    }
  }
}
