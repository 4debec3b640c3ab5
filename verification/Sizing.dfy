/** The first compile pass, which only measures. It runs the same code as the
  * second pass but throws each item away once it has been counted, and replaces
  * the copying of repeated groups by arithmetic. The main result is by how much what it
  * measures exceeds what the second pass emits.
  */
module Sizing {
  import opened Opcodes
  import opened Tree
  import opened Meaning
  import opened Pattern
  import opened Expansion

  const OFLOW_MAX := 0x7fff_ffff - 20
  const MAX_PATTERN_SIZE := 65536

  /** The bytes of an OP_ONCE bracket and its ket, or of a plain pair. */
  const BRACKETS := 6

  // ---------- the lengths of quantified items ----------

  function SingleLength(atom: Atom, min: nat, max: int, greed: Greed): nat
    requires max == -1 || min <= max
  {
    BranchSize(ExpandSingle(atom, min, max, greed)) + if WrapsSingle(atom, min, max, greed) then BRACKETS else 0
  }

  /** k optional copies of a group of g bytes, nested. */
  function NestLength(g: nat, k: nat): nat {
    if k == 0 then 0 else if k == 1 then 1 + g else 1 + 3 + g + NestLength(g, k - 1) + 3
  }

  function GroupLength(g: nat, min: nat, max: int, greed: Greed): nat
    requires max == -1 || min <= max
  {
    (if max == 0 || (min == 0 && max == -1) then 1 + g
     else if max == -1 then min * g
     else min * g + NestLength(g, max - min))
    + if WrapsGroup(min, max, greed) then BRACKETS else 0
  }

  function HeaderLength(num: nat): nat {
    BraSize(if num == 0 then OP_BRA else OP_CBRA)
  }

  // ---------- what the first pass measures ----------

  function Larger(a: nat, b: nat): nat {
    if a < b then b else a
  }

  /** An item is never counted as less than the character it repeats: that was
    * written before the quantifier was seen. */
  function MeasuredNode(n: Node): nat
    requires NodeOk(n)
    decreases n
  {
    match n
    case Assert(_) => 1
    case Single(atom) => AtomSize(atom)
    case Sub(num, c) => HeaderLength(num) + MeasuredChoice(c) + 3
    case Recurse(_) => 3
    case Repeat(body, min, max, greed) =>
      if body.Single? then Larger(AtomSize(body.atom), SingleLength(body.atom, min, max, greed))
      else if body.Recurse? then GroupLength(3 + BRACKETS, min, max, greed)
      else GroupLength(MeasuredNode(body), min, max, greed)
  }

  function MeasuredSequence(s: Sequence): nat
    requires SequenceOk(s)
    decreases s
  {
    match s
    case End => 0
    case Then(n, rest) => MeasuredNode(n) + MeasuredSequence(rest)
  }

  function MeasuredChoice(c: Choice): nat
    requires ChoiceOk(c)
    decreases c
  {
    MeasuredSequence(c.seq0) + if c.Or? then 3 + MeasuredChoice(c.others) else 0
  }

  /** Both brackets of the whole pattern, and OP_END. */
  function Total(content: nat): nat {
    3 + content + 3 + 1
  }

  // ---------- measured against what is emitted ----------

  /** How many copies of a group are written out; an unlimited loop is one. */
  function CopiesMade(min: nat, max: int): nat
    requires max == -1 || min <= max
  {
    if max == 0 || (min == 0 && max == -1) then 1 else if max == -1 then min else max
  }

  lemma {:induction false} NestGrows(a: nat, w: nat, k: nat)
    ensures NestLength(a + w, k) == NestLength(a, k) + k * w
  {
    if k > 1 {
      NestGrows(a, w, k - 1);
      assert k * w == (k - 1) * w + w;
    }
  }

  /** What is counted too much for a group is counted for each copy. */
  lemma GroupGrows(a: nat, w: nat, min: nat, max: int, greed: Greed)
    requires max == -1 || min <= max
    ensures GroupLength(a + w, min, max, greed) == GroupLength(a, min, max, greed) + CopiesMade(min, max) * w
  {
    if max >= min {
      NestGrows(a, w, max - min);
      assert max * w == min * w + (max - min) * w;
    }
    assert min * (a + w) == min * a + min * w;
  }

  // ---------- where more is counted than is emitted ----------

  /** The bytes that are counted and not emitted: a character that may occur no time at all
    * has been written before that was seen, once for each copy of the groups around it. */
  function Waste(n: Node): nat
    requires NodeOk(n)
    decreases n
  {
    match n
    case Sub(_, c) => WasteOfChoice(c)
    case Repeat(body, min, max, _) =>
      if body.Single? then (if max == 0 then AtomSize(body.atom) else 0)
      else if body.Sub? then CopiesMade(min, max) * Waste(body)
      else 0
    case _ => 0
  }

  function WasteOfSequence(s: Sequence): nat
    requires SequenceOk(s)
    decreases s
  {
    if s.End? then 0 else Waste(s.first) + WasteOfSequence(s.rest)
  }

  function WasteOfChoice(c: Choice): nat
    requires ChoiceOk(c)
    decreases c
  {
    WasteOfSequence(c.seq0) + if c.Or? then WasteOfChoice(c.others) else 0
  }

  // ---------- the sizes of copies ----------

  lemma {:induction false} NestSize(g: Item, k: nat, greed: Greed)
    requires k >= 1
    ensures Size(Nest(g, k, greed)) == NestLength(Size(g), k)
  {
    if k > 1 {
      NestSize(g, k - 1, greed);
      OneSize(Nest(g, k - 1, greed));
      var body := NestBody(g, k, greed);
      assert BranchSize(body) == Size(g) + Size(Nest(g, k - 1, greed));
      assert Size(Nest(g, k, greed)) == 1 + Size(Group(OP_BRA, 0, Last(body), OP_KET));
    }
  }

  lemma {:induction false} CopiesSize(g: Item, k: nat, tail: Branch)
    ensures BranchSize(Copies(g, k, tail)) == k * Size(g) + BranchSize(tail)
  {
    if k > 0 {
      CopiesSize(g, k - 1, tail);
      assert k * Size(g) == (k - 1) * Size(g) + Size(g);
    }
  }

  lemma GroupSize(g: Item, min: nat, max: int, greed: Greed)
    requires g.Group? && (max == -1 || min <= max) && (g.bra == OP_BRA || g.bra == OP_CBRA || g.bra == OP_ONCE)
    ensures BranchSize(ExpandGroup(g, min, max, greed)) == GroupLength(Size(g), min, max, greed)
  {
    CopiesLong(g, min, max, greed);
    OnceSize(GroupCopies(g, min, max, greed));
    hide GroupCopies, Size, BranchSize;
  }

  lemma OnceSize(b: Branch)
    ensures Size(Once(b)) == BranchSize(b) + BRACKETS && BranchSize(Cons(Once(b), Nil)) == BranchSize(b) + BRACKETS
  {
    assert AltsSize(Last(b)) == BranchSize(b);
    OneSize(Once(b));
  }

  lemma CopiesLong(g: Item, min: nat, max: int, greed: Greed)
    requires g.Group? && (max == -1 || min <= max) && (g.bra == OP_BRA || g.bra == OP_CBRA || g.bra == OP_ONCE)
    ensures BranchSize(GroupCopies(g, min, max, greed)) + (if WrapsGroup(min, max, greed) then BRACKETS else 0)
         == GroupLength(Size(g), min, max, greed)
  {
    var loop := LoopItem(g, greed);
    var len := Size(g);
    assert Size(loop) == len;
    hide Size, BranchSize, AltsSize;
    if max == 0 || (min == 0 && max == -1) {
      var zero := GroupCopies(g, min, max, greed).head;
      OneSize(zero);
      ZeroSize(zero.op, zero.group);
    } else if max == -1 {
      OneSize(loop);
      CopiesSize(g, min - 1, Cons(loop, Nil));
      assert min * len == (min - 1) * len + len;
    } else {
      CopiesSize(g, min, if max == min then Nil else Cons(Nest(g, max - min, greed), Nil));
      NilSize();
      if max != min {
        NestSize(g, max - min, greed);
        OneSize(Nest(g, max - min, greed));
      }
    }
  }

  lemma CallSize(num: nat)
    ensures Size(Once(Cons(Call(num), Nil))) == 3 + BRACKETS
  {
    OnceSize(Cons(Call(num), Nil));
    OneSize(Call(num));
  }

  /** What the first pass counts for an item, quantified in any way, is what is emitted for
    * it and what is wasted. */
  lemma {:induction false} NodeFits(n: Node)
    requires NodeOk(n)
    ensures MeasuredNode(n) == BranchSize(ExpandNode(n)) + Waste(n)
    decreases n
  {
    hide WasteOfChoice, MeasuredChoice, ExpandChoice, AltsSize;
    match n
    case Sub(num, c) =>
      ChoiceFits(c);
      OneSize(ExpandNode(n).head);
    case Repeat(body, min, max, greed) =>
      if body.Single? {
        SingleFits(body.atom, min, max, greed);
      } else if body.Sub? {
        NodeFits(body);
        OneSize(ExpandNode(body).head);
        GroupGrows(BranchSize(ExpandNode(body)), Waste(body), min, max, greed);
        GroupSize(ExpandNode(body).head, min, max, greed);
      } else {
        CallSize(body.num);
        GroupSize(Once(Cons(Call(body.num), Nil)), min, max, greed);
      }
    case Assert(_) => OneSize(ExpandNode(n).head);
    case Single(_) => OneSize(ExpandNode(n).head);
    case Recurse(_) => OneSize(ExpandNode(n).head);
  }

  lemma SingleFits(atom: Atom, min: nat, max: int, greed: Greed)
    requires NodeOk(Repeat(Single(atom), min, max, greed))
    ensures Larger(AtomSize(atom), SingleLength(atom, min, max, greed))
            == BranchSize(ExpandAtom(atom, min, max, greed)) + if max == 0 then AtomSize(atom) else 0
  {
    OnceSize(ExpandSingle(atom, min, max, Greedy));
    SingleSize(atom, min, max, Greedy);
    SingleSize(atom, min, max, greed);
    hide ExpandSingle;
  }

  lemma {:induction false} SequenceFits(s: Sequence)
    requires SequenceOk(s)
    ensures MeasuredSequence(s) == BranchSize(ExpandSequence(s)) + WasteOfSequence(s)
    decreases s
  {
    if s.Then? {
      NodeFits(s.first);
      SequenceFits(s.rest);
    }
  }

  lemma {:induction false} ChoiceFits(c: Choice)
    requires ChoiceOk(c)
    ensures MeasuredChoice(c) == AltsSize(ExpandChoice(c)) + WasteOfChoice(c)
    decreases c
  {
    SequenceFits(c.seq0);
    if c.Or? {
      ChoiceFits(c.others);
    }
  }

  // ---------- the first pass itself ----------

  /** The pointers of one call of the branch compiler in the first pass, as
    * offsets in the work space; previous is -1 when there is nothing to repeat. */
  datatype Pointers = Pointers(code: nat, last: nat, orig: nat, previous: int)
  {
    /** What has been written since the last count. */
    function Pending(): nat {
      if code < last then 0 else code - last
    }
  }

  /** The pointers between two cycles. */
  predicate Sound(p: Pointers) {
    p.previous == -1 || p.orig <= p.previous <= Larger(p.code, p.last)
  }

  /** The start of each cycle: count what the previous cycle wrote, then reuse
    * its space. None means the length would overflow. */
  function Account(p: Pointers, length: nat): (r: Option<(Pointers, nat)>)
    requires Sound(p)
    ensures r.Some? <==> length + p.Pending() <= OFLOW_MAX
    ensures r.Some? ==>
              var q, n := r.value.0, r.value.1;
              && n == length + p.Pending() && q.Pending() == 0 && q.orig == p.orig && q.last == q.code
              && (if p.previous == -1 then q.previous == -1
                  else q.previous == p.orig && q.code - q.previous == Larger(p.code, p.last) - p.previous)
  {
    var code := if p.code < p.last then p.last else p.code;
    if OFLOW_MAX - length < code - p.last then None
    else
      var n := length + (code - p.last);
      if p.previous == -1 then Some((Pointers(p.orig, p.orig, p.orig, -1), n))
      else if p.previous > p.orig then
        var moved := code - (p.previous - p.orig);
        Some((Pointers(moved, moved, p.orig, p.orig), n))
      else Some((Pointers(code, code, p.orig, p.previous), n))
  }

  lemma SingleSize(atom: Atom, min: nat, max: int, greed: Greed)
    requires max == -1 || min <= max
    ensures BranchSize(ExpandSingle(atom, min, max, greed))
         == if max == 0 then 0
            else if atom.Cls? then AtomSize(atom) + (if (max == -1 && min <= 1) || (min == 0 && max == 1) then 1 else 5)
            else if min == 0 then (if max == -1 || max == 1 then 2 else 4)
            else if min == 1 then (if max == -1 then 2 else if max == 1 then AtomSize(atom) else AtomSize(atom) + 4)
            else 4 + (if max == -1 || max == min + 1 then 2 else if max == min then 0 else 4)
  {
    var b := ExpandSingle(atom, min, max, greed);
    if b.Cons? {
      assert BranchSize(b) == Size(b.head) + BranchSize(b.tail);
      if b.tail.Cons? {
        OneSize(b.tail.head);
      }
    }
  }

  /** Where the code pointer stands after a character that started at previous
    * and ends at code has been turned into its repeat. */
  method MeasureSingle(atom: Atom, previous: nat, code0: nat, min: nat, max: int, greed: Greed) returns (code: nat)
    requires max == -1 || min <= max
    requires code0 == previous + AtomSize(atom)
    ensures code == previous + SingleLength(atom, min, max, greed)
  {
    SingleSize(atom, min, max, greed);
    if atom.Cls? {
      code := code0;
      if max == 0 {
        return previous;
      }
      if max == -1 && min <= 1 {
        code := code + 1;
      } else if min == 0 && max == 1 {
        code := code + 1;
      } else {
        code := code + 5;
      }
      return;
    }
    code := previous;
    if max == 0 {
      return;
    }
    if min == 0 {
      code := code + if max == -1 || max == 1 then 1 else 3;
    } else if min == 1 {
      if max == -1 {
        code := code + 1;
      } else {
        code := code0;
        if max == 1 {
          return;
        }
        code := code + 3;
      }
    } else {
      code := code + 3;
      if max < 0 {
        code := code + 2;
      } else if max != min {
        code := code + 1;
        code := code + if max - min == 1 then 1 else 3;
      }
    }
    code := code + 1;
    if greed == Possessive && atom.Type? && min == 1 && max > 1 {
      code := code + BRACKETS;
    }
  }

  /** The closed form the first pass uses for nested optional copies. */
  lemma {:induction false} NestClosed(g: nat, k: nat)
    requires k >= 1
    ensures NestLength(g, k) == k * (g + 1 + 6) - 6
  {
    if k > 1 {
      NestClosed(g, k - 1);
      assert k * (g + 7) == (k - 1) * (g + 7) + (g + 7);
    }
  }

  lemma LongerThanOne(g: nat, min: nat, max: int, greed: Greed)
    requires max == -1 || min <= max
    ensures GroupLength(g, min, max, greed) >= g
    ensures min >= 1 ==> GroupLength(g, min, max, greed) >= min * g
  {
    if min >= 1 {
      TimesMono(1, min, g);
    }
  }

  lemma TimesMono(a: nat, b: nat, k: nat)
    requires a <= b
    ensures a * k <= b * k
  {
  }

  /** Does a length fit on top of what was counted, in the checks of the source? */
  predicate Overflows(length: nat, delta: int) {
    delta > 0x7fff_ffff || OFLOW_MAX - length < delta
  }

  /** The mandatory copies beyond the first, of a group of length g. */
  function CopiesLength(g: nat, min: nat): nat {
    if min <= 1 then 0 else (min - 1) * g
  }

  lemma GroupParts(g: nat, min: nat, max: int, greed: Greed)
    requires (max == -1 || min <= max) && g >= BRACKETS
    ensures GroupLength(g, min, max, greed) - g
         == (if min == 0 then (if max <= 1 then 1 else 7) else CopiesLength(g, min))
            + (if min == 0 && max > 1 then (max - 1) * (g + 7) - 6
               else if min > 0 && max > min then (max - min) * (g + 7) - 6
               else 0)
            + (if WrapsGroup(min, max, greed) then BRACKETS else 0)
  {
    if min == 0 && max > 1 {
      NestClosed(g, max);
      assert max * (g + 7) == (max - 1) * (g + 7) + (g + 7);
    } else if min > 0 {
      assert min * g == (min - 1) * g + g;
      if max > min {
        NestClosed(g, max - min);
      }
    }
  }

  /** The quantifier of a group whose real length is g, but which takes only six
    * bytes of work space. Returns the new code pointer and the new count. */
  method MeasureGroup(code0: nat, length0: nat, g: nat, min: nat, max0: int, greed: Greed)
    returns (r: Option<(nat, nat)>)
    requires max0 == -1 || min <= max0
    requires g >= BRACKETS
    ensures r.Some? ==>
              && r.value.0 >= code0 && r.value.1 >= length0
              && (r.value.0 - code0) + r.value.1 == length0 - g + GroupLength(g, min, max0, greed)
    ensures r.None? ==> length0 - g + GroupLength(g, min, max0, greed) > OFLOW_MAX
  {
    GroupParts(g, min, max0, greed);
    hide GroupLength;
    var code, length, max := code0, length0, max0;
    var open, possessive := false, greed == Possessive;
    if min == 0 {
      if max <= 1 {
        code := code + 1;
        if max == 0 {
          return Some((code, length));
        }
      } else {
        code := code + 4;
        open := true;
      }
      max := max - 1;
    } else {
      if min > 1 {
        var delta := (min - 1) * g;
        if Overflows(length, delta) {
          return None;
        }
        length := length + delta;
      }
      if max > 0 {
        max := max - min;
      }
    }
    if max >= 0 {
      if max > 0 {
        var delta := max * (g + 1 + 2 + 4) - 2 - 4;
        PositiveNest(max, g);
        if Overflows(length, delta) {
          return None;
        }
        length := length + delta;
      }
      if open {
        code := code + 3;
      }
    } else if possessive && min < 2 {
      possessive := false;
    }
    if possessive {
      code := code + BRACKETS;
    }
    return Some((code, length));
  }

  lemma PositiveNest(k: nat, g: nat)
    requires k >= 1
    ensures k * (g + 1 + 2 + 4) - 2 - 4 > 0
  {
    TimesMono(1, k, g + 7);
  }

  /** What an item takes in the work space; a group is cut down to its brackets. */
  function WorkLength(n: Node): nat {
    match n
    case Assert(_) => 1
    case Single(atom) => AtomSize(atom)
    case Sub(_, _) => BRACKETS
    case Recurse(_) => 3
    case Repeat(_, _, _, _) => 0
  }

  /** An item without its quantifier, measured after length bytes. */
  method MeasureItem(n: Node, p: Pointers, length: nat) returns (r: Option<(Pointers, nat)>)
    requires NodeOk(n) && !n.Repeat? && p.code == p.last && p.orig <= p.code
    ensures r.None? ==> length + MeasuredNode(n) > OFLOW_MAX
    ensures r.Some? ==>
              var q := r.value.0;
              && q.orig == p.orig && q.last == p.last && q.code == p.code + WorkLength(n)
              && q.previous == (if n.Assert? then -1 else p.code)
              && r.value.1 + q.Pending() == length + MeasuredNode(n)
    decreases n, 0
  {
    match n {
      case Assert(_) =>
        r := Some((p.(code := p.code + 1, previous := -1), length));
      case Single(atom) =>
        r := Some((p.(code := p.code + AtomSize(atom), previous := p.code), length));
      case Recurse(_) =>
        r := Some((p.(code := p.code + 3, previous := p.code), length));
      case Sub(num, c) =>
        var group := MeasureRegex(c, if num == 0 then 0 else 2, 0);
        if group.None? || OFLOW_MAX - length < group.value - BRACKETS {
          return None;
        }
        r := Some((p.(code := p.code + BRACKETS, previous := p.code), length + group.value - BRACKETS));
    }
  }

  /** The quantifier of the item at previous, whose length has not been counted
    * yet as far as it is in the work space. */
  method MeasureRepeat(n: Node, p0: Pointers, length0: nat) returns (r: Option<(Pointers, nat)>)
    requires NodeOk(n) && n.Repeat?
    requires p0.orig <= p0.previous && p0.last <= p0.code && p0.code == p0.previous + WorkLength(n.body)
    requires length0 + p0.Pending() >= MeasuredNode(n.body)
    ensures r.None? ==> length0 + p0.Pending() - MeasuredNode(n.body) + MeasuredNode(n) > OFLOW_MAX
    ensures r.Some? ==>
              var q := r.value.0;
              && q.orig == p0.orig && q.previous == -1
              && r.value.1 + q.Pending() == length0 + p0.Pending() - MeasuredNode(n.body) + MeasuredNode(n)
  {
    var g := if n.body.Recurse? then 3 + BRACKETS else MeasuredNode(n.body);
    if !n.body.Single? {
      LongerThanOne(g, n.min, n.max, n.greed);
    }
    var a := Account(p0, length0);
    if a.None? {
      return None;
    }
    var p, length := a.value.0, a.value.1;
    if n.body.Single? {
      var code := MeasureSingle(n.body.atom, p.previous, p.code, n.min, n.max, n.greed);
      return Some((p.(code := code, previous := -1), length));
    }
    var code := p.code + if n.body.Recurse? then BRACKETS else 0;
    var m := MeasureGroup(code, length, g, n.min, n.max, n.greed);
    if m.None? {
      return None;
    }
    return Some((p.(code := m.value.0, previous := -1), m.value.1));
  }

  /** One cycle for an item and one for its quantifier, if it has one. */
  method MeasureNode(n: Node, p0: Pointers, length0: nat) returns (r: Option<(Pointers, nat)>)
    requires NodeOk(n) && Sound(p0)
    ensures r.None? ==> length0 + p0.Pending() + MeasuredNode(n) > OFLOW_MAX
    ensures r.Some? ==>
              && Sound(r.value.0) && r.value.0.orig == p0.orig
              && r.value.1 + r.value.0.Pending() == length0 + p0.Pending() + MeasuredNode(n)
    decreases n, 1
  {
    var a := Account(p0, length0);
    if a.None? {
      return None;
    }
    if n.Repeat? {
      if !n.body.Single? {
        LongerThanOne(if n.body.Recurse? then 9 else MeasuredNode(n.body), n.min, n.max, n.greed);
      }
      r := MeasureItem(n.body, a.value.0, a.value.1);
      if r.Some? {
        r := MeasureRepeat(n, r.value.0, r.value.1);
      }
    } else {
      r := MeasureItem(n, a.value.0, a.value.1);
    }
  }

  /** One branch; the length grows by what the branch measures. */
  method MeasureSequence(s: Sequence, length0: nat) returns (r: Option<nat>)
    requires SequenceOk(s)
    ensures r.Some? <==> length0 + MeasuredSequence(s) <= OFLOW_MAX
    ensures r.Some? ==> r.value == length0 + MeasuredSequence(s)
    decreases s, 1
  {
    var orig := 0;
    var p := Pointers(orig, orig, orig, -1);
    var length: nat, rest := length0, s;
    while rest.Then?
      invariant SequenceOk(rest) && Sound(p)
      invariant rest == s || rest < s
      invariant length + p.Pending() + MeasuredSequence(rest) == length0 + MeasuredSequence(s)
      decreases rest
    {
      var m := MeasureNode(rest.first, p, length);
      if m.None? {
        return None;
      }
      p, length := m.value.0, m.value.1;
      rest := rest.rest;
    }
    var a := Account(p, length);
    return if a.None? then None else Some(a.value.1);
  }

  /** The alternatives between two brackets. */
  method MeasureRegex(c: Choice, skip: nat, length0: nat) returns (r: Option<nat>)
    requires ChoiceOk(c)
    ensures r.Some? <==> length0 + BRACKETS + skip + MeasuredChoice(c) <= OFLOW_MAX
    ensures r.Some? ==> r.value == length0 + BRACKETS + skip + MeasuredChoice(c)
    decreases c, 0
  {
    var length: nat := BRACKETS + skip;
    var rest := c;
    while true
      invariant ChoiceOk(rest) && (rest == c || rest < c)
      invariant length + MeasuredChoice(rest) == BRACKETS + skip + MeasuredChoice(c)
      decreases rest
    {
      var m := MeasureSequence(rest.seq0, length);
      if m.None? {
        return None;
      }
      length := m.value;
      if rest.Only? {
        break;
      }
      length := length + 3;
      rest := rest.others;
    }
    if OFLOW_MAX - length0 < length {
      return None;
    }
    return Some(length0 + length);
  }

  /** The first pass over the whole pattern, with the limit on what it may
    * measure. What the second pass emits fits into what the first one found. */
  method PreCompile(pattern: Choice) returns (length: Option<nat>)
    requires ChoiceOk(pattern)
    ensures length.Some? <==> Total(MeasuredChoice(pattern)) <= MAX_PATTERN_SIZE
    ensures length.Some? ==> Size(Expand(pattern)) + 1 <= length.value == Total(MeasuredChoice(pattern))
  {
    ChoiceFits(pattern);
    length := MeasureRegex(pattern, 0, 1);
    if length.Some? && length.value > MAX_PATTERN_SIZE {
      length := None;
    }
  }
}
