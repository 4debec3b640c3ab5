/** The forward references that are left when everything has been emitted. Each
  * call that still holds a group number is given the offset of the first bracket
  * with that number.
  */
module References {
  import opened Opcodes
  import opened Tree
  import opened Meaning
  import opened Pattern
  import opened Expansion
  import opened Sizing
  import opened Program
  import opened Walk
  import opened Relocation
  import opened Emission
  import opened CodeBuffer
  import opened Items

  // ---------- filling in one operand ----------

  /** Between the two, the call at o was given its target v. */
  ghost predicate Filled(x: Links, code: seq<byte>, y: Links, code': seq<byte>, o: nat, v: nat) {
    && o + 1 < |code| && code' == Put(code, o, v) && v < 65536
    && o in x.forward && y == x.(forward := x.forward - {o})
    && Target(x, Get(code, o)) == Some(v)
  }

  /** The operand is one of the item's, or lies outside the item. */
  ghost predicate Belongs(operands: set<nat>, a: nat, e: nat, o: nat) {
    o in operands || o + 2 <= a || o >= e
  }

  lemma FilledElsewhere(x: Links, code: seq<byte>, y: Links, code': seq<byte>, o: nat, v: nat, a: nat, e: nat)
    requires Filled(x, code, y, code', o, v) && (o + 2 <= a || o >= e) && a <= e <= |code|
    ensures Moved(x, code, y, code', a, e, 0)
  {
  }

  lemma FillCall(x: Links, code: seq<byte>, y: Links, code': seq<byte>, o: nat, v: nat, a: nat, num: nat)
    requires LayCall(x, code, a, num) && Filled(x, code, y, code', o, v) && o == a + 1
    ensures LayCall(y, code', a, num)
  {
  }

  lemma {:induction false} FillItem(x: Links, code: seq<byte>, y: Links, code': seq<byte>, o: nat, v: nat, a: nat,
                                    it: Item)
    requires LayItem(x, code, a, it) && Filled(x, code, y, code', o, v) && Belongs(Operands(it, a), a, a + Size(it), o)
    ensures LayItem(y, code', a, it)
    decreases it, 1
  {
    hide LayItem, Filled, Size;
    SizeFits(x, code, a, it);
    if o !in Operands(it, a) {
      FilledElsewhere(x, code, y, code', o, v, a, a + Size(it));
      RelocateItem(x, code, y, code', a, a + Size(it), 0, it);
    } else {
      FillInside(x, code, y, code', o, v, a, it);
    }
  }

  lemma SizeFits(x: Links, code: seq<byte>, a: nat, it: Item)
    requires LayItem(x, code, a, it)
    ensures a + Size(it) <= |code|
  {
  }

  lemma {:induction false} FillInside(x: Links, code: seq<byte>, y: Links, code': seq<byte>, o: nat, v: nat, a: nat,
                                      it: Item)
    requires LayItem(x, code, a, it) && Filled(x, code, y, code', o, v) && o in Operands(it, a)
    ensures LayItem(y, code', a, it)
    decreases it, 0
  {
    hide LayItem, LayAlts, LayBra, Filled, Size, AltsSize, Belongs, OperandsInAlts;
    match it
    case Call(num) =>
      CallLaid(x, code, a, num);
      FillCall(x, code, y, code', o, v, a, num);
      MakeCall(y, code', a, num);
    case Zero(op, g) =>
      OpenZero(x, code, a, op, g);
      OperandInside(g, a + 1, o);
      FillInside(x, code, y, code', o, v, a + 1, g);
      FilledBytes(x, code, y, code', o, v);
      MakeZero(y, code', a, op, g);
    case Group(bra, num, alts, ket) =>
      OpenGroup(x, code, a, bra, num, alts, ket);
      OperandInsideAlts(alts, a + BraSize(bra), o);
      FilledBytes(x, code, y, code', o, v);
      FillBra(x, code, y, code', a, bra, num, ket, o);
      FillAlts(x, code, y, code', o, v, a, a + BraSize(bra), alts, a, ket);
      MakeGroup(y, code', a, bra, num, alts, ket);
    case _ => assert false;
  }

  lemma CallLaid(x: Links, code: seq<byte>, a: nat, num: nat)
    requires LayItem(x, code, a, Call(num))
    ensures LayCall(x, code, a, num)
  {
  }

  lemma MakeCall(x: Links, code: seq<byte>, a: nat, num: nat)
    requires LayCall(x, code, a, num)
    ensures LayItem(x, code, a, Call(num))
  {
  }

  lemma FilledBytes(x: Links, code: seq<byte>, y: Links, code': seq<byte>, o: nat, v: nat)
    requires Filled(x, code, y, code', o, v)
    ensures y.atomic == x.atomic && |code'| == |code| && forall j :: 0 <= j < |code| && j != o && j != o + 1 ==>
              code'[j] == code[j]
  {
  }

  lemma FillBra(x: Links, code: seq<byte>, y: Links, code': seq<byte>, a: nat, bra: byte, num: nat, ket: byte, o: nat)
    requires LayBra(x, code, a, bra, num, ket) && y.atomic == x.atomic && |code'| == |code| && o >= a + BraSize(bra)
    requires forall j :: 0 <= j < |code| && j != o && j != o + 1 ==> code'[j] == code[j]
    ensures LayBra(y, code', a, bra, num, ket)
  {
  }

  lemma {:induction false} FillBranch(x: Links, code: seq<byte>, y: Links, code': seq<byte>, o: nat, v: nat, a: nat,
                                      b: Branch)
    requires LayBranch(x, code, a, b) && Filled(x, code, y, code', o, v)
    requires Belongs(OperandsInBranch(b, a), a, a + BranchSize(b), o)
    ensures LayBranch(y, code', a, b)
    decreases b, 0
  {
    hide LayItem, LayBranch, Filled, Size, BranchSize;
    FilledBytes(x, code, y, code', o, v);
    match b
    case Nil =>
      NilFits(x, code, a);
      MakeNil(y, code', a);
    case Cons(it, rest) =>
      var m := a + Size(it);
      OpenBranch(x, code, a, it, rest);
      if o in Operands(it, a) {
        OperandInside(it, a, o);
      } else if o in OperandsInBranch(rest, m) {
        OperandInsideBranch(rest, m, o);
      }
      FillItem(x, code, y, code', o, v, a, it);
      FillBranch(x, code, y, code', o, v, m, rest);
      MakeBranch(y, code', a, it, rest);
  }

  lemma NilFits(x: Links, code: seq<byte>, a: nat)
    requires LayBranch(x, code, a, Nil)
    ensures a <= |code|
  {
  }

  lemma {:induction false} FillAlt(x: Links, code: seq<byte>, y: Links, code': seq<byte>, o: nat, v: nat,
                                   h: nat, st: nat, b: Branch, m: nat, end: byte)
    requires LayAlt(x, code, h, st, b, m, end) && Filled(x, code, y, code', o, v)
    requires o in OperandsInBranch(b, st) || o + 2 <= h || o >= m + 3
    ensures LayAlt(y, code', h, st, b, m, end)
    ensures |code'| == |code| && Get(code', m + 1) == Get(code, m + 1)
    decreases b, 1
  {
    if o in OperandsInBranch(b, st) {
      OperandInsideBranch(b, st, o);
    }
    FilledBytes(x, code, y, code', o, v);
    hide LayBranch, Filled, BranchSize;
    FillBranch(x, code, y, code', o, v, st, b);
  }

  lemma {:induction false} FillAlts(x: Links, code: seq<byte>, y: Links, code': seq<byte>, o: nat, v: nat,
                                    h: nat, st: nat, alts: Alts, bra: nat, ket: byte)
    requires LayAlts(x, code, h, st, alts, bra, ket) && Filled(x, code, y, code', o, v)
    requires o in OperandsInAlts(alts, st) || o + 2 <= h
    ensures LayAlts(y, code', h, st, alts, bra, ket)
    decreases alts
  {
    hide LayAlts, LayAlt, Filled, AltsSize, BranchSize, Get;
    var m := st + BranchSize(alts.b);
    match alts
    case Last(b) =>
      OpenLast(x, code, h, st, b, m, bra, ket);
      FillAlt(x, code, y, code', o, v, h, st, b, m, ket);
      MakeLast(y, code', h, st, b, m, bra, ket);
    case More(b, rest) =>
      OpenMore(x, code, h, st, b, m, rest, bra, ket);
      AltShape(x, code, h, st, b, m, OP_ALT);
      if o in OperandsInBranch(b, st) {
        OperandInsideBranch(b, st, o);
      } else if o in OperandsInAlts(rest, m + 3) {
        OperandInsideAlts(rest, m + 3, o);
      }
      FillAlt(x, code, y, code', o, v, h, st, b, m, OP_ALT);
      FillAlts(x, code, y, code', o, v, m, m + 3, rest, bra, ket);
      MakeMore(y, code', h, st, b, m, rest, bra, ket);
  }

  lemma AltShape(x: Links, code: seq<byte>, h: nat, st: nat, b: Branch, m: nat, end: byte)
    requires LayAlt(x, code, h, st, b, m, end)
    ensures h + 3 <= st && m == st + BranchSize(b) && m + 3 <= |code|
  {
  }

  // ---------- which groups are called ----------

  /** The numbers of the groups an item calls. */
  function CallsIn(it: Item): set<nat>
    decreases it
  {
    match it
    case Call(num) => {num}
    case Zero(_, g) => CallsIn(g)
    case Group(_, _, alts, _) => CallsInAlts(alts)
    case _ => {}
  }

  function CallsInBranch(b: Branch): set<nat>
    decreases b
  {
    match b
    case Nil => {}
    case Cons(it, rest) => CallsIn(it) + CallsInBranch(rest)
  }

  function CallsInAlts(alts: Alts): set<nat>
    decreases alts
  {
    match alts
    case Last(b) => CallsInBranch(b)
    case More(b, rest) => CallsInBranch(b) + CallsInAlts(rest)
  }

  /** An operand that is still a number is that of a call of this group. */
  lemma {:induction false} OperandCalls(x: Links, code: seq<byte>, a: nat, it: Item, o: nat)
    requires LayItem(x, code, a, it) && o in Operands(it, a) && o in x.forward
    ensures 0 < o && o + 1 < |code| && code[o - 1] == OP_RECURSE && Get(code, o) in CallsIn(it)
    decreases it
  {
    match it
    case Call(_) =>
    case Zero(_, g) => OperandCalls(x, code, a + 1, g, o);
    case Group(bra, _, alts, ket) => OperandCallsAlts(x, code, a, a + BraSize(bra), alts, a, ket, o);
    case _ =>
  }

  lemma {:induction false} OperandCallsBranch(x: Links, code: seq<byte>, a: nat, b: Branch, o: nat)
    requires LayBranch(x, code, a, b) && o in OperandsInBranch(b, a) && o in x.forward
    ensures 0 < o && o + 1 < |code| && code[o - 1] == OP_RECURSE && Get(code, o) in CallsInBranch(b)
    decreases b
  {
    OpenBranch(x, code, a, b.head, b.tail);
    hide LayItem, LayBranch;
    if o in Operands(b.head, a) {
      OperandCalls(x, code, a, b.head, o);
    } else {
      OperandCallsBranch(x, code, a + Size(b.head), b.tail, o);
    }
  }

  lemma {:induction false} OperandCallsAlts(x: Links, code: seq<byte>, h: nat, st: nat, alts: Alts, bra: nat, ket: byte,
                                            o: nat)
    requires LayAlts(x, code, h, st, alts, bra, ket) && o in OperandsInAlts(alts, st) && o in x.forward
    ensures 0 < o && o + 1 < |code| && code[o - 1] == OP_RECURSE && Get(code, o) in CallsInAlts(alts)
    decreases alts
  {
    hide LayItem, LayBranch;
    var m := st + BranchSize(alts.b);
    if o in OperandsInBranch(alts.b, st) {
      OperandCallsBranch(x, code, st, alts.b, o);
    } else {
      OperandCallsAlts(x, code, m, m + 3, alts.rest, bra, ket, o);
    }
  }

  /** Without forward references every call is linked. */
  lemma {:induction false} CallsLinked(x: Links, code: seq<byte>, a: nat, it: Item, num: nat)
    requires LayItem(x, code, a, it) && num in CallsIn(it) && x.forward == {}
    ensures num in x.target
    decreases it
  {
    match it
    case Call(_) =>
    case Zero(_, g) => CallsLinked(x, code, a + 1, g, num);
    case Group(bra, _, alts, ket) => CallsLinkedAlts(x, code, a, a + BraSize(bra), alts, a, ket, num);
    case _ =>
  }

  lemma {:induction false} CallsLinkedBranch(x: Links, code: seq<byte>, a: nat, b: Branch, num: nat)
    requires LayBranch(x, code, a, b) && num in CallsInBranch(b) && x.forward == {}
    ensures num in x.target
    decreases b
  {
    OpenBranch(x, code, a, b.head, b.tail);
    hide LayItem, LayBranch;
    if num in CallsIn(b.head) {
      CallsLinked(x, code, a, b.head, num);
    } else {
      CallsLinkedBranch(x, code, a + Size(b.head), b.tail, num);
    }
  }

  lemma {:induction false} CallsLinkedAlts(x: Links, code: seq<byte>, h: nat, st: nat, alts: Alts, bra: nat, ket: byte,
                                           num: nat)
    requires LayAlts(x, code, h, st, alts, bra, ket) && num in CallsInAlts(alts) && x.forward == {}
    ensures num in x.target
    decreases alts
  {
    hide LayItem, LayBranch;
    var m := st + BranchSize(alts.b);
    if num in CallsInBranch(alts.b) {
      CallsLinkedBranch(x, code, st, alts.b, num);
    } else {
      CallsLinkedAlts(x, code, m, m + 3, alts.rest, bra, ket, num);
    }
  }

  // ---------- the same in the pattern ----------

  lemma {:induction false} CallsAppended(b: Branch, c: Branch)
    ensures CallsInBranch(Append(b, c)) == CallsInBranch(b) + CallsInBranch(c)
  {
    if b.Cons? {
      CallsAppended(b.tail, c);
    }
  }

  lemma {:induction false} CallsCopied(g: Item, k: nat, tail: Branch)
    ensures CallsInBranch(Copies(g, k, tail)) == (if k > 0 then CallsIn(g) else {}) + CallsInBranch(tail)
    decreases k
  {
    if k > 0 {
      CallsCopied(g, k - 1, tail);
    }
  }

  lemma CallsOfOne(it: Item)
    ensures CallsInBranch(Cons(it, Nil)) == CallsIn(it)
  {
  }

  lemma {:induction false} CallsNested(g: Item, k: nat, greed: Greed)
    requires k >= 1
    ensures CallsIn(Nest(g, k, greed)) == CallsIn(g)
    decreases k
  {
    if k > 1 {
      CallsNested(g, k - 1, greed);
      CallsOfOne(Nest(g, k - 1, greed));
      var body := NestBody(g, k, greed);
      assert CallsInBranch(body) == CallsIn(g) + CallsIn(Nest(g, k - 1, greed));
      assert CallsIn(Group(OP_BRA, 0, Last(body), OP_KET)) == CallsInBranch(body);
    }
  }

  lemma CallsOfSingle(atom: Atom, min: nat, max: int, greed: Greed)
    requires max == -1 || min <= max
    ensures CallsInBranch(ExpandSingle(atom, min, max, greed)) == {}
  {
    var b := ExpandSingle(atom, min, max, greed);
    if b.Cons? {
      assert CallsInBranch(b.tail) == {};
    }
  }

  lemma CallsOfOnce(b: Branch)
    ensures CallsInBranch(Cons(Once(b), Nil)) == CallsIn(Once(b)) == CallsInBranch(b)
  {
    CallsOfOne(Once(b));
    assert CallsInAlts(Last(b)) == CallsInBranch(b);
  }

  lemma CallsOfGroup(g: Item, min: nat, max: int, greed: Greed)
    requires g.Group? && (max == -1 || min <= max)
    ensures CallsInBranch(ExpandGroup(g, min, max, greed)) == CallsIn(g)
  {
    var loop := LoopItem(g, greed);
    var b := GroupCopies(g, min, max, greed);
    CallsOfOnce(b);
    if max == 0 || (min == 0 && max == -1) {
      CallsOfOne(b.head);
      assert CallsIn(b.head) == CallsIn(b.head.group);
    } else if max == -1 {
      CallsCopied(g, min - 1, Cons(loop, Nil));
      CallsOfOne(loop);
    } else {
      var tail := if max == min then Nil else Cons(Nest(g, max - min, greed), Nil);
      CallsCopied(g, min, tail);
      if max != min {
        CallsNested(g, max - min, greed);
        CallsOfOne(tail.head);
      }
    }
  }

  /** The code tree calls the groups that the pattern calls. */
  lemma {:induction false} CallsOfNode(n: Node)
    requires NodeOk(n)
    ensures CallsInBranch(ExpandNode(n)) == CalledNode(n)
    decreases n
  {
    match n
    case Sub(_, c) =>
      CallsOfChoice(c);
      CallsOfOne(ExpandNode(n).head);
    case Repeat(body, min, max, greed) =>
      assert NodeOk(body);
      if body.Single? {
        CallsOfSingle(body.atom, min, max, greed);
        CallsOfSingle(body.atom, min, max, Greedy);
        CallsOfOnce(ExpandSingle(body.atom, min, max, Greedy));
      } else if body.Sub? {
        CallsOfChoice(body.choice);
        CallsOfGroup(GroupItem(body.num, ExpandChoice(body.choice), OP_KET), min, max, greed);
      } else {
        CallsOfOne(Call(body.num));
        CallsOfOnce(Cons(Call(body.num), Nil));
        CallsOfGroup(Once(Cons(Call(body.num), Nil)), min, max, greed);
      }
    case Assert(_) => CallsOfOne(ExpandNode(n).head);
    case Single(_) => CallsOfOne(ExpandNode(n).head);
    case Recurse(_) => CallsOfOne(ExpandNode(n).head);
  }

  lemma {:induction false} CallsOfSequence(s: Sequence)
    requires SequenceOk(s)
    ensures CallsInBranch(ExpandSequence(s)) == CalledSequence(s)
    decreases s
  {
    if s.Then? {
      CallsOfNode(s.first);
      CallsOfSequence(s.rest);
      CallsAppended(ExpandNode(s.first), ExpandSequence(s.rest));
    }
  }

  lemma {:induction false} CallsOfChoice(c: Choice)
    requires ChoiceOk(c)
    ensures CallsInAlts(ExpandChoice(c)) == CalledChoice(c)
    decreases c
  {
    CallsOfSequence(c.seq0);
    if c.Or? {
      CallsOfChoice(c.others);
    }
  }
}
