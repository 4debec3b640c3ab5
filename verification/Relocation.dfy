/** Moving and copying code that a tree is laid out in. Links inside a group are
  * relative and survive; operands of subroutine calls are absolute, so a move
  * has to adjust those that point into the moved code, and the list of forward
  * references has to follow.
  */
module Relocation {
  import opened Opcodes
  import opened Tree
  import opened Meaning
  import opened Program
  import opened Walk

  /** The bytes from lo to hi stand d further on in the other code. */
  ghost predicate MovedBytes(code: seq<byte>, code': seq<byte>, lo: nat, hi: nat, d: int) {
    && lo <= hi <= |code| && 0 <= lo + d && hi + d <= |code'|
    && forall j {:trigger code'[j]} :: lo + d <= j < hi + d ==> code'[j] == code[j - d]
  }

  /** Known targets stay, and so do the unresolved operands from lo to hi, d
    * further on. */
  ghost predicate MovedLinks(x: Links, y: Links, lo: nat, hi: nat, d: int) {
    && y.atomic == x.atomic
    && (forall n :: n in x.target ==> n in y.target && y.target[n] == x.target[n])
    && 0 <= lo + d
    && (forall o: nat {:trigger o in y.forward} :: lo + d <= o < hi + d ==> (o in y.forward <==> o - d in x.forward))
  }

  ghost predicate Moved(x: Links, code: seq<byte>, y: Links, code': seq<byte>, lo: nat, hi: nat, d: int) {
    MovedBytes(code, code', lo, hi, d) && MovedLinks(x, y, lo, hi, d)
  }

  lemma MovedPart(x: Links, code: seq<byte>, y: Links, code': seq<byte>, lo: nat, hi: nat, d: int, l: nat, h: nat)
    requires Moved(x, code, y, code', lo, hi, d) && lo <= l <= h <= hi
    ensures Moved(x, code, y, code', l, h, d)
  {
  }

  lemma MovedKind(x: Links, code: seq<byte>, y: Links, code': seq<byte>, lo: nat, hi: nat, d: int)
    requires Moved(x, code, y, code', lo, hi, d)
    ensures y.atomic == x.atomic
  {
  }

  lemma MovedBounds(code: seq<byte>, code': seq<byte>, lo: nat, hi: nat, d: int)
    requires MovedBytes(code, code', lo, hi, d)
    ensures lo + d >= 0 && hi + d <= |code'|
  {
  }

  lemma MovedByte(code: seq<byte>, code': seq<byte>, lo: nat, hi: nat, d: int, i: nat)
    requires MovedBytes(code, code', lo, hi, d) && lo <= i < hi
    ensures 0 <= i + d < |code'| && i < |code| && code'[i + d] == code[i]
  {
  }

  lemma MovedGet(code: seq<byte>, code': seq<byte>, lo: nat, hi: nat, d: int, i: nat)
    requires MovedBytes(code, code', lo, hi, d) && lo <= i && i + 2 <= hi
    ensures 0 <= i + d && i + d + 1 < |code'| && i + 1 < |code| && Get(code', i + d) == Get(code, i)
  {
    assert code'[i + d] == code[i] && code'[i + d + 1] == code[i + 1];
  }

  lemma RelocateAtom(code: seq<byte>, code': seq<byte>, lo: nat, hi: nat, d: int, atom: Atom)
    requires LayAtom(code, lo, atom) && MovedBytes(code, code', lo, hi, d) && hi >= lo + AtomSize(atom)
    ensures LayAtom(code', lo + d, atom)
  {
    var b := lo + d;
    assert code'[b] == code[lo];
    if atom.Cls? {
      assert code'[b + 1..b + 1 + BITMAP_SIZE] == code[lo + 1..lo + 1 + BITMAP_SIZE];
    } else if atom.Chr? {
      assert code'[b + 1] == code[lo + 1];
    }
  }

  lemma RelocateRep(code: seq<byte>, code': seq<byte>, lo: nat, hi: nat, d: int, atom: Atom, k: nat, min: nat, max: nat)
    requires LayRep(code, lo, atom, k, min, max) && MovedBytes(code, code', lo, hi, d) && hi == lo + RepSize(atom, k)
    ensures LayRep(code', lo + d, atom, k, min, max)
  {
    if atom.Cls? {
      var e := lo + 1 + BITMAP_SIZE;
      RelocateAtom(code, code', lo, hi, d, atom);
      assert code'[e + d] == code[e];
      if HasRange(k) {
        MovedGet(code, code', lo, hi, d, e + 1);
        MovedGet(code, code', lo, hi, d, e + 3);
      }
    } else {
      assert code'[lo + d] == code[lo] && code'[hi - 1 + d] == code[hi - 1];
      if HasCount(k) {
        MovedGet(code, code', lo, hi, d, lo + 1);
      }
    }
  }

  lemma RelocateCall(x: Links, code: seq<byte>, y: Links, code': seq<byte>, lo: nat, hi: nat, d: int, num: nat)
    requires LayCall(x, code, lo, num) && Moved(x, code, y, code', lo, hi, d) && hi == lo + 3
    ensures LayCall(y, code', lo + d, num)
  {
    assert code'[lo + d] == code[lo];
    MovedGet(code, code', lo, hi, d, lo + 1);
    assert lo + d + 1 in y.forward <==> lo + 1 in x.forward;
  }

  lemma RelocateBra(x: Links, code: seq<byte>, y: Links, code': seq<byte>, a: nat, e: nat, d: int, bra: byte, num: nat,
                    ket: byte)
    requires LayBra(x, code, a, bra, num, ket) && y.atomic == x.atomic && MovedBytes(code, code', a, e, d)
    requires a + BraSize(bra) <= e
    ensures 0 <= a + d && LayBra(y, code', a + d, bra, num, ket)
  {
    assert code'[a + d] == code[a];
    if IsCapturing(bra) {
      MovedGet(code, code', a, e, d, a + 3);
    }
  }

  lemma RelocateLeaf(x: Links, code: seq<byte>, y: Links, code': seq<byte>, a: nat, e: nat, d: int, it: Item)
    requires it.Anchor? || it.One? || it.Rep? || it.Call?
    requires LayItem(x, code, a, it) && Moved(x, code, y, code', a, e, d) && e == a + Size(it)
    ensures LayItem(y, code', a + d, it)
  {
    match it
    case Anchor(_) => MovedByte(code, code', a, e, d, a);
    case One(atom) => RelocateAtom(code, code', a, e, d, atom);
    case Rep(atom, k, min, max) => RelocateRep(code, code', a, e, d, atom, k, min, max);
    case Call(num) => RelocateCall(x, code, y, code', a, e, d, num);
  }

  lemma {:induction false} RelocateItem(x: Links, code: seq<byte>, y: Links, code': seq<byte>, a: nat, e: nat, d: int,
                                        it: Item)
    requires LayItem(x, code, a, it) && Moved(x, code, y, code', a, e, d) && e == a + Size(it)
    ensures 0 <= a + d && LayItem(y, code', a + d, it)
    decreases it
  {
    hide MovedBytes, MovedLinks, LayItem, LayBranch, LayAlts, LayBra, Size, AltsSize;
    MovedBounds(code, code', a, e, d);
    match it
    case Zero(op, g) =>
      OpenZero(x, code, a, op, g);
      MovedKind(x, code, y, code', a, e, d);
      MovedByte(code, code', a, e, d, a);
      MovedPart(x, code, y, code', a, e, d, a + 1, e);
      RelocateItem(x, code, y, code', a + 1, e, d, g);
      MakeZero(y, code', a + d, op, g);
    case Group(bra, num, alts, ket) =>
      OpenGroup(x, code, a, bra, num, alts, ket);
      RelocateAlts(x, code, y, code', a, e, d, a, a + BraSize(bra), alts, ket);
      MovedKind(x, code, y, code', a, e, d);
      RelocateBra(x, code, y, code', a, e, d, bra, num, ket);
      MakeGroup(y, code', a + d, bra, num, alts, ket);
    case Anchor(_) => RelocateLeaf(x, code, y, code', a, e, d, it);
    case One(_) => RelocateLeaf(x, code, y, code', a, e, d, it);
    case Rep(_, _, _, _) => RelocateLeaf(x, code, y, code', a, e, d, it);
    case Call(_) => RelocateLeaf(x, code, y, code', a, e, d, it);
  }

  lemma {:induction false} RelocateBranch(x: Links, code: seq<byte>, y: Links, code': seq<byte>, a: nat, e: nat, d: int,
                                          b: Branch)
    requires LayBranch(x, code, a, b) && Moved(x, code, y, code', a, e, d) && e == a + BranchSize(b)
    ensures 0 <= a + d && LayBranch(y, code', a + d, b)
    decreases b, 0
  {
    hide MovedBytes, MovedLinks, LayItem, LayBranch, Size, BranchSize;
    MovedBounds(code, code', a, e, d);
    match b
    case Nil => MakeNil(y, code', a + d);
    case Cons(it, rest) =>
      var m := a + Size(it);
      OpenBranch(x, code, a, it, rest);
      MovedPart(x, code, y, code', a, e, d, a, m);
      MovedPart(x, code, y, code', a, e, d, m, e);
      RelocateItem(x, code, y, code', a, m, d, it);
      RelocateBranch(x, code, y, code', m, e, d, rest);
      MakeBranch(y, code', a + d, it, rest);
  }

  lemma {:induction false} RelocateAlt(x: Links, code: seq<byte>, y: Links, code': seq<byte>, a: nat, e: nat, d: int,
                                       h: nat, st: nat, b: Branch, m: nat, end: byte)
    requires LayAlt(x, code, h, st, b, m, end) && Moved(x, code, y, code', a, e, d) && a <= h && m + 3 <= e
    ensures 0 <= h + d && LayAlt(y, code', h + d, st + d, b, m + d, end)
    ensures m + d + 2 < |code'| && Get(code', m + d + 1) == Get(code, m + 1)
    ensures h + 3 <= st <= m
    decreases b, 1
  {
    MovedBounds(code, code', a, e, d);
    MovedPart(x, code, y, code', a, e, d, st, m);
    MovedGet(code, code', a, e, d, h + 1);
    MovedByte(code, code', a, e, d, m);
    MovedGet(code, code', a, e, d, m + 1);
    hide MovedBytes, MovedLinks, LayBranch, Get;
    RelocateBranch(x, code, y, code', st, m, d, b);
  }

  lemma {:induction false} RelocateAlts(x: Links, code: seq<byte>, y: Links, code': seq<byte>, a: nat, e: nat, d: int,
                                        h: nat, st: nat, alts: Alts, ket: byte)
    requires LayAlts(x, code, h, st, alts, a, ket) && Moved(x, code, y, code', a, e, d) && a <= h
    requires e == st + AltsSize(alts) + 3
    ensures 0 <= a + d && LayAlts(y, code', h + d, st + d, alts, a + d, ket)
    decreases alts
  {
    hide MovedBytes, MovedLinks, LayAlts, LayAlt, Get, AltsSize, BranchSize;
    var m := st + BranchSize(alts.b);
    MovedBounds(code, code', a, e, d);
    match alts
    case Last(b) =>
      OpenLast(x, code, h, st, b, m, a, ket);
      RelocateAlt(x, code, y, code', a, e, d, h, st, b, m, ket);
      MakeLast(y, code', h + d, st + d, b, m + d, a + d, ket);
    case More(b, rest) =>
      OpenMore(x, code, h, st, b, m, rest, a, ket);
      RelocateAlt(x, code, y, code', a, e, d, h, st, b, m, OP_ALT);
      RelocateAlts(x, code, y, code', a, e, d, m, m + 3, rest, ket);
      MakeMore(y, code', h + d, st + d, b, m + d, rest, a + d, ket);
  }

  // ---------- where the operands of calls are ----------

  function Operands(it: Item, a: nat): set<nat>
    decreases it
  {
    match it
    case Call(_) => {a + 1}
    case Zero(_, g) => Operands(g, a + 1)
    case Group(bra, _, alts, _) => OperandsInAlts(alts, a + BraSize(bra))
    case _ => {}
  }

  function OperandsInBranch(b: Branch, a: nat): set<nat>
    decreases b
  {
    match b
    case Nil => {}
    case Cons(it, rest) => Operands(it, a) + OperandsInBranch(rest, a + Size(it))
  }

  function OperandsInAlts(alts: Alts, st: nat): set<nat>
    decreases alts
  {
    match alts
    case Last(b) => OperandsInBranch(b, st)
    case More(b, rest) => OperandsInBranch(b, st) + OperandsInAlts(rest, st + BranchSize(b) + 3)
  }

  lemma {:induction false} OperandInside(it: Item, a: nat, o: nat)
    requires o in Operands(it, a)
    ensures a < o && o + 2 <= a + Size(it)
    decreases it
  {
    match it
    case Call(_) =>
    case Zero(_, g) => OperandInside(g, a + 1, o);
    case Group(bra, _, alts, _) => OperandInsideAlts(alts, a + BraSize(bra), o);
    case _ =>
  }

  lemma {:induction false} OperandInsideBranch(b: Branch, a: nat, o: nat)
    requires o in OperandsInBranch(b, a)
    ensures a < o && o + 2 <= a + BranchSize(b)
    decreases b
  {
    if o in Operands(b.head, a) {
      OperandInside(b.head, a, o);
    } else {
      OperandInsideBranch(b.tail, a + Size(b.head), o);
    }
  }

  lemma {:induction false} OperandInsideAlts(alts: Alts, st: nat, o: nat)
    requires o in OperandsInAlts(alts, st)
    ensures st < o && o + 2 <= st + AltsSize(alts)
    decreases alts
  {
    if o in OperandsInBranch(alts.b, st) {
      OperandInsideBranch(alts.b, st, o);
    } else {
      OperandInsideAlts(alts.rest, st + BranchSize(alts.b) + 3, o);
    }
  }

  lemma {:induction false} OperandMoves(it: Item, a: nat, b: nat, o: nat)
    requires o in Operands(it, a) && o + b >= a
    ensures o - a + b in Operands(it, b)
    decreases it
  {
    match it
    case Call(_) =>
    case Zero(_, g) => OperandMoves(g, a + 1, b + 1, o);
    case Group(bra, _, alts, _) => OperandMovesAlts(alts, a + BraSize(bra), b + BraSize(bra), o);
    case _ =>
  }

  lemma {:induction false} OperandMovesBranch(br: Branch, a: nat, b: nat, o: nat)
    requires o in OperandsInBranch(br, a) && o + b >= a
    ensures o - a + b in OperandsInBranch(br, b)
    decreases br
  {
    if o in Operands(br.head, a) {
      OperandMoves(br.head, a, b, o);
    } else {
      OperandMovesBranch(br.tail, a + Size(br.head), b + Size(br.head), o);
    }
  }

  lemma {:induction false} OperandMovesAlts(alts: Alts, a: nat, b: nat, o: nat)
    requires o in OperandsInAlts(alts, a) && o + b >= a
    ensures o - a + b in OperandsInAlts(alts, b)
    decreases alts
  {
    if o in OperandsInBranch(alts.b, a) {
      OperandMovesBranch(alts.b, a, b, o);
    } else {
      var n := BranchSize(alts.b) + 3;
      OperandMovesAlts(alts.rest, a + n, b + n, o);
    }
  }

  // ---------- adjusting calls into code that is about to move ----------

  /** What a call's operand becomes when the code from g on moves up by d. */
  function Adjusted(v: nat, g: nat, d: nat): nat {
    if v >= g then (v + d) % 65536 else v
  }

  /** The instruction at i after the adjustment: the operand of a call is changed
    * unless it is still a group number, and everything else is as it was. */
  ghost predicate AdjustedAt(x: Links, code: seq<byte>, code': seq<byte>, i: nat, g: nat, d: nat)
    requires i < |code| == |code'|
  {
    if code[i] == OP_RECURSE && i + 1 !in x.forward then
      i + 3 <= |code| && code'[i] == OP_RECURSE && Get(code', i + 1) == Adjusted(Get(code, i + 1), g, d)
    else forall j :: i <= j < i + OpLength(code[i]) && j < |code| ==> code'[j] == code[j]
  }

  /** The same for every instruction of a walk that starts at g. */
  ghost predicate AdjustedFrom(x: Links, code: seq<byte>, code': seq<byte>, g: nat, e: nat, d: nat) {
    && |code'| == |code| && e <= |code|
    && forall i: nat {:trigger Walks(code, g, i)} :: i < e && Walks(code, g, i) ==> AdjustedAt(x, code, code', i, g, d)
  }

  /** The links once the calls have been adjusted; the code has not moved yet. */
  ghost predicate AdjustedLinks(x: Links, y: Links, g: nat, d: nat) {
    && y.atomic == x.atomic && y.forward == x.forward && y.target.Keys == x.target.Keys
    && forall n :: n in x.target ==> y.target[n] == (if x.target[n] >= g then x.target[n] + d else x.target[n]) < 65536
  }

  /** An instruction with a link keeps its opcode and its link. */
  lemma AdjustedLink(x: Links, code: seq<byte>, code': seq<byte>, i: nat, g: nat, d: nat)
    requires i + 3 <= |code| == |code'| && AdjustedAt(x, code, code', i, g, d)
    requires code[i] != OP_RECURSE && OpLength(code[i]) >= 3
    ensures code'[i] == code[i] && Get(code', i + 1) == Get(code, i + 1)
  {
  }

  lemma AdjustedKind(x: Links, y: Links, g: nat, d: nat)
    requires AdjustedLinks(x, y, g, d)
    ensures y.atomic == x.atomic
  {
  }

  lemma AdjustedHere(x: Links, code: seq<byte>, code': seq<byte>, g: nat, e: nat, d: nat, i: nat)
    requires AdjustedFrom(x, code, code', g, e, d) && i < e && Walks(code, g, i)
    ensures |code'| == |code| >= e && AdjustedAt(x, code, code', i, g, d)
  {
  }

  lemma SizePositive(it: Item)
    ensures Size(it) > 0
  {
  }

  lemma AdjustedZero(x: Links, code: seq<byte>, code': seq<byte>, i: nat, g: nat, d: nat)
    requires i < |code| == |code'| && AdjustedAt(x, code, code', i, g, d) && IsAnyZero(code[i]) && Walks(code, g, i)
    ensures code'[i] == code[i] && Walks(code, g, i + 1)
  {
    WalkOne(code, i, i + 1);
    WalkOn(code, g, i, i + 1);
  }

  lemma WalkItemOn(x: Links, code: seq<byte>, g: nat, a: nat, it: Item)
    requires Walks(code, g, a) && LayItem(x, code, a, it)
    ensures Walks(code, g, a + Size(it))
  {
    WalkItem(x, code, a, it);
    WalkOn(code, g, a, a + Size(it));
  }

  lemma AdjustedBra(x: Links, code: seq<byte>, y: Links, code': seq<byte>, i: nat, g: nat, d: nat, bra: byte, num: nat,
                    ket: byte)
    requires |code| == |code'| && i < |code| && AdjustedAt(x, code, code', i, g, d) && LayBra(x, code, i, bra, num, ket)
    requires y.atomic == x.atomic
    ensures LayBra(y, code', i, bra, num, ket) && Get(code', i + 1) == Get(code, i + 1)
    ensures Walks(code, i, i + BraSize(bra))
  {
    WalkOne(code, i, i + BraSize(bra));
  }

  lemma AdjustAtom(x: Links, code: seq<byte>, code': seq<byte>, a: nat, g: nat, d: nat, atom: Atom)
    requires LayAtom(code, a, atom) && |code'| == |code| && AdjustedAt(x, code, code', a, g, d)
    ensures LayAtom(code', a, atom)
  {
    if atom.Cls? {
      assert code'[a + 1..a + 1 + BITMAP_SIZE] == code[a + 1..a + 1 + BITMAP_SIZE];
    }
  }

  lemma AdjustRep(x: Links, code: seq<byte>, code': seq<byte>, a: nat, g: nat, e: nat, d: nat, atom: Atom, k: nat,
                  min: nat, max: nat)
    requires LayRep(code, a, atom, k, min, max) && AdjustedFrom(x, code, code', g, e, d) && Walks(code, g, a)
    requires a + RepSize(atom, k) <= e
    ensures LayRep(code', a, atom, k, min, max)
  {
    AdjustedHere(x, code, code', g, e, d, a);
    if atom.Cls? {
      AdjustAtom(x, code, code', a, g, d, atom);
      WalkAtomOn(code, g, a, atom);
      AdjustedHere(x, code, code', g, e, d, a + 1 + BITMAP_SIZE);
      hide AdjustedFrom, Walks, LayAtom;
    } else {
      hide AdjustedFrom, Walks;
    }
  }

  lemma WalkAtomOn(code: seq<byte>, g: nat, a: nat, atom: Atom)
    requires Walks(code, g, a) && LayAtom(code, a, atom)
    ensures Walks(code, g, a + AtomSize(atom))
  {
    WalkOne(code, a, a + AtomSize(atom));
    WalkOn(code, g, a, a + AtomSize(atom));
  }

  lemma AdjustCall(x: Links, code: seq<byte>, y: Links, code': seq<byte>, a: nat, g: nat, d: nat, num: nat)
    requires LayCall(x, code, a, num) && AdjustedLinks(x, y, g, d) && |code'| == |code|
    requires AdjustedAt(x, code, code', a, g, d)
    ensures LayCall(y, code', a, num)
  {
  }

  lemma AdjustLeaf(x: Links, code: seq<byte>, y: Links, code': seq<byte>, a: nat, it: Item, g: nat, e: nat, d: nat)
    requires it.Anchor? || it.One? || it.Rep? || it.Call?
    requires LayItem(x, code, a, it) && AdjustedFrom(x, code, code', g, e, d) && AdjustedLinks(x, y, g, d)
    requires Walks(code, g, a) && a + Size(it) <= e
    ensures LayItem(y, code', a, it)
  {
    assert AdjustedAt(x, code, code', a, g, d);
    match it
    case Anchor(_) =>
    case One(atom) => AdjustAtom(x, code, code', a, g, d, atom);
    case Rep(atom, k, min, max) => AdjustRep(x, code, code', a, g, e, d, atom, k, min, max);
    case Call(num) => AdjustCall(x, code, y, code', a, g, d, num);
  }

  lemma {:induction false} AdjustItem(x: Links, code: seq<byte>, y: Links, code': seq<byte>, a: nat, it: Item, g: nat,
                                      e: nat, d: nat)
    requires LayItem(x, code, a, it) && AdjustedFrom(x, code, code', g, e, d) && AdjustedLinks(x, y, g, d)
    requires Walks(code, g, a) && a + Size(it) <= e
    ensures LayItem(y, code', a, it)
    decreases it
  {
    hide AdjustedFrom, AdjustedLinks, AdjustedAt, LayItem, LayAlts, LayBra, Walks, Size, AltsSize;
    SizePositive(it);
    AdjustedHere(x, code, code', g, e, d, a);
    match it
    case Zero(op, grp) =>
      OpenZero(x, code, a, op, grp);
      AdjustedKind(x, y, g, d);
      AdjustedZero(x, code, code', a, g, d);
      AdjustItem(x, code, y, code', a + 1, grp, g, e, d);
      MakeZero(y, code', a, op, grp);
    case Group(bra, num, alts, ket) =>
      OpenGroup(x, code, a, bra, num, alts, ket);
      AdjustedKind(x, y, g, d);
      AdjustedBra(x, code, y, code', a, g, d, bra, num, ket);
      WalkOn(code, g, a, a + BraSize(bra));
      AdjustAlts(x, code, y, code', a, a + BraSize(bra), alts, a, ket, g, e, d);
      MakeGroup(y, code', a, bra, num, alts, ket);
    case Anchor(_) => AdjustLeaf(x, code, y, code', a, it, g, e, d);
    case One(_) => AdjustLeaf(x, code, y, code', a, it, g, e, d);
    case Rep(_, _, _, _) => AdjustLeaf(x, code, y, code', a, it, g, e, d);
    case Call(_) => AdjustLeaf(x, code, y, code', a, it, g, e, d);
  }

  lemma {:induction false} AdjustBranch(x: Links, code: seq<byte>, y: Links, code': seq<byte>, a: nat, b: Branch,
                                        g: nat, e: nat, d: nat)
    requires LayBranch(x, code, a, b) && AdjustedFrom(x, code, code', g, e, d) && AdjustedLinks(x, y, g, d)
    requires Walks(code, g, a) && a + BranchSize(b) <= e && e <= |code'|
    ensures LayBranch(y, code', a, b) && Walks(code, g, a + BranchSize(b))
    decreases b, 0
  {
    hide AdjustedFrom, AdjustedLinks, LayItem, LayBranch, Walks, Size, BranchSize;
    match b
    case Nil => MakeNil(y, code', a);
    case Cons(it, rest) =>
      OpenBranch(x, code, a, it, rest);
      AdjustItem(x, code, y, code', a, it, g, e, d);
      WalkItemOn(x, code, g, a, it);
      AdjustBranch(x, code, y, code', a + Size(it), rest, g, e, d);
      MakeBranch(y, code', a, it, rest);
  }

  /** One alternative, up to but not over the header or ket that ends it. */
  lemma {:induction false} AdjustAlt(x: Links, code: seq<byte>, y: Links, code': seq<byte>, h: nat, st: nat, b: Branch,
                                     m: nat, end: byte,
                                     g: nat, e: nat, d: nat)
    requires LayAlt(x, code, h, st, b, m, end) && (end == OP_ALT || IsAnyKet(end))
    requires AdjustedFrom(x, code, code', g, e, d) && AdjustedLinks(x, y, g, d)
    requires Walks(code, g, st) && m + 3 <= e && Get(code', h + 1) == Get(code, h + 1)
    ensures LayAlt(y, code', h, st, b, m, end)
    ensures Get(code', m + 1) == Get(code, m + 1) && Walks(code, g, m + 3)
    decreases b, 1
  {
    hide LayBranch, AdjustedLinks, FirstIn, Get, AdjustedAt;
    AdjustBranch(x, code, y, code', st, b, g, e, d);
    assert AdjustedAt(x, code, code', m, g, d);
    AdjustedLink(x, code, code', m, g, d);
    WalkOne(code, m, m + 3);
    WalkOn(code, g, m, m + 3);
  }

  lemma {:induction false} AdjustAlts(x: Links, code: seq<byte>, y: Links, code': seq<byte>, h: nat, st: nat,
                                      alts: Alts, bra: nat, ket: byte,
                                      g: nat, e: nat, d: nat)
    requires LayAlts(x, code, h, st, alts, bra, ket) && IsAnyKet(ket)
    requires AdjustedFrom(x, code, code', g, e, d) && AdjustedLinks(x, y, g, d)
    requires Walks(code, g, st) && st + AltsSize(alts) + 3 <= e
    requires Get(code', h + 1) == Get(code, h + 1)
    ensures LayAlts(y, code', h, st, alts, bra, ket)
    decreases alts
  {
    hide AdjustedFrom, AdjustedLinks, LayAlts, LayAlt, Walks, Get, AltsSize, BranchSize;
    var m := st + BranchSize(alts.b);
    match alts
    case Last(b) =>
      OpenLast(x, code, h, st, b, m, bra, ket);
      AdjustAlt(x, code, y, code', h, st, b, m, ket, g, e, d);
      MakeLast(y, code', h, st, b, m, bra, ket);
    case More(b, rest) =>
      OpenMore(x, code, h, st, b, m, rest, bra, ket);
      AdjustAlt(x, code, y, code', h, st, b, m, OP_ALT, g, e, d);
      AdjustAlts(x, code, y, code', m, m + 3, rest, bra, ket, g, e, d);
      MakeMore(y, code', h, st, b, m, rest, bra, ket);
  }
}
