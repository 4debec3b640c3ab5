/** A complete compiled pattern: one bracket that holds everything, OP_END after
  * it, and every subroutine call linked to the first group with its number.
  */
module Program {
  import opened Opcodes
  import opened Tree
  import opened Meaning
  import opened Machine
  import opened Runs
  import opened Decoding

  /** The offset of the group FindGroup finds, when the item is at a. */
  function FindOffset(it: Item, a: nat, num: nat): Option<nat>
    decreases it
  {
    match it
    case Group(bra, n, alts, _) =>
      if n == num && num != 0 then Some(a) else FindOffsetInAlts(alts, a + BraSize(bra), num)
    case Zero(_, g) => FindOffset(g, a + 1, num)
    case _ => None
  }

  function FindOffsetInBranch(b: Branch, a: nat, num: nat): Option<nat>
    decreases b
  {
    match b
    case Nil => None
    case Cons(it, rest) =>
      var r := FindOffset(it, a, num);
      if r.Some? then r else FindOffsetInBranch(rest, a + Size(it), num)
  }

  function FindOffsetInAlts(alts: Alts, st: nat, num: nat): Option<nat>
    decreases alts
  {
    match alts
    case Last(b) => FindOffsetInBranch(b, st, num)
    case More(b, rest) =>
      var r := FindOffsetInBranch(b, st, num);
      if r.Some? then r else FindOffsetInAlts(rest, st + BranchSize(b) + 3, num)
  }

  /** The whole code of a pattern without unresolved references. */
  ghost predicate IsCode(x: Links, code: seq<byte>, root: Item) {
    && root.Group? && root.bra == OP_BRA && root.ket == OP_KET
    && LayItem(x, code, 0, root)
    && |code| == Size(root) + 1 <= 65536
    && code[Size(root)] == OP_END
    && x.forward == {}
    && forall n :: n in x.target ==>
         if n == 0 then x.target[n] == 0 else FindOffset(root, 0, n) == Some(x.target[n])
  }

  /** A program: code that holds no atomic or possessive groups. */
  ghost predicate IsProgram(x: PlainLinks, code: seq<byte>, root: Item) {
    IsCode(x, code, root)
  }

  /** A group of the pattern at offset o, ready to be run on its own. */
  ghost predicate Laid(x: PlainLinks, code: seq<byte>, g: Item, o: nat) {
    g.Group? && LayItem(x, code, o, g) && Plain(code, o + Size(g))
  }

  lemma {:induction false} FoundItem(x: PlainLinks, code: seq<byte>, a: nat, it: Item, num: nat)
    requires LayItem(x, code, a, it) && Plain(code, a + Size(it)) && FindOffset(it, a, num).Some?
    ensures FindGroup(it, num).Some? && Laid(x, code, FindGroup(it, num).value, FindOffset(it, a, num).value)
    ensures a <= FindOffset(it, a, num).value
    decreases it
  {
    match it
    case Group(bra, n, alts, ket) =>
      if n != num || num == 0 {
        FoundAlts(x, code, a, a + BraSize(bra), alts, a, ket, num);
      }
    case Zero(_, g) => FoundItem(x, code, a + 1, g, num);
    case _ =>
  }

  lemma {:induction false} FoundBranch(x: PlainLinks, code: seq<byte>, a: nat, b: Branch, num: nat)
    requires LayBranch(x, code, a, b) && Plain(code, a + BranchSize(b)) && FindOffsetInBranch(b, a, num).Some?
    ensures FindInBranch(b, num).Some?
    ensures Laid(x, code, FindInBranch(b, num).value, FindOffsetInBranch(b, a, num).value)
    ensures a <= FindOffsetInBranch(b, a, num).value
    decreases b
  {
    var a2 := a + Size(b.head);
    BranchByte(x, code, a2, b.tail);
    NotFound(b.head, a, num);
    if FindOffset(b.head, a, num).Some? {
      FoundItem(x, code, a, b.head, num);
    } else {
      FoundBranch(x, code, a2, b.tail, num);
    }
  }

  lemma {:induction false} FoundAlts(x: PlainLinks, code: seq<byte>, h: nat, st: nat, alts: Alts, bra: nat, ket: byte,
                                     num: nat)
    requires LayAlts(x, code, h, st, alts, bra, ket) && IsKet(ket) && FindOffsetInAlts(alts, st, num).Some?
    ensures FindInAlts(alts, num).Some?
    ensures Laid(x, code, FindInAlts(alts, num).value, FindOffsetInAlts(alts, st, num).value)
    ensures st <= FindOffsetInAlts(alts, st, num).value
    decreases alts
  {
    var e := st + BranchSize(alts.b);
    NotFoundBranch(alts.b, st, num);
    if FindOffsetInBranch(alts.b, st, num).Some? {
      FoundBranch(x, code, st, alts.b, num);
    } else {
      FoundAlts(x, code, e, e + 3, alts.rest, bra, ket, num);
    }
  }

  /** Searching for the group and searching for its offset agree. */
  lemma {:induction false} NotFound(it: Item, a: nat, num: nat)
    ensures FindOffset(it, a, num).Some? <==> FindGroup(it, num).Some?
    decreases it
  {
    match it
    case Group(bra, _, alts, _) => NotFoundAlts(alts, a + BraSize(bra), num);
    case Zero(_, g) => NotFound(g, a + 1, num);
    case _ =>
  }

  lemma {:induction false} NotFoundBranch(b: Branch, a: nat, num: nat)
    ensures FindOffsetInBranch(b, a, num).Some? <==> FindInBranch(b, num).Some?
    decreases b
  {
    if b.Cons? {
      NotFound(b.head, a, num);
      NotFoundBranch(b.tail, a + Size(b.head), num);
    }
  }

  lemma {:induction false} NotFoundAlts(alts: Alts, st: nat, num: nat)
    ensures FindOffsetInAlts(alts, st, num).Some? <==> FindInAlts(alts, num).Some?
    decreases alts
  {
    NotFoundBranch(alts.b, st, num);
    if alts.More? {
      NotFoundAlts(alts.rest, st + BranchSize(alts.b) + 3, num);
    }
  }

  /** Every call of a program leads to the bracket of its callee. */
  lemma CalleeIsLaid(x: PlainLinks, code: seq<byte>, root: Item, num: nat)
    requires IsProgram(x, code, root) && num in x.target
    ensures Callee(root, num).Some? && Laid(x, code, Callee(root, num).value, x.target[num])
    ensures num != 0 ==> x.target[num] + 4 < |code| && Get(code, x.target[num] + 3) == num && x.target[num] > 0
  {
    if num != 0 {
      FoundItem(x, code, 0, root, num);
    }
  }

  lemma ProgramTargets(x: PlainLinks, code: seq<byte>, root: Item)
    requires IsProgram(x, code, root)
    ensures TargetsOk(x, code)
  {
    forall n | n in x.target
      ensures if n == 0 then x.target[n] == 0
              else x.target[n] > 0 && x.target[n] + 4 < |code| && Get(code, x.target[n] + 3) == n
    {
      CalleeIsLaid(x, code, root, n);
    }
  }

  // ---------- calls met during a run are linked ----------

  ghost predicate LinkedCall(x: PlainLinks, code: seq<byte>, o: nat) {
    var i := Decode(code, o);
    i.ICall? ==> i.num in x.target && i.target == x.target[i.num]
  }

  lemma DecodedIsLinked(x: PlainLinks, code: seq<byte>, o: nat)
    requires o < |code|
    requires var i := Decoded(code)[o]; i.ICall? ==> i.num in x.target && i.target == x.target[i.num]
    ensures LinkedCall(x, code, o)
  {
    hide Decode, DecodedTo;
    DecodedToAt(code, |code|, o);
  }

  lemma LeafLinked(x: PlainLinks, code: seq<byte>, a: nat, it: Item)
    requires LayItem(x, code, a, it) && TargetsOk(x, code) && Plain(code, a + Size(it)) && !it.Group? && !it.Zero?
    ensures LinkedCall(x, code, a)
  {
    if it.Rep? {
      DecodeRep(code, a, it.atom, it.k, it.lo, it.hi);
    } else {
      SimpleDecodes(x, code, a, it);
      hide Decode, DecodedTo, TargetsOk;
      DecodedToAt(code, |code|, a);
    }
  }

  lemma {:induction false} ItemLinked(x: PlainLinks, code: seq<byte>, a: nat, it: Item, o: nat)
    requires LayItem(x, code, a, it) && TargetsOk(x, code) && Plain(code, a + Size(it)) && o in Offsets(it, a)
    ensures LinkedCall(x, code, o)
    decreases it
  {
    hide LayItem, LayAlts, TargetsOk, LinkedCall, Decode, DecodedTo, AltsOffsets;
    match it
    case Group(bra, num, alts, ket) =>
      OpenGroup(x, code, a, bra, num, alts, ket);
      GroupDecodes(x, code, a, it);
      if o == a || o == KetOffset(a, it) {
        DecodedIsLinked(x, code, o);
      } else {
        AltsLinked(x, code, a, a + BraSize(bra), alts, a, ket, o);
      }
    case Zero(op, g) =>
      OpenZero(x, code, a, op, g);
      ZeroDecodes(x, code, a, it);
      if o == a {
        DecodedIsLinked(x, code, a);
      } else {
        ItemLinked(x, code, a + 1, g, o);
      }
    case _ => LeafLinked(x, code, a, it);
  }

  lemma {:induction false} BranchLinked(x: PlainLinks, code: seq<byte>, a: nat, b: Branch, o: nat)
    requires LayBranch(x, code, a, b) && TargetsOk(x, code) && Plain(code, a + BranchSize(b))
    requires o in BranchOffsets(b, a)
    ensures LinkedCall(x, code, o)
    decreases b
  {
    var a2 := a + Size(b.head);
    BranchByte(x, code, a2, b.tail);
    if o in Offsets(b.head, a) {
      ItemLinked(x, code, a, b.head, o);
    } else {
      BranchLinked(x, code, a2, b.tail, o);
    }
  }

  lemma {:induction false} AltsLinked(x: PlainLinks, code: seq<byte>, h: nat, st: nat, alts: Alts, bra: nat, ket: byte,
                                      o: nat)
    requires LayAlts(x, code, h, st, alts, bra, ket) && IsKet(ket) && TargetsOk(x, code) && o in AltsOffsets(alts, st)
    ensures LinkedCall(x, code, o)
    decreases alts
  {
    var e := st + BranchSize(alts.b);
    if o in BranchOffsets(alts.b, st) {
      BranchLinked(x, code, st, alts.b, o);
    } else {
      AltDecodes(x, code, e, e + 3, alts.rest, bra, ket);
      DecodedToAt(code, |code|, e);
      if o != e {
        AltsLinked(x, code, e, e + 3, alts.rest, bra, ket, o);
      }
    }
  }
}
