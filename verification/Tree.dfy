/** Compiled code as a tree, and the layout relation between the tree and the
  * bytes. Links between brackets, alternatives and kets are relative; the
  * operand of OP_RECURSE is the absolute offset of the called group, or the
  * group's number while the reference is still forward.
  */
module Tree {
  import opened Opcodes

  /** A matcher of exactly one character. */
  datatype Atom =
    | Chr(op: byte, c: byte)
    | Type(op: byte)
    | Cls(op: byte, bits: seq<byte>)

  /** One item of compiled code. A Rep of a class may hold two counts, a Rep of
    * another atom keeps its single count in hi. The bracket of a repeated group
    * may be stored in its S form, which marks that the group could match nothing.
    * An atomic group has the bracket OP_ONCE; a possessively looping one has a POS
    * bracket and OP_KETRPOS. */
  datatype Item =
    | Anchor(op: byte)
    | One(atom: Atom)
    | Rep(atom: Atom, k: nat, lo: nat, hi: nat)
    | Group(bra: byte, num: nat, alts: Alts, ket: byte)
    | Zero(op: byte, group: Item)
    | Call(num: nat)

  datatype Branch = Nil | Cons(head: Item, tail: Branch)

  datatype Alts = Last(b: Branch) | More(b: Branch, rest: Alts)

  predicate AtomOk(atom: Atom) {
    match atom
    case Chr(op, _) => IsSingleChar(op)
    case Type(op) => IsType(op)
    case Cls(op, bits) => IsClass(op) && |bits| == BITMAP_SIZE
  }

  /** The counts are those the compiler emits: a count operand is positive, and a
    * class range is not one of the forms with an opcode of its own. */
  predicate RepOk(atom: Atom, k: nat, lo: nat, hi: nat) {
    && AtomOk(atom)
    && lo < 65536 && hi < 65536
    && if atom.Cls? then
         k <= K_CRPOSRANGE &&
         (if HasRange(k) then (if hi == 0 then lo >= 1 else lo <= hi) else lo == 0 && hi == 0)
       else
         k <= K_POSUPTO && lo == 0 && (if HasCount(k) then hi >= 1 else hi == 0)
  }

  function AtomSize(atom: Atom): (r: nat)
    ensures r > 0
  {
    match atom
    case Chr(_, _) => 2
    case Type(_) => 1
    case Cls(_, _) => 1 + BITMAP_SIZE
  }

  function RepSize(atom: Atom, k: nat): (r: nat)
    ensures r > 0
  {
    if atom.Cls? then 1 + BITMAP_SIZE + (if HasRange(k) then 5 else 1)
    else if HasCount(k) then 4 else 2
  }

  /** Bytes between the bracket opcode and the first item of its first branch. */
  function BraSize(bra: byte): nat {
    if IsCapturing(bra) then 5 else 3
  }

  function Size(it: Item): (r: nat)
    ensures r > 0
    decreases it
  {
    match it
    case Anchor(_) => 1
    case One(atom) => AtomSize(atom)
    case Rep(atom, k, _, _) => RepSize(atom, k)
    case Group(bra, _, alts, _) => BraSize(bra) + AltsSize(alts) + 3
    case Zero(_, g) => 1 + Size(g)
    case Call(_) => 3
  }

  function BranchSize(b: Branch): nat
    decreases b
  {
    match b
    case Nil => 0
    case Cons(it, rest) => Size(it) + BranchSize(rest)
  }

  function AltsSize(alts: Alts): nat
    decreases alts
  {
    match alts
    case Last(b) => BranchSize(b)
    case More(b, rest) => BranchSize(b) + 3 + AltsSize(rest)
  }

  /** Where subroutine calls lead: the offset of each numbered group, and the
    * offsets of the operands that still hold a group number. The flag says whether
    * the code may hold atomic and possessive groups. */
  datatype Links = Links(target: map<nat, nat>, forward: set<nat>, atomic: bool)

  /** The links of code without atomic and possessive groups. */
  type PlainLinks = x: Links | !x.atomic witness Links(map[], {}, false)

  /** The brackets and kets of the groups that the code may hold. The S form is
    * five above the bracket it marks. */
  predicate BracketsOk(x: Links, op: byte, bra: byte, ket: byte) {
    && (bra == OP_BRA || bra == OP_CBRA || (x.atomic && (bra == OP_ONCE || bra == OP_BRAPOS || bra == OP_CBRAPOS)))
    && (IsKet(ket) || (x.atomic && ket == OP_KETRPOS))
    && (op == bra || (ket != OP_KET && bra != OP_ONCE && op == bra + (OP_SBRA - OP_BRA)))
  }

  predicate ZeroOk(x: Links, op: byte) {
    IsZero(op) || (x.atomic && op == OP_BRAPOSZERO)
  }

  predicate LayAtom(code: seq<byte>, a: nat, atom: Atom) {
    && AtomOk(atom)
    && a + AtomSize(atom) <= |code|
    && match atom
       case Chr(op, c) => code[a] == op && code[a + 1] == c
       case Type(op) => code[a] == op
       case Cls(op, bits) => code[a] == op && code[a + 1..a + 1 + BITMAP_SIZE] == bits
  }

  /** The repeat opcode of a non-class atom, with its offset k added. */
  function RepBase(atom: Atom): byte
    requires AtomOk(atom) && !atom.Cls?
  {
    match atom
    case Chr(op, _) => OP_STAR + 13 * (op - OP_CHAR)
    case Type(_) => OP_TYPESTAR
  }

  predicate LayRep(code: seq<byte>, a: nat, atom: Atom, k: nat, lo: nat, hi: nat) {
    && RepOk(atom, k, lo, hi)
    && a + RepSize(atom, k) <= |code|
    && if atom.Cls? then
         var e := a + 1 + BITMAP_SIZE;
         && LayAtom(code, a, atom)
         && code[e] == OP_CRSTAR + k
         && (HasRange(k) ==> Get(code, e + 1) == lo && Get(code, e + 3) == hi)
       else
         && code[a] == RepBase(atom) + k
         && (HasCount(k) ==> Get(code, a + 1) == hi)
         && code[a + RepSize(atom, k) - 1] == (if atom.Chr? then atom.c else atom.op)
  }

  predicate LayCall(x: Links, code: seq<byte>, a: nat, num: nat) {
    && a + 3 <= |code|
    && code[a] == OP_RECURSE
    && if a + 1 in x.forward then Get(code, a + 1) == num
       else num in x.target && Get(code, a + 1) == x.target[num]
  }

  predicate LayItem(x: Links, code: seq<byte>, a: nat, it: Item)
    decreases it, 0
  {
    && a + Size(it) <= |code|
    && match it
       case Anchor(op) => IsAnchor(op) && code[a] == op
       case One(atom) => LayAtom(code, a, atom)
       case Rep(atom, k, lo, hi) => LayRep(code, a, atom, k, lo, hi)
       case Group(bra, num, alts, ket) =>
         && BracketsOk(x, code[a], bra, ket)
         && (if IsCapturing(bra) then 0 < num < 65536 && Get(code, a + 3) == num else num == 0)
         && LayAlts(x, code, a, a + BraSize(bra), alts, a, ket)
       case Zero(op, g) => ZeroOk(x, op) && g.Group? && code[a] == op && LayItem(x, code, a + 1, g)
       case Call(num) => LayCall(x, code, a, num)
  }

  predicate LayBranch(x: Links, code: seq<byte>, a: nat, b: Branch)
    decreases b, 0
  {
    && a + BranchSize(b) <= |code|
    && match b
       case Nil => true
       case Cons(it, rest) => LayItem(x, code, a, it) && LayBranch(x, code, a + Size(it), rest)
  }

  /** The alternatives whose header (the bracket or an OP_ALT) is at h and whose
    * first branch starts at st, in the group that starts at bra. */
  predicate LayAlts(x: Links, code: seq<byte>, h: nat, st: nat, alts: Alts, bra: nat, ket: byte)
    decreases alts, 0
  {
    && bra <= h && h + 3 <= st
    && st + AltsSize(alts) + 3 <= |code|
    && LayBranch(x, code, st, alts.b)
    && var e := st + BranchSize(alts.b);
       && Get(code, h + 1) == e - h
       && match alts
          case Last(_) => code[e] == ket && Get(code, e + 1) == e - bra
          case More(_, rest) => code[e] == OP_ALT && LayAlts(x, code, e, e + 3, rest, bra, ket)
  }

  // ---------- without atomic and possessive groups ----------

  predicate PlainItem(it: Item)
    decreases it
  {
    match it
    case Group(bra, _, alts, ket) => (bra == OP_BRA || bra == OP_CBRA) && IsKet(ket) && PlainAlts(alts)
    case Zero(op, g) => IsZero(op) && PlainItem(g)
    case _ => true
  }

  predicate PlainBranch(b: Branch)
    decreases b
  {
    b.Cons? ==> PlainItem(b.head) && PlainBranch(b.tail)
  }

  predicate PlainAlts(alts: Alts)
    decreases alts
  {
    PlainBranch(alts.b) && (alts.More? ==> PlainAlts(alts.rest))
  }

  /** Such a tree needs no flag in the links. */
  lemma {:induction false} PlainLaid(x: Links, code: seq<byte>, a: nat, it: Item)
    requires PlainItem(it) && LayItem(x, code, a, it)
    ensures LayItem(x.(atomic := false), code, a, it)
    decreases it, 0
  {
    match it
    case Group(bra, _, alts, ket) => PlainLaidAlts(x, code, a, a + BraSize(bra), alts, a, ket);
    case Zero(_, g) => PlainLaid(x, code, a + 1, g);
    case _ =>
  }

  lemma {:induction false} PlainLaidBranch(x: Links, code: seq<byte>, a: nat, b: Branch)
    requires PlainBranch(b) && LayBranch(x, code, a, b)
    ensures LayBranch(x.(atomic := false), code, a, b)
    decreases b, 0
  {
    if b.Cons? {
      PlainLaid(x, code, a, b.head);
      PlainLaidBranch(x, code, a + Size(b.head), b.tail);
    }
  }

  lemma {:induction false} PlainLaidAlts(x: Links, code: seq<byte>, h: nat, st: nat, alts: Alts, bra: nat, ket: byte)
    requires PlainAlts(alts) && LayAlts(x, code, h, st, alts, bra, ket)
    ensures LayAlts(x.(atomic := false), code, h, st, alts, bra, ket)
    decreases alts, 0
  {
    var e := st + BranchSize(alts.b);
    PlainLaidBranch(x, code, st, alts.b);
    if alts.More? {
      PlainLaidAlts(x, code, e, e + 3, alts.rest, bra, ket);
    }
  }

  lemma NilSize()
    ensures BranchSize(Nil) == 0
  {
  }

  lemma OneSize(it: Item)
    ensures BranchSize(Cons(it, Nil)) == Size(it)
  {
  }

  lemma ZeroSize(op: byte, g: Item)
    ensures Size(Zero(op, g)) == 1 + Size(g)
  {
  }

  // ---------- composing and decomposing the layout ----------

  /** The bracket of a group: its opcode, possibly in the S form, and its number. */
  predicate LayBra(x: Links, code: seq<byte>, a: nat, bra: byte, num: nat, ket: byte) {
    && a + BraSize(bra) <= |code|
    && BracketsOk(x, code[a], bra, ket)
    && (if IsCapturing(bra) then 0 < num < 65536 && Get(code, a + 3) == num else num == 0)
  }

  lemma MakeGroup(x: Links, code: seq<byte>, a: nat, bra: byte, num: nat, alts: Alts, ket: byte)
    requires LayBra(x, code, a, bra, num, ket)
    requires LayAlts(x, code, a, a + BraSize(bra), alts, a, ket)
    ensures LayItem(x, code, a, Group(bra, num, alts, ket))
  {
  }

  lemma OpenGroup(x: Links, code: seq<byte>, a: nat, bra: byte, num: nat, alts: Alts, ket: byte)
    requires LayItem(x, code, a, Group(bra, num, alts, ket))
    ensures LayBra(x, code, a, bra, num, ket) && IsAnyKet(ket) && (x.atomic || IsKet(ket))
    ensures LayAlts(x, code, a, a + BraSize(bra), alts, a, ket)
    ensures Size(Group(bra, num, alts, ket)) == BraSize(bra) + AltsSize(alts) + 3 <= |code| - a
  {
  }

  lemma MakeZero(x: Links, code: seq<byte>, a: nat, op: byte, g: Item)
    requires ZeroOk(x, op) && g.Group? && LayItem(x, code, a + 1, g) && code[a] == op
    ensures LayItem(x, code, a, Zero(op, g))
  {
  }

  lemma OpenZero(x: Links, code: seq<byte>, a: nat, op: byte, g: Item)
    requires LayItem(x, code, a, Zero(op, g))
    ensures ZeroOk(x, op) && g.Group? && LayItem(x, code, a + 1, g) && a < |code| && code[a] == op
    ensures Size(Zero(op, g)) == 1 + Size(g) <= |code| - a
  {
  }

  lemma MakeNil(x: Links, code: seq<byte>, a: nat)
    requires a <= |code|
    ensures LayBranch(x, code, a, Nil) && BranchSize(Nil) == 0
  {
  }

  lemma MakeBranch(x: Links, code: seq<byte>, a: nat, it: Item, rest: Branch)
    requires LayItem(x, code, a, it) && LayBranch(x, code, a + Size(it), rest)
    ensures LayBranch(x, code, a, Cons(it, rest))
  {
  }

  lemma OpenBranch(x: Links, code: seq<byte>, a: nat, it: Item, rest: Branch)
    requires LayBranch(x, code, a, Cons(it, rest))
    ensures LayItem(x, code, a, it) && LayBranch(x, code, a + Size(it), rest)
    ensures BranchSize(Cons(it, rest)) == Size(it) + BranchSize(rest) <= |code| - a
  {
  }

  /** One alternative: the link at its header and the branch itself, which ends
    * at e with either another alternative or the ket. */
  predicate LayAlt(x: Links, code: seq<byte>, h: nat, st: nat, b: Branch, e: nat, end: byte) {
    && h + 3 <= st && e == st + BranchSize(b) && e + 3 <= |code|
    && LayBranch(x, code, st, b)
    && Get(code, h + 1) == e - h && code[e] == end
  }

  lemma MakeLast(x: Links, code: seq<byte>, h: nat, st: nat, b: Branch, e: nat, bra: nat, ket: byte)
    requires LayAlt(x, code, h, st, b, e, ket) && bra <= h && Get(code, e + 1) == e - bra
    ensures LayAlts(x, code, h, st, Last(b), bra, ket)
  {
  }

  lemma OpenLast(x: Links, code: seq<byte>, h: nat, st: nat, b: Branch, e: nat, bra: nat, ket: byte)
    requires LayAlts(x, code, h, st, Last(b), bra, ket) && e == st + BranchSize(b)
    ensures LayAlt(x, code, h, st, b, e, ket) && bra <= h && e + 3 <= |code| && Get(code, e + 1) == e - bra
    ensures AltsSize(Last(b)) == BranchSize(b)
  {
  }

  lemma MakeMore(x: Links, code: seq<byte>, h: nat, st: nat, b: Branch, e: nat, rest: Alts, bra: nat, ket: byte)
    requires LayAlt(x, code, h, st, b, e, OP_ALT) && bra <= h && LayAlts(x, code, e, e + 3, rest, bra, ket)
    ensures LayAlts(x, code, h, st, More(b, rest), bra, ket)
  {
  }

  lemma OpenMore(x: Links, code: seq<byte>, h: nat, st: nat, b: Branch, e: nat, rest: Alts, bra: nat, ket: byte)
    requires LayAlts(x, code, h, st, More(b, rest), bra, ket) && e == st + BranchSize(b)
    ensures LayAlt(x, code, h, st, b, e, OP_ALT) && bra <= h && LayAlts(x, code, e, e + 3, rest, bra, ket)
    ensures AltsSize(More(b, rest)) == BranchSize(b) + 3 + AltsSize(rest) && e + 3 + AltsSize(rest) + 3 <= |code|
  {
    hide LayItem, LayBranch;
  }
}
