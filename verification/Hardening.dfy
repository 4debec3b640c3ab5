/** Making one repeat of a program possessive by overwriting its opcode. The result
  * is a program again, and every instruction except that one stays what it was.
  */
module Hardening {
  import opened Opcodes
  import opened Tree
  import opened Meaning
  import opened Machine
  import opened Runs
  import opened Decoding
  import opened Program
  import opened Relocation
  import opened CodeScan
  import opened Closure
  import opened Backtrack

  /** A repeat that is neither possessive nor exact, and its possessive form. */
  predicate Yielding(k: int) {
    0 <= k <= K_MINUPTO
  }

  function PossessiveOf(isClass: bool, k: nat): nat {
    (if isClass then K_CRPOSSTAR else K_POSSTAR) + k / 2
  }

  /** The offset of the opcode that says what kind of repeat the item at t is. */
  function RepeatOpcode(code: seq<byte>, t: nat): nat
    requires t < |code|
  {
    if IsClass(code[t]) then t + 1 + BITMAP_SIZE else t
  }

  /** At t is a repeat that can be made possessive. */
  predicate Softens(code: seq<byte>, t: nat) {
    && t < |code|
    && if IsClass(code[t]) then
         && t + 1 + BITMAP_SIZE < |code| && IsClassRepeat(code[t + 1 + BITMAP_SIZE])
         && Yielding(code[t + 1 + BITMAP_SIZE] - OP_CRSTAR)
       else IsRepeat(code[t]) && Yielding((code[t] - OP_STAR) % 13)
  }

  /** The opcode of the possessive form. */
  function Harder(code: seq<byte>, t: nat): byte
    requires Softens(code, t)
  {
    if IsClass(code[t]) then OP_CRSTAR + PossessiveOf(true, code[t + 1 + BITMAP_SIZE] - OP_CRSTAR)
    else
      var k := (code[t] - OP_STAR) % 13;
      code[t] - k + PossessiveOf(false, k)
  }

  predicate Rewrites(code: seq<byte>, code': seq<byte>, t: nat) {
    Softens(code, t) && code' == code[RepeatOpcode(code, t) := Harder(code, t)]
  }

  // ---------- the tree of the rewritten code ----------

  function HardItem(it: Item, a: nat, t: nat): (r: Item)
    ensures Size(r) == Size(it) && r.Group? == it.Group?
    decreases it
  {
    match it
    case Rep(atom, k, lo, hi) => if a == t && Yielding(k) then HardRep(atom, k, lo, hi) else it
    case Group(bra, num, alts, ket) => Group(bra, num, HardAlts(alts, a + BraSize(bra), t), ket)
    case Zero(op, g) => Zero(op, HardItem(g, a + 1, t))
    case _ => it
  }

  function HardRep(atom: Atom, k: nat, lo: nat, hi: nat): (r: Item)
    requires Yielding(k)
    ensures Size(r) == Size(Rep(atom, k, lo, hi)) && r.Rep?
  {
    Rep(atom, PossessiveOf(atom.Cls?, k), lo, hi)
  }

  function HardBranch(b: Branch, a: nat, t: nat): (r: Branch)
    ensures BranchSize(r) == BranchSize(b)
    decreases b
  {
    match b
    case Nil => Nil
    case Cons(it, rest) =>
      if t in Offsets(it, a) then Cons(HardItem(it, a, t), rest) else Cons(it, HardBranch(rest, a + Size(it), t))
  }

  function HardAlts(alts: Alts, st: nat, t: nat): (r: Alts)
    ensures AltsSize(r) == AltsSize(alts) && r.Last? == alts.Last? && BranchSize(r.b) == BranchSize(alts.b)
    decreases alts
  {
    match alts
    case Last(b) => Last(HardBranch(b, st, t))
    case More(b, rest) =>
      if t in BranchOffsets(b, st) then More(HardBranch(b, st, t), rest)
      else More(b, HardAlts(rest, st + BranchSize(b) + 3, t))
  }

  // ---------- offsets lie inside their item ----------

  lemma {:induction false} OffsetInside(it: Item, a: nat, o: nat)
    requires o in Offsets(it, a)
    ensures a <= o < a + Size(it)
    decreases it
  {
    match it
    case Group(bra, _, alts, _) => if o != a && o != KetOffset(a, it) { OffsetInsideAlts(alts, a + BraSize(bra), o); }
    case Zero(_, g) => if o != a { OffsetInside(g, a + 1, o); }
    case _ =>
  }

  lemma {:induction false} OffsetInsideBranch(b: Branch, a: nat, o: nat)
    requires o in BranchOffsets(b, a)
    ensures a <= o < a + BranchSize(b)
    decreases b
  {
    if o in Offsets(b.head, a) {
      OffsetInside(b.head, a, o);
    } else {
      OffsetInsideBranch(b.tail, a + Size(b.head), o);
    }
  }

  lemma {:induction false} OffsetInsideAlts(alts: Alts, st: nat, o: nat)
    requires o in AltsOffsets(alts, st)
    ensures st <= o < st + AltsSize(alts)
    decreases alts
  {
    var e := st + BranchSize(alts.b);
    if o in BranchOffsets(alts.b, st) {
      OffsetInsideBranch(alts.b, st, o);
    } else if o != e {
      OffsetInsideAlts(alts.rest, e + 3, o);
    }
  }

  // ---------- the layout of the rewritten code ----------

  lemma Untouched(x: PlainLinks, code: seq<byte>, code': seq<byte>, t: nat, lo: nat, hi: nat)
    requires Rewrites(code, code', t) && lo <= hi <= |code|
    requires RepeatOpcode(code, t) < lo || hi <= RepeatOpcode(code, t)
    ensures Moved(x, code, x, code', lo, hi, 0)
  {
  }

  lemma RewrittenPlain(code: seq<byte>, code': seq<byte>, t: nat, i: nat)
    requires Rewrites(code, code', t) && Plain(code, i)
    ensures Plain(code', i)
  {
  }

  /** The rewritten item itself. */
  lemma LayHardRep(x: PlainLinks, code: seq<byte>, code': seq<byte>, t: nat, it: Item)
    requires LayItem(x, code, t, it) && Plain(code, t + Size(it)) && Rewrites(code, code', t)
    ensures it.Rep? && LayItem(x, code', t, HardItem(it, t, t)) && RepeatOpcode(code, t) < t + Size(it)
  {
    if IsClass(code[t]) {
      ClassAt(x, code, t, it);
      assert code'[t + 1..t + 1 + BITMAP_SIZE] == code[t + 1..t + 1 + BITMAP_SIZE];
    } else {
      RepAt(x, code, t, it);
    }
  }

  lemma {:induction false} LayHardItem(x: PlainLinks, code: seq<byte>, code': seq<byte>, a: nat, it: Item, t: nat)
    requires LayItem(x, code, a, it) && Plain(code, a + Size(it)) && Rewrites(code, code', t) && t in Offsets(it, a)
    ensures LayItem(x, code', a, HardItem(it, a, t)) && a <= t <= RepeatOpcode(code, t) < a + Size(it)
    decreases it
  {
    hide LayItem, LayAlts, LayBra, Size, AltsSize, HardAlts, Rewrites, AltsOffsets, RepeatOpcode, Softens;
    match it
    case Group(bra, num, alts, ket) =>
      OpenGroup(x, code, a, bra, num, alts, ket);
      RewriteParts(code, code', t);
      NotABracket(x, code, a, it, t);
      LayHardAlts(x, code, code', a, a + BraSize(bra), alts, a, ket, t);
      Untouched(x, code, code', t, a, a + BraSize(bra));
      RelocateBra(x, code, x, code', a, a + BraSize(bra), 0, bra, num, ket);
      MakeGroup(x, code', a, bra, num, HardAlts(alts, a + BraSize(bra), t), ket);
    case Zero(op, g) =>
      OpenZero(x, code, a, op, g);
      RewriteParts(code, code', t);
      LayHardItem(x, code, code', a + 1, g, t);
      Untouched(x, code, code', t, a, a + 1);
      MovedByte(code, code', a, a + 1, 0, a);
      MakeZero(x, code', a, op, HardItem(g, a + 1, t));
    case _ => LayHardRep(x, code, code', t, it); RewriteParts(code, code', t);
  }

  lemma RewriteParts(code: seq<byte>, code': seq<byte>, t: nat)
    requires Rewrites(code, code', t)
    ensures Softens(code, t) && t < |code| == |code'| && t <= RepeatOpcode(code, t) && !IsBra(code[t])
    ensures !IsKet(code[t]) && !IsZero(code[t]) && code[t] != OP_ALT
  {
  }

  /** The offset of a repeat is not that of a bracket or a ket. */
  lemma NotABracket(x: PlainLinks, code: seq<byte>, a: nat, g: Item, t: nat)
    requires g.Group? && LayItem(x, code, a, g) && t in Offsets(g, a) && Softens(code, t)
    ensures t in AltsOffsets(g.alts, a + BraSize(g.bra))
  {
    hide LayItem, LayAlts, AltsOffsets;
    GroupLinks(x, code, a, g);
  }

  lemma {:induction false} LayHardBranch(x: PlainLinks, code: seq<byte>, code': seq<byte>, a: nat, b: Branch, t: nat)
    requires LayBranch(x, code, a, b) && Plain(code, a + BranchSize(b)) && Rewrites(code, code', t)
    requires t in BranchOffsets(b, a)
    ensures LayBranch(x, code', a, HardBranch(b, a, t)) && a <= t <= RepeatOpcode(code, t) < a + BranchSize(b)
    decreases b
  {
    hide LayItem, LayBranch, Size, BranchSize, HardItem, Rewrites, Offsets, RepeatOpcode;
    var m, e := a + Size(b.head), a + BranchSize(b);
    OpenBranch(x, code, a, b.head, b.tail);
    BranchByte(x, code, m, b.tail);
    RewriteParts(code, code', t);
    if t in Offsets(b.head, a) {
      LayHardItem(x, code, code', a, b.head, t);
      Untouched(x, code, code', t, m, e);
      RelocateBranch(x, code, x, code', m, e, 0, b.tail);
      MakeBranch(x, code', a, HardItem(b.head, a, t), b.tail);
    } else {
      LayHardBranch(x, code, code', m, b.tail, t);
      Untouched(x, code, code', t, a, m);
      RelocateItem(x, code, x, code', a, m, 0, b.head);
      MakeBranch(x, code', a, b.head, HardBranch(b.tail, m, t));
    }
  }

  lemma {:induction false} LayHardAlts(x: PlainLinks, code: seq<byte>, code': seq<byte>, h: nat, st: nat, alts: Alts,
                                       bra: nat, ket: byte, t: nat)
    requires LayAlts(x, code, h, st, alts, bra, ket) && IsKet(ket) && Rewrites(code, code', t)
    requires t in AltsOffsets(alts, st)
    ensures LayAlts(x, code', h, st, HardAlts(alts, st, t), bra, ket)
    ensures st <= t <= RepeatOpcode(code, t) < st + AltsSize(alts)
    decreases alts
  {
    hide LayBranch, LayAlts, BranchSize, AltsSize, HardBranch, Rewrites, BranchOffsets, RepeatOpcode, Get;
    var e := st + BranchSize(alts.b);
    RewriteParts(code, code', t);
    match alts
    case Last(b) =>
      OpenLast(x, code, h, st, b, e, bra, ket);
      LayHardBranch(x, code, code', st, b, t);
      LayHardAlt(x, code, code', h, st, b, HardBranch(b, st, t), e, ket, t);
      MakeLast(x, code', h, st, HardBranch(b, st, t), e, bra, ket);
    case More(b, rest) =>
      OpenMore(x, code, h, st, b, e, rest, bra, ket);
      if t in BranchOffsets(b, st) {
        LayHardBranch(x, code, code', st, b, t);
        LayHardAlt(x, code, code', h, st, b, HardBranch(b, st, t), e, OP_ALT, t);
        Untouched(x, code, code', t, e, e + 3 + AltsSize(rest) + 3);
        RelocateTail(x, code, code', e, e + 3, rest, bra, ket);
        MakeMore(x, code', h, st, HardBranch(b, st, t), e, rest, bra, ket);
      } else {
        LayHardAlts(x, code, code', e, e + 3, rest, bra, ket, t);
        Untouched(x, code, code', t, st, e);
        RelocateBranch(x, code, x, code', st, e, 0, b);
        LayHardAlt(x, code, code', h, st, b, b, e, OP_ALT, t);
        MakeMore(x, code', h, st, b, e, HardAlts(rest, e + 3, t), bra, ket);
      }
  }

  /** The header before a branch and the byte behind it are not touched. */
  lemma LayHardAlt(x: PlainLinks, code: seq<byte>, code': seq<byte>, h: nat, st: nat, b: Branch, b': Branch, e: nat,
                   end: byte, t: nat)
    requires LayAlt(x, code, h, st, b, e, end) && Rewrites(code, code', t) && BranchSize(b') == BranchSize(b)
    requires LayBranch(x, code', st, b')
    requires st <= RepeatOpcode(code, t) && (RepeatOpcode(code, t) < e || e + 3 <= RepeatOpcode(code, t))
    ensures LayAlt(x, code', h, st, b', e, end)
    ensures e + 2 < |code| == |code'| && Get(code', e + 1) == Get(code, e + 1)
  {
    hide LayBranch;
  }

  /** Alternatives that are not touched. Their group's bracket may lie further back. */
  lemma {:induction false} RelocateTail(x: PlainLinks, code: seq<byte>, code': seq<byte>, h: nat, st: nat, alts: Alts,
                                        bra: nat, ket: byte)
    requires LayAlts(x, code, h, st, alts, bra, ket) && Moved(x, code, x, code', h, st + AltsSize(alts) + 3, 0)
    ensures LayAlts(x, code', h, st, alts, bra, ket)
    decreases alts
  {
    hide MovedBytes, MovedLinks, LayAlts, LayAlt, Get, AltsSize, BranchSize;
    var m, e := st + BranchSize(alts.b), st + AltsSize(alts) + 3;
    match alts
    case Last(b) =>
      OpenLast(x, code, h, st, b, m, bra, ket);
      RelocateAlt(x, code, x, code', h, e, 0, h, st, b, m, ket);
      MakeLast(x, code', h, st, b, m, bra, ket);
    case More(b, rest) =>
      OpenMore(x, code, h, st, b, m, rest, bra, ket);
      RelocateAlt(x, code, x, code', h, e, 0, h, st, b, m, OP_ALT);
      MovedPart(x, code, x, code', h, e, 0, m, e);
      RelocateTail(x, code, code', m, m + 3, rest, bra, ket);
      MakeMore(x, code', h, st, b, m, rest, bra, ket);
  }

  // ---------- what is found where it was ----------

  lemma {:induction false} HardElsewhere(it: Item, a: nat, t: nat)
    requires t !in Offsets(it, a)
    ensures HardItem(it, a, t) == it
    decreases it
  {
    match it
    case Group(bra, _, alts, _) => HardElsewhereAlts(alts, a + BraSize(bra), t);
    case Zero(_, g) => HardElsewhere(g, a + 1, t);
    case _ =>
  }

  lemma {:induction false} HardElsewhereBranch(b: Branch, a: nat, t: nat)
    requires t !in BranchOffsets(b, a)
    ensures HardBranch(b, a, t) == b
    decreases b
  {
    if b.Cons? {
      HardElsewhereBranch(b.tail, a + Size(b.head), t);
    }
  }

  lemma {:induction false} HardElsewhereAlts(alts: Alts, st: nat, t: nat)
    requires t !in AltsOffsets(alts, st)
    ensures HardAlts(alts, st, t) == alts
    decreases alts
  {
    HardElsewhereBranch(alts.b, st, t);
    if alts.More? {
      HardElsewhereAlts(alts.rest, st + BranchSize(alts.b) + 3, t);
    }
  }

  lemma HardCons(b: Branch, a: nat, t: nat)
    requires b.Cons?
    ensures HardBranch(b, a, t) == Cons(HardItem(b.head, a, t), HardBranch(b.tail, a + Size(b.head), t))
  {
    hide Offsets, BranchOffsets, HardItem, Size;
    var m := a + Size(b.head);
    if t in Offsets(b.head, a) {
      OffsetInside(b.head, a, t);
      if t in BranchOffsets(b.tail, m) {
        OffsetInsideBranch(b.tail, m, t);
      }
      HardElsewhereBranch(b.tail, m, t);
    } else {
      HardElsewhere(b.head, a, t);
    }
  }

  lemma HardMore(alts: Alts, st: nat, t: nat)
    requires alts.More?
    ensures HardAlts(alts, st, t)
            == More(HardBranch(alts.b, st, t), HardAlts(alts.rest, st + BranchSize(alts.b) + 3, t))
  {
    hide BranchOffsets, AltsOffsets, HardBranch, BranchSize;
    var e := st + BranchSize(alts.b);
    if t in BranchOffsets(alts.b, st) {
      OffsetInsideBranch(alts.b, st, t);
      if t in AltsOffsets(alts.rest, e + 3) {
        OffsetInsideAlts(alts.rest, e + 3, t);
      }
      HardElsewhereAlts(alts.rest, e + 3, t);
    } else {
      HardElsewhereBranch(alts.b, st, t);
    }
  }

  lemma {:induction false} SameOffset(it: Item, a: nat, t: nat, num: nat)
    ensures FindOffset(HardItem(it, a, t), a, num) == FindOffset(it, a, num)
    decreases it
  {
    match it
    case Group(bra, _, alts, _) => SameOffsetAlts(alts, a + BraSize(bra), t, num);
    case Zero(_, g) => SameOffset(g, a + 1, t, num);
    case _ =>
  }

  lemma {:induction false} SameOffsetBranch(b: Branch, a: nat, t: nat, num: nat)
    ensures FindOffsetInBranch(HardBranch(b, a, t), a, num) == FindOffsetInBranch(b, a, num)
    decreases b
  {
    if b.Cons? {
      HardCons(b, a, t);
      hide HardBranch, HardItem;
      SameOffset(b.head, a, t, num);
      SameOffsetBranch(b.tail, a + Size(b.head), t, num);
    }
  }

  lemma {:induction false} SameOffsetAlts(alts: Alts, st: nat, t: nat, num: nat)
    ensures FindOffsetInAlts(HardAlts(alts, st, t), st, num) == FindOffsetInAlts(alts, st, num)
    decreases alts
  {
    SameOffsetBranch(alts.b, st, t, num);
    if alts.More? {
      HardMore(alts, st, t);
      hide HardBranch, HardAlts;
      SameOffsetAlts(alts.rest, st + BranchSize(alts.b) + 3, t, num);
    }
  }

  /** The rewritten code is a program, for the rewritten tree. */
  lemma HardProgram(x: PlainLinks, code: seq<byte>, code': seq<byte>, root: Item, t: nat)
    requires IsProgram(x, code, root) && Rewrites(code, code', t) && t in Offsets(root, 0)
    ensures IsProgram(x, code', HardItem(root, 0, t))
  {
    hide LayItem, Offsets, HardItem, Rewrites, RepeatOpcode, FindOffset, FindOffsetInAlts;
    LayHardItem(x, code, code', 0, root, t);
    RewriteEnd(code, code', t, Size(root));
    HardRoot(root, t);
    forall n | n in x.target && n != 0 ensures FindOffset(HardItem(root, 0, t), 0, n) == Some(x.target[n]) {
      SameOffset(root, 0, t, n);
    }
  }

  lemma HardRoot(root: Item, t: nat)
    requires root.Group?
    ensures var r := HardItem(root, 0, t); r.Group? && r.bra == root.bra && r.ket == root.ket
  {
  }

  lemma RewriteEnd(code: seq<byte>, code': seq<byte>, t: nat, i: nat)
    requires Rewrites(code, code', t) && RepeatOpcode(code, t) < i < |code|
    ensures |code'| == |code| && code'[i] == code[i]
  {
  }

  // ---------- the instructions of the rewritten code ----------

  /** The instruction at o is what it was, except that the one at t is possessive. */
  ghost predicate SameAt(code: seq<byte>, code': seq<byte>, o: nat, t: nat) {
    && o < |code| == |code'|
    && Decode(code', o) == (if o == t && Decode(code, o).IRep? then Decode(code, o).(poss := true) else Decode(code, o))
    && (o == t ==> Decode(code, o).IRep? && !Decode(code, o).poss)
    && (IsBra(code[o]) ==>
          ChainOk(code, o) && ChainOk(code', o) && EndOf(code', o) == EndOf(code, o) && IsKet(code[EndOf(code, o)]))
  }

  lemma PossessiveBounds(atom: Atom, k: nat, lo: nat, hi: nat)
    requires Yielding(k) && RepOk(atom, k, lo, hi)
    ensures var k' := PossessiveOf(atom.Cls?, k);
            && RepMin(atom, k', lo, hi) == RepMin(atom, k, lo, hi)
            && RepMax(atom, k', lo, hi) == RepMax(atom, k, lo, hi)
            && RepPoss(atom, k') && !RepPoss(atom, k) && RepSize(atom, k') == RepSize(atom, k)
  {
  }

  lemma RepDecoded(x: PlainLinks, code: seq<byte>, a: nat, atom: Atom, k: nat, lo: nat, hi: nat)
    requires LayItem(x, code, a, Rep(atom, k, lo, hi))
    ensures RepOk(atom, k, lo, hi)
    ensures Decode(code, a) ==
            IRep(atom, RepMin(atom, k, lo, hi), RepMax(atom, k, lo, hi), RepPoss(atom, k), a + RepSize(atom, k))
    ensures a < |code| && !IsBra(code[a])
  {
    hide Decode;
    ItemByte(x, code, a, Rep(atom, k, lo, hi));
    DecodeRep(code, a, atom, k, lo, hi);
  }

  lemma SameRep(x: PlainLinks, code: seq<byte>, code': seq<byte>, a: nat, it: Item, t: nat)
    requires LayItem(x, code, a, it) && Plain(code, a + Size(it)) && Rewrites(code, code', t)
    requires LayItem(x, code', a, HardItem(it, a, t)) && it.Rep?
    ensures SameAt(code, code', a, t)
  {
    hide LayItem, Decode, Rewrites, RepMin, RepMax, RepPoss, RepSize, RepOk, Softens;
    RewriteParts(code, code', t);
    RepDecoded(x, code, a, it.atom, it.k, it.lo, it.hi);
    if a == t {
      YieldingAt(x, code, t, it);
      PossessiveBounds(it.atom, it.k, it.lo, it.hi);
      RepDecoded(x, code', a, it.atom, PossessiveOf(it.atom.Cls?, it.k), it.lo, it.hi);
    } else {
      RepDecoded(x, code', a, it.atom, it.k, it.lo, it.hi);
    }
  }

  lemma YieldingAt(x: PlainLinks, code: seq<byte>, t: nat, it: Item)
    requires LayItem(x, code, t, it) && Plain(code, t + Size(it)) && Softens(code, t)
    ensures it.Rep? && Yielding(it.k) && !IsBra(code[t])
  {
    if IsClass(code[t]) {
      ClassAt(x, code, t, it);
    } else {
      RepAt(x, code, t, it);
    }
  }

  /** The instruction of an anchor, a single character or a call. */
  function SimpleInstr(x: PlainLinks, a: nat, it: Item): Instr
    requires it.Anchor? || it.One? || it.Call?
  {
    match it
    case Anchor(op) => IAnchor(op, a + 1)
    case One(atom) => IOne(atom, a + AtomSize(atom))
    case Call(num) => ICall(num, if num in x.target then x.target[num] else 0, a + 3)
  }

  lemma SimpleDecoded(x: PlainLinks, code: seq<byte>, a: nat, it: Item)
    requires LayItem(x, code, a, it) && TargetsOk(x, code) && Plain(code, a + Size(it))
    requires (it.Anchor? || it.One? || it.Call?)
    ensures Decode(code, a) == SimpleInstr(x, a, it) && a < |code| && !IsBra(code[a])
  {
    hide Decode, DecodedTo;
    SimpleDecodes(x, code, a, it);
    DecodedToAt(code, |code|, a);
  }

  lemma SameSimple(x: PlainLinks, code: seq<byte>, code': seq<byte>, a: nat, it: Item, t: nat)
    requires LayItem(x, code, a, it) && Plain(code, a + Size(it)) && Rewrites(code, code', t)
    requires TargetsOk(x, code) && TargetsOk(x, code')
    requires LayItem(x, code', a, it) && (it.Anchor? || it.One? || it.Call?)
    ensures SameAt(code, code', a, t)
  {
    hide LayItem, Decode, Rewrites, TargetsOk, Softens;
    RewriteParts(code, code', t);
    SimpleDecoded(x, code, a, it);
    RewrittenPlain(code, code', t, a + Size(it));
    SimpleDecoded(x, code', a, it);
    if a == t {
      YieldingAt(x, code, t, it);
    }
  }

  lemma SameBracket(x: PlainLinks, code: seq<byte>, code': seq<byte>, a: nat, g: Item, t: nat, o: nat)
    requires g.Group? && LayItem(x, code, a, g) && LayItem(x, code', a, HardItem(g, a, t)) && Rewrites(code, code', t)
    requires o == a || o == KetOffset(a, g)
    ensures SameAt(code, code', o, t)
  {
    hide LayItem, LayAlts, Decode, ChainOk, EndOf, AltStarts, Rewrites, HardAlts, DecodedTo;
    var g' := HardItem(g, a, t);
    RewriteParts(code, code', t);
    GroupDecodes(x, code, a, g);
    GroupDecodes(x, code', a, g');
    GroupLinks(x, code, a, g);
    GroupLinks(x, code', a, g');
    SameStarts(g.alts, a + BraSize(g.bra), t);
    DecodedToAt(code, |code|, o);
    DecodedToAt(code', |code'|, o);
  }

  lemma {:induction false} SameStarts(alts: Alts, st: nat, t: nat)
    ensures Starts(HardAlts(alts, st, t), st) == Starts(alts, st)
    decreases alts
  {
    if alts.More? {
      HardMore(alts, st, t);
      SameStarts(alts.rest, st + BranchSize(alts.b) + 3, t);
    }
  }

  lemma {:induction false} SameItem(x: PlainLinks, code: seq<byte>, code': seq<byte>, a: nat, it: Item, t: nat, o: nat)
    requires LayItem(x, code, a, it) && Plain(code, a + Size(it)) && Rewrites(code, code', t)
    requires TargetsOk(x, code) && TargetsOk(x, code')
    requires LayItem(x, code', a, HardItem(it, a, t)) && o in Offsets(it, a)
    ensures SameAt(code, code', o, t)
    decreases it
  {
    hide LayItem, LayAlts, Rewrites, TargetsOk, SameAt, HardAlts, AltsOffsets, Size;
    match it
    case Rep(_, _, _, _) => SameRep(x, code, code', a, it, t);
    case Group(bra, num, alts, ket) =>
      if o == a || o == KetOffset(a, it) {
        SameBracket(x, code, code', a, it, t, o);
      } else {
        OpenGroup(x, code, a, bra, num, alts, ket);
        OpenGroup(x, code', a, bra, num, HardAlts(alts, a + BraSize(bra), t), ket);
        SameAlts(x, code, code', a, a + BraSize(bra), alts, a, ket, t, o);
      }
    case Zero(op, g) =>
      OpenZero(x, code, a, op, g);
      OpenZero(x, code', a, op, HardItem(g, a + 1, t));
      if o == a {
        SameZero(x, code, code', a, it, t);
      } else {
        SameItem(x, code, code', a + 1, g, t, o);
      }
    case Anchor(_) => SameSimple(x, code, code', a, it, t);
    case One(_) => SameSimple(x, code, code', a, it, t);
    case Call(_) => SameSimple(x, code, code', a, it, t);
  }

  lemma SameZero(x: PlainLinks, code: seq<byte>, code': seq<byte>, a: nat, it: Item, t: nat)
    requires it.Zero? && LayItem(x, code, a, it) && LayItem(x, code', a, HardItem(it, a, t)) && Rewrites(code, code', t)
    ensures SameAt(code, code', a, t)
  {
    hide LayItem, Decode, ChainOk, EndOf, AltStarts, Rewrites, DecodedTo;
    RewriteParts(code, code', t);
    LayZero(x, code, a, it);
    ZeroDecodes(x, code, a, it);
    ZeroDecodes(x, code', a, HardItem(it, a, t));
    DecodedToAt(code, |code|, a);
    DecodedToAt(code', |code'|, a);
  }

  lemma {:induction false} SameBranch(x: PlainLinks, code: seq<byte>, code': seq<byte>, a: nat, b: Branch, t: nat,
                                      o: nat)
    requires LayBranch(x, code, a, b) && Plain(code, a + BranchSize(b)) && Rewrites(code, code', t)
    requires TargetsOk(x, code) && TargetsOk(x, code')
    requires LayBranch(x, code', a, HardBranch(b, a, t)) && o in BranchOffsets(b, a)
    ensures SameAt(code, code', o, t)
    decreases b
  {
    hide LayItem, LayBranch, Rewrites, TargetsOk, SameAt, HardItem, HardBranch, Offsets, Size, BranchSize;
    var m := a + Size(b.head);
    HardCons(b, a, t);
    OpenBranch(x, code, a, b.head, b.tail);
    OpenBranch(x, code', a, HardItem(b.head, a, t), HardBranch(b.tail, m, t));
    BranchByte(x, code, m, b.tail);
    if o in Offsets(b.head, a) {
      SameItem(x, code, code', a, b.head, t, o);
    } else {
      SameBranch(x, code, code', m, b.tail, t, o);
    }
  }

  lemma {:induction false} SameAlts(x: PlainLinks, code: seq<byte>, code': seq<byte>, h: nat, st: nat, alts: Alts,
                                    bra: nat, ket: byte, t: nat, o: nat)
    requires LayAlts(x, code, h, st, alts, bra, ket) && IsKet(ket) && Rewrites(code, code', t)
    requires TargetsOk(x, code) && TargetsOk(x, code')
    requires LayAlts(x, code', h, st, HardAlts(alts, st, t), bra, ket) && o in AltsOffsets(alts, st)
    ensures SameAt(code, code', o, t)
    decreases alts
  {
    hide LayBranch, LayAlts, Rewrites, TargetsOk, SameAt, HardBranch, HardAlts, BranchOffsets, BranchSize, AltsSize;
    var e := st + BranchSize(alts.b);
    RewriteParts(code, code', t);
    LayFirst(x, code, h, st, alts, bra, ket);
    LayFirst(x, code', h, st, HardAlts(alts, st, t), bra, ket);
    HardFirst(alts, st, t);
    if o in BranchOffsets(alts.b, st) {
      SameBranch(x, code, code', st, alts.b, t, o);
    } else {
      HardMore(alts, st, t);
      if o == e {
        SameAlt(x, code, code', e, alts.rest, bra, ket, t);
      } else {
        SameAlts(x, code, code', e, e + 3, alts.rest, bra, ket, t, o);
      }
    }
  }

  lemma HardFirst(alts: Alts, st: nat, t: nat)
    ensures HardAlts(alts, st, t).b == HardBranch(alts.b, st, t)
  {
    hide HardBranch, BranchOffsets;
    if t !in BranchOffsets(alts.b, st) {
      HardElsewhereBranch(alts.b, st, t);
    }
  }

  lemma SameAlt(x: PlainLinks, code: seq<byte>, code': seq<byte>, e: nat, rest: Alts, bra: nat, ket: byte, t: nat)
    requires e < |code| == |code'| && code[e] == OP_ALT && code'[e] == OP_ALT && IsKet(ket) && Rewrites(code, code', t)
    requires LayAlts(x, code, e, e + 3, rest, bra, ket)
    requires LayAlts(x, code', e, e + 3, HardAlts(rest, e + 3, t), bra, ket)
    ensures SameAt(code, code', e, t)
  {
    hide LayAlts, Decode, DecodedTo, Rewrites, HardAlts;
    RewriteParts(code, code', t);
    AltDecodes(x, code, e, e + 3, rest, bra, ket);
    AltDecodes(x, code', e, e + 3, HardAlts(rest, e + 3, t), bra, ket);
    DecodedToAt(code, |code|, e);
    DecodedToAt(code', |code'|, e);
  }

  /** Everything but the rewritten instruction is what it was. */
  lemma SameProgram(x: PlainLinks, code: seq<byte>, code': seq<byte>, root: Item, t: nat, o: nat)
    requires IsProgram(x, code, root) && Rewrites(code, code', t) && t in Offsets(root, 0) && o in Offsets(root, 0)
    ensures SameAt(code, code', o, t)
  {
    hide LayItem, Offsets, HardItem, Rewrites, SameAt, TargetsOk;
    HardProgram(x, code, code', root, t);
    assert Plain(code, Size(root));
    ProgramTargets(x, code, root);
    ProgramTargets(x, code', HardItem(root, 0, t));
    SameItem(x, code, code', 0, root, t, o);
  }

  // ---------- the offsets of the rewritten code ----------

  lemma {:induction false} SameOffsets(it: Item, a: nat, t: nat)
    ensures Offsets(HardItem(it, a, t), a) == Offsets(it, a)
    decreases it
  {
    match it
    case Group(bra, _, alts, _) => SameOffsetsAlts(alts, a + BraSize(bra), t);
    case Zero(_, g) => SameOffsets(g, a + 1, t);
    case _ =>
  }

  lemma {:induction false} SameOffsetsBranch(b: Branch, a: nat, t: nat)
    ensures BranchOffsets(HardBranch(b, a, t), a) == BranchOffsets(b, a)
    decreases b
  {
    if b.Cons? {
      HardCons(b, a, t);
      hide HardBranch, HardItem;
      SameOffsets(b.head, a, t);
      SameOffsetsBranch(b.tail, a + Size(b.head), t);
    }
  }

  lemma {:induction false} SameOffsetsAlts(alts: Alts, st: nat, t: nat)
    ensures AltsOffsets(HardAlts(alts, st, t), st) == AltsOffsets(alts, st)
    decreases alts
  {
    SameOffsetsBranch(alts.b, st, t);
    if alts.More? {
      HardMore(alts, st, t);
      hide HardBranch, HardAlts;
      SameOffsetsAlts(alts.rest, st + BranchSize(alts.b) + 3, t);
    }
  }

  // ---------- call targets are offsets of the program ----------

  lemma {:induction false} FoundInside(it: Item, a: nat, num: nat)
    requires FindOffset(it, a, num).Some?
    ensures FindOffset(it, a, num).value in Offsets(it, a)
    decreases it
  {
    match it
    case Group(bra, n, alts, _) => if n != num || num == 0 { FoundInsideAlts(alts, a + BraSize(bra), num); }
    case Zero(_, g) => FoundInside(g, a + 1, num);
    case _ =>
  }

  lemma {:induction false} FoundInsideBranch(b: Branch, a: nat, num: nat)
    requires FindOffsetInBranch(b, a, num).Some?
    ensures FindOffsetInBranch(b, a, num).value in BranchOffsets(b, a)
    decreases b
  {
    if FindOffset(b.head, a, num).Some? {
      FoundInside(b.head, a, num);
    } else {
      FoundInsideBranch(b.tail, a + Size(b.head), num);
    }
  }

  lemma {:induction false} FoundInsideAlts(alts: Alts, st: nat, num: nat)
    requires FindOffsetInAlts(alts, st, num).Some?
    ensures FindOffsetInAlts(alts, st, num).value in AltsOffsets(alts, st)
    decreases alts
  {
    if FindOffsetInBranch(alts.b, st, num).Some? {
      FoundInsideBranch(alts.b, st, num);
    } else {
      FoundInsideAlts(alts.rest, st + BranchSize(alts.b) + 3, num);
    }
  }

  lemma CallIsInside(x: PlainLinks, code: seq<byte>, root: Item, o: nat)
    requires IsProgram(x, code, root) && o in Offsets(root, 0) && Decode(code, o).ICall?
    ensures Decode(code, o).target in Offsets(root, 0)
  {
    hide LayItem, Decode, Offsets, FindOffset, TargetsOk;
    ProgramTargets(x, code, root);
    ItemLinked(x, code, 0, root, o);
    FirstOffset(root, 0);
    var n := Decode(code, o).num;
    if n != 0 {
      FoundInside(root, 0, n);
    }
  }
}
