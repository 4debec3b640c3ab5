/** Turning an emitted character or class into its repeat. */
module Repeats {
  import opened Opcodes
  import opened Tree
  import opened Meaning
  import opened Pattern
  import opened Expansion
  import opened Sizing
  import opened Program
  import opened Walk
  import opened Emission
  import opened CodeBuffer
  import opened Relocation
  import opened Items
  import opened Wrapping

  function LazyBit(greed: Greed): nat {
    if greed == Lazy then 1 else 0
  }

  /** The possessive form of a greedy repeat opcode, 0 if it has none. */
  function PossessiveForm(op: byte): byte {
    if IsRepeat(op) then
      var k := (op - OP_STAR) % 13;
      if k <= K_UPTO && k % 2 == 0 then op - k + K_POSSTAR + k / 2 else 0
    else if IsClassRepeat(op) then
      var k := op - OP_CRSTAR;
      if k <= K_CRRANGE && k % 2 == 0 then op - k + K_CRPOSSTAR + k / 2 else 0
    else 0
  }

  /** The bytes of a repeat of anything but a class. */
  function RepBytes(base: byte, c: byte, k: nat, hi: nat): seq<byte>
    requires base <= OP_TYPESTAR && k <= K_POSUPTO
  {
    [base + k] + (if HasCount(k) then [hi / 256 % 256, hi % 256] else []) + [c]
  }

  lemma RepBytesLaid(code: seq<byte>, atom: Atom, base: byte, c: byte, k: nat, hi: nat)
    requires AtomOk(atom) && !atom.Cls? && base == RepBase(atom) && c == (if atom.Chr? then atom.c else atom.op)
    requires RepOk(atom, k, 0, hi)
    ensures |RepBytes(base, c, k, hi)| == RepSize(atom, k)
    ensures LayRep(code + RepBytes(base, c, k, hi), |code|, atom, k, 0, hi)
  {
    var b, t := RepBytes(base, c, k, hi), code + RepBytes(base, c, k, hi);
    assert t[|code|] == b[0] && t[|t| - 1] == b[|b| - 1];
    if HasCount(k) {
      assert t[|code| + 1] == b[1] && t[|code| + 2] == b[2];
    }
  }

  /** Emit one repeat: its opcode, its count if it has one, and the character. */
  method EmitRepeat(cd: Compiler, base: byte, c: byte, k: nat, hi: nat, ghost atom: Atom)
    requires cd.Valid() && Good(Now(cd))
    requires AtomOk(atom) && !atom.Cls? && base == RepBase(atom) && c == (if atom.Chr? then atom.c else atom.op)
    requires RepOk(atom, k, 0, hi) && cd.end + RepSize(atom, k) <= cd.buf.Length
    modifies cd`end, cd`code, cd.buf
    ensures cd.Valid() && Emitted(old(Now(cd)), Now(cd), Cons(Rep(atom, k, 0, hi), Nil))
    ensures cd.end == old(cd.end) + RepSize(atom, k)
  {
    ghost var s := Now(cd);
    hide Good, Emitted;
    cd.Emit(base + k);
    if HasCount(k) {
      cd.EmitLink(hi);
    }
    cd.Emit(c);
    assert cd.code == s.code + RepBytes(base, c, k, hi);
    RepBytesLaid(s.code, atom, base, c, k, hi);
    LeafEmitted(s, Now(cd), Rep(atom, k, 0, hi));
  }

  /** The greedy or lazy repeat of a character or character type; a possessive
    * one is emitted as greedy first. */
  method RepeatCharacter(cd: Compiler, previous: nat, min: nat, max: int, greed: Greed, ghost s: State,
                         ghost atom: Atom)
    requires cd.Valid() && Good(s) && Emitted(s, Now(cd), Cons(One(atom), Nil)) && cd.x == s.x && cd.hwm == s.hwm
    requires AtomOk(atom) && !atom.Cls? && previous == |s.code| && greed != Possessive
    requires min <= MAX_REPEAT && (max == -1 || min <= max <= MAX_REPEAT)
    requires previous + Larger(AtomSize(atom), SingleLength(atom, min, max, greed)) <= cd.buf.Length
    modifies cd`end, cd`code, cd.buf
    ensures cd.Valid() && Emitted(s, Now(cd), ExpandSingle(atom, min, max, greed))
  {
    ghost var one := Now(cd);
    SingleSize(atom, min, max, greed);
    AtomBytes(s, one, atom);
    hide Emitted, Good;
    var op := cd.buf[previous];
    var base := if IsSingleChar(op) then OP_STAR + 13 * (op - OP_CHAR) else OP_TYPESTAR;
    var c := cd.buf[cd.end - 1];
    var lazy := LazyBit(greed);
    if min != 1 || max == -1 {
      cd.CutTo(previous);
      assert Now(cd) == s;
    }
    if max == 0 {
      EmittedNothing(s);
    } else if min == 0 {
      if max == -1 {
        EmitRepeat(cd, base, c, K_STAR + lazy, 0, atom);
      } else if max == 1 {
        EmitRepeat(cd, base, c, K_QUERY + lazy, 0, atom);
      } else {
        EmitRepeat(cd, base, c, K_UPTO + lazy, max, atom);
      }
    } else if min == 1 {
      if max == -1 {
        EmitRepeat(cd, base, c, K_PLUS + lazy, 0, atom);
      } else if max > 1 {
        EmittedGood(s, one, Cons(One(atom), Nil));
        EmitRepeat(cd, base, c, K_UPTO + lazy, max - 1, atom);
        EmittedTwice(s, one, Now(cd), Cons(One(atom), Nil), Cons(RepItem(atom, K_UPTO, greed, 0, max - 1), Nil));
      }
    } else {
      RepeatFixed(cd, base, c, min, max, greed, s, atom);
    }
  }

  /** A minimum of more than one: EXACT, and then what is left of the maximum. */
  method RepeatFixed(cd: Compiler, base: byte, c: byte, min: nat, max: int, greed: Greed, ghost s: State,
                     ghost atom: Atom)
    requires cd.Valid() && Good(s) && Now(cd) == s
    requires AtomOk(atom) && !atom.Cls? && base == RepBase(atom) && c == (if atom.Chr? then atom.c else atom.op)
    requires 2 <= min <= MAX_REPEAT && (max == -1 || min <= max <= MAX_REPEAT) && greed != Possessive
    requires cd.end + SingleLength(atom, min, max, greed) <= cd.buf.Length
    modifies cd`end, cd`code, cd.buf
    ensures cd.Valid() && Emitted(s, Now(cd), ExpandSingle(atom, min, max, greed))
  {
    SingleSize(atom, min, max, greed);
    hide Emitted, Good;
    var lazy := LazyBit(greed);
    EmitRepeat(cd, base, c, K_EXACT, min, atom);
    ghost var exact := Now(cd);
    if max != min {
      EmittedGood(s, exact, Cons(Rep(atom, K_EXACT, 0, min), Nil));
      if max == -1 {
        EmitRepeat(cd, base, c, K_STAR + lazy, 0, atom);
      } else if max - min == 1 {
        EmitRepeat(cd, base, c, K_QUERY + lazy, 0, atom);
      } else {
        EmitRepeat(cd, base, c, K_UPTO + lazy, max - min, atom);
      }
      EmittedTwice(s, exact, Now(cd), Cons(Rep(atom, K_EXACT, 0, min), Nil), ExpandSingle(atom, min, max, greed).tail);
    }
  }

  /** The greedy or lazy repeat of a class goes behind the class. */
  method RepeatClass(cd: Compiler, previous: nat, min: nat, max: int, greed: Greed, ghost s: State, ghost atom: Atom)
    requires cd.Valid() && Good(s) && Emitted(s, Now(cd), Cons(One(atom), Nil)) && cd.x == s.x && cd.hwm == s.hwm
    requires AtomOk(atom) && atom.Cls? && previous == |s.code| && greed != Possessive
    requires min <= MAX_REPEAT && (max == -1 || min <= max <= MAX_REPEAT)
    requires previous + Larger(AtomSize(atom), SingleLength(atom, min, max, greed)) <= cd.buf.Length
    modifies cd`end, cd`code, cd.buf
    ensures cd.Valid() && Emitted(s, Now(cd), ExpandSingle(atom, min, max, greed))
  {
    ghost var one := Now(cd);
    SingleSize(atom, min, max, greed);
    AtomBytes(s, one, atom);
    hide Emitted, Good;
    var lazy := LazyBit(greed);
    if max == 0 {
      cd.CutTo(previous);
      assert Now(cd) == s;
      EmittedNothing(s);
      return;
    }
    ghost var it := ExpandClass(atom, min, max, greed);
    hide LayAtom;
    if min == 0 && max == -1 {
      EmitClassRepeat(cd, K_STAR + lazy, 0, 0);
    } else if min == 1 && max == -1 {
      EmitClassRepeat(cd, K_PLUS + lazy, 0, 0);
    } else if min == 0 && max == 1 {
      EmitClassRepeat(cd, K_QUERY + lazy, 0, 0);
    } else {
      EmitClassRepeat(cd, K_CRRANGE + lazy, min, if max == -1 then 0 else max);
    }
    ClassDone(s, one, Now(cd), it);
  }

  method EmitClassRepeat(cd: Compiler, k: nat, lo: nat, hi: nat)
    requires cd.Valid() && k <= K_CRPOSRANGE && cd.end + (if HasRange(k) then 5 else 1) <= cd.buf.Length
    modifies cd`end, cd`code, cd.buf
    ensures cd.Valid() && cd.code == old(cd.code) + ClassBytes(k, lo, hi)
  {
    cd.Emit(OP_CRSTAR + k);
    if HasRange(k) {
      cd.EmitLink(lo);
      cd.EmitLink(hi);
    }
  }

  lemma ClassDone(s: State, one: State, t: State, it: Item)
    requires Good(s) && t.hwm == s.hwm && t.x == s.x
    requires it.Rep? && it.atom.Cls? && RepOk(it.atom, it.k, it.lo, it.hi)
    requires LayAtom(one.code, |s.code|, it.atom) && |one.code| == |s.code| + AtomSize(it.atom)
    requires one.code[..|s.code|] == s.code
    requires t.code == one.code + ClassBytes(it.k, it.lo, it.hi)
    ensures Emitted(s, t, Cons(it, Nil))
  {
    ClassLaid(one.code, |s.code|, it.atom, it.k, it.lo, it.hi);
    hide Good, Emitted, LayRep, LayAtom;
    assert forall j :: 0 <= j < |s.code| ==> t.code[j] == one.code[j] == s.code[j];
    LeafEmitted(s, t, it);
  }

  /** The bytes of a class repeat that follow the class. */
  function ClassBytes(k: nat, lo: nat, hi: nat): seq<byte>
    requires k <= K_CRPOSRANGE
  {
    [OP_CRSTAR + k] + if HasRange(k) then [lo / 256 % 256, lo % 256, hi / 256 % 256, hi % 256] else []
  }

  lemma ClassLaid(code: seq<byte>, a: nat, atom: Atom, k: nat, lo: nat, hi: nat)
    requires LayAtom(code, a, atom) && atom.Cls? && |code| == a + AtomSize(atom) && RepOk(atom, k, lo, hi)
    ensures |ClassBytes(k, lo, hi)| == RepSize(atom, k) - AtomSize(atom)
    ensures LayRep(code + ClassBytes(k, lo, hi), a, atom, k, lo, hi)
  {
    var b, t := ClassBytes(k, lo, hi), code + ClassBytes(k, lo, hi);
    assert t[a] == code[a] && t[a + 1..a + 1 + BITMAP_SIZE] == code[a + 1..a + 1 + BITMAP_SIZE];
    assert t[|code|] == b[0];
    if HasRange(k) {
      assert t[|code| + 1] == b[1] && t[|code| + 2] == b[2] && t[|code| + 3] == b[3] && t[|code| + 4] == b[4];
    }
  }

  /** The bytes of an emitted character. */
  lemma AtomBytes(s: State, t: State, atom: Atom)
    requires Emitted(s, t, Cons(One(atom), Nil))
    ensures AtomOk(atom) && |t.code| == |s.code| + AtomSize(atom) && t.code[..|s.code|] == s.code
    ensures LayAtom(t.code, |s.code|, atom)
  {
    hide Meets;
    assert BranchSize(Nil) == 0;
    OpenBranch(t.x, t.code, |s.code|, One(atom), Nil);
  }

  // ---------- possessive repeats ----------

  /** Writing the possessive opcode over a greedy one. */
  lemma PatchRep(code: seq<byte>, a: nat, atom: Atom, k: nat, lo: nat, hi: nat, p: nat)
    requires LayRep(code, a, atom, k, lo, hi) && k <= K_UPTO && k % 2 == 0
    requires p == a + (if atom.Cls? then 1 + BITMAP_SIZE else 0)
    ensures PossessiveForm(code[p]) != 0
    ensures LayRep(code[p := PossessiveForm(code[p])], a, atom, Kind(atom, k, Possessive), lo, hi)
    ensures RepSize(atom, Kind(atom, k, Possessive)) == RepSize(atom, k)
  {
    var t := code[p := PossessiveForm(code[p])];
    if atom.Cls? {
      assert t[a + 1..a + 1 + BITMAP_SIZE] == code[a + 1..a + 1 + BITMAP_SIZE];
    }
  }

  lemma SingleNoGroup(atom: Atom, min: nat, max: int, greed: Greed, a: nat)
    requires max == -1 || min <= max
    ensures forall num: nat :: FindOffsetInBranch(ExpandSingle(atom, min, max, greed), a, num).None?
  {
    forall num: nat ensures FindOffsetInBranch(ExpandSingle(atom, min, max, greed), a, num).None? {
      NoGroupInSingle(atom, min, max, greed, num);
      NotFoundBranch(ExpandSingle(atom, min, max, greed), a, num);
    }
  }

  lemma FirstKept(t: State, u: State, a: nat, m: nat, it: Item)
    requires LayItem(t.x, t.code, a, it) && m == a + Size(it) && u.x == t.x && |u.code| == |t.code| >= m
    requires forall j :: 0 <= j < m ==> u.code[j] == t.code[j]
    ensures LayItem(u.x, u.code, a, it)
  {
    RelocateItem(t.x, t.code, u.x, u.code, a, m, 0, it);
  }

  /** The offset of the last item's repeat opcode within the item. */
  function OpcodeAt(atom: Atom): nat {
    if atom.Cls? then 1 + BITMAP_SIZE else 0
  }

  /** Is there anything behind a mandatory copy that could be made possessive? */
  predicate HasTail(atom: Atom, min: nat, max: int) {
    max != 0 && (atom.Cls? || min == 0 || max != min)
  }

  ghost predicate Patched(t: State, u: State, p: nat) {
    p < |t.code| && u == State(t.code[p := PossessiveForm(t.code[p])], t.hwm, t.x)
  }

  /** The greedy and the possessive spelling differ in the last opcode only. */
  lemma Twins(atom: Atom, min: nat, max: int)
    requires (max == -1 || min <= max) && HasTail(atom, min, max)
    ensures var b, c := ExpandSingle(atom, min, max, Greedy), ExpandSingle(atom, min, max, Possessive);
            var it := if b.tail.Nil? then b.head else b.tail.head;
            && it.Rep? && it.atom == atom && it.k <= K_UPTO && it.k % 2 == 0
            && var last := Cons(Rep(atom, Kind(atom, it.k, Possessive), it.lo, it.hi), Nil);
               (if b.tail.Nil? then c == last else b.tail.tail.Nil? && c == Cons(b.head, last) && !atom.Cls?)
  {
  }

  lemma ReplaceRep(t: State, u: State, m: nat, atom: Atom, k: nat, lo: nat, hi: nat)
    requires LayItem(t.x, t.code, m, Rep(atom, k, lo, hi)) && k <= K_UPTO && k % 2 == 0
    requires m + RepSize(atom, k) <= |t.code| && Patched(t, u, m + OpcodeAt(atom))
    ensures LayBranch(u.x, u.code, m, Cons(Rep(atom, Kind(atom, k, Possessive), lo, hi), Nil))
    ensures RepSize(atom, Kind(atom, k, Possessive)) == RepSize(atom, k)
  {
    PatchRep(t.code, m, atom, k, lo, hi, m + OpcodeAt(atom));
    hide LayRep;
    OneLaid(u.x, u.code, m, Rep(atom, Kind(atom, k, Possessive), lo, hi));
  }

  lemma ReplaceOnly(s: State, t: State, u: State, atom: Atom, min: nat, max: int)
    requires AtomOk(atom) && (max == -1 || min <= max) && HasTail(atom, min, max)
    requires Emitted(s, t, ExpandSingle(atom, min, max, Greedy)) && t.x == s.x && t.hwm == s.hwm
    requires ExpandSingle(atom, min, max, Greedy).tail.Nil?
    requires Patched(t, u, |s.code| + OpcodeAt(atom))
    ensures Emitted(s, u, ExpandSingle(atom, min, max, Possessive))
  {
    var b, c, a := ExpandSingle(atom, min, max, Greedy), ExpandSingle(atom, min, max, Possessive), |s.code|;
    Twins(atom, min, max);
    SingleNoGroup(atom, min, max, Possessive, a);
    var it := b.head;
    EmittedLaid(s, t, b);
    hide Emitted, Good, LayBranch, LayItem, FindOffsetInBranch, ExpandSingle;
    OpenBranch(t.x, t.code, a, it, Nil);
    ReplaceRep(t, u, a, atom, it.k, it.lo, it.hi);
    EmittedPlain(s, u, c);
  }

  /** The layout behind a mandatory part that stays as it is. */
  lemma SecondLaid(t: State, u: State, a: nat, m: nat, atom: Atom, b: Branch, c: Branch)
    requires LayBranch(t.x, t.code, a, b) && b.Cons? && b.tail.Cons? && b.tail.tail.Nil? && m == a + Size(b.head)
    requires Patched(t, u, m)
    requires var it := b.tail.head;
             && it.Rep? && it.atom == atom && it.k <= K_UPTO && it.k % 2 == 0 && !atom.Cls?
             && c == Cons(b.head, Cons(Rep(atom, Kind(atom, it.k, Possessive), it.lo, it.hi), Nil))
    ensures LayBranch(u.x, u.code, a, c) && BranchSize(c) == BranchSize(b)
  {
    hide LayBranch, LayItem, Size, BranchSize;
    var it := b.tail.head;
    OpenBranch(t.x, t.code, a, b.head, b.tail);
    OpenBranch(t.x, t.code, m, it, Nil);
    RepIsLong(it);
    ReplaceRep(t, u, m, atom, it.k, it.lo, it.hi);
    FirstKept(t, u, a, m, b.head);
    MakeBranch(u.x, u.code, a, c.head, c.tail);
    SameSizes(b, c);
  }

  lemma RepIsLong(it: Item)
    requires it.Rep?
    ensures Size(it) == RepSize(it.atom, it.k)
  {
  }

  lemma SameSizes(b: Branch, c: Branch)
    requires b.Cons? && c.Cons? && c.head == b.head && b.tail.Cons? && c.tail.Cons? && b.tail.tail.Nil?
    requires c.tail.tail.Nil?
    requires b.tail.head.Rep? && c.tail.head.Rep?
    requires RepSize(b.tail.head.atom, b.tail.head.k) == RepSize(c.tail.head.atom, c.tail.head.k)
    ensures BranchSize(c) == BranchSize(b)
  {
    assert BranchSize(b.tail) == RepSize(b.tail.head.atom, b.tail.head.k);
    assert BranchSize(c.tail) == RepSize(c.tail.head.atom, c.tail.head.k);
  }

  lemma ReplaceSecond(s: State, t: State, u: State, atom: Atom, min: nat, max: int, m: nat)
    requires AtomOk(atom) && (max == -1 || min <= max) && HasTail(atom, min, max)
    requires Emitted(s, t, ExpandSingle(atom, min, max, Greedy)) && t.x == s.x && t.hwm == s.hwm
    requires ExpandSingle(atom, min, max, Greedy).tail.Cons?
    requires m == |s.code| + Size(ExpandSingle(atom, min, max, Greedy).head) && Patched(t, u, m)
    ensures Emitted(s, u, ExpandSingle(atom, min, max, Possessive))
  {
    var b, c, a := ExpandSingle(atom, min, max, Greedy), ExpandSingle(atom, min, max, Possessive), |s.code|;
    Twins(atom, min, max);
    SingleNoGroup(atom, min, max, Possessive, a);
    EmittedLaid(s, t, b);
    hide Emitted, Good, LayBranch, LayItem, FindOffsetInBranch, ExpandSingle, BranchSize, Size;
    SecondLaid(t, u, a, m, atom, b, c);
    EmittedPlain(s, u, c);
  }

  /** What is skipped in front of the opcode of a repeat: a mandatory part, or a class. */
  function Skipped(op: byte): nat {
    if IsSingleChar(op) || IsClass(op) || (IsRepeat(op) && (op - OP_STAR) % 13 == K_EXACT) then OpLength(op) else 0
  }

  lemma SkippedItem(x: Links, code: seq<byte>, a: nat, it: Item, atom: Atom)
    requires AtomOk(atom) && LayItem(x, code, a, it)
    requires (it == One(atom) && atom.Chr?) || (it.Rep? && it.atom == atom)
    ensures Size(it) > 0 && a < |code|
    ensures Skipped(code[a]) == if it.One? || (!atom.Cls? && it.k == K_EXACT) then Size(it) else OpcodeAt(atom)
  {
    if it.Rep? && !atom.Cls? {
      var run := if atom.Chr? then atom.op - OP_CHAR else 4;
      assert code[a] - OP_STAR == 13 * run + it.k;
      assert (code[a] - OP_STAR) % 13 == it.k;
    }
  }

  /** Which items a quantifier starts with, and when one follows. */
  lemma HeadOf(atom: Atom, min: nat, max: int)
    requires AtomOk(atom) && (max == -1 || min <= max) && max != 0 && (atom.Cls? || !(min == 1 && max == 1))
    requires !WrapsSingle(atom, min, max, Possessive)
    ensures var b := ExpandSingle(atom, min, max, Greedy);
            && b.Cons? && ((b.head == One(atom) && atom.Chr?) || (b.head.Rep? && b.head.atom == atom))
            && var fixed := b.head.One? || (!atom.Cls? && b.head.k == K_EXACT);
            && (b.tail.Cons? ==> fixed && HasTail(atom, min, max))
            && (b.tail.Nil? ==> (fixed <==> !HasTail(atom, min, max)))
            && (!HasTail(atom, min, max) ==> b == ExpandSingle(atom, min, max, Possessive))
  {
  }

  /** What the skip over the mandatory part sees. */
  lemma FirstOpcode(s: State, t: State, atom: Atom, min: nat, max: int)
    requires AtomOk(atom) && (max == -1 || min <= max) && max != 0 && (atom.Cls? || !(min == 1 && max == 1))
    requires Emitted(s, t, ExpandSingle(atom, min, max, Greedy))
    requires !WrapsSingle(atom, min, max, Possessive)
    ensures |s.code| < |t.code|
    ensures var skip, b := Skipped(t.code[|s.code|]), ExpandSingle(atom, min, max, Greedy);
            && (b.tail.Cons? ==> skip == Size(b.head) && HasTail(atom, min, max))
            && (b.tail.Nil? && HasTail(atom, min, max) ==> skip == OpcodeAt(atom))
            && (HasTail(atom, min, max) <==> |s.code| + skip < |t.code|)
            && (HasTail(atom, min, max) ==> PossessiveForm(t.code[|s.code| + skip]) != 0)
            && (!HasTail(atom, min, max) ==> b == ExpandSingle(atom, min, max, Possessive))
  {
    var b, a := ExpandSingle(atom, min, max, Greedy), |s.code|;
    HeadOf(atom, min, max);
    EmittedLaid(s, t, b);
    if HasTail(atom, min, max) {
      Twins(atom, min, max);
    }
    hide Emitted, Good, LayBranch, LayItem, ExpandSingle, HasTail, Skipped, AtomOk, PossessiveForm, Size, BranchSize,
      OpcodeAt;
    if b.tail.Cons? {
      TwoItems(t.x, t.code, a, b, atom);
    } else {
      OneItem(t.x, t.code, a, b.head, atom);
      OneSize(b.head);
    }
  }

  predicate IsFixed(it: Item, atom: Atom) {
    it.One? || (it.Rep? && !atom.Cls? && it.k == K_EXACT)
  }

  lemma OneItem(x: Links, code: seq<byte>, a: nat, it: Item, atom: Atom)
    requires LayBranch(x, code, a, Cons(it, Nil)) && AtomOk(atom)
    requires (it == One(atom) && atom.Chr?) || (it.Rep? && it.atom == atom)
    requires !IsFixed(it, atom) ==> it.k <= K_UPTO && it.k % 2 == 0
    ensures Size(it) > 0 && a < |code|
    ensures if IsFixed(it, atom) then Skipped(code[a]) == Size(it)
            else && Skipped(code[a]) == OpcodeAt(atom) < Size(it) <= |code| - a
                 && PossessiveForm(code[a + Skipped(code[a])]) != 0
  {
    OpenBranch(x, code, a, it, Nil);
    hide LayBranch, LayItem, Skipped, PossessiveForm, AtomOk;
    SkippedItem(x, code, a, it, atom);
    if !IsFixed(it, atom) {
      FormExists(x, code, a, it);
    }
  }

  lemma TwoItems(x: Links, code: seq<byte>, a: nat, b: Branch, atom: Atom)
    requires LayBranch(x, code, a, b) && b.Cons? && b.tail.Cons? && AtomOk(atom) && !atom.Cls?
    requires ((b.head == One(atom) && atom.Chr?) || (b.head.Rep? && b.head.atom == atom)) && IsFixed(b.head, atom)
    requires b.tail.head.Rep? && b.tail.head.atom == atom && b.tail.head.k <= K_UPTO && b.tail.head.k % 2 == 0
    ensures a < |code| && Skipped(code[a]) == Size(b.head) && a + Skipped(code[a]) < |code|
    ensures a + Size(b.head) < a + BranchSize(b) <= |code| && PossessiveForm(code[a + Skipped(code[a])]) != 0
  {
    OpenBranch(x, code, a, b.head, b.tail);
    OpenBranch(x, code, a + Size(b.head), b.tail.head, b.tail.tail);
    hide LayBranch, LayItem, Skipped, PossessiveForm, AtomOk, BranchSize, Size;
    SkippedItem(x, code, a, b.head, atom);
    FormExists(x, code, a + Size(b.head), b.tail.head);
  }

  lemma FormExists(x: Links, code: seq<byte>, a: nat, it: Item)
    requires LayItem(x, code, a, it) && it.Rep? && it.k <= K_UPTO && it.k % 2 == 0
    ensures a + OpcodeAt(it.atom) < |code| && PossessiveForm(code[a + OpcodeAt(it.atom)]) != 0
  {
    PatchRep(code, a, it.atom, it.k, it.lo, it.hi, a + OpcodeAt(it.atom));
  }

  /** A character type in front of its own optional repeat: nothing is skipped, and it
    * has no possessive form. */
  lemma TypeFirst(s: State, t: State, atom: Atom, min: nat, max: int)
    requires WrapsSingle(atom, min, max, Possessive) && Emitted(s, t, ExpandSingle(atom, min, max, Greedy))
    ensures |s.code| < |t.code| && Skipped(t.code[|s.code|]) == 0 && PossessiveForm(t.code[|s.code|]) == 0
  {
    var b := ExpandSingle(atom, min, max, Greedy);
    EmittedLaid(s, t, b);
    hide Emitted, Good, LayBranch;
    OpenBranch(t.x, t.code, |s.code|, b.head, b.tail);
  }

  /** Both cases together. */
  lemma Plan(s: State, t: State, atom: Atom, min: nat, max: int)
    requires AtomOk(atom) && (max == -1 || min <= max) && max != 0 && (atom.Cls? || !(min == 1 && max == 1))
    requires Emitted(s, t, ExpandSingle(atom, min, max, Greedy))
    ensures ExpandSingle(atom, min, max, Greedy).Cons?
    ensures |s.code| < |t.code| && |t.code| == |s.code| + BranchSize(ExpandSingle(atom, min, max, Greedy))
    ensures var skip, b := Skipped(t.code[|s.code|]), ExpandSingle(atom, min, max, Greedy);
            && (HasTail(atom, min, max) <==> |s.code| + skip < |t.code|)
            && (!HasTail(atom, min, max) ==> b == ExpandAtom(atom, min, max, Possessive))
            && (HasTail(atom, min, max) ==>
                  if PossessiveForm(t.code[|s.code| + skip]) == 0 then
                    skip == 0 && WrapsSingle(atom, min, max, Possessive)
                  else
                    && !WrapsSingle(atom, min, max, Possessive)
                    && skip == if b.tail.Cons? then Size(b.head) else OpcodeAt(atom))
  {
    EmittedGood(s, t, ExpandSingle(atom, min, max, Greedy));
    hide Emitted, ExpandSingle, Skipped, PossessiveForm, OpcodeAt, Size, BranchSize;
    if WrapsSingle(atom, min, max, Possessive) {
      TypeFirst(s, t, atom, min, max);
    } else {
      FirstOpcode(s, t, atom, min, max);
    }
  }

  lemma WrapRoom(atom: Atom, min: nat, max: int)
    requires (max == -1 || min <= max) && WrapsSingle(atom, min, max, Possessive)
    ensures BranchSize(ExpandSingle(atom, min, max, Greedy)) + BRACKETS == SingleLength(atom, min, max, Possessive)
  {
    SingleSize(atom, min, max, Greedy);
    SingleSize(atom, min, max, Possessive);
  }

  lemma FirstEmitted(cd: Compiler, i: nat)
    requires cd.Valid() && i < cd.end
    ensures i < cd.buf.Length && i < |cd.code| && cd.buf[i] == cd.code[i]
  {
    assert cd.buf[..cd.end][i] == cd.code[i];
  }

  /** Make the repeat that was emitted at previous possessive: skip a mandatory
    * part in front and exchange the opcode of what follows it; if that has no
    * possessive form, it goes into atomic brackets. */
  method Possessify(cd: Compiler, previous: nat, base: nat, min: nat, max: int, ghost s: State, ghost atom: Atom)
    requires AtomOk(atom) && previous == |s.code| > 0 && base == |s.hwm|
    requires (max == -1 || min <= max) && max != 0 && (atom.Cls? || !(min == 1 && max == 1))
    requires cd.Valid() && Emitted(s, Now(cd), ExpandSingle(atom, min, max, Greedy)) && cd.x == s.x && cd.hwm == s.hwm
    requires previous + SingleLength(atom, min, max, Possessive) < cd.buf.Length
    modifies cd, cd.buf
    ensures cd.Valid() && Emitted(s, Now(cd), ExpandAtom(atom, min, max, Possessive))
  {
    hide Compiler.Valid, Emitted, PossessiveForm, Skipped, ExpandSingle, BranchSize, HasTail, SingleLength, Size,
      OpcodeAt, WrapsSingle;
    ghost var b := ExpandSingle(atom, min, max, Greedy);
    ghost var t := Now(cd);
    cd.Bounds();
    Plan(s, t, atom, min, max);
    FirstEmitted(cd, previous);
    var tempcode := previous + Skipped(cd.buf[previous]);
    if tempcode < cd.end {
      FirstEmitted(cd, tempcode);
      var form := PossessiveForm(cd.buf[tempcode]);
      if form > 0 {
        cd.SetByte(tempcode, form);
        if b.tail.Nil? {
          ReplaceOnly(s, t, Now(cd), atom, min, max);
        } else {
          ReplaceSecond(s, t, Now(cd), atom, min, max, tempcode);
        }
      } else {
        WrapRoom(atom, min, max);
        Wrap(cd, tempcode, base, s, b);
      }
    }
  }
}
