/** Which repeats auto-possessification makes possessive, told from the code as it was
  * before: those behind which everything is settled and the walk that finds this out is
  * not cut short. The code while it is being rewritten settles the same, and
  * going over it by the lengths of its opcodes meets every instruction.
  */
module Rewriting {
  import opened Opcodes
  import opened Tree
  import opened Meaning
  import opened Machine
  import opened Runs
  import opened Decoding
  import opened Program
  import opened Walk
  import opened CodeScan
  import opened Closure
  import opened Backtrack
  import opened PropertyLists
  import opened Settling
  import opened Onward
  import opened Comparing
  import opened Hardening

  /** The walks that may be started behind one repeat. */
  const WALK_LIMIT: nat := 1000

  /** At o is a repeat that could give characters back, and what comes behind it is
    * settled. */
  ghost predicate Ripe(code: seq<byte>, t: Tables, o: nat) {
    && |t.ctypes| == 256 && |t.fcc| == 256 && Softens(code, o)
    && var i := Decode(code, o);
       i.IRep? && AtomOk(i.atom) && Settled(code, i.next, t, i.atom, !Lazy(code, o))
  }

  /** And the walk that finds it settled is not cut short. */
  ghost predicate Due(code: seq<byte>, t: Tables, o: nat) {
    Ripe(code, t, o) && Inner(code, Decode(code, o).next) < WALK_LIMIT
  }

  /** The repeats made possessive are those that are due. */
  ghost predicate Rightly(code: seq<byte>, t: Tables, offs: set<nat>, made: set<nat>) {
    forall o: nat :: o in made <==> o in offs && Due(code, t, o)
  }

  /** Told by what the code does: a repeat that is not possessive yet and has a choice,
    * behind which no way leads to something that blocks, among at most 1000 ways. Class
    * repeats are rewritten even where their two limits are the same. */
  ghost predicate Deserves(code: seq<byte>, t: Tables, o: nat) {
    && o < |code| && |t.ctypes| == 256 && |t.fcc| == 256
    && var i := Decode(code, o);
       && i.IRep? && AtomOk(i.atom) && !i.poss && (i.atom.Cls? || i.min != i.max)
       && Free(code, i.next, t, i.atom, !Lazy(code, o)) && WaysWithin(code, i.next, 1000)
  }

  lemma SoftensIs(code: seq<byte>, o: nat)
    requires o < |code| && Decode(code, o).IRep?
    ensures var i := Decode(code, o); Softens(code, o) <==> !i.poss && (i.atom.Cls? || i.min != i.max)
  {
    if IsRepeat(code[o]) {
      assert OP_STAR <= code[o] && code[o] - OP_STAR < 65;
    }
  }

  /** The repeats that are due are those that deserve it. */
  lemma DueIsDeserved(code: seq<byte>, t: Tables, o: nat)
    ensures Due(code, t, o) <==> Deserves(code, t, o)
  {
    hide Decode, Softens, Free, WaysWithin, Settled, Inner, Lazy;
    if o < |code| && |t.ctypes| == 256 && |t.fcc| == 256 && Decode(code, o).IRep? && AtomOk(Decode(code, o).atom) {
      var i := Decode(code, o);
      SoftensIs(code, o);
      FreeIsSettled(code, i.next, t, i.atom, !Lazy(code, o), 1000);
    } else {
      SoftensInside(code, o);
    }
  }

  lemma SoftensInside(code: seq<byte>, o: nat)
    ensures Softens(code, o) ==> o < |code|
  {
  }

  lemma RightlyIsDeserved(code: seq<byte>, t: Tables, offs: set<nat>, made: set<nat>)
    requires Rightly(code, t, offs, made)
    ensures forall o: nat :: o in made <==> o in offs && Deserves(code, t, o)
  {
    hide Due, Deserves;
    forall o: nat ensures o in made <==> o in offs && Deserves(code, t, o) {
      DueIsDeserved(code, t, o);
    }
  }

  // ---------- the code while it is being rewritten ----------

  /** What is at offset o of the two codes. */
  ghost predicate SameButFor(code: seq<byte>, code': seq<byte>, made: set<nat>, o: nat) {
    && o < |code| == |code'|
    && if o in made then
         && Decode(code, o).IRep? && !Decode(code, o).poss && Decode(code', o) == Decode(code, o).(poss := true)
       else
         && Decode(code', o) == Decode(code, o)
         && code'[o] == code[o] && Lazy(code', o) == Lazy(code, o) && Softens(code', o) == Softens(code, o)
  }

  /** The second code is the first one with the repeats in the set made possessive. */
  ghost predicate SameExcept(code: seq<byte>, code': seq<byte>, offs: set<nat>, made: set<nat>) {
    && |code'| == |code|
    && made <= offs
    && forall o: nat :: o in offs ==> SameButFor(code, code', made, o)
  }

  lemma SameExceptSelf(code: seq<byte>, offs: set<nat>)
    requires Closed(code, offs)
    ensures SameExcept(code, code, offs, {})
  {
    hide Decode, Leads, Lazy, Softens;
  }

  lemma SoftElsewhere(code: seq<byte>, code': seq<byte>, offs: set<nat>, t: nat, o: nat)
    requires Closed(code, offs) && t in offs && o in offs && o != t && Rewrites(code, code', t)
    requires o < |code| && !IsClassRepeat(code[o]) && !IsClassRepeat(code[t])
    ensures Softens(code', o) == Softens(code, o)
  {
    hide Closed, Decode;
  }

  /** One more repeat made possessive. */
  lemma SameStep(code: seq<byte>, now: seq<byte>, code': seq<byte>, offs: set<nat>, made: set<nat>, t: nat)
    requires SameExcept(code, now, offs, made) && |code'| == |now| && t in offs && t !in made
    requires forall o: nat :: o in offs ==> SameButFor(now, code', {t}, o)
    ensures SameExcept(code, code', offs, made + {t})
  {
    hide Decode, Lazy, Softens;
    forall o: nat | o in offs ensures SameButFor(code, code', made + {t}, o) {
      assert SameButFor(code, now, made, o) && SameButFor(now, code', {t}, o);
    }
  }

  lemma EnteredSame(code: seq<byte>, code': seq<byte>, offs: set<nat>, made: set<nat>, a: nat)
    requires Closed(code, offs) && SameExcept(code, code', offs, made) && a in offs
    ensures a < |code| == |code'| && Entered(code', a) == Entered(code, a)
    ensures (code'[a] == OP_END) == (code[a] == OP_END)
  {
    hide Closed, Decode, Lazy, Softens;
    assert SameButFor(code, code', made, a);
    if a in made {
      RepByte(code, a);
      RepByte(code', a);
    }
  }

  lemma RepByte(code: seq<byte>, a: nat)
    requires Decode(code, a).IRep?
    ensures a < |code| && !Entered(code, a) && code[a] != OP_END
  {
  }

  /** What the instruction at an offset leads to, in both codes. */
  lemma SameHere(code: seq<byte>, code': seq<byte>, offs: set<nat>, made: set<nat>, a: nat)
    requires Closed(code, offs) && SameExcept(code, code', offs, made) && a in offs
    ensures a < |code| == |code'|
    ensures var i, j := Decode(code, a), Decode(code', a); if i.IRep? then j == i || j == i.(poss := true) else j == i
    ensures Decode(code, a) == IBad ==> code[a] == OP_END && code'[a] == OP_END
    ensures Decode(code, a) != IBad ==> Leads(Decode(code, a), a, offs)
  {
    hide Closed, Decode, Lazy, Softens, Leads;
    EnteredSame(code, code', offs, made, a);
    assert SameButFor(code, code', made, a);
    HereIsInside(code, a, offs);
    if Decode(code, a) != IBad {
      NotAtEnd(code, a);
      LeadsAt(code, a, offs);
    }
  }

  lemma NotAtEnd(code: seq<byte>, a: nat)
    requires a < |code| && Decode(code, a) != IBad
    ensures code[a] != OP_END
  {
  }

  lemma ExclusiveSame(t: Tables, base: Atom, i: Instr, j: Instr)
    requires |t.ctypes| == 256 && |t.fcc| == 256 && AtomOk(base)
    requires j == i || (i.IRep? && j == i.(poss := true))
    ensures InstrOk(j) == InstrOk(i) && (InstrOk(i) ==> (Exclusive(t, base, j) <==> Exclusive(t, base, i)))
    ensures MayBeEmpty(j) == MayBeEmpty(i) && (MayBeEmpty(i) ==> NextOf(j) == NextOf(i) == i.next == j.next)
  {
  }

  /** Both codes settle the same, after the same number of walks. */
  lemma {:induction false} SettledSame(code: seq<byte>, code': seq<byte>, offs: set<nat>, made: set<nat>, a: nat,
                                       t: Tables,
                                       base: Atom, greedy: bool)
    requires Closed(code, offs) && SameExcept(code, code', offs, made) && a in offs
    requires |t.ctypes| == 256 && |t.fcc| == 256 && AtomOk(base)
    ensures Settled(code', a, t, base, greedy) <==> Settled(code, a, t, base, greedy)
    ensures Inner(code', a) == Inner(code, a)
    decreases |code| - a, 0
  {
    hide Closed, SameExcept, Decode, Settled, Inner, InnerAll, Exclusive, Leads, Entered;
    SameHere(code, code', offs, made, a);
    EnteredSame(code, code', offs, made, a);
    DecodeForward(code, a);
    var i := Decode(code, a);
    match i
    case IBad =>
      SettledEnd(code, a, t, base, greedy);
      SettledEnd(code', a, t, base, greedy);
      NoInner(code, a);
      NoInner(code', a);
    case IAlt(end) =>
      LeadsWhere(i, a, offs);
      SettledSame(code, code', offs, made, end, t, base, greedy);
      SettledAlt(code, a, t, base, greedy);
      SettledAlt(code', a, t, base, greedy);
    case IKet(next, back) =>
      LeadsWhere(i, a, offs);
      SettledSame(code, code', offs, made, next, t, base, greedy);
      SettledKet(code, a, t, base, greedy);
      SettledKet(code', a, t, base, greedy);
    case IZero(inside, after) =>
      LeadsWhere(i, a, offs);
      SettledSame(code, code', offs, made, after, t, base, greedy);
      if inside.Some? {
        SettledSame(code, code', offs, made, inside.value, t, base, greedy);
        EnteredSame(code, code', offs, made, inside.value);
      }
      SettledZero(code, a, t, base, greedy);
      SettledZero(code', a, t, base, greedy);
    case IOpen(starts) =>
      LeadsWhere(i, a, offs);
      SettledOpen(code, a, t, base, greedy);
      SettledOpen(code', a, t, base, greedy);
      SettledAllSame(code, code', offs, made, a + 1, starts, t, base, greedy);
    case _ => SettledSameItem(code, code', offs, made, a, t, base, greedy);
  }

  lemma NoInner(code: seq<byte>, a: nat)
    requires Decode(code, a) == IBad
    ensures Inner(code, a) == 0
  {
    hide Decode;
  }

  lemma NoInnerItem(code: seq<byte>, a: nat)
    requires var i := Decode(code, a); i.IAnchor? || i.IOne? || i.ICall? || (i.IRep? && !MayBeEmpty(i))
    ensures Inner(code, a) == 0
  {
    hide Decode;
  }

  lemma {:induction false} SettledSameItem(code: seq<byte>, code': seq<byte>, offs: set<nat>, made: set<nat>, a: nat,
                                           t: Tables,
                                           base: Atom, greedy: bool)
    requires Closed(code, offs) && SameExcept(code, code', offs, made) && a in offs && a < |code|
    requires |t.ctypes| == 256 && |t.fcc| == 256 && AtomOk(base)
    requires var i := Decode(code, a); i.IAnchor? || i.IOne? || i.IRep? || i.ICall?
    ensures Settled(code', a, t, base, greedy) <==> Settled(code, a, t, base, greedy)
    ensures Inner(code', a) == Inner(code, a)
    decreases |code| - a - 1, 1
  {
    hide Closed, SameExcept, Decode, Settled, Inner, Exclusive, Leads;
    SameHere(code, code', offs, made, a);
    DecodeForward(code, a);
    var i, j := Decode(code, a), Decode(code', a);
    ExclusiveSame(t, base, i, j);
    SettledAtItem(code, a, t, base, greedy);
    SettledAtItem(code', a, t, base, greedy);
    if MayBeEmpty(i) {
      NextInside(i, a, offs);
      SettledSame(code, code', offs, made, i.next, t, base, greedy);
    } else {
      NoInnerItem(code, a);
      NoInnerItem(code', a);
    }
  }

  lemma NextInside(i: Instr, a: nat, offs: set<nat>)
    requires i.IRep? && Leads(i, a, offs)
    ensures i.next in offs
  {
  }

  lemma {:induction false} SettledAllSame(code: seq<byte>, code': seq<byte>, offs: set<nat>, made: set<nat>, from: nat,
                                          starts: seq<nat>, t: Tables, base: Atom, greedy: bool)
    requires Closed(code, offs) && SameExcept(code, code', offs, made) && from <= |code| == |code'|
    requires AllFrom(starts, from)
    requires |t.ctypes| == 256 && |t.fcc| == 256 && AtomOk(base) && forall j :: 0 <= j < |starts| ==> starts[j] in offs
    ensures forall j ::
              0 <= j < |starts| ==>
                (Settled(code', starts[j], t, base, greedy) <==> Settled(code, starts[j], t, base, greedy))
    ensures InnerAll(code', from, starts) == InnerAll(code, from, starts)
    decreases |code| - from, |starts| + 1
  {
    hide Closed, SameExcept, Settled, Inner;
    if starts != [] {
      SettledSame(code, code', offs, made, starts[0], t, base, greedy);
      SettledAllSame(code, code', offs, made, from, starts[1..], t, base, greedy);
      forall j | 0 <= j < |starts|
        ensures Settled(code', starts[j], t, base, greedy) <==> Settled(code, starts[j], t, base, greedy)
      {
        if j > 0 {
          assert starts[j] == starts[1..][j - 1];
        }
      }
    }
  }

  /** So a repeat that is still to be looked at is ripe in both or in neither. */
  lemma RipeSame(code: seq<byte>, code': seq<byte>, offs: set<nat>, made: set<nat>, t: Tables, o: nat)
    requires Closed(code, offs) && SameExcept(code, code', offs, made) && o in offs && o !in made
    ensures (Ripe(code', t, o) <==> Ripe(code, t, o)) && (Due(code', t, o) <==> Due(code, t, o))
  {
    hide Closed, Decode, Settled, Inner, Lazy, Softens, Leads;
    assert SameButFor(code, code', made, o);
    var i := Decode(code, o);
    if |t.ctypes| == 256 && |t.fcc| == 256 && i.IRep? && AtomOk(i.atom) {
      SameHere(code, code', offs, made, o);
      NextInside(i, o, offs);
      SettledSame(code, code', offs, made, i.next, t, i.atom, !Lazy(code, o));
    }
  }

  // ---------- every instruction is met ----------

  /** The opcodes are as long as they were, and the end is where it was. */
  ghost predicate SameLengths(code: seq<byte>, code': seq<byte>) {
    && |code'| == |code|
    && forall i ::
         0 <= i < |code| ==> OpLength(code'[i]) == OpLength(code[i]) && (code'[i] == OP_END <==> code[i] == OP_END)
  }

  lemma RewriteKeepsLengths(code: seq<byte>, now: seq<byte>, code': seq<byte>, t: nat)
    requires SameLengths(code, now) && Rewrites(now, code', t)
    ensures SameLengths(code, code')
  {
    HarderIsAsLong(now, t);
    hide OpLength, Softens, Harder;
    var k := RepeatOpcode(now, t);
    forall i | 0 <= i < |code|
      ensures OpLength(code'[i]) == OpLength(code[i]) && (code'[i] == OP_END <==> code[i] == OP_END)
    {
      if i != k {
        assert code'[i] == now[i];
      }
    }
  }

  lemma HarderIsAsLong(code: seq<byte>, t: nat)
    requires Softens(code, t)
    ensures RepeatOpcode(code, t) < |code| && OpLength(Harder(code, t)) == OpLength(code[RepeatOpcode(code, t)])
    ensures Harder(code, t) != OP_END && code[RepeatOpcode(code, t)] != OP_END
  {
    hide OpLength;
    if IsClass(code[t]) {
      HarderClass(code[t + 1 + BITMAP_SIZE]);
    } else {
      HarderRun(code[t]);
    }
  }

  lemma HarderClass(c: byte)
    requires IsClassRepeat(c) && Yielding(c - OP_CRSTAR)
    ensures OpLength(OP_CRSTAR + PossessiveOf(true, c - OP_CRSTAR)) == OpLength(c)
  {
  }

  lemma HarderRun(c: byte)
    requires IsRepeat(c) && Yielding((c - OP_STAR) % 13)
    ensures var k := (c - OP_STAR) % 13; var h := c - k + PossessiveOf(false, k);
            OP_STAR <= h <= OP_TYPEPOSUPTO && OpLength(h) == OpLength(c)
  {
    var run, k := (c - OP_STAR) / 13, (c - OP_STAR) % 13;
    var h := c - k + PossessiveOf(false, k);
    assert c == OP_STAR + 13 * run + k && h == OP_STAR + 13 * run + PossessiveOf(false, k);
    RepeatLength(run, k);
    RepeatLength(run, PossessiveOf(false, k));
  }

  lemma RepeatLength(run: nat, k: nat)
    requires run < 5 && k < 13
    ensures OP_STAR <= OP_STAR + 13 * run + k <= OP_TYPEPOSUPTO
    ensures OpLength(OP_STAR + 13 * run + k) == if HasCount(k) then 4 else 2
  {
    assert (13 * run + k) % 13 == k;
  }

  lemma {:induction false} WalkTo(x: Links, code: seq<byte>, a: nat, it: Item, o: nat)
    requires LayItem(x, code, a, it) && o in Offsets(it, a)
    ensures Walks(code, a, o)
    decreases it
  {
    hide LayItem, LayAlts, AltsOffsets, Size, Walks, OpLength;
    match it
    case Group(bra, num, alts, ket) =>
      OpenGroup(x, code, a, bra, num, alts, ket);
      if o == a {
        WalksNowhere(code, a);
      } else {
        BracketWalks(x, code, a, bra, num, ket);
        if o in AltsOffsets(alts, a + BraSize(bra)) {
          WalkToAlts(x, code, a, a + BraSize(bra), alts, a, ket, o);
        } else {
          WalkToKet(x, code, a, a + BraSize(bra), alts, a, ket);
        }
        Walk.WalkOn(code, a, a + BraSize(bra), o);
      }
    case Zero(op, g) =>
      OpenZero(x, code, a, op, g);
      if o == a {
        WalksNowhere(code, a);
      } else {
        ZeroWalks(x, code, a, op);
        WalkTo(x, code, a + 1, g, o);
        Walk.WalkOn(code, a, a + 1, o);
      }
    case _ => WalksNowhere(code, a);
  }

  lemma WalksNowhere(code: seq<byte>, a: nat)
    ensures Walks(code, a, a)
  {
  }

  lemma BracketWalks(x: Links, code: seq<byte>, a: nat, bra: byte, num: nat, ket: byte)
    requires LayBra(x, code, a, bra, num, ket)
    ensures Walks(code, a, a + BraSize(bra))
  {
    WalkOne(code, a, a + BraSize(bra));
  }

  lemma ZeroWalks(x: Links, code: seq<byte>, a: nat, op: byte)
    requires ZeroOk(x, op) && a < |code| && code[a] == op
    ensures Walks(code, a, a + 1)
  {
    WalkOne(code, a, a + 1);
  }

  lemma LinkWalks(code: seq<byte>, e: nat)
    requires e + 3 <= |code| && (code[e] == OP_ALT || IsAnyKet(code[e]))
    ensures Walks(code, e, e + 3)
  {
    WalkOne(code, e, e + 3);
  }

  lemma {:induction false} WalkToBranch(x: Links, code: seq<byte>, a: nat, b: Branch, o: nat)
    requires LayBranch(x, code, a, b) && o in BranchOffsets(b, a)
    ensures Walks(code, a, o)
    decreases b
  {
    hide LayItem, LayBranch, Offsets, Size, Walks, OpLength;
    OpenBranch(x, code, a, b.head, b.tail);
    if o in Offsets(b.head, a) {
      WalkTo(x, code, a, b.head, o);
    } else {
      Walk.WalkItem(x, code, a, b.head);
      WalkToBranch(x, code, a + Size(b.head), b.tail, o);
      Walk.WalkOn(code, a, a + Size(b.head), o);
    }
  }

  lemma {:induction false} WalkToAlts(x: Links, code: seq<byte>, h: nat, st: nat, alts: Alts, bra: nat, ket: byte,
                                      o: nat)
    requires LayAlts(x, code, h, st, alts, bra, ket) && o in AltsOffsets(alts, st)
    ensures Walks(code, st, o)
    decreases alts
  {
    hide LayBranch, LayAlts, BranchOffsets, BranchSize, Walks, OpLength;
    var e := st + BranchSize(alts.b);
    match alts
    case Last(b) =>
      OpenLast(x, code, h, st, b, e, bra, ket);
      WalkToBranch(x, code, st, b, o);
    case More(b, rest) =>
      OpenMore(x, code, h, st, b, e, rest, bra, ket);
      if o in BranchOffsets(b, st) {
        WalkToBranch(x, code, st, b, o);
      } else {
        Walk.WalkBranch(x, code, st, b);
        if o != e {
          LinkWalks(code, e);
          WalkToAlts(x, code, e, e + 3, rest, bra, ket, o);
          Walk.WalkOn(code, e, e + 3, o);
          Walk.WalkOn(code, st, e, o);
        }
      }
  }

  lemma {:induction false} WalkToKet(x: Links, code: seq<byte>, h: nat, st: nat, alts: Alts, bra: nat, ket: byte)
    requires LayAlts(x, code, h, st, alts, bra, ket)
    ensures Walks(code, st, st + AltsSize(alts))
    decreases alts
  {
    hide LayBranch, LayAlts, BranchSize, AltsSize, Walks, OpLength;
    var e := st + BranchSize(alts.b);
    match alts
    case Last(b) =>
      OpenLast(x, code, h, st, b, e, bra, ket);
      Walk.WalkBranch(x, code, st, b);
    case More(b, rest) =>
      OpenMore(x, code, h, st, b, e, rest, bra, ket);
      Walk.WalkBranch(x, code, st, b);
      LinkWalks(code, e);
      WalkToKet(x, code, e, e + 3, rest, bra, ket);
      Walk.WalkOn(code, e, e + 3, e + 3 + AltsSize(rest));
      Walk.WalkOn(code, st, e, e + 3 + AltsSize(rest));
  }

  /** The instructions that lie before the next place are those before this one and the
    * one that is here. */
  lemma NoneBetween(x: PlainLinks, code: seq<byte>, root: Item, i: nat, o: nat)
    requires IsProgram(x, code, root) && o in Offsets(root, 0) && Walks(code, 0, i) && i < |code|
    ensures i < o ==> code[i] != OP_END && i + OpLength(code[i]) <= o
  {
    hide IsProgram, LayItem, Offsets, OpLength, Walks;
    RootLaid(x, code, root);
    WalkTo(x, code, 0, root, o);
    if i < o {
      WalksOrder(code, 0, i, o);
      WalkStep(code, i, o);
    }
  }

  lemma WalkStep(code: seq<byte>, i: nat, o: nat)
    requires Walks(code, i, o) && i < o
    ensures i < |code| && code[i] != OP_END
  {
  }

  lemma RootLaid(x: PlainLinks, code: seq<byte>, root: Item)
    requires IsProgram(x, code, root)
    ensures LayItem(x, code, 0, root)
  {
  }
}
