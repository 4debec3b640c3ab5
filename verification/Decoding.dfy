/** Decoding of the bytes: the instruction at each offset, and the proof that the
  * bytes laid out for a tree decode to the instructions of the tree.
  */
module Decoding {
  import opened Opcodes
  import opened Tree
  import opened Meaning
  import opened Machine

  // ---------- following the links of a group ----------

  /** From the header at h (a bracket or an OP_ALT) the links lead forward, header
    * by header, to an instruction that is not OP_ALT. */
  predicate ChainOk(code: seq<byte>, h: nat)
    decreases |code| - h
  {
    && h + 3 <= |code|
    && var n := h + Get(code, h + 1);
       h + 3 <= n < |code| && (code[n] == OP_ALT ==> ChainOk(code, n))
  }

  function EndOf(code: seq<byte>, h: nat): (r: nat)
    requires ChainOk(code, h)
    ensures h < r < |code|
    decreases |code| - h
  {
    var n := h + Get(code, h + 1);
    if code[n] == OP_ALT then EndOf(code, n) else n
  }

  /** The starts of the branches whose first one follows header h at st. */
  function AltStarts(code: seq<byte>, h: nat, st: nat): (r: seq<nat>)
    requires ChainOk(code, h)
    decreases |code| - h
  {
    var n := h + Get(code, h + 1);
    [st] + if code[n] == OP_ALT then AltStarts(code, n, n + 3) else []
  }

  ghost predicate AllDifferent(starts: seq<nat>) {
    forall j, k :: 0 <= j < k < |starts| ==> starts[j] != starts[k]
  }

  /** The branches of a group start at different offsets. */
  lemma {:induction false} StartsDiffer(code: seq<byte>, h: nat, st: nat)
    requires ChainOk(code, h) && st <= h + 5
    ensures AllDifferent(AltStarts(code, h, st)) && forall o :: o in AltStarts(code, h, st) ==> st <= o
    ensures |AltStarts(code, h, st)| > 0
    decreases |code| - h
  {
    hide Get;
    var n := h + Get(code, h + 1);
    if code[n] == OP_ALT {
      StartsDiffer(code, n, n + 3);
      var rest := AltStarts(code, n, n + 3);
      assert AltStarts(code, h, st) == [st] + rest;
      forall j, k | 0 <= j < k < |rest| + 1 ensures ([st] + rest)[j] != ([st] + rest)[k] {
        assert rest[k - 1] in rest;
      }
    }
  }

  /** Follow the links from a header to the end of the group. */
  method SkipBranches(code: seq<byte>, h: nat) returns (end: nat)
    requires ChainOk(code, h)
    ensures h < end < |code| && end == EndOf(code, h)
  {
    end := h + Get(code, h + 1);
    while code[end] == OP_ALT
      invariant h < end < |code|
      invariant if code[end] == OP_ALT then ChainOk(code, end) && EndOf(code, h) == EndOf(code, end)
                else end == EndOf(code, h)
      decreases |code| - end
    {
      end := end + Get(code, end + 1);
    }
  }

  // ---------- decoding ----------

  function DecodeAtomRep(code: seq<byte>, o: nat): Instr
    requires o < |code| && IsRepeat(code[o])
  {
    var k := (code[o] - OP_STAR) % 13;
    var run := (code[o] - OP_STAR) / 13;
    var len := if HasCount(k) then 4 else 2;
    if o + len > |code| then IBad else
      var hi := if HasCount(k) then Get(code, o + 1) else 0;
      var arg := code[o + len - 1];
      var atom := if run == 4 then Type(arg) else Chr(OP_CHAR + run, arg);
      if !RepOk(atom, k, 0, hi) then IBad
      else IRep(atom, RepMin(atom, k, 0, hi), RepMax(atom, k, 0, hi), RepPoss(atom, k), o + len)
  }

  function DecodeClass(code: seq<byte>, o: nat): Instr
    requires o < |code| && IsClass(code[o])
  {
    var e := o + 1 + BITMAP_SIZE;
    if e >= |code| then IBad else
      var atom := Cls(code[o], code[o + 1..e]);
      if !IsClassRepeat(code[e]) then IOne(atom, e) else
        var k := code[e] - OP_CRSTAR;
        var len := if HasRange(k) then 5 else 1;
        if e + len > |code| then IBad else
          var lo := if HasRange(k) then Get(code, e + 1) else 0;
          var hi := if HasRange(k) then Get(code, e + 3) else 0;
          if !RepOk(atom, k, lo, hi) then IBad
          else IRep(atom, RepMin(atom, k, lo, hi), RepMax(atom, k, lo, hi), RepPoss(atom, k), e + len)
  }

  function DecodeCall(code: seq<byte>, o: nat): Instr {
    if o + 3 > |code| then IBad else
      var t := Get(code, o + 1);
      if t == 0 then ICall(0, 0, o + 3)
      else if t + 4 < |code| then ICall(Get(code, t + 3), t, o + 3)
      else IBad
  }

  function Decode(code: seq<byte>, o: nat): Instr {
    if o >= |code| then IBad
    else if IsAnchor(code[o]) then IAnchor(code[o], o + 1)
    else if IsSingleChar(code[o]) then (if o + 1 < |code| then IOne(Chr(code[o], code[o + 1]), o + 2) else IBad)
    else if IsType(code[o]) then IOne(Type(code[o]), o + 1)
    else if IsRepeat(code[o]) then DecodeAtomRep(code, o)
    else if IsClass(code[o]) then DecodeClass(code, o)
    else if IsBra(code[o]) then (if ChainOk(code, o) then IOpen(AltStarts(code, o, o + BraSize(code[o]))) else IBad)
    else if code[o] == OP_ALT then (if ChainOk(code, o) then IAlt(EndOf(code, o)) else IBad)
    else if IsKet(code[o]) then
      (if o + 3 <= |code| && Get(code, o + 1) <= o then
         IKet(o + 3, if code[o] == OP_KET then None else Some(o - Get(code, o + 1)))
       else IBad)
    else if IsZero(code[o]) then
      (if ChainOk(code, o + 1) then
         IZero(if code[o] == OP_SKIPZERO then None else Some(o + 1), EndOf(code, o + 1) + 3)
       else IBad)
    else if code[o] == OP_RECURSE then DecodeCall(code, o)
    else IBad
  }

  // ---------- laid-out code decodes to what the tree says ----------

  /** Every call target is the bracket of the called group. */
  ghost predicate TargetsOk(x: PlainLinks, code: seq<byte>) {
    && x.forward == {}
    && forall n :: n in x.target ==>
         if n == 0 then x.target[n] == 0
         else x.target[n] > 0 && x.target[n] + 4 < |code| && Get(code, x.target[n] + 3) == n
  }

  /** The byte at i exists and is not a class repeat, so a class that ends there is
    * a class without a repeat. */
  predicate Plain(code: seq<byte>, i: nat) {
    i < |code| && !IsClassRepeat(code[i])
  }

  lemma FirstByte(x: PlainLinks, code: seq<byte>, a: nat, it: Item)
    requires LayItem(x, code, a, it)
    ensures Plain(code, a)
  {
    if it.Rep? && !it.atom.Cls? {
      assert RepBase(it.atom) + it.k < OP_CRSTAR;
    }
  }

  lemma BranchByte(x: PlainLinks, code: seq<byte>, a: nat, b: Branch)
    requires LayBranch(x, code, a, b) && Plain(code, a + BranchSize(b))
    ensures Plain(code, a)
  {
    if b.Cons? {
      FirstByte(x, code, a, b.head);
    }
  }

  lemma DecodeRep(code: seq<byte>, a: nat, atom: Atom, k: nat, lo: nat, hi: nat)
    requires LayRep(code, a, atom, k, lo, hi)
    ensures Decode(code, a) ==
            IRep(atom, RepMin(atom, k, lo, hi), RepMax(atom, k, lo, hi), RepPoss(atom, k), a + RepSize(atom, k))
  {
    if !atom.Cls? {
      var run := if atom.Chr? then atom.op - OP_CHAR else 4;
      assert code[a] - OP_STAR == 13 * run + k;
      assert (code[a] - OP_STAR) / 13 == run && (code[a] - OP_STAR) % 13 == k;
    }
  }

  /** The instructions at the first n offsets of the code. */
  ghost function DecodedTo(code: seq<byte>, n: nat): (r: seq<Instr>)
    ensures |r| == n
  {
    if n == 0 then [] else DecodedTo(code, n - 1) + [Decode(code, n - 1)]
  }

  ghost function Decoded(code: seq<byte>): (r: seq<Instr>)
    ensures |r| == |code|
  {
    DecodedTo(code, |code|)
  }

  lemma {:induction false} DecodedToAt(code: seq<byte>, n: nat, o: nat)
    requires o < n
    ensures DecodedTo(code, n)[o] == Decode(code, o)
  {
    if o < n - 1 {
      DecodedToAt(code, n - 1, o);
    }
  }

  lemma SimpleDecodes(x: PlainLinks, code: seq<byte>, a: nat, it: Item)
    requires LayItem(x, code, a, it) && TargetsOk(x, code) && Plain(code, a + Size(it))
    requires it.Anchor? || it.One? || it.Call?
    ensures CodeItem(Decoded(code), a, it)
    ensures it.Call? ==> it.num in x.target && Decode(code, a) == ICall(it.num, x.target[it.num], a + 3)
  {
    DecodedToAt(code, |code|, a);
  }

  lemma RepDecodes(code: seq<byte>, a: nat, atom: Atom, k: nat, lo: nat, hi: nat)
    requires LayRep(code, a, atom, k, lo, hi)
    ensures CodeItem(Decoded(code), a, Rep(atom, k, lo, hi))
  {
    DecodeRep(code, a, atom, k, lo, hi);
    DecodedToAt(code, |code|, a);
  }

  /** One link: from the header at h to the next header or the ket at e. */
  lemma ChainStep(code: seq<byte>, h: nat, e: nat, st: nat)
    requires h + 3 <= e < |code| && Get(code, h + 1) == e - h
    requires code[e] == OP_ALT ==> ChainOk(code, e)
    ensures ChainOk(code, h)
    ensures EndOf(code, h) == if code[e] == OP_ALT then EndOf(code, e) else e
    ensures AltStarts(code, h, st) == [st] + if code[e] == OP_ALT then AltStarts(code, e, e + 3) else []
  {
  }

  /** What the layout of the alternatives says about its first branch. */
  lemma LayFirst(x: PlainLinks, code: seq<byte>, h: nat, st: nat, alts: Alts, bra: nat, ket: byte)
    requires LayAlts(x, code, h, st, alts, bra, ket)
    ensures var e := st + BranchSize(alts.b);
            && bra <= h && h + 3 <= st <= e && e + 3 <= |code|
            && LayBranch(x, code, st, alts.b)
            && Get(code, h + 1) == e - h
            && if alts.Last? then code[e] == ket && Get(code, e + 1) == e - bra && e == st + AltsSize(alts)
               else code[e] == OP_ALT && LayAlts(x, code, e, e + 3, alts.rest, bra, ket)
                    && st + AltsSize(alts) == e + 3 + AltsSize(alts.rest)
  {
    hide LayBranch, BranchSize;
  }

  /** Following the links from a header finds every branch and then the ket. */
  lemma {:induction false} FollowLinks(x: PlainLinks, code: seq<byte>, h: nat, st: nat, alts: Alts, bra: nat, ket: byte)
    requires LayAlts(x, code, h, st, alts, bra, ket) && IsKet(ket)
    ensures ChainOk(code, h)
    ensures EndOf(code, h) == st + AltsSize(alts)
    ensures AltStarts(code, h, st) == Starts(alts, st)
    ensures var k := st + AltsSize(alts); code[k] == ket && Get(code, k + 1) == k - bra && bra < k
    decreases alts
  {
    hide LayAlts, LayBranch, BranchSize, AltsSize, ChainOk, EndOf, AltStarts;
    var e := st + BranchSize(alts.b);
    LayFirst(x, code, h, st, alts, bra, ket);
    if alts.More? {
      FollowLinks(x, code, e, e + 3, alts.rest, bra, ket);
    }
    ChainStep(code, h, e, st);
  }

  lemma LayGroup(x: PlainLinks, code: seq<byte>, a: nat, g: Item)
    requires g.Group? && LayItem(x, code, a, g)
    ensures IsKet(g.ket) && a + Size(g) <= |code| && IsBra(code[a]) && BraSize(code[a]) == BraSize(g.bra)
    ensures LayAlts(x, code, a, a + BraSize(g.bra), g.alts, a, g.ket)
  {
    hide LayAlts;
  }

  lemma GroupLinks(x: PlainLinks, code: seq<byte>, a: nat, g: Item)
    requires g.Group? && LayItem(x, code, a, g)
    ensures var k := KetOffset(a, g);
            && ChainOk(code, a) && EndOf(code, a) == k
            && AltStarts(code, a, a + BraSize(code[a])) == Starts(g.alts, a + BraSize(g.bra))
            && k < |code| && IsBra(code[a]) && IsKet(g.ket) && code[k] == g.ket
            && k + 3 <= |code| && Get(code, k + 1) == k - a && a < k
  {
    hide LayAlts, LayItem, ChainOk, EndOf, AltStarts, Starts;
    LayGroup(x, code, a, g);
    FollowLinks(x, code, a, a + BraSize(g.bra), g.alts, a, g.ket);
    assert Size(g) == BraSize(g.bra) + AltsSize(g.alts) + 3;
  }

  lemma GroupDecodes(x: PlainLinks, code: seq<byte>, a: nat, g: Item)
    requires g.Group? && LayItem(x, code, a, g)
    ensures var ins, k := Decoded(code), KetOffset(a, g);
            && ins[a] == IOpen(Starts(g.alts, a + BraSize(g.bra)))
            && ins[k] == IKet(k + 3, if g.ket == OP_KET then None else Some(a))
    ensures ChainOk(code, a) && EndOf(code, a) == KetOffset(a, g)
  {
    hide LayItem, ChainOk, EndOf, AltStarts, Starts;
    GroupLinks(x, code, a, g);
    DecodedToAt(code, |code|, a);
    DecodedToAt(code, |code|, KetOffset(a, g));
  }

  lemma LayZero(x: PlainLinks, code: seq<byte>, a: nat, it: Item)
    requires it.Zero? && LayItem(x, code, a, it)
    ensures IsZero(it.op) && it.group.Group? && a < |code| && code[a] == it.op && LayItem(x, code, a + 1, it.group)
  {
  }

  lemma ZeroDecodes(x: PlainLinks, code: seq<byte>, a: nat, it: Item)
    requires it.Zero? && LayItem(x, code, a, it)
    ensures Decoded(code)[a] == IZero(if it.op == OP_SKIPZERO then None else Some(a + 1), a + Size(it))
  {
    hide LayItem, ChainOk, EndOf, AltStarts, Starts;
    LayZero(x, code, a, it);
    GroupLinks(x, code, a + 1, it.group);
    DecodedToAt(code, |code|, a);
  }

  lemma AltDecodes(x: PlainLinks, code: seq<byte>, h: nat, st: nat, alts: Alts, bra: nat, ket: byte)
    requires LayAlts(x, code, h, st, alts, bra, ket) && IsKet(ket) && code[h] == OP_ALT && st == h + 3
    ensures Decoded(code)[h] == IAlt(st + AltsSize(alts))
  {
    FollowLinks(x, code, h, st, alts, bra, ket);
    DecodedToAt(code, |code|, h);
  }

  lemma {:induction false} ItemDecodes(x: PlainLinks, code: seq<byte>, a: nat, it: Item)
    requires LayItem(x, code, a, it) && TargetsOk(x, code) && Plain(code, a + Size(it))
    ensures CodeItem(Decoded(code), a, it)
    decreases it
  {
    hide Decode, DecodedTo, ChainOk, EndOf, LayAlts, CodeAlts, Starts, TargetsOk, AltsSize;
    match it
    case Rep(atom, k, lo, hi) => RepDecodes(code, a, atom, k, lo, hi);
    case Group(bra, _, alts, ket) =>
      GroupDecodes(x, code, a, it);
      AltsDecode(x, code, a, a + BraSize(bra), alts, a, ket);
    case Zero(op, g) =>
      ZeroDecodes(x, code, a, it);
      ItemDecodes(x, code, a + 1, g);
    case _ => SimpleDecodes(x, code, a, it);
  }

  lemma {:induction false} BranchDecodes(x: PlainLinks, code: seq<byte>, a: nat, b: Branch)
    requires LayBranch(x, code, a, b) && TargetsOk(x, code) && Plain(code, a + BranchSize(b))
    ensures CodeBranch(Decoded(code), a, b)
    decreases b
  {
    hide LayItem, CodeItem, Decode, DecodedTo, TargetsOk;
    if b.Cons? {
      BranchByte(x, code, a + Size(b.head), b.tail);
      ItemDecodes(x, code, a, b.head);
      BranchDecodes(x, code, a + Size(b.head), b.tail);
    }
  }

  lemma {:induction false} AltsDecode(x: PlainLinks, code: seq<byte>, h: nat, st: nat, alts: Alts, bra: nat, ket: byte)
    requires LayAlts(x, code, h, st, alts, bra, ket) && IsKet(ket) && TargetsOk(x, code)
    ensures CodeAlts(Decoded(code), st, alts, st + AltsSize(alts))
    decreases alts
  {
    hide LayAlts, LayBranch, CodeBranch, Decode, DecodedTo, TargetsOk, BranchSize, AltsSize;
    LayFirst(x, code, h, st, alts, bra, ket);
    BranchDecodes(x, code, st, alts.b);
    if alts.More? {
      var e := st + BranchSize(alts.b);
      AltDecodes(x, code, e, e + 3, alts.rest, bra, ket);
      AltsDecode(x, code, e, e + 3, alts.rest, bra, ket);
    }
  }

  lemma DecodedBounds(code: seq<byte>, o: nat)
    ensures var i := Decode(code, o); i.IRep? ==> i.max == -1 || (i.max > 0 && i.min <= i.max)
  {
  }
}
