/** Making room in front of emitted code: the calls inside it are adjusted, it moves
  * up, and the list of forward references follows.
  */
module Moving {
  import opened Opcodes
  import opened Tree
  import opened Meaning
  import opened Expansion
  import opened Program
  import opened Walk
  import opened Relocation
  import opened Emission
  import opened CodeBuffer
  import opened Items

  // ---------- finding the calls ----------

  /** No call among the instructions of a walk from p to q. */
  ghost predicate NoCalls(code: seq<byte>, p: nat, q: nat) {
    q <= |code| && forall k: nat {:trigger Walks(code, p, k)} :: k < q && Walks(code, p, k) ==> code[k] != OP_RECURSE
  }

  lemma NoCallsStep(code: seq<byte>, p: nat, i: nat)
    requires NoCalls(code, p, i) && Walks(code, p, i) && i < |code| && code[i] != OP_RECURSE && code[i] != OP_END
    requires OpLength(code[i]) > 0 && i + OpLength(code[i]) <= |code|
    ensures NoCalls(code, p, i + OpLength(code[i]))
  {
    forall k: nat | k < i + OpLength(code[i]) && Walks(code, p, k) ensures code[k] != OP_RECURSE {
      if k > i {
        WalksOrder(code, p, i, k);
      }
    }
  }

  /** The first call at or after offset p, up to the OP_END behind the code. */
  method FindRecurse(cd: Compiler, p: nat) returns (r: Option<nat>)
    requires cd.Valid() && p <= cd.end < cd.buf.Length && cd.buf[cd.end] == OP_END && Walks(cd.code, p, cd.end)
    ensures NextCall(cd.code, p, r)
  {
    var i := p;
    while cd.buf[i] != OP_END
      invariant p <= i <= cd.end && Walks(cd.code, p, i) && Walks(cd.code, i, cd.end) && NoCalls(cd.code, p, i)
      decreases cd.end - i
    {
      var c := cd.buf[i];
      assert i < cd.end ==> c == cd.code[i];
      if c == OP_RECURSE {
        return Some(i);
      }
      NoCallsStep(cd.code, p, i);
      WalkOne(cd.code, i, i + OpLength(c));
      WalkOn(cd.code, p, i, i + OpLength(c));
      i := i + OpLength(c);
    }
    return None;
  }

  // ---------- adjusting them ----------

  /** The instructions of a walk from g to p are adjusted, the others untouched. */
  ghost predicate AdjustedTo(x: Links, code: seq<byte>, code': seq<byte>, g: nat, p: nat, d: nat) {
    && |code'| == |code| && g <= p <= |code| && Walks(code, g, p)
    && (forall j :: 0 <= j < |code| && (j < g || j >= p) ==> code'[j] == code[j])
    && AdjustedFrom(x, code, code', g, p, d)
  }

  lemma AdjustSkip(x: Links, code: seq<byte>, code': seq<byte>, g: nat, p: nat, q: nat, d: nat)
    requires AdjustedTo(x, code, code', g, p, d) && p <= q <= |code| && Walks(code, p, q) && NoCalls(code, p, q)
    ensures AdjustedTo(x, code, code', g, q, d)
  {
    WalkOn(code, g, p, q);
    forall i: nat | i < q && Walks(code, g, i) ensures AdjustedAt(x, code, code', i, g, d) {
      if i >= p {
        WalksOrder(code, g, p, i);
        assert code[i] != OP_RECURSE;
      }
    }
  }

  lemma AdjustOne(x: Links, code: seq<byte>, code': seq<byte>, code'': seq<byte>, g: nat, p: nat, d: nat)
    requires AdjustedTo(x, code, code', g, p, d) && p + 3 <= |code| && code[p] == OP_RECURSE
    requires if p + 1 in x.forward then code'' == code'
             else code'' == Put(code', p + 1, Adjusted(Get(code, p + 1), g, d))
    ensures AdjustedTo(x, code, code'', g, p + 3, d)
  {
    WalkOne(code, p, p + 3);
    WalkOn(code, g, p, p + 3);
    forall i: nat | i < p + 3 && Walks(code, g, i) ensures AdjustedAt(x, code, code'', i, g, d) {
      if i < p {
        WalksOrder(code, g, i, p);
        assert AdjustedAt(x, code, code', i, g, d);
      } else if i > p {
        WalksOrder(code, g, p, i);
      }
    }
  }

  lemma AdjustedWalk(x: Links, code: seq<byte>, code': seq<byte>, g: nat, p: nat, d: nat)
    requires AdjustedTo(x, code, code', g, p + 3, d) && Walks(code, p, |code|) && code[p] == OP_RECURSE
    ensures Walks(code', p + 3, |code|)
  {
    WalkFrame(code, code', p + 3, |code|);
  }

  /** Is the operand at offset o among the list entries from base on? */
  method Listed(hwm: seq<nat>, base: nat, o: nat) returns (r: bool)
    requires base <= |hwm|
    ensures r <==> o in hwm[base..]
  {
    var i := base;
    while i < |hwm|
      invariant base <= i <= |hwm| && o !in hwm[base..i]
    {
      if hwm[i] == o {
        return true;
      }
      assert hwm[base..i + 1] == hwm[base..i] + [hwm[i]];
      i := i + 1;
    }
    assert hwm[base..i] == hwm[base..];
    return false;
  }

  /** The list once the entries from base on have been moved by d. */
  function Shift(hwm: seq<nat>, base: nat, d: nat): (r: seq<nat>)
    requires base <= |hwm|
    ensures |r| == |hwm| && forall i :: 0 <= i < |hwm| ==> r[i] == if i < base then hwm[i] else hwm[i] + d
  {
    seq(|hwm|, i requires 0 <= i < |hwm| => if i < base then hwm[i] else hwm[i] + d)
  }

  /** Adjust the call at p, unless its operand is still a group number. */
  method AdjustCall(cd: Compiler, g: nat, d: nat, base: nat, p: nat, ghost code0: seq<byte>)
    requires cd.Valid() && g <= p && p + 3 <= cd.end && |code0| == |cd.code| && code0[p] == OP_RECURSE
    requires AdjustedTo(cd.x, code0, cd.code, g, p, d) && base <= |cd.hwm|
    requires forall o: nat :: o >= g ==> (o in cd.x.forward <==> o in cd.hwm[base..])
    modifies cd`code, cd.buf
    ensures cd.Valid() && |cd.code| == |code0| && AdjustedTo(cd.x, code0, cd.code, g, p + 3, d)
    ensures forall k :: cd.end <= k < cd.buf.Length ==> cd.buf[k] == old(cd.buf[k])
  {
    ghost var before := cd.code;
    hide AdjustedTo;
    var listed := Listed(cd.hwm, base, p + 1);
    var offset := cd.LinkAt(p + 1);
    Untouched(cd.x, code0, before, g, p, d);
    if !listed {
      cd.SetLink(p + 1, Adjusted(offset, g, d));
    }
    AdjustOne(cd.x, code0, before, cd.code, g, p, d);
  }

  /** Adjust every call from g on for a move of that code by d, and the entries
    * of the forward reference list from base on. */
  method AdjustRecurse(cd: Compiler, g: nat, d: nat, base: nat)
    requires cd.Valid() && g <= cd.end < cd.buf.Length && Walks(cd.code, g, cd.end) && cd.buf[cd.end] == OP_END
    requires base <= |cd.hwm|
    requires forall o: nat :: o >= g ==> (o in cd.x.forward <==> o in cd.hwm[base..])
    modifies cd`code, cd`hwm, cd.buf
    ensures cd.Valid() && AdjustedTo(cd.x, old(cd.code), cd.code, g, cd.end, d)
    ensures cd.hwm == Shift(old(cd.hwm), base, d)
  {
    ghost var code0 := cd.code;
    AdjustNone(cd.x, code0, g, d);
    hide AdjustedTo, NoCalls, Walks;
    var ptr := g;
    var r := FindRecurse(cd, ptr);
    while r.Some?
      invariant cd.Valid() && cd.buf[cd.end] == OP_END && |cd.code| == |code0| && cd.hwm == old(cd.hwm)
      invariant AdjustedTo(cd.x, code0, cd.code, g, ptr, d) && ptr <= cd.end
      invariant NextCall(code0, ptr, r)
      decreases cd.end - ptr
    {
      AdjustSkip(cd.x, code0, cd.code, g, ptr, r.value, d);
      AdjustCall(cd, g, d, base, r.value, code0);
      ptr := r.value + 3;
      AdjustedWalk(cd.x, code0, cd.code, g, r.value, d);
      r := FindRecurse(cd, ptr);
      SameCalls(cd.x, code0, cd.code, g, ptr, r, d);
    }
    AdjustSkip(cd.x, code0, cd.code, g, ptr, cd.end, d);
    AdjustList(cd, d, base);
  }

  /** What the search for the next call has found. */
  ghost predicate NextCall(code: seq<byte>, p: nat, r: Option<nat>) {
    && p <= |code|
    && match r
       case None => Walks(code, p, |code|) && NoCalls(code, p, |code|)
       case Some(i) =>
         && p <= i && i + 3 <= |code| && code[i] == OP_RECURSE
         && Walks(code, p, i) && NoCalls(code, p, i) && Walks(code, i, |code|)
  }

  method AdjustList(cd: Compiler, d: nat, base: nat)
    requires base <= |cd.hwm|
    modifies cd`hwm
    ensures cd.hwm == Shift(old(cd.hwm), base, d)
  {
    var hc := base;
    while hc < |cd.hwm|
      invariant base <= hc <= |cd.hwm| == |old(cd.hwm)|
      invariant forall i ::
                0 <= i < |cd.hwm| ==> cd.hwm[i] == if base <= i < hc then old(cd.hwm)[i] + d else old(cd.hwm)[i]
    {
      cd.hwm := cd.hwm[hc := cd.hwm[hc] + d];
      hc := hc + 1;
    }
  }

  lemma AdjustNone(x: Links, code: seq<byte>, g: nat, d: nat)
    requires g <= |code|
    ensures AdjustedTo(x, code, code, g, g, d)
  {
    forall i: nat | Walks(code, g, i) ensures g <= i {
      WalksEnd(code, g, i);
    }
  }

  lemma Untouched(x: Links, code: seq<byte>, code': seq<byte>, g: nat, p: nat, d: nat)
    requires AdjustedTo(x, code, code', g, p, d) && p + 3 <= |code|
    ensures Get(code', p + 1) == Get(code, p + 1)
  {
  }

  /** Code that has not been reached yet is walked in the same way. */
  lemma SameCalls(x: Links, code: seq<byte>, code': seq<byte>, g: nat, p: nat, r: Option<nat>, d: nat)
    requires AdjustedTo(x, code, code', g, p, d) && NextCall(code', p, r)
    ensures NextCall(code, p, r)
  {
    var q := if r.Some? then r.value else |code|;
    WalkFrame(code', code, p, q);
    WalkFrame(code', code, q, |code|);
    forall k: nat | k < q && Walks(code, p, k) ensures code[k] != OP_RECURSE {
      WalksEnd(code, p, k);
      WalkFrame(code, code', p, k);
    }
  }

  // ---------- moving the group ----------

  function Plus(r: Option<nat>, d: nat): Option<nat> {
    if r.Some? then Some(r.value + d) else None
  }

  lemma {:induction false} OffsetShift(it: Item, a: nat, d: nat, num: nat)
    ensures FindOffset(it, a + d, num) == Plus(FindOffset(it, a, num), d)
    decreases it
  {
    match it
    case Group(bra, n, alts, _) => OffsetShiftAlts(alts, a + BraSize(bra), d, num);
    case Zero(_, g) => OffsetShift(g, a + 1, d, num);
    case _ =>
  }

  lemma {:induction false} OffsetShiftBranch(b: Branch, a: nat, d: nat, num: nat)
    ensures FindOffsetInBranch(b, a + d, num) == Plus(FindOffsetInBranch(b, a, num), d)
    decreases b
  {
    if b.Cons? {
      OffsetShift(b.head, a, d, num);
      OffsetShiftBranch(b.tail, a + Size(b.head), d, num);
    }
  }

  lemma {:induction false} OffsetShiftAlts(alts: Alts, a: nat, d: nat, num: nat)
    ensures FindOffsetInAlts(alts, a + d, num) == Plus(FindOffsetInAlts(alts, a, num), d)
    decreases alts
  {
    OffsetShiftBranch(alts.b, a, d, num);
    if alts.More? {
      OffsetShiftAlts(alts.rest, a + BranchSize(alts.b) + 3, d, num);
    }
  }

  /** Offsets from g on move up by d. */
  function Up(o: nat, g: nat, d: nat): nat {
    if o >= g then o + d else o
  }

  ghost function ShiftLinks(x: Links, g: nat, d: nat): Links {
    Links(map n | n in x.target :: Up(x.target[n], g, d), set o | o in x.forward :: Up(o, g, d), x.atomic)
  }

  /** A header that a walk passes without meeting a numbered bracket. */
  predicate Passive(header: seq<byte>) {
    || (|header| == 1 && IsAnyZero(header[0]))
    || (|header| == 3 && header[0] == OP_ONCE)
    || (|header| == 4 && IsAnyZero(header[0]) && header[1] == OP_BRA)
  }

  lemma PassiveMeets(code: seq<byte>, header: seq<byte>)
    requires Passive(header)
    ensures Meets(code + header, |code|, |code + header|, _ => None)
  {
    var t, a := code + header, |code|;
    assert t[a] == header[0];
    MeetsNone(t, a, if |header| == 3 then a + 3 else a + 1);
    if |header| == 4 {
      assert t[a + 1] == header[1];
      MeetsNone(t, a + 1, a + 4);
      MeetsThen(t, a, a + 1, a + 4, _ => None, _ => None, _ => None);
    }
  }

  /** The state with only the header appended. */
  function WithHeader(s: State, header: seq<byte>): State {
    State(s.code + header, s.hwm, s.x)
  }

  lemma HeaderGood(s: State, header: seq<byte>)
    requires Good(s) && Passive(header)
    ensures Good(WithHeader(s, header))
  {
    PassiveMeets(s.code, header);
    hide Meets;
    GoodAfter(s, WithHeader(s, header), _ => None);
  }

  /** One item's worth of emission, in terms of the item. */
  lemma EmittedItem(s: State, t: State, it: Item)
    requires Emitted(s, t, Cons(it, Nil))
    ensures Good(s) && Good(t) && Grown(s, t) && LayItem(t.x, t.code, |s.code|, it) && |t.code| == |s.code| + Size(it)
    ensures forall o: nat :: o in t.x.forward && o >= |s.code| ==> o in Operands(it, |s.code|)
    ensures forall num: nat | num > 0 :: Target(t.x, num) == Either(Target(s.x, num), FindOffset(it, |s.code|, num))
  {
    forall num: nat | num > 0 ensures Target(t.x, num) == Either(Target(s.x, num), FindOffset(it, |s.code|, num)) {
      TargetsAfter(s, t, Cons(it, Nil), num);
      assert FindOffsetInBranch(Nil, |s.code| + Size(it), num).None?;
    }
    hide Meets, LayItem, Size;
    OneOperands(it, |s.code|);
    OpenBranch(t.x, t.code, |s.code|, it, Nil);
    assert BranchSize(Nil) == 0;
  }

  /** And the other way round. */
  lemma MakeEmitted(s: State, t: State, it: Item)
    requires Good(s) && Grown(s, t) && ListOk(t) && Target(t.x, 0) == Some(0)
    requires LayItem(t.x, t.code, |s.code|, it) && |t.code| == |s.code| + Size(it)
    requires forall o: nat :: o in t.x.forward && o >= |s.code| ==> o in Operands(it, |s.code|)
    requires forall num: nat | num > 0 :: Target(t.x, num) == Either(Target(s.x, num), FindOffset(it, |s.code|, num))
    ensures Emitted(s, t, Cons(it, Nil))
  {
    WalkItem(t.x, t.code, |s.code|, it);
    hide Meets, LayItem, LayBranch, Size, BranchSize;
    OneLaid(t.x, t.code, |s.code|, it);
    OneOperands(it, |s.code|);
    GoodAfter(s, t, num => FindOffset(it, |s.code|, num));
  }

  /** The same for any emission. */
  lemma EmittedBranch(s: State, t: State, b: Branch)
    requires Emitted(s, t, b)
    ensures Good(s) && Good(t) && Grown(s, t) && LayBranch(t.x, t.code, |s.code|, b)
    ensures |t.code| == |s.code| + BranchSize(b)
    ensures forall o: nat :: o in t.x.forward && o >= |s.code| ==> o in OperandsInBranch(b, |s.code|)
    ensures forall num: nat | num > 0 ::
              Target(t.x, num) == Either(Target(s.x, num), FindOffsetInBranch(b, |s.code|, num))
  {
    forall num: nat | num > 0
      ensures Target(t.x, num) == Either(Target(s.x, num), FindOffsetInBranch(b, |s.code|, num))
    {
      TargetsAfter(s, t, b, num);
    }
  }

  lemma MakeEmittedBranch(s: State, t: State, b: Branch)
    requires Good(s) && Grown(s, t) && ListOk(t) && Target(t.x, 0) == Some(0)
    requires LayBranch(t.x, t.code, |s.code|, b) && |t.code| == |s.code| + BranchSize(b)
    requires forall o: nat :: o in t.x.forward && o >= |s.code| ==> o in OperandsInBranch(b, |s.code|)
    requires forall num: nat | num > 0 ::
              Target(t.x, num) == Either(Target(s.x, num), FindOffsetInBranch(b, |s.code|, num))
    ensures Emitted(s, t, b)
  {
    hide Meets, LayBranch, BranchSize, Good, ListOk, OperandsInBranch, FindOffsetInBranch, WithHeader;
    WalkBranch(t.x, t.code, |s.code|, b);
    AtomicKind(s);
    GoodAfter(s, t, num => FindOffsetInBranch(b, |s.code|, num));
  }

  lemma AdjustedAll(x: Links, code: seq<byte>, code': seq<byte>, g: nat, d: nat)
    requires AdjustedTo(x, code, code', g, |code|, d)
    ensures AdjustedFrom(x, code, code', g, |code|, d) && |code'| == |code| && Walks(code, g, g)
  {
  }

  lemma TargetsBelow(x: Links, e: nat, d: nat)
    requires forall n :: n in x.target && n > 0 ==> x.target[n] + 5 <= e
    requires Target(x, 0) == Some(0) && e > 0 && e + d <= 65536
    ensures forall n :: n in x.target ==> x.target[n] + d < 65536
  {
  }

  lemma ShiftedTargets(x: Links, g: nat, d: nat)
    requires forall n :: n in x.target ==> x.target[n] + d < 65536
    ensures AdjustedLinks(x, ShiftLinks(x, g, d).(forward := x.forward), g, d)
  {
  }

  lemma ShiftedMoved(x: Links, code1: seq<byte>, header: seq<byte>, a: nat)
    requires a <= |code1|
    ensures var y := ShiftLinks(x, a, |header|);
            Moved(y.(forward := x.forward), code1, y, code1[..a] + header + code1[a..], a, |code1|, |header|)
  {
    var d, y := |header|, ShiftLinks(x, a, |header|);
    forall o: nat | a + d <= o < |code1| + d ensures o in y.forward <==> o - d in x.forward {
      if o - d in x.forward {
        assert Up(o - d, a, d) == o;
      }
    }
  }

  lemma MovedBranchLaid(s: State, t: State, code1: seq<byte>, header: seq<byte>, t': State, b: Branch)
    requires LayBranch(t.x, t.code, |s.code|, b) && |t.code| == |s.code| + BranchSize(b)
    requires AdjustedTo(t.x, t.code, code1, |s.code|, |t.code|, |header|) && |t.code| + |header| <= 65536
    requires forall n :: n in t.x.target && n > 0 ==> t.x.target[n] + 5 <= |t.code|
    requires Target(t.x, 0) == Some(0) && |t.code| > 0
    requires t'.code == code1[..|s.code|] + header + code1[|s.code|..] && t'.x == ShiftLinks(t.x, |s.code|, |header|)
    ensures LayBranch(t'.x, t'.code, |s.code| + |header|, b)
  {
    hide LayBranch, BranchSize, AdjustedTo, AdjustedFrom, AdjustedLinks, Moved, Walks, ShiftLinks;
    var a, e, d := |s.code|, |t.code|, |header|;
    var y := t'.x.(forward := t.x.forward);
    AdjustedAll(t.x, t.code, code1, a, d);
    TargetsBelow(t.x, e, d);
    ShiftedTargets(t.x, a, d);
    AdjustBranch(t.x, t.code, y, code1, a, b, a, e, d);
    ShiftedMoved(t.x, code1, header, a);
    RelocateBranch(y, code1, t'.x, t'.code, a, e, d, b);
  }

  lemma MovedList(s: State, t: State, d: nat, t': State)
    requires ListOk(t) && Grown(s, t) && ListOk(s) && |t'.code| == |t.code| + d
    requires t'.hwm == Shift(t.hwm, |s.hwm|, d) && t'.x == ShiftLinks(t.x, |s.code|, d)
    ensures ListOk(t')
  {
    var a := |s.code|;
    forall i | 0 <= i < |t.hwm| ensures t'.hwm[i] == Up(t.hwm[i], a, d) {
      if i < |s.hwm| {
        assert t.hwm[i] == s.hwm[i] && s.hwm[i] + 2 <= a;
      }
    }
    forall o ensures o in t'.x.forward <==> o in t'.hwm {
      if o in t'.x.forward {
        var p :| p in t.x.forward && o == Up(p, a, d);
        var i :| 0 <= i < |t.hwm| && t.hwm[i] == p;
        assert t'.hwm[i] == o;
      }
      if o in t'.hwm {
        var i :| 0 <= i < |t'.hwm| && t'.hwm[i] == o;
        assert t.hwm[i] in t.x.forward;
      }
    }
  }

  lemma TargetsInside(s: State)
    requires Good(s)
    ensures forall n :: n in s.x.target && n > 0 ==> s.x.target[n] + 5 <= |s.code|
  {
    forall n | n in s.x.target && n > 0 ensures s.x.target[n] + 5 <= |s.code| {
      assert FirstIn(s.code, 0, |s.code|, n) == Target(s.x, n);
    }
  }

  /** After the adjustment and the move, the state is as if the header had been
    * emitted first and the code behind it. */
  lemma GroupMoved(s: State, t: State, code1: seq<byte>, header: seq<byte>, t': State, b: Branch)
    requires Emitted(s, t, b) && |s.code| > 0 && Passive(header)
    requires AdjustedTo(t.x, t.code, code1, |s.code|, |t.code|, |header|) && |t.code| + |header| <= 65536
    requires t'.code == code1[..|s.code|] + header + code1[|s.code|..]
    requires t'.hwm == Shift(t.hwm, |s.hwm|, |header|) && t'.x == ShiftLinks(t.x, |s.code|, |header|)
    ensures Emitted(WithHeader(s, header), t', b)
  {
    hide Good, Emitted, LayBranch, BranchSize, AdjustedTo, Grown, ListOk, ShiftLinks, Passive;
    var a, d, t0 := |s.code|, |header|, WithHeader(s, header);
    EmittedBranch(s, t, b);
    TargetsInside(s);
    TargetsInside(t);
    GoodParts(s);
    GoodParts(t);
    HeaderGood(s, header);
    MovedBranchLaid(s, t, code1, header, t', b);
    MovedGrown(s, t, code1, header, t');
    MovedList(s, t, d, t');
    MovedOperands(t.x, a, d, b);
    MovedTargets(s, t, d, b);
    MovedRoot(t.x, a, d);
    MakeEmittedBranch(t0, t', b);
  }

  lemma MovedRoot(x: Links, a: nat, d: nat)
    requires Target(x, 0) == Some(0) && a > 0
    ensures Target(ShiftLinks(x, a, d), 0) == Some(0)
  {
  }

  lemma MovedGrown(s: State, t: State, code1: seq<byte>, header: seq<byte>, t': State)
    requires Grown(s, t) && AdjustedTo(t.x, t.code, code1, |s.code|, |t.code|, |header|)
    requires t'.code == code1[..|s.code|] + header + code1[|s.code|..]
    requires t'.hwm == Shift(t.hwm, |s.hwm|, |header|) && t'.x == ShiftLinks(t.x, |s.code|, |header|)
    requires forall n :: n in s.x.target && n > 0 ==> s.x.target[n] + 5 <= |s.code|
    requires |s.code| > 0 && Target(s.x, 0) == Some(0)
    ensures Grown(WithHeader(s, header), t') && |t'.code| == |t.code| + |header|
  {
    hide AdjustedFrom, Walks;
    assert t'.code[..|s.code|] == code1[..|s.code|] == t.code[..|s.code|] == s.code;
  }

  lemma MovedOperands(x: Links, a: nat, d: nat, b: Branch)
    requires forall o: nat :: o in x.forward && o >= a ==> o in OperandsInBranch(b, a)
    ensures forall o: nat :: o in ShiftLinks(x, a, d).forward && o >= a + d ==> o in OperandsInBranch(b, a + d)
  {
    forall o: nat | o in ShiftLinks(x, a, d).forward && o >= a + d ensures o in OperandsInBranch(b, a + d) {
      var p :| p in x.forward && o == Up(p, a, d);
      OperandMovesBranch(b, a, a + d, p);
    }
  }

  lemma MovedTargets(s: State, t: State, d: nat, b: Branch)
    requires forall n :: n in s.x.target && n > 0 ==> s.x.target[n] + 5 <= |s.code|
    requires forall num: nat | num > 0 ::
              Target(t.x, num) == Either(Target(s.x, num), FindOffsetInBranch(b, |s.code|, num))
    ensures forall num: nat | num > 0 ::
              Target(ShiftLinks(t.x, |s.code|, d), num)
              == Either(Target(s.x, num), FindOffsetInBranch(b, |s.code| + d, num))
  {
    var a := |s.code|;
    forall num: nat | num > 0
      ensures Target(ShiftLinks(t.x, a, d), num) == Either(Target(s.x, num), FindOffsetInBranch(b, a + d, num))
    {
      OffsetShiftBranch(b, a, d, num);
      FoundFrom(b, a, num);
      assert Target(t.x, num) == Either(Target(s.x, num), FindOffsetInBranch(b, a, num));
    }
  }

  lemma FoundFrom(b: Branch, a: nat, num: nat)
    ensures FindOffsetInBranch(b, a, num).Some? ==> FindOffsetInBranch(b, a, num).value >= a
  {
    if FindOffsetInBranch(b, a, num).Some? {
      OffsetShiftBranch(b, 0, a, num);
    }
  }

  /** Make room for the header in front of what was emitted from previous on, and
    * fill it. */
  method InsertBefore(cd: Compiler, previous: nat, header: seq<byte>, base: nat, ghost s: State, ghost b: Branch)
    requires cd.Valid() && Emitted(s, Now(cd), b) && previous == |s.code| > 0 && base == |s.hwm|
    requires Passive(header) && cd.end + |header| < cd.buf.Length
    modifies cd, cd.buf
    ensures cd.Valid() && Emitted(WithHeader(s, header), Now(cd), b)
  {
    ghost var t := Now(cd);
    EmittedWalk(s, t, b);
    hide Emitted, Walks;
    cd.Terminate();
    AdjustRecurse(cd, previous, |header|, base);
    ghost var code1 := cd.code;
    cd.MoveUp(previous, header);
    cd.x := ShiftLinks(cd.x, previous, |header|);
    GroupMoved(s, t, code1, header, Now(cd), b);
  }

  lemma EmittedWalk(s: State, t: State, b: Branch)
    requires Emitted(s, t, b)
    ensures |s.code| <= |t.code| && |s.hwm| <= |t.hwm| && Walks(t.code, |s.code|, |t.code|)
    ensures forall o: nat :: o >= |s.code| ==> (o in t.x.forward <==> o in t.hwm[|s.hwm|..])
  {
    hide Good, Emitted, LayBranch, BranchSize, ListOk, Walks;
    EmittedBranch(s, t, b);
    GoodParts(s);
    GoodParts(t);
    BranchWalks(t.x, t.code, |s.code|, b);
    ListedBehind(s, t);
  }

  lemma BranchWalks(x: Links, code: seq<byte>, a: nat, b: Branch)
    requires LayBranch(x, code, a, b)
    ensures Walks(code, a, a + BranchSize(b))
  {
    WalkBranch(x, code, a, b);
  }

  lemma ListedBehind(s: State, t: State)
    requires ListOk(s) && ListOk(t) && Grown(s, t)
    ensures forall o: nat :: o >= |s.code| ==> (o in t.x.forward <==> o in t.hwm[|s.hwm|..])
  {
    forall o: nat | o >= |s.code| ensures o in t.x.forward <==> o in t.hwm[|s.hwm|..] {
      if o in t.x.forward {
        var i :| 0 <= i < |t.hwm| && t.hwm[i] == o;
        assert i >= |s.hwm| ==> t.hwm[|s.hwm|..][i - |s.hwm|] == o;
      }
    }
  }
}
