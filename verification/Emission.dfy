/** The state of the second compile pass, seen as a value: the code so far, the
  * list of forward references, and the links they stand for. The central notion
  * is that between two states exactly the code of a branch was emitted.
  */
module Emission {
  import opened Opcodes
  import opened Tree
  import opened Meaning
  import opened Pattern
  import opened Expansion
  import opened Program
  import opened Walk
  import opened Relocation

  datatype State = State(code: seq<byte>, hwm: seq<nat>, x: Links)

  /** The bracket a call of group num would be linked to. */
  function Target(x: Links, num: nat): Option<nat> {
    if num in x.target then Some(x.target[num]) else None
  }

  /** The list of forward references is in order and holds exactly the operands
    * that are still group numbers. */
  ghost predicate ListOk(s: State) {
    && (forall o :: o in s.x.forward <==> o in s.hwm)
    && (forall i, j :: 0 <= i < j < |s.hwm| ==> s.hwm[i] < s.hwm[j])
    && (forall i :: 0 <= i < |s.hwm| ==> s.hwm[i] + 2 <= |s.code|)
  }

  /** The links agree with the code: whole instructions, each known target the
    * first bracket with its number, and no bracket that is not known. */
  ghost predicate Good(s: State) {
    && Target(s.x, 0) == Some(0)
    && Meets(s.code, 0, |s.code|, num => Target(s.x, num))
    && ListOk(s) && s.x.atomic
  }

  /** What was there before is still there. */
  ghost predicate Grown(s: State, t: State) {
    && |s.code| <= |t.code| && (forall j :: 0 <= j < |s.code| ==> t.code[j] == s.code[j])
    && |s.hwm| <= |t.hwm| && (forall i :: 0 <= i < |s.hwm| ==> t.hwm[i] == s.hwm[i])
    && (forall i :: |s.hwm| <= i < |t.hwm| ==> t.hwm[i] >= |s.code|)
    && (forall n :: n in s.x.target ==> n in t.x.target && t.x.target[n] == s.x.target[n])
    && t.x.atomic == s.x.atomic
  }

  /** The state grew by exactly the code of the branch. */
  ghost predicate Emitted(s: State, t: State, b: Branch) {
    && Good(s) && Good(t) && Grown(s, t)
    && LayBranch(t.x, t.code, |s.code|, b)
    && |t.code| == |s.code| + BranchSize(b)
    && (forall o: nat :: o in t.x.forward && o >= |s.code| ==> o in OperandsInBranch(b, |s.code|))
  }

  lemma GoodParts(s: State)
    requires Good(s)
    ensures ListOk(s) && Target(s.x, 0) == Some(0)
  {
  }

  lemma EmittedGood(s: State, t: State, b: Branch)
    requires Emitted(s, t, b)
    ensures Good(s) && Good(t) && |t.code| == |s.code| + BranchSize(b)
  {
  }

  lemma EmittedLaid(s: State, t: State, b: Branch)
    requires Emitted(s, t, b)
    ensures Good(s) && Good(t) && LayBranch(t.x, t.code, |s.code|, b) && |t.code| == |s.code| + BranchSize(b)
    ensures forall j :: 0 <= j < |s.code| ==> t.code[j] == s.code[j]
  {
  }

  // ---------- growth ----------

  lemma GrownForward(s: State, t: State, o: nat)
    requires ListOk(s) && ListOk(t) && Grown(s, t) && o < |s.code|
    ensures o in s.x.forward <==> o in t.x.forward
  {
    if o in s.x.forward {
      var i :| 0 <= i < |s.hwm| && s.hwm[i] == o;
      assert t.hwm[i] == o;
    }
    if o in t.x.forward {
      var i :| 0 <= i < |t.hwm| && t.hwm[i] == o;
      assert s.hwm[i] == o;
    }
  }

  lemma GrownTwice(s: State, t: State, u: State)
    requires Grown(s, t) && Grown(t, u)
    ensures Grown(s, u)
  {
  }

  /** Code that was laid out stays laid out. */
  lemma GrownMoved(s: State, t: State, lo: nat, hi: nat)
    requires ListOk(s) && ListOk(t) && Grown(s, t) && lo <= hi <= |s.code|
    ensures Moved(s.x, s.code, t.x, t.code, lo, hi, 0)
  {
    forall o: nat | lo <= o < hi ensures o in t.x.forward <==> o in s.x.forward {
      GrownForward(s, t, o);
    }
  }

  lemma GrownBranch(s: State, t: State, a: nat, b: Branch)
    requires ListOk(s) && ListOk(t) && Grown(s, t)
    requires LayBranch(s.x, s.code, a, b) && a + BranchSize(b) <= |s.code|
    ensures LayBranch(t.x, t.code, a, b)
  {
    GrownMoved(s, t, a, a + BranchSize(b));
    RelocateBranch(s.x, s.code, t.x, t.code, a, a + BranchSize(b), 0, b);
  }

  // ---------- sequences of branches ----------

  lemma {:induction false} AppendLaid(x: Links, code: seq<byte>, a: nat, b: Branch, c: Branch)
    requires LayBranch(x, code, a, b) && LayBranch(x, code, a + BranchSize(b), c)
    ensures LayBranch(x, code, a, Append(b, c))
    decreases b
  {
    hide LayItem, LayBranch, BranchSize, Size;
    match b
    case Nil => NilSize();
    case Cons(it, rest) =>
      OpenBranch(x, code, a, it, rest);
      AppendLaid(x, code, a + Size(it), rest, c);
      MakeBranch(x, code, a, it, Append(rest, c));
  }

  lemma {:induction false} AppendOperands(b: Branch, c: Branch, a: nat)
    ensures OperandsInBranch(Append(b, c), a) == OperandsInBranch(b, a) + OperandsInBranch(c, a + BranchSize(b))
    decreases b
  {
    if b.Cons? {
      AppendOperands(b.tail, c, a + Size(b.head));
    }
  }

  lemma {:induction false} AppendAssoc(a: Branch, b: Branch, c: Branch)
    ensures Append(Append(a, b), c) == Append(a, Append(b, c))
  {
    if a.Cons? {
      AppendAssoc(a.tail, b, c);
    }
  }

  lemma {:induction false} AppendNil(a: Branch)
    ensures Append(a, Nil) == a
  {
    if a.Cons? {
      AppendNil(a.tail);
    }
  }

  lemma EmittedNothing(s: State)
    requires Good(s)
    ensures Emitted(s, s, Nil)
  {
    MakeNil(s.x, s.code, |s.code|);
    hide Meets;
  }

  lemma EmittedTwice(s: State, t: State, u: State, b: Branch, c: Branch)
    requires Emitted(s, t, b) && Emitted(t, u, c)
    ensures Emitted(s, u, Append(b, c))
  {
    hide Meets, LayBranch, BranchSize, OperandsInBranch;
    var a := |s.code|;
    GrownTwice(s, t, u);
    GrownBranch(t, u, a, b);
    AppendLaid(u.x, u.code, a, b, c);
    AppendOperands(b, c, a);
    forall o: nat | o in u.x.forward && o >= a ensures o in OperandsInBranch(Append(b, c), a) {
      if o < |t.code| {
        GrownForward(t, u, o);
      }
    }
  }

  // ---------- what keeps a state good ----------

  /** The known targets after a branch was emitted. */
  lemma TargetsAfter(s: State, t: State, b: Branch, num: nat)
    requires Emitted(s, t, b) && num > 0
    ensures Target(t.x, num) == Either(Target(s.x, num), FindOffsetInBranch(b, |s.code|, num))
  {
    hide LayBranch, BranchSize, OperandsInBranch;
    WalkBranch(t.x, t.code, |s.code|, b);
    WalkFrame(s.code, t.code, 0, |s.code|);
    WalkOn(t.code, 0, |s.code|, |t.code|);
    assert FirstIn(t.code, 0, |t.code|, num) == Target(t.x, num);
    assert FirstIn(s.code, 0, |s.code|, num) == Target(s.x, num);
    assert FirstIn(t.code, 0, |s.code|, num) == FirstIn(s.code, 0, |s.code|, num);
  }

  lemma MeetsFrame(code: seq<byte>, code': seq<byte>, e: nat, f: nat -> Option<nat>)
    requires Meets(code, 0, e, f) && e <= |code| && e <= |code'|
    requires forall j :: 0 <= j < e ==> code'[j] == code[j]
    ensures Meets(code', 0, e, f)
  {
    WalkFrame(code, code', 0, e);
    forall num: nat | num > 0 ensures FirstIn(code', 0, e, num) == f(num) {
      assert FirstIn(code', 0, e, num) == FirstIn(code, 0, e, num);
    }
  }

  lemma AtomicKind(s: State)
    requires Good(s)
    ensures s.x.atomic
  {
  }

  /** Appending code of which it is known which brackets it holds. */
  lemma GoodAfter(s: State, t: State, f: nat -> Option<nat>)
    requires Good(s) && |s.code| <= |t.code| && (forall j :: 0 <= j < |s.code| ==> t.code[j] == s.code[j])
    requires Meets(t.code, |s.code|, |t.code|, f)
    requires Target(t.x, 0) == Some(0) && ListOk(t) && t.x.atomic
    requires forall num: nat | num > 0 :: Target(t.x, num) == Either(Target(s.x, num), f(num))
    ensures Good(t)
  {
    MeetsFrame(s.code, t.code, |s.code|, num => Target(s.x, num));
    MeetsThen(t.code, 0, |s.code|, |t.code|, num => Target(s.x, num), f, num => Target(t.x, num));
  }

  /** Emitting code without brackets and calls. */
  lemma EmittedPlain(s: State, t: State, b: Branch)
    requires Good(s) && t.hwm == s.hwm && t.x == s.x
    requires |t.code| == |s.code| + BranchSize(b) && (forall j :: 0 <= j < |s.code| ==> t.code[j] == s.code[j])
    requires LayBranch(t.x, t.code, |s.code|, b)
    requires forall num: nat :: FindOffsetInBranch(b, |s.code|, num).None?
    ensures Emitted(s, t, b)
  {
    hide LayBranch, BranchSize, OperandsInBranch, FindOffsetInBranch;
    WalkBranch(t.x, t.code, |s.code|, b);
    GoodAfter(s, t, num => FindOffsetInBranch(b, |s.code|, num));
    assert forall o: nat :: o in t.x.forward ==> o in s.hwm && o < |s.code|;
  }
}
