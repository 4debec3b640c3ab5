/** Atomic brackets around what was emitted last: for possessive quantifiers that
  * have no opcode of their own, and for subroutine calls that are repeated.
  */
module Wrapping {
  import opened Opcodes
  import opened Tree
  import opened Meaning
  import opened Pattern
  import opened Expansion
  import opened Sizing
  import opened Program
  import opened Walk
  import opened Relocation
  import opened Emission
  import opened CodeBuffer
  import opened Items
  import opened Moving

  /** No operand lies in a header. */
  lemma HeaderFree(s: State, t: State, header: seq<byte>, o: nat)
    requires ListOk(s) && ListOk(t) && Grown(WithHeader(s, header), t) && o in t.x.forward && o >= |s.code|
    ensures o >= |s.code| + |header|
  {
    var i :| 0 <= i < |t.hwm| && t.hwm[i] == o;
    assert i >= |s.hwm|;
  }

  // ---------- closing the brackets ----------

  /** The state u with the ket appended, and the length in both links. */
  ghost predicate Wrapped(s: State, u: State, u': State) {
    && |s.code| + 3 <= |u.code| && u'.hwm == u.hwm && u'.x == u.x
    && var a, e := |s.code|, |u.code|;
       && |u'.code| == e + 3 && u'.code[e] == OP_KET && u'.code[a] == OP_ONCE
       && Get(u'.code, a + 1) == e - a && Get(u'.code, e + 1) == e - a
       && (forall j :: 0 <= j < e && j != a + 1 && j != a + 2 ==> u'.code[j] == u.code[j])
  }

  lemma OnceLaid(x: Links, code: seq<byte>, code': seq<byte>, a: nat, body: Branch)
    requires x.atomic && LayBranch(x, code, a + 3, body) && |code| == a + 3 + BranchSize(body) && |code'| == |code| + 3
    requires code'[a] == OP_ONCE && code'[|code|] == OP_KET
    requires Get(code', a + 1) == |code| - a && Get(code', |code| + 1) == |code| - a
    requires forall j :: a + 3 <= j < |code| ==> code'[j] == code[j]
    ensures LayItem(x, code', a, Once(body))
  {
    hide LayBranch, LayItem, LayAlts, BranchSize, Get;
    assert Moved(x, code, x, code', a + 3, |code|, 0);
    RelocateBranch(x, code, x, code', a + 3, |code|, 0, body);
    MakeLast(x, code', a, a + 3, body, |code|, a, OP_KET);
    MakeGroup(x, code', a, OP_ONCE, 0, Last(body), OP_KET);
  }

  lemma OnceOperands(s: State, u: State, header: seq<byte>, body: Branch)
    requires ListOk(s) && ListOk(u) && Grown(WithHeader(s, header), u) && |header| == 3
    requires forall o: nat :: o in u.x.forward && o >= |s.code| + 3 ==> o in OperandsInBranch(body, |s.code| + 3)
    ensures forall o: nat :: o in u.x.forward && o >= |s.code| ==> o in Operands(Once(body), |s.code|)
  {
    forall o: nat | o in u.x.forward && o >= |s.code| ensures o in Operands(Once(body), |s.code|) {
      HeaderFree(s, u, header, o);
      assert Operands(Once(body), |s.code|) == OperandsInAlts(Last(body), |s.code| + 3);
    }
  }

  lemma OnceFinds(a: nat, body: Branch, num: nat)
    requires num > 0
    ensures FindOffset(Once(body), a, num) == FindOffsetInBranch(body, a + 3, num)
  {
    assert FindOffset(Once(body), a, num) == FindOffsetInAlts(Last(body), a + 3, num);
  }

  lemma OnceGrown(s: State, header: seq<byte>, u: State, u': State)
    requires Grown(WithHeader(s, header), u) && |header| == 3 && Wrapped(s, u, u') && ListOk(s) && ListOk(u)
    ensures Grown(s, u') && ListOk(u')
  {
    hide Get;
  }

  lemma WrappedParts(s: State, u: State, u': State)
    requires Wrapped(s, u, u')
    ensures u'.x == u.x && |u'.code| == |u.code| + 3
    ensures var a, e := |s.code|, |u.code|;
            && u'.code[e] == OP_KET && u'.code[a] == OP_ONCE
            && Get(u'.code, a + 1) == e - a && Get(u'.code, e + 1) == e - a
            && (forall j :: a + 3 <= j < e ==> u'.code[j] == u.code[j])
  {
  }

  /** With its brackets closed, what was emitted is one atomic group. */
  lemma WrapEmitted(s: State, header: seq<byte>, u: State, u': State, body: Branch)
    requires Good(s) && |header| == 3 && Emitted(WithHeader(s, header), u, body) && Wrapped(s, u, u')
    ensures Emitted(s, u', Cons(Once(body), Nil))
  {
    hide Good, Emitted, LayBranch, LayItem, BranchSize, Size, Get, OperandsInBranch, FindOffset, FindOffsetInBranch,
      Operands, ListOk, Wrapped, Grown;
    var t := WithHeader(s, header);
    EmittedBranch(t, u, body);
    GoodParts(s);
    GoodParts(u);
    WrappedParts(s, u, u');
    OnceGrown(s, header, u, u');
    AtomicKind(u);
    OnceLaid(u.x, u.code, u'.code, |s.code|, body);
    OnceSize(body);
    OnceOperands(s, u, header, body);
    forall num: nat | num > 0
      ensures Target(u'.x, num) == Either(Target(s.x, num), FindOffset(Once(body), |s.code|, num))
    {
      OnceFinds(|s.code|, body, num);
      assert Target(u.x, num) == Either(Target(t.x, num), FindOffsetInBranch(body, |s.code| + 3, num));
    }
    MakeEmitted(s, u', Once(body));
  }

  /** Append the ket and fill in both links. */
  method CloseWrap(cd: Compiler, previous: nat, header: seq<byte>, ghost s: State, ghost body: Branch)
    requires cd.Valid() && Good(s) && Emitted(WithHeader(s, header), Now(cd), body)
    requires previous == |s.code| && |header| == 3 && header[0] == OP_ONCE && cd.end + 3 <= cd.buf.Length
    modifies cd`end, cd`code, cd.buf
    ensures cd.Valid() && Emitted(s, Now(cd), Cons(Once(body), Nil)) && cd.end == old(cd.end) + 3
  {
    hide Good, Emitted;
    ghost var u := Now(cd);
    HeaderStands(s, u, header, body);
    cd.Bounds();
    var len := cd.end - previous;
    cd.Emit(OP_KET);
    cd.EmitLink(len);
    cd.SetLink(previous + 1, len);
    assert Wrapped(s, u, Now(cd));
    WrapEmitted(s, header, u, Now(cd), body);
  }

  lemma HeaderStands(s: State, u: State, header: seq<byte>, body: Branch)
    requires Emitted(WithHeader(s, header), u, body) && |header| == 3
    ensures |s.code| + 3 <= |u.code| && u.code[|s.code|] == header[0]
  {
    assert u.code[|s.code|] == (s.code + header)[|s.code|];
  }

  /** Atomic brackets around everything emitted from previous on. */
  method Wrap(cd: Compiler, previous: nat, base: nat, ghost s: State, ghost body: Branch)
    requires cd.Valid() && Emitted(s, Now(cd), body) && previous == |s.code| > 0 && base == |s.hwm|
    requires cd.end + BRACKETS < cd.buf.Length
    modifies cd, cd.buf
    ensures cd.Valid() && Emitted(s, Now(cd), Cons(Once(body), Nil))
  {
    EmittedGood(s, Now(cd), body);
    hide Good, Emitted;
    var header: seq<byte> := [OP_ONCE, 0, 0];
    InsertBefore(cd, previous, header, base, s, body);
    EmittedGood(WithHeader(s, header), Now(cd), body);
    CloseWrap(cd, previous, header, s, body);
  }

  // ---------- calls ----------

  lemma NoStepInside(code: seq<byte>, a: nat, i: nat)
    requires a < |code| && Walks(code, a, i)
    ensures i == a || i >= a + OpLength(code[a])
  {
    if i != a {
      WalksEnd(code, a + OpLength(code[a]), i);
    }
  }

  /** The operand of the call emitted last leads to something in front of it, so
    * moving the call alone changes nothing in it. */
  lemma CallStays(s: State, t: State, num: nat)
    requires Emitted(s, t, Cons(Call(num), Nil)) && |s.code| > 0
    ensures AdjustedTo(t.x, t.code, t.code, |s.code|, |t.code|, 3)
  {
    var a, it := |s.code|, Call(num);
    EmittedItem(s, t, it);
    TargetsInside(s);
    GoodParts(s);
    hide Good, Emitted;
    assert num > 0 ==> Target(t.x, num) == Either(Target(s.x, num), FindOffset(it, a, num));
    assert Grown(s, t);
    WalkOne(t.code, a, a + 3);
    forall i: nat | i < a + 3 && Walks(t.code, a, i) ensures AdjustedAt(t.x, t.code, t.code, i, a, 3) {
      NoStepInside(t.code, a, i);
    }
  }

  /** At most the call's own operand has been listed. */
  lemma CallListed(s: State, t: State, num: nat)
    requires Emitted(s, t, Cons(Call(num), Nil))
    ensures |s.hwm| <= |t.hwm| <= |s.hwm| + 1
    ensures |t.hwm| > |s.hwm| <==> |t.hwm| > 0 && t.hwm[|t.hwm| - 1] == |s.code| + 1
  {
    EmittedItem(s, t, Call(num));
    GoodParts(s);
    GoodParts(t);
    hide Good, Emitted;
    assert |t.hwm| > |s.hwm| + 1 ==> t.hwm[|s.hwm|] < t.hwm[|s.hwm| + 1];
    forall i | |s.hwm| <= i < |t.hwm| ensures t.hwm[i] == |s.code| + 1 {
      assert t.hwm[i] in t.x.forward;
      assert t.hwm[i] in Operands(Call(num), |s.code|);
    }
  }

  /** Atomic brackets around the call at previous, before it is repeated. Only its
    * own entry in the list of forward references has to follow. */
  method WrapCall(cd: Compiler, previous: nat, ghost s: State, ghost num: nat)
    requires cd.Valid() && Emitted(s, Now(cd), Cons(Call(num), Nil)) && previous == |s.code| > 0
    requires cd.end + BRACKETS < cd.buf.Length
    modifies cd, cd.buf
    ensures cd.Valid() && Emitted(s, Now(cd), Cons(Once(Cons(Call(num), Nil)), Nil))
  {
    ghost var t, body := Now(cd), Cons(Call(num), Nil);
    EmittedGood(s, t, body);
    CallStays(s, t, num);
    CallListed(s, t, num);
    hide Good, Emitted, AdjustedTo;
    var header: seq<byte> := [OP_ONCE, 0, 6];
    cd.MoveUp(previous, header);
    if |cd.hwm| > 0 {
      var offset := cd.hwm[|cd.hwm| - 1];
      if offset == previous + 1 {
        cd.hwm := cd.hwm[|cd.hwm| - 1 := offset + 3];
      }
    }
    assert cd.hwm == Shift(t.hwm, |s.hwm|, 3);
    cd.x := ShiftLinks(cd.x, previous, 3);
    GroupMoved(s, t, t.code, header, Now(cd), body);
    CloseWrap(cd, previous, header, s, body);
  }
}
