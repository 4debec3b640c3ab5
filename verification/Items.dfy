/** Emitting single items: anchors, characters and their repeats, and calls. */
module Items {
  import opened Opcodes
  import opened Tree
  import opened Meaning
  import opened Pattern
  import opened Expansion
  import opened Sizing
  import opened Program
  import opened Walk
  import opened Relocation
  import opened Emission
  import opened CodeBuffer

  ghost function Now(cd: Compiler): State
    reads cd
  {
    State(cd.code, cd.hwm, cd.x)
  }

  lemma OneLaid(x: Links, code: seq<byte>, a: nat, it: Item)
    requires LayItem(x, code, a, it) && a + Size(it) <= |code|
    ensures LayBranch(x, code, a, Cons(it, Nil)) && BranchSize(Cons(it, Nil)) == Size(it)
  {
    MakeNil(x, code, a + Size(it));
    MakeBranch(x, code, a, it, Nil);
  }

  lemma OneOperands(it: Item, a: nat)
    ensures OperandsInBranch(Cons(it, Nil), a) == Operands(it, a)
  {
  }

  /** An item without brackets and calls was appended. */
  lemma LeafEmitted(s: State, t: State, it: Item)
    requires Good(s) && t.hwm == s.hwm && t.x == s.x
    requires it.Anchor? || it.One? || it.Rep?
    requires |t.code| == |s.code| + Size(it) && (forall j :: 0 <= j < |s.code| ==> t.code[j] == s.code[j])
    requires LayItem(t.x, t.code, |s.code|, it)
    ensures Emitted(s, t, Cons(it, Nil))
  {
    var b := Cons(it, Nil);
    forall num: nat ensures FindOffsetInBranch(b, |s.code|, num).None? {
      assert FindOffsetInBranch(Nil, |s.code| + Size(it), num).None?;
    }
    hide Good, LayItem, LayBranch, Size, BranchSize;
    OneLaid(t.x, t.code, |s.code|, it);
    EmittedPlain(s, t, b);
  }

  method EmitAnchor(cd: Compiler, op: byte)
    requires cd.Valid() && Good(Now(cd)) && IsAnchor(op) && cd.end < cd.buf.Length
    modifies cd`end, cd`code, cd.buf
    ensures cd.Valid() && Emitted(old(Now(cd)), Now(cd), Cons(Anchor(op), Nil))
  {
    ghost var s := Now(cd);
    hide Good, Emitted;
    cd.Emit(op);
    LeafEmitted(s, Now(cd), Anchor(op));
  }

  method EmitAtom(cd: Compiler, atom: Atom)
    requires cd.Valid() && Good(Now(cd)) && AtomOk(atom) && cd.end + AtomSize(atom) <= cd.buf.Length
    modifies cd`end, cd`code, cd.buf
    ensures cd.Valid() && Emitted(old(Now(cd)), Now(cd), Cons(One(atom), Nil))
  {
    ghost var s := Now(cd);
    hide Good, Emitted;
    match atom {
      case Chr(op, c) => cd.Emit(op); cd.Emit(c);
      case Type(op) => cd.Emit(op);
      case Cls(op, bits) =>
        cd.Emit(op);
        cd.EmitBytes(bits);
        assert cd.code[|s.code| + 1..|s.code| + 1 + BITMAP_SIZE] == bits;
    }
    LeafEmitted(s, Now(cd), One(atom));
  }

  // ---------- subroutine calls ----------

  /** The first bracket with the given number, up to the OP_END at e. */
  method FindBracket(cd: Compiler, num: nat, ghost e: nat) returns (r: Option<nat>)
    requires cd.Valid() && e <= cd.end && e < cd.buf.Length && cd.buf[e] == OP_END && Walks(cd.code, 0, e)
    ensures r == FirstIn(cd.code, 0, e, num)
  {
    var i := 0;
    while cd.buf[i] != OP_END
      invariant i <= e && Walks(cd.code, i, e)
      invariant FirstIn(cd.code, 0, e, num) == FirstIn(cd.code, i, e, num)
      decreases e - i
    {
      var c := cd.buf[i];
      assert i < e ==> c == cd.code[i];
      if IsCapturing(c) {
        var n := cd.LinkAt(i + 3);
        if n == num {
          return Some(i);
        }
      }
      i := i + OpLength(c);
    }
    return None;
  }

  /** A call was appended, and listed if its operand is still a group number. */
  lemma CallItem(s: State, t: State, num: nat)
    requires Good(s) && |t.code| == |s.code| + 3 && (forall j :: 0 <= j < |s.code| ==> t.code[j] == s.code[j])
    requires LayCall(t.x, t.code, |s.code|, num) && t.x.target == s.x.target && t.x.atomic == s.x.atomic
    requires (t.x.forward == s.x.forward && t.hwm == s.hwm)
          || (t.x.forward == s.x.forward + {|s.code| + 1} && t.hwm == s.hwm + [|s.code| + 1])
    ensures Emitted(s, t, Cons(Call(num), Nil))
  {
    var a := |s.code|;
    MeetsNone(t.code, a, a + 3);
    OneLaid(t.x, t.code, a, Call(num));
    OneOperands(Call(num), a);
    hide Meets, LayBranch, LayItem, LayCall;
    assert forall o: nat :: o in s.x.forward ==> o in s.hwm && o < a;
    GoodAfter(s, t, _ => None);
  }

  const ERR15 := 15

  /** A call is linked to the first bracket with its number if that has been
    * emitted already; otherwise it holds the number and is remembered. */
  method EmitCall(cd: Compiler, num: nat) returns (err: nat)
    requires cd.Valid() && Good(Now(cd)) && cd.end + 3 < cd.buf.Length && cd.finalBracount < 65536
    modifies cd, cd.buf
    ensures cd.Valid() && (err == 0 || err == ERR15)
    ensures err == ERR15 <==> num > cd.finalBracount && Target(old(cd.x), num).None?
    ensures err == 0 ==> Emitted(old(Now(cd)), Now(cd), Cons(Call(num), Nil))
  {
    ghost var s := Now(cd);
    var called := Some(0);
    if num != 0 {
      cd.Terminate();
      called := FindBracket(cd, num, cd.end);
      assert called == Target(cd.x, num);
    }
    hide Good, Emitted, FirstIn, Walks, Meets;
    if called.None? {
      if num > cd.finalBracount {
        return ERR15;
      }
      cd.hwm := cd.hwm + [cd.end + 1];
      cd.x := cd.x.(forward := cd.x.forward + {cd.end + 1});
    }
    cd.Emit(OP_RECURSE);
    cd.EmitLink(if called.None? then num else called.value);
    CallIsLaid(s, Now(cd), num);
    CallItem(s, Now(cd), num);
    err := 0;
  }

  lemma CallIsLaid(s: State, t: State, num: nat)
    requires Good(s) && |t.code| == |s.code| + 3 && t.code[|s.code|] == OP_RECURSE && t.x.target == s.x.target
    requires if num in s.x.target then t.x.forward == s.x.forward && Get(t.code, |s.code| + 1) == s.x.target[num]
             else t.x.forward == s.x.forward + {|s.code| + 1} && Get(t.code, |s.code| + 1) == num
    ensures LayCall(t.x, t.code, |s.code|, num)
  {
    hide Meets;
    if num in s.x.target {
      assert |s.code| + 1 in s.x.forward ==> |s.code| + 1 in s.hwm;
    }
  }
}
