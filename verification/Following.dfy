/** What may follow a repeat that is made possessive: the walk over everything that
  * can come after it. If the walk answers yes, then giving characters back would
  * never help: going on from an earlier position fails, or, after a greedy repeat,
  * going on from the last position succeeds.
  */
module Following {
  import opened Opcodes
  import opened Tree
  import opened Meaning
  import opened Machine
  import opened Decoding
  import opened CodeScan
  import opened Closure
  import opened Backtrack
  import opened PropertyLists

  /** A run with the tables of the compilation that stops at a ket or at the end. */
  ghost predicate CtxOk(code: seq<byte>, c: Ctx, t: Tables) {
    Fits(c.env, t) && c.endc < |code| && (IsKet(code[c.endc]) || code[c.endc] == OP_END)
  }

  /** Where the atom matches, going on at offset a fails. */
  ghost predicate Stuck(code: seq<byte>, c: Ctx, a: nat, base: Atom) {
    forall p: nat, st: seq<nat> :: HitAt(c.env, base, p) ==> Bt(code, c, a, p, st) == None
  }

  /** Going on at offset a succeeds wherever the run may end. */
  ghost predicate Through(code: seq<byte>, c: Ctx, a: nat) {
    forall p: nat, st: seq<nat> :: p in c.ends && p <= |c.env.s| ==> Bt(code, c, a, p, st).Some?
  }

  /** Where the atom matches, going on at offset a gets no further than that. */
  ghost predicate Idle(code: seq<byte>, c: Ctx, a: nat, base: Atom) {
    forall p: nat, st: seq<nat> :: HitAt(c.env, base, p) && p !in c.ends ==> Bt(code, c, a, p, st) == None
  }

  /** A run that may end at some position may also end further on. */
  ghost predicate Upward(ends: iset<nat>) {
    forall e: nat, f: nat :: e in ends && e < f ==> f in ends
  }

  /** Going on at offset a is stuck, or it is idle and certain to get through. */
  ghost predicate Follows(code: seq<byte>, c: Ctx, a: nat, base: Atom, greedy: bool) {
    Stuck(code, c, a, base) || (greedy && Idle(code, c, a, base) && (Upward(c.ends) ==> Through(code, c, a)))
  }

  /** After a repeat of the base that gives nothing back, the code at a finds the
    * same first match. */
  ghost predicate MayFollow(code: seq<byte>, t: Tables, a: nat, base: Atom, greedy: bool) {
    forall c: Ctx :: CtxOk(code, c, t) ==> Follows(code, c, a, base, greedy)
  }

  // ---------- one instruction at a time ----------

  lemma EndFollows(code: seq<byte>, t: Tables, a: nat, base: Atom)
    requires a < |code| && code[a] == OP_END
    ensures MayFollow(code, t, a, base, true)
  {
    forall c: Ctx | CtxOk(code, c, t) ensures Follows(code, c, a, base, true) {
      if a == c.endc {
        assert Through(code, c, a) && Idle(code, c, a, base);
      } else {
        assert Decode(code, a) == IBad;
        assert Stuck(code, c, a, base);
      }
    }
  }

  lemma KetFollows(code: seq<byte>, t: Tables, a: nat, next: nat, base: Atom)
    requires a < |code| && Decode(code, a) == IKet(next, None) && MayFollow(code, t, next, base, true)
    ensures MayFollow(code, t, a, base, true)
  {
    hide Decode;
    forall c: Ctx | CtxOk(code, c, t) ensures Follows(code, c, a, base, true) {
      assert Follows(code, c, next, base, true);
      KetFollowsIn(code, c, a, next, base);
    }
  }

  lemma KetFollowsIn(code: seq<byte>, c: Ctx, a: nat, next: nat, base: Atom)
    requires a < |code| && Decode(code, a) == IKet(next, None) && Follows(code, c, next, base, true)
    ensures Follows(code, c, a, base, true)
  {
    if a == c.endc {
      assert Through(code, c, a) && Idle(code, c, a, base);
    } else {
      hide Decode, Bt;
      forall p: nat, st: seq<nat> | p <= |c.env.s|
        ensures Bt(code, c, a, p, st) == Bt(code, c, next, p, if st == [] then st else st[1..])
      {
        BtKet(code, c, a, p, st, next, None);
      }
    }
  }

  lemma AltFollows(code: seq<byte>, t: Tables, a: nat, end: nat, base: Atom, greedy: bool)
    requires a < |code| && code[a] == OP_ALT && Decode(code, a) == IAlt(end) && MayFollow(code, t, end, base, greedy)
    ensures MayFollow(code, t, a, base, greedy)
  {
    hide Decode, Bt;
    forall c: Ctx | CtxOk(code, c, t) ensures Follows(code, c, a, base, greedy) {
      assert Follows(code, c, end, base, greedy);
      forall p: nat, st: seq<nat> | p <= |c.env.s| ensures Bt(code, c, a, p, st) == Bt(code, c, end, p, st) {
        BtAlt(code, c, a, p, st, end);
      }
    }
  }

  lemma ZeroFollows(code: seq<byte>, t: Tables, a: nat, inside: nat, after: nat, base: Atom, greedy: bool)
    requires a < |code| && IsZero(code[a]) && Decode(code, a) == IZero(Some(inside), after)
    requires MayFollow(code, t, inside, base, greedy) && MayFollow(code, t, after, base, greedy)
    ensures MayFollow(code, t, a, base, greedy)
  {
    hide Decode, Bt;
    forall c: Ctx | CtxOk(code, c, t) ensures Follows(code, c, a, base, greedy) {
      assert Follows(code, c, inside, base, greedy) && Follows(code, c, after, base, greedy);
      forall p: nat, st: seq<nat> | p <= |c.env.s|
        ensures Bt(code, c, a, p, st) == First(Bt(code, c, inside, p, st), Bt(code, c, after, p, st))
             || Bt(code, c, a, p, st) == First(Bt(code, c, after, p, st), Bt(code, c, inside, p, st))
      {
        BtZero(code, c, a, p, st, Some(inside), after);
      }
    }
  }

  // ---------- brackets ----------

  ghost predicate AllFollow(code: seq<byte>, t: Tables, starts: seq<nat>, base: Atom, greedy: bool) {
    forall j :: 0 <= j < |starts| ==> MayFollow(code, t, starts[j], base, greedy)
  }

  /** The alternatives fail if all of them do, and succeed if one of them does. */
  lemma {:induction false} AltsResult(code: seq<byte>, c: Ctx, from: nat, starts: seq<nat>, p: nat, st: seq<nat>)
    requires p <= |c.env.s| && from <= |code| && forall j :: 0 <= j < |starts| ==> starts[j] >= from
    ensures (forall j :: 0 <= j < |starts| ==> Bt(code, c, starts[j], p, st) == None) ==>
              BtAlts(code, c, from, starts, p, st) == None
    ensures forall j ::
              0 <= j < |starts| && Bt(code, c, starts[j], p, st).Some? ==> BtAlts(code, c, from, starts, p, st).Some?
  {
    hide Bt;
    if starts != [] {
      AltsResult(code, c, from, starts[1..], p, st);
      if forall j :: 0 <= j < |starts| ==> Bt(code, c, starts[j], p, st) == None {
        assert forall j :: 0 <= j < |starts[1..]| ==> starts[1..][j] == starts[j + 1];
      }
      forall j | 0 <= j < |starts| && Bt(code, c, starts[j], p, st).Some?
        ensures BtAlts(code, c, from, starts, p, st).Some?
      {
        if j > 0 {
          assert starts[1..][j - 1] == starts[j];
        }
      }
    }
  }

  lemma OpenThrough(code: seq<byte>, c: Ctx, a: nat, starts: seq<nat>, j: nat)
    requires a < |code| && a != c.endc && Decode(code, a) == IOpen(starts) && j < |starts|
    requires Through(code, c, starts[j])
    ensures Through(code, c, a)
  {
    hide Decode, Bt, BtAlts;
    forall p: nat, st: seq<nat> | p in c.ends && p <= |c.env.s| ensures Bt(code, c, a, p, st).Some? {
      BtOpen(code, c, a, p, st, starts);
      AltsResult(code, c, a + 1, starts, p, [p] + st);
      assert Bt(code, c, starts[j], p, [p] + st).Some?;
    }
  }

  lemma OpenFails(code: seq<byte>, c: Ctx, a: nat, starts: seq<nat>, p: nat, st: seq<nat>)
    requires a < |code| && a != c.endc && Decode(code, a) == IOpen(starts) && p <= |c.env.s|
    requires forall j :: 0 <= j < |starts| ==> Bt(code, c, starts[j], p, [p] + st) == None
    ensures Bt(code, c, a, p, st) == None
  {
    hide Decode, Bt, BtAlts;
    BtOpen(code, c, a, p, st, starts);
    AltsResult(code, c, a + 1, starts, p, [p] + st);
  }

  lemma OpenFollowsIn(code: seq<byte>, c: Ctx, a: nat, starts: seq<nat>, base: Atom, greedy: bool)
    requires a < |code| && a != c.endc && Decode(code, a) == IOpen(starts) && |starts| > 0
    requires forall j :: 0 <= j < |starts| ==> Follows(code, c, starts[j], base, greedy)
    ensures Follows(code, c, a, base, greedy)
  {
    hide Decode, Bt, BtAlts;
    if j :| 0 <= j < |starts| && !Stuck(code, c, starts[j], base) {
      if Upward(c.ends) {
        OpenThrough(code, c, a, starts, j);
      }
      forall p: nat, st: seq<nat> | HitAt(c.env, base, p) && p !in c.ends ensures Bt(code, c, a, p, st) == None {
        assert forall i :: 0 <= i < |starts| ==> Follows(code, c, starts[i], base, greedy);
        OpenFails(code, c, a, starts, p, st);
      }
      assert Idle(code, c, a, base);
    } else {
      forall p: nat, st: seq<nat> | HitAt(c.env, base, p) ensures Bt(code, c, a, p, st) == None {
        OpenFails(code, c, a, starts, p, st);
      }
      assert Stuck(code, c, a, base);
    }
  }

  lemma OpenFollows(code: seq<byte>, t: Tables, a: nat, starts: seq<nat>, base: Atom, greedy: bool)
    requires a < |code| && IsBra(code[a]) && Decode(code, a) == IOpen(starts) && |starts| > 0
    requires AllFollow(code, t, starts, base, greedy)
    ensures MayFollow(code, t, a, base, greedy)
  {
    hide Decode, Follows;
    forall c: Ctx | CtxOk(code, c, t) ensures Follows(code, c, a, base, greedy) {
      OpenFollowsIn(code, c, a, starts, base, greedy);
    }
  }

  // ---------- single-character items ----------

  /** Where the base matches and the item does not. */
  lemma ItemStops(env: Env, t: Tables, base: Atom, i: Instr, p: nat)
    requires TablesOk(t) && Fits(env, t) && AtomOk(base) && Listed(i) && Excludes(env, base, i) && HitAt(env, base, p)
    ensures i.IAnchor? ==> !AnchorHolds(env, i.op, p)
    ensures i.IOne? ==> !HitAt(env, i.atom, p)
    ensures i.IRep? && i.max >= -1 ==> RunLength(env, i.atom, p, i.max) == 0
  {
  }

  lemma ItemStuck(code: seq<byte>, c: Ctx, t: Tables, a: nat, i: Instr, base: Atom)
    requires TablesOk(t) && Fits(c.env, t) && a < |code| && a != c.endc && Decode(code, a) == i && Listed(i)
    requires AtomOk(base) && Excludes(c.env, base, i)
    requires i.IRep? && i.min == 0 ==> Stuck(code, c, i.next, base)
    ensures Stuck(code, c, a, base)
  {
    hide Decode, Bt, BtUp, BtDown, TablesOk, Fits, Excludes, RunLength;
    forall p: nat, st: seq<nat> | HitAt(c.env, base, p) ensures Bt(code, c, a, p, st) == None {
      ItemStops(c.env, t, base, i, p);
      match i
      case IAnchor(op, next) => BtAnchor(code, c, a, p, st, op, next);
      case IOne(atom, next) => BtOne(code, c, a, p, st, atom, next);
      case IRep(atom, min, max, poss, next) =>
        BtRep(code, c, a, p, st, i);
        OnlyOne(code, c, next, p, st);
    }
  }

  lemma ItemThrough(code: seq<byte>, c: Ctx, a: nat, i: Instr)
    requires a < |code| && a != c.endc && Decode(code, a) == i && i.IRep? && i.min == 0
    requires Through(code, c, i.next) && Upward(c.ends)
    ensures Through(code, c, a)
  {
    hide Decode, Bt, BtUp, BtDown, RunLength;
    forall p: nat, st: seq<nat> | p in c.ends && p <= |c.env.s| ensures Bt(code, c, a, p, st).Some? {
      BtRep(code, c, a, p, st, i);
      var n := RunLength(c.env, i.atom, p, i.max);
      assert n > 0 ==> p + n in c.ends;
      assert Bt(code, c, i.next, p, st).Some? && Bt(code, c, i.next, p + n, st).Some?;
      DownSucceeds(code, c, i.next, p, p + n, st);
      UpSucceeds(code, c, i.next, p, p + n, st);
    }
  }

  lemma ItemIdle(code: seq<byte>, c: Ctx, t: Tables, a: nat, i: Instr, base: Atom)
    requires TablesOk(t) && Fits(c.env, t) && a < |code| && a != c.endc && Decode(code, a) == i && i.IRep? && i.min == 0
    requires AtomOk(base) && Excludes(c.env, base, i) && Idle(code, c, i.next, base)
    ensures Idle(code, c, a, base)
  {
    hide Decode, Bt, BtUp, BtDown, TablesOk, Fits, Excludes, RunLength;
    forall p: nat, st: seq<nat> | HitAt(c.env, base, p) && p !in c.ends ensures Bt(code, c, a, p, st) == None {
      ItemStops(c.env, t, base, i, p);
      BtRep(code, c, a, p, st, i);
      OnlyOne(code, c, i.next, p, st);
    }
  }

  lemma ItemFollows(code: seq<byte>, t: Tables, a: nat, i: Instr, base: Atom, greedy: bool)
    requires TablesOk(t) && a < |code| && !IsKet(code[a]) && code[a] != OP_END && Decode(code, a) == i && Listed(i)
    requires AtomOk(base)
    requires forall env: Env :: Fits(env, t) ==> Excludes(env, base, i)
    requires i.IRep? && i.min == 0 ==> MayFollow(code, t, i.next, base, greedy)
    ensures MayFollow(code, t, a, base, greedy)
  {
    hide Decode, Stuck, Through, Idle, Upward, TablesOk, Fits, Excludes;
    forall c: Ctx | CtxOk(code, c, t) ensures Follows(code, c, a, base, greedy) {
      if i.IRep? && i.min == 0 && !Stuck(code, c, i.next, base) {
        assert Follows(code, c, i.next, base, greedy);
        ItemIdle(code, c, t, a, i, base);
        if Upward(c.ends) {
          ItemThrough(code, c, a, i);
        }
      } else {
        ItemStuck(code, c, t, a, i, base);
      }
    }
  }
}
