/** The worklist argument behind the DFA engine: two lists of states, each state
  * expanded at most once, and in the end every reachable configuration expanded.
  */
module Worklist {
  import opened Machine
  import opened DfaStates

  datatype Edge = Edge(from: Conf, to: Conf)

  /** An abstract search space: the start configurations, the steps, and a set of
    * good configurations that contains the starts and is closed under steps. */
  datatype Space = Space(starts: iset<Conf>, edges: iset<Edge>, good: iset<Conf>)
  {
    ghost predicate Ok() {
      && starts <= good
      && forall e :: e in edges && e.from in good ==> e.to in good
    }
  }

  ghost predicate ListOk(sp: Space, ptr: nat, list: seq<StateBlock>) {
    forall st :: st in list ==>
      st.offset != 0 && (st.offset > 0 ==> st.data == 0) && ConfOf(st, ptr) in sp.good
  }

  /** Already expanded, or waiting in one of the two lists. */
  ghost predicate Covered(done: set<Conf>, rest: seq<StateBlock>, ptr: nat, coming: seq<StateBlock>, d: Conf) {
    d in done || Listed(rest, ptr, d) || Listed(coming, ptr + 1, d)
  }

  /** done is what has been expanded, rest the active states still to be looked at,
    * coming the states for the next position. Everything is good, and nothing
    * that can be reached in one step has been lost. */
  ghost predicate RunInv(sp: Space, done: set<Conf>, rest: seq<StateBlock>, ptr: nat, coming: seq<StateBlock>) {
    && (forall c :: c in done ==> c in sp.good && c.p <= ptr)
    && ListOk(sp, ptr, rest)
    && ListOk(sp, ptr + 1, coming)
    && (forall c :: c in sp.starts ==> Covered(done, rest, ptr, coming, c))
    && (forall e :: e in sp.edges && e.from in done ==> Covered(done, rest, ptr, coming, e.to))
  }

  /** The duplicate test looks at exactly the expanded configurations of ptr. */
  ghost predicate SeenInv(done: set<Conf>, ptr: nat, seen: seq<StateBlock>) {
    && (forall st :: st in seen && st.offset > 0 ==> st.data == 0 && ConfOf(st, ptr) in done)
    && (forall c: Conf :: c in done && c.p == ptr ==> StateBlock(c.o, c.cnt, 0) in seen)
  }

  /** A state that still has characters to skip moves to the next list. */
  lemma HoldBack(sp: Space, done: set<Conf>, ptr: nat, st: StateBlock, rest: seq<StateBlock>, coming: seq<StateBlock>)
    requires RunInv(sp, done, [st] + rest, ptr, coming)
    requires st.offset < 0 && st.data > 0
    ensures RunInv(sp, done, rest, ptr, coming + [StateBlock(st.offset, st.count, st.data - 1)])
  {
    var held := StateBlock(st.offset, st.count, st.data - 1);
    assert ConfOf(held, ptr + 1) == ConfOf(st, ptr);
    forall d | Covered(done, [st] + rest, ptr, coming, d) ensures Covered(done, rest, ptr, coming + [held], d) {
    }
  }

  /** A state whose time has come gets its real offset. */
  lemma Release(sp: Space, done: set<Conf>, ptr: nat, st: StateBlock, rest: seq<StateBlock>, coming: seq<StateBlock>)
    requires RunInv(sp, done, [st] + rest, ptr, coming)
    requires st.offset < 0 && st.data == 0
    ensures RunInv(sp, done, [StateBlock(-st.offset, st.count, 0)] + rest, ptr, coming)
  {
    var st' := StateBlock(-st.offset, st.count, 0);
    assert ConfOf(st', ptr) == ConfOf(st, ptr);
    forall d | Covered(done, [st] + rest, ptr, coming, d) ensures Covered(done, [st'] + rest, ptr, coming, d) {
    }
  }

  /** A duplicate can be dropped: it has been expanded. */
  lemma DropDuplicate(sp: Space, done: set<Conf>, ptr: nat, st: StateBlock, rest: seq<StateBlock>,
                      coming: seq<StateBlock>)
    requires RunInv(sp, done, [st] + rest, ptr, coming)
    requires st.offset > 0 && ConfOf(st, ptr) in done
    ensures RunInv(sp, done, rest, ptr, coming)
  {
    forall d | Covered(done, [st] + rest, ptr, coming, d) ensures Covered(done, rest, ptr, coming, d) {
    }
  }

  /** The states now and next are exactly the successors of c. */
  ghost predicate Successors(sp: Space, c: Conf, now: seq<StateBlock>, next: seq<StateBlock>) {
    && (forall st :: st in now ==> st.offset > 0 && st.data == 0)
    && (forall st :: st in next ==> st.offset != 0 && (st.offset > 0 ==> st.data == 0))
    && forall d :: Edge(c, d) in sp.edges <==> Listed(now, c.p, d) || Listed(next, c.p + 1, d)
  }

  lemma SuccessorsAreGood(sp: Space, c: Conf, now: seq<StateBlock>, next: seq<StateBlock>)
    requires sp.Ok() && c in sp.good && Successors(sp, c, now, next)
    ensures ListOk(sp, c.p, now) && ListOk(sp, c.p + 1, next)
  {
    forall st | st in now ensures ConfOf(st, c.p) in sp.good {
      assert Listed(now, c.p, ConfOf(st, c.p));
      assert Edge(c, ConfOf(st, c.p)) in sp.edges;
    }
    forall st | st in next ensures ConfOf(st, c.p + 1) in sp.good {
      assert Listed(next, c.p + 1, ConfOf(st, c.p + 1));
      assert Edge(c, ConfOf(st, c.p + 1)) in sp.edges;
    }
  }

  /** Expanding a state keeps the invariant when its successors join the lists. */
  lemma Expanded(sp: Space, done: set<Conf>, ptr: nat, st: StateBlock, rest: seq<StateBlock>, coming: seq<StateBlock>,
                 now: seq<StateBlock>, next: seq<StateBlock>)
    requires sp.Ok() && RunInv(sp, done, [st] + rest, ptr, coming) && st.offset > 0
    requires Successors(sp, ConfOf(st, ptr), now, next)
    ensures RunInv(sp, done + {ConfOf(st, ptr)}, rest + now, ptr, coming + next)
  {
    var c := ConfOf(st, ptr);
    assert st in [st] + rest;
    SuccessorsAreGood(sp, c, now, next);
    forall d | Covered(done, [st] + rest, ptr, coming, d)
      ensures Covered(done + {c}, rest + now, ptr, coming + next, d)
    {
    }
    forall e | e in sp.edges && e.from == c ensures Covered(done + {c}, rest + now, ptr, coming + next, e.to) {
      assert e == Edge(c, e.to);
    }
  }

  /** With both lists empty, everything reachable has been expanded. */
  lemma {:induction false} Complete(sp: Space, done: set<Conf>, ptr: nat)
    requires RunInv(sp, done, [], ptr, [])
    ensures forall c :: c in sp.starts ==> c in done
    ensures forall e :: e in sp.edges && e.from in done ==> e.to in done
  {
    forall c | c in sp.starts ensures c in done {
      assert Covered(done, [], ptr, [], c);
    }
    forall e | e in sp.edges && e.from in done ensures e.to in done {
      assert Covered(done, [], ptr, [], e.to);
    }
  }

  lemma HeadIsGood(sp: Space, done: set<Conf>, ptr: nat, st: StateBlock, rest: seq<StateBlock>, coming: seq<StateBlock>)
    requires RunInv(sp, done, [st] + rest, ptr, coming)
    ensures st.offset != 0 && (st.offset > 0 ==> st.data == 0) && ConfOf(st, ptr) in sp.good
  {
    assert st in [st] + rest;
  }

  lemma NothingSeen(sp: Space, done: set<Conf>, ptr: nat)
    requires forall c :: c in done ==> c.p < ptr
    ensures SeenInv(done, ptr, [])
  {
  }

  lemma SeenHeldBack(done: set<Conf>, ptr: nat, seen: seq<StateBlock>, st: StateBlock)
    requires SeenInv(done, ptr, seen) && st.offset <= 0
    ensures SeenInv(done, ptr, seen + [st])
  {
  }

  /** A state that differs from all earlier ones has not been expanded. */
  lemma NotSeen(done: set<Conf>, ptr: nat, seen: seq<StateBlock>, st: StateBlock)
    requires SeenInv(done, ptr, seen) && st.offset > 0 && st.data == 0
    requires !exists j :: 0 <= j < |seen| && seen[j].offset == st.offset && seen[j].count == st.count
    ensures ConfOf(st, ptr) !in done
    ensures SeenInv(done + {ConfOf(st, ptr)}, ptr, seen + [st])
  {
  }

  /** A state equal to an earlier one has been expanded. */
  lemma WasSeen(done: set<Conf>, ptr: nat, seen: seq<StateBlock>, st: StateBlock, j: nat)
    requires SeenInv(done, ptr, seen) && st.offset > 0 && st.data == 0
    requires j < |seen| && seen[j].offset == st.offset && seen[j].count == st.count
    ensures ConfOf(st, ptr) in done
    ensures SeenInv(done, ptr, seen + [st])
  {
    assert ConfOf(seen[j], ptr) == ConfOf(st, ptr);
  }

  lemma DoneAreGood(sp: Space, done: set<Conf>, rest: seq<StateBlock>, ptr: nat, coming: seq<StateBlock>)
    requires RunInv(sp, done, rest, ptr, coming)
    ensures forall c :: c in done ==> c in sp.good && c.p <= ptr
  {
  }

  /** On to the next position: its list becomes the active one. */
  lemma Advance(sp: Space, done: set<Conf>, ptr: nat, coming: seq<StateBlock>)
    requires RunInv(sp, done, [], ptr, coming)
    ensures RunInv(sp, done, coming, ptr + 1, [])
    ensures forall c :: c in done ==> c.p < ptr + 1
  {
    forall d | Covered(done, [], ptr, coming, d) ensures Covered(done, coming, ptr + 1, [], d) {
    }
  }
}
