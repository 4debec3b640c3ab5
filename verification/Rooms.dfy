/** When a run of the matching engine is sure to succeed, told by the tree of the code: a
  * group that calls nothing needs lists of a length that follows from its size, and so does
  * a pattern whose called groups are small and call nothing themselves.
  */
module Rooms {
  import Sets
  import opened Opcodes
  import opened Tree
  import opened Meaning
  import opened Machine
  import opened Runs
  import opened Decoding
  import opened Program
  import opened CodeScan
  import opened References
  import opened Closure
  import opened DfaStates
  import opened DfaExec

  // ---------- what there is inside a tree ----------

  /** No item of the tree repeats a character. */
  predicate RepFree(it: Item)
    decreases it
  {
    match it
    case Rep(_, _, _, _) => false
    case Group(_, _, alts, _) => RepFreeAlts(alts)
    case Zero(_, g) => RepFree(g)
    case _ => true
  }

  predicate RepFreeBranch(b: Branch)
    decreases b
  {
    b.Cons? ==> RepFree(b.head) && RepFreeBranch(b.tail)
  }

  predicate RepFreeAlts(alts: Alts)
    decreases alts
  {
    RepFreeBranch(alts.b) && (alts.More? ==> RepFreeAlts(alts.rest))
  }

  /** A call is one of those in the tree, and a repeat is there only if the tree has one. */
  ghost predicate IsOf(i: Instr, nums: set<nat>, repFree: bool) {
    (i.ICall? ==> i.num in nums) && (repFree ==> !i.IRep?)
  }

  lemma {:induction false} InItem(ins: seq<Instr>, it: Item, a: nat, o: nat)
    requires CodeItem(ins, a, it) && o in Offsets(it, a)
    ensures a <= o < a + Size(it) <= |ins| && IsOf(ins[o], CallsIn(it), RepFree(it))
    decreases it
  {
    match it
    case Group(bra, _, alts, _) =>
      Runs.GroupParts(ins, it, a);
      if o != a && o != KetOffset(a, it) {
        InAlts(ins, alts, a + BraSize(bra), KetOffset(a, it), o);
      }
    case Zero(_, g) => if o != a { InItem(ins, g, a + 1, o); }
    case _ =>
  }

  lemma {:induction false} InBranch(ins: seq<Instr>, b: Branch, a: nat, o: nat)
    requires CodeBranch(ins, a, b) && o in BranchOffsets(b, a)
    ensures a <= o < a + BranchSize(b) && o < |ins| && IsOf(ins[o], CallsInBranch(b), RepFreeBranch(b))
    decreases b
  {
    if o in Offsets(b.head, a) {
      InItem(ins, b.head, a, o);
    } else {
      InBranch(ins, b.tail, a + Size(b.head), o);
    }
  }

  lemma {:induction false} InAlts(ins: seq<Instr>, alts: Alts, st: nat, end: nat, o: nat)
    requires CodeAlts(ins, st, alts, end) && o in AltsOffsets(alts, st)
    ensures st <= o < end < |ins| && IsOf(ins[o], CallsInAlts(alts), RepFreeAlts(alts))
    decreases alts
  {
    hide CodeBranch, BranchOffsets, CallsInBranch, RepFreeBranch, BranchSize;
    var e := st + BranchSize(alts.b);
    AltParts(ins, alts, st, end);
    if o in BranchOffsets(alts.b, st) {
      InBranch(ins, alts.b, st, o);
    } else if o != e {
      InAlts(ins, alts.rest, e + 3, end, o);
    }
  }

  ghost function Range(lo: nat, hi: nat): (r: set<nat>)
    ensures forall o :: o in r <==> lo <= o < hi
    ensures |r| == if lo < hi then hi - lo else 0
    decreases hi
  {
    if lo < hi then Range(lo, hi - 1) + {hi - 1} else {}
  }

  /** The offsets that a run visits. */
  lemma RunIsOf(md: MatchData, g: Item, start: nat, o: nat)
    requires md.Valid() && Laid(md.x, md.code, g, start) && o in RunOffsets(g, start)
    ensures start <= o <= KetOffset(start, g) && o < |md.code|
    ensures IsOf(Decode(md.code, o), CallsInAlts(g.alts), RepFreeAlts(g.alts))
  {
    hide IsProgram, LayItem, CodeItem, CodeAlts, Decode, LinkedCall;
    RunIsConfined(md, g, start, o);
    if o == KetOffset(start, g) {
      EndIsKet(md, g, start);
    } else {
      Runs.GroupParts(Decoded(md.code), g, start);
      InAlts(Decoded(md.code), g.alts, start + BraSize(g.bra), KetOffset(start, g), o);
    }
  }

  lemma OffsetsFew(md: MatchData, g: Item, start: nat)
    requires md.Valid() && Laid(md.x, md.code, g, start)
    ensures |RunOffsets(g, start)| <= AltsSize(g.alts) + 1
  {
    hide IsProgram, LayItem, CodeItem, CodeAlts, Decode, LinkedCall, RunOffsets;
    var st, k := start + BraSize(g.bra), KetOffset(start, g);
    forall o | o in RunOffsets(g, start) ensures o in Range(st, k + 1) {
      RunIsOf(md, g, start, o);
      RunBehind(g, start, o);
    }
    Sets.SubsetSize(RunOffsets(g, start), Range(st, k + 1));
  }

  lemma RunBehind(g: Item, start: nat, o: nat)
    requires g.Group? && o in RunOffsets(g, start)
    ensures o >= start + BraSize(g.bra)
  {
    if o != KetOffset(start, g) {
      AltsOffsetsBound(g.alts, start + BraSize(g.bra), o);
    }
  }

  // ---------- a group without calls ----------

  /** The length of the lists that suffices for so many bytes of code without calls. */
  function StatesFor(size: nat, top: nat): nat {
    size * (top + 1) * (size + 3)
  }

  lemma StatesMono(size: nat, top: nat, size': nat, top': nat)
    requires size <= size' && top <= top'
    ensures StatesFor(size, top) <= StatesFor(size', top')
  {
    MulMono(size, top + 1, size', top' + 1);
    MulMono(size * (top + 1), size + 3, size' * (top' + 1), size' + 3);
  }

  /** The largest count, told by the tree. */
  function TopOf(alts: Alts, n: nat): nat {
    if RepFreeAlts(alts) then 0 else n
  }

  lemma TopFits(md: MatchData, g: Item, start: nat)
    requires md.Valid() && Laid(md.x, md.code, g, start)
    ensures TopCount(md, g, start) <= TopOf(g.alts, |md.env.s|)
  {
    hide IsProgram, LayItem, Decode, RunOffsets, RepFreeAlts;
    if Counts(md, g, start) && RepFreeAlts(g.alts) {
      var o :| o in RunOffsets(g, start) && Counting(Decode(md.code, o));
      RunIsOf(md, g, start, o);
    }
  }

  lemma NoCallOffsets(md: MatchData, g: Item, start: nat)
    requires md.Valid() && Laid(md.x, md.code, g, start) && CallsInAlts(g.alts) == {}
    ensures CallOffsets(md, g, start) == {}
  {
    hide IsProgram, LayItem, RunOffsets, Decode, LinkedCall;
    forall o | o in CallOffsets(md, g, start) ensures false {
      RunIsConfined(md, g, start, o);
      RunIsOf(md, g, start, o);
      CallDecodes(md.code, o);
    }
  }

  lemma CallDecodes(code: seq<byte>, o: nat)
    requires o < |code| && code[o] == OP_RECURSE && Decode(code, o) != IBad
    ensures Decode(code, o).ICall?
  {
  }

  lemma ListsAre(need: Need, m: nat, top: nat)
    requires need.confs == m * (top + 1) && need.width == m + 2
    ensures ListsFor(need) == StatesFor(m, top) + need.calls * (need.n + 1) * (need.n + 1)
  {
    assert need.confs + need.width * need.confs == need.confs * (m + 3);
  }

  /** What a run needs, at most. */
  lemma NeedFits(md: MatchData, g: Item, start: nat)
    requires md.Valid() && Laid(md.x, md.code, g, start)
    ensures var z, n := AltsSize(g.alts) + 1, |md.env.s|;
            ListsFor(NeedOf(md, g, start))
            <= StatesFor(z, TopOf(g.alts, n)) + if CallsInAlts(g.alts) == {} then 0 else z * (n + 1) * (n + 1)
  {
    hide IsProgram, LayItem, RunOffsets, Decode, TopOf, CallsInAlts, TopCount, ListsFor, StatesFor;
    var z, n, m, top := AltsSize(g.alts) + 1, |md.env.s|, |RunOffsets(g, start)|, TopCount(md, g, start);
    OffsetsFew(md, g, start);
    TopFits(md, g, start);
    StatesMono(m, top, z, TopOf(g.alts, n));
    var need := NeedOf(md, g, start);
    ListsAre(need, m, top);
    Sets.SubsetSize(CallOffsets(md, g, start), RunOffsets(g, start));
    if CallsInAlts(g.alts) == {} {
      NoCallOffsets(md, g, start);
    } else {
      MulMono(need.calls, n + 1, z, n + 1);
      MulMono(need.calls * (n + 1), n + 1, z * (n + 1), n + 1);
    }
  }

  lemma MakeSucceeds(md: MatchData, chain: Recursion, g: Item, start: nat, current: nat, limit: int)
    requires md.Valid() && g.Group? && ListsFor(NeedOf(md, g, start)) <= limit
    requires forall c: Conf :: FitsAt(md, chain, g, start, current, c)
    requires forall c: Conf :: !LoopsAt(md, chain, g, start, current, c)
    ensures Succeeds(md, chain, g, start, current, limit)
  {
    hide IsProgram, RunSpace, NeedOf, ListsFor, CallFits, CallLoops;
    assert !RunLoops(md, chain, g, start, current);
    assert RunFits(md, chain, g, start, current, limit);
  }

  /** A group that calls nothing is run successfully when there is so much room. */
  lemma NoCallsSucceed(md: MatchData, chain: Recursion, g: Item, start: nat, current: nat, limit: int)
    requires md.Valid() && Laid(md.x, md.code, g, start) && CallsInAlts(g.alts) == {}
    requires StatesFor(AltsSize(g.alts) + 1, TopOf(g.alts, |md.env.s|)) <= limit
    ensures Succeeds(md, chain, g, start, current, limit)
  {
    hide IsProgram, LayItem, RunOffsets, Decode, TopOf, CallsInAlts, NeedOf, CallLoops, CallFits, ListsFor, StatesFor;
    NeedFits(md, g, start);
    forall c: Conf | c in RunSpace(md, g, start, current).good ensures !Decode(md.code, c.o).ICall? {
      OffsetOf(md, g, start, current, c);
      RunIsOf(md, g, start, c.o);
    }
    hide RunSpace;
    forall c: Conf ensures FitsAt(md, chain, g, start, current, c) {
    }
    forall c: Conf ensures !LoopsAt(md, chain, g, start, current, c) {
    }
    MakeSucceeds(md, chain, g, start, current, limit);
  }

  // ---------- small called groups ----------

  /** A group that can be called: it calls nothing, and the inner workspace and the inner
    * vector suffice for it. */
  ghost predicate Small(alts: Alts, n: nat) {
    && CallsInAlts(alts) == {} && n < LOCAL_SIZE / 2
    && StatesFor(AltsSize(alts) + 1, TopOf(alts, n)) <= ListLimit(LOCAL_SIZE)
  }

  ghost predicate AllSmall(root: Item, n: nat)
    requires root.Group?
  {
    forall num :: num in CallsIn(root) ==> Callee(root, num).Some? && Small(Callee(root, num).value.alts, n)
  }

  lemma SmallCallGoesThrough(md: MatchData, c: Conf, current: nat)
    requires md.Valid() && md.root.Group? && AllSmall(md.root, |md.env.s|) && current <= |md.env.s|
    requires Laid(md.x, md.code, md.root, 0) && c in RunSpace(md, md.root, 0, current).good
    requires Decode(md.code, c.o).ICall?
    ensures CallFits(md, NoRecursion, Decode(md.code, c.o), c.p)
    ensures !CallLoops(md, NoRecursion, Decode(md.code, c.o), c.p)
  {
    hide IsProgram, LayItem, RunOffsets, Decode, FindGroup, StatesFor, TopOf, CallsInAlts, RunFits, RunLoops, AllCalls;
    var i := Decode(md.code, c.o);
    OffsetOf(md, md.root, 0, current, c);
    RunIsOf(md, md.root, 0, c.o);
    RunIsConfined(md, md.root, 0, c.o);
    CallOperands(md.code, c.o);
    CallsOfRoot(md.root);
    GoodIsReady(md, md.root, 0, current, c);
    CalleeIsLaid(md.x, md.code, md.root, i.num);
    hide RunSpace;
    NothingCalled(md);
    PushCall(NoRecursion, i.num, c.p, |md.env.s|);
    NoCallsSucceed(md, Recursion(i.num, c.p, NoRecursion), Callee(md.root, i.num).value, i.target, c.p,
                   ListLimit(LOCAL_SIZE));
  }

  lemma NothingCalled(md: MatchData)
    ensures Calls(NoRecursion) == {} <= AllCalls(|md.env.s|)
  {
  }

  lemma CallsOfRoot(root: Item)
    requires root.Group?
    ensures CallsInAlts(root.alts) == CallsIn(root)
  {
  }

  /** The states that suffice for so many bytes of code with calls of small groups. */
  function StatesWithCalls(size: nat, n: nat): nat {
    StatesFor(size, n) + size * (n + 1) * (n + 1)
  }

  /** A workspace, in units, that holds two lists of that length. */
  function SpaceFor(states: nat): nat {
    2 + 2 * INTS_PER_STATEBLOCK * states
  }

  /** The run of a pattern whose called groups are small succeeds. */
  lemma SmallCallsSucceed(md: MatchData, current: nat, wscount: int)
    requires md.Valid() && md.root.Group? && Laid(md.x, md.code, md.root, 0) && current <= |md.env.s|
    requires AllSmall(md.root, |md.env.s|)
    requires wscount >= SpaceFor(if CallsIn(md.root) == {} then StatesFor(|md.code|, |md.env.s|)
                                 else StatesWithCalls(|md.code|, |md.env.s|))
    ensures Succeeds(md, NoRecursion, md.root, 0, current, ListLimit(wscount))
  {
    hide IsProgram, LayItem, RunOffsets, Decode, TopOf, CallsIn, CallsInAlts, NeedOf, CallLoops, CallFits, ListsFor,
      StatesFor, FindGroup, Small;
    var root, n := md.root, |md.env.s|;
    NeedFits(md, root, 0);
    RootInCode(md);
    TopIsFew(root.alts, n);
    StatesMono(AltsSize(root.alts) + 1, TopOf(root.alts, n), |md.code|, n);
    MulMono(AltsSize(root.alts) + 1, n + 1, |md.code|, n + 1);
    MulMono((AltsSize(root.alts) + 1) * (n + 1), n + 1, |md.code| * (n + 1), n + 1);
    CallsOfRoot(root);
    hide AllSmall;
    forall c: Conf ensures FitsAt(md, NoRecursion, root, 0, current, c) {
      if c in RunSpace(md, root, 0, current).good && Decode(md.code, c.o).ICall? {
        SmallCallGoesThrough(md, c, current);
      }
    }
    forall c: Conf ensures !LoopsAt(md, NoRecursion, root, 0, current, c) {
      if c in RunSpace(md, root, 0, current).good && Decode(md.code, c.o).ICall? {
        SmallCallGoesThrough(md, c, current);
      }
    }
    MakeSucceeds(md, NoRecursion, root, 0, current, ListLimit(wscount));
  }

  lemma TopIsFew(alts: Alts, n: nat)
    ensures TopOf(alts, n) <= n
  {
  }

  lemma RootInCode(md: MatchData)
    requires md.Valid() && md.root.Group? && Laid(md.x, md.code, md.root, 0)
    ensures AltsSize(md.root.alts) + 1 <= |md.code|
  {
    hide IsProgram, LayAlts;
  }
}
