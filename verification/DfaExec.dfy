/** The DFA matching engine: one run over a bracketed group from one start. It
  * reports, longest first, exactly the end positions that the group can match.
  */
module DfaExec {
  import opened Sets
  import opened Opcodes
  import opened Tree
  import opened Meaning
  import opened Machine
  import opened Runs
  import opened Decoding
  import opened Program
  import opened DfaStates
  import opened Worklist

  const PCRE_ERROR_NOMATCH := -1
  const PCRE_ERROR_DFA_WSSIZE := -19
  const PCRE_ERROR_DFA_RECURSE := -20
  const PCRE_ERROR_RECURSELOOP := -26

  const INTS_PER_STATEBLOCK := 3
  const LOCAL_SIZE := 1000

  /** The chain of subroutine calls in progress: group number and position. */
  datatype Recursion = NoRecursion | Recursion(group: nat, pos: nat, prev: Recursion)

  ghost function Calls(r: Recursion): set<(nat, nat)> {
    if r.NoRecursion? then {} else {(r.group, r.pos)} + Calls(r.prev)
  }

  /** No call appears twice at the same position. */
  ghost predicate NoRepeats(r: Recursion) {
    r.Recursion? ==> (r.group, r.pos) !in Calls(r.prev) && NoRepeats(r.prev)
  }

  ghost function AllCalls(n: nat): set<(nat, nat)> {
    set g: nat, p: nat | 0 <= g < 65536 && 0 <= p <= n :: (g, p)
  }

  /** The number of calls that can still be nested inside the given chain. */
  ghost function CallsLeft(r: Recursion, n: nat): int {
    |AllCalls(n)| - |Calls(r)|
  }

  lemma PushCall(r: Recursion, group: nat, pos: nat, n: nat)
    requires group < 65536 && pos <= n && Calls(r) <= AllCalls(n) && (group, pos) !in Calls(r)
    ensures Calls(Recursion(group, pos, r)) <= AllCalls(n)
    ensures 0 <= CallsLeft(Recursion(group, pos, r), n) < CallsLeft(r, n)
  {
    SubsetSize(Calls(Recursion(group, pos, r)), AllCalls(n));
  }

  /** The data shared by all runs of one match. */
  class MatchData {
    const code: seq<byte>
    const env: Env
    ghost const x: PlainLinks
    ghost const root: Item
    var recursive: Recursion

    constructor (code: seq<byte>, env: Env, ghost x: PlainLinks, ghost root: Item)
      requires IsProgram(x, code, root) && env.Ok()
      ensures this.code == code && this.env == env && this.x == x && this.root == root
      ensures recursive == NoRecursion && Valid() && CallsOk()
    {
      this.code := code;
      this.env := env;
      this.x := x;
      this.root := root;
      recursive := NoRecursion;
    }

    ghost predicate Valid() {
      IsProgram(x, code, root) && env.Ok()
    }

    ghost predicate CallsOk()
      reads this
    {
      Calls(recursive) <= AllCalls(|env.s|) && NoRepeats(recursive)
    }

    ghost function CallFacts(): iset<Fact>
      requires Valid()
    {
      Facts(env, root)
    }
  }

  // ---------- what a run reports ----------

  ghost predicate Increasing(ends: seq<nat>) {
    forall i, j :: 0 <= i < j < |ends| ==> ends[i] < ends[j]
  }

  /** The ends, in increasing order, are all the positions where one pass through the
    * group that starts at current may end. */
  ghost predicate AllEnds(env: Env, root: Item, g: Item, current: nat, ends: seq<nat>)
    requires root.Group? && g.Group?
  {
    && Increasing(ends)
    && forall q: nat :: q in ends <==> MAlts(env, Facts(env, root), g.alts, current, q) && env.Allowed(current, q)
  }

  /** The return code for m matches when there is room for pairs of them. */
  function MatchCount(m: nat, pairs: nat): (r: int)
    ensures r >= PCRE_ERROR_NOMATCH
  {
    if m == 0 then PCRE_ERROR_NOMATCH else if m <= pairs then m else 0
  }

  /** No room for a state, too many matches of a called group, or a call that comes
    * back to itself without consuming anything. */
  predicate IsError(rc: int) {
    rc == PCRE_ERROR_DFA_WSSIZE || rc == PCRE_ERROR_DFA_RECURSE || rc == PCRE_ERROR_RECURSELOOP
  }

  /** The vector holds the last matches found, longest first, as many as fit. */
  ghost predicate VectorHolds(offsets: seq<int>, pairs: nat, current: nat, ends: seq<nat>) {
    && 2 * pairs <= |offsets|
    && forall k :: 0 <= k < pairs && k < |ends| ==>
         offsets[2 * k] == current && offsets[2 * k + 1] == ends[|ends| - 1 - k]
  }

  /** Shift the earlier matches up and store the new one in front. */
  method RecordMatch(offsets: array<int>, offsetcount: nat, current: nat, ptr: nat, matchCount: int,
                     ghost ends: seq<nat>)
    returns (count: int)
    requires offsetcount <= offsets.Length && offsetcount % 2 == 0
    requires VectorHolds(offsets[..], offsetcount / 2, current, ends)
    requires matchCount == MatchCount(|ends|, offsetcount / 2)
    modifies offsets
    ensures VectorHolds(offsets[..], offsetcount / 2, current, ends + [ptr])
    ensures count == MatchCount(|ends| + 1, offsetcount / 2)
  {
    count := matchCount;
    if count < 0 {
      count := if offsetcount >= 2 then 1 else 0;
    } else if count > 0 {
      count := count + 1;
      if count * 2 > offsetcount {
        count := 0;
      }
    }
    var keep := (if count == 0 then offsetcount else count * 2) - 2;
    if keep > 0 {
      forall i | 0 <= i < keep {
        offsets[i + 2] := offsets[i];
      }
    }
    if offsetcount >= 2 {
      offsets[0] := current;
      offsets[1] := ptr;
    }
    ghost var all := ends + [ptr];
    forall k | 0 <= k < offsetcount / 2 && k < |all|
      ensures offsets[2 * k] == current && offsets[2 * k + 1] == all[|all| - 1 - k]
    {
      if k > 0 {
        assert 2 * k - 2 < keep;
        assert offsets[2 * k] == old(offsets[2 * (k - 1)]);
        assert offsets[2 * k + 1] == old(offsets[2 * (k - 1) + 1]);
      }
    }
  }

  // ---------- the run ----------

  /** The machine of a run over the group g that starts at offset start. */
  ghost function RunMachine(md: MatchData, g: Item, start: nat): Machine
    requires md.Valid() && g.Group?
  {
    Machine(Decoded(md.code), md.env, KetOffset(start, g), md.CallFacts())
  }

  /** The offsets such a run visits. */
  ghost function RunOffsets(g: Item, start: nat): set<nat>
    requires g.Group?
  {
    AltsOffsets(g.alts, start + BraSize(g.bra)) + {KetOffset(start, g)}
  }

  ghost predicate FromStart(m: Machine, g: Item, start: nat, current: nat, c: Conf)
    requires g.Group?
  {
    exists o :: o in Starts(g.alts, start + BraSize(g.bra)) && Reaches(m, Conf(o, 0, current), c)
  }

  /** What the engine relies on at each offset of a run. */
  ghost predicate OffsetOk(md: MatchData, g: Item, start: nat, o: nat)
    requires md.Valid() && g.Group?
  {
    && 0 < o < |md.code|
    && Decode(md.code, o) != IBad
    && Decoded(md.code)[o] == Decode(md.code, o)
    && LinkedCall(md.x, md.code, o)
    && forall c: Conf, d: Conf :: c.o == o && Step(RunMachine(md, g, start), c, d) ==> d.o in RunOffsets(g, start)
  }

  lemma AltsOffsetsBound(alts: Alts, st: nat, o: nat)
    requires o in AltsOffsets(alts, st)
    ensures st <= o
    decreases alts
  {
    if o in BranchOffsets(alts.b, st) {
      BranchOffsetsBound(alts.b, st, o);
    } else if alts.More? && o != st + BranchSize(alts.b) {
      AltsOffsetsBound(alts.rest, st + BranchSize(alts.b) + 3, o);
    }
  }

  lemma BranchOffsetsBound(b: Branch, a: nat, o: nat)
    requires o in BranchOffsets(b, a)
    ensures a <= o
    decreases b
  {
    if o in Offsets(b.head, a) {
      OffsetsBound(b.head, a, o);
    } else {
      BranchOffsetsBound(b.tail, a + Size(b.head), o);
    }
  }

  lemma OffsetsBound(it: Item, a: nat, o: nat)
    requires o in Offsets(it, a)
    ensures a <= o
    decreases it
  {
    match it
    case Group(bra, _, alts, _) =>
      if o != a && o != KetOffset(a, it) {
        AltsOffsetsBound(alts, a + BraSize(bra), o);
      }
    case Zero(_, g) => if o != a { OffsetsBound(g, a + 1, o); }
    case _ =>
  }

  lemma RunIsConfined(md: MatchData, g: Item, start: nat, o: nat)
    requires md.Valid() && Laid(md.x, md.code, g, start) && o in RunOffsets(g, start)
    ensures CodeItem(Decoded(md.code), start, g)
    ensures OffsetOk(md, g, start, o)
  {
    var m := RunMachine(md, g, start);
    var st := start + BraSize(g.bra);
    ProgramTargets(md.x, md.code, md.root);
    ItemDecodes(md.x, md.code, start, g);
    GroupDecodes(md.x, md.code, start, g);
    if o != KetOffset(start, g) {
      AltsConfined(m, g.alts, st, KetOffset(start, g), o);
      AltsOffsetsBound(g.alts, st, o);
      AltsLinked(md.x, md.code, start, st, g.alts, start, g.ket, o);
    }
    DecodedToAt(md.code, |md.code|, o);
  }

  /** A repeat whose passes are counted: any but an unlimited one without a minimum. */
  predicate Counting(i: Instr) {
    i.IRep? && !(i.min == 0 && i.max == -1)
  }

  /** A configuration that a run from current reaches, with the bounds the engine
    * relies on. */
  ghost predicate GoodConf(md: MatchData, g: Item, start: nat, current: nat, c: Conf)
    requires md.Valid() && g.Group?
  {
    && c.o in RunOffsets(g, start)
    && c.cnt <= c.p <= |md.env.s|
    && (c.cnt > 0 ==> var i := Decode(md.code, c.o); Counting(i) && (i.max == -1 || c.cnt < i.max))
    && FromStart(RunMachine(md, g, start), g, start, current, c)
  }

  ghost function RunSpace(md: MatchData, g: Item, start: nat, current: nat): Space
    requires md.Valid() && g.Group?
  {
    Space(
      iset c: Conf | c.o in Starts(g.alts, start + BraSize(g.bra)) && c.cnt == 0 && c.p == current,
      iset e: Edge | Step(RunMachine(md, g, start), e.from, e.to),
      iset c: Conf | GoodConf(md, g, start, current, c))
  }

  /** A successor of a good configuration is good. */
  lemma StepIsGood(md: MatchData, g: Item, start: nat, current: nat, c: Conf, d: Conf)
    requires md.Valid() && Laid(md.x, md.code, g, start)
    requires GoodConf(md, g, start, current, c) && Step(RunMachine(md, g, start), c, d)
    ensures GoodConf(md, g, start, current, d)
  {
    var m := RunMachine(md, g, start);
    RunIsConfined(md, g, start, c.o);
    var o :| o in Starts(g.alts, start + BraSize(g.bra)) && Reaches(m, Conf(o, 0, current), c);
    ReachesSelf(m, d);
    ReachesStep(m, c, d, d);
    ReachesTrans(m, Conf(o, 0, current), c, d);
    FactsAreOk(md.env, md.root);
  }

  lemma StartIsGood(md: MatchData, g: Item, start: nat, current: nat, o: nat)
    requires md.Valid() && Laid(md.x, md.code, g, start) && current <= |md.env.s|
    requires o in Starts(g.alts, start + BraSize(g.bra))
    ensures GoodConf(md, g, start, current, Conf(o, 0, current))
  {
    hide IsProgram, LayItem, CodeItem, CodeAlts, OffsetOk, Offsets, AltsOffsets, Starts, Reaches, Decode, DecodedTo;
    var m := RunMachine(md, g, start);
    RunIsConfined(md, g, start, KetOffset(start, g));
    GroupParts(m.ins, g, start);
    StartsAreOffsets(m.ins, g.alts, start + BraSize(g.bra), KetOffset(start, g), o);
    ReachesSelf(m, Conf(o, 0, current));
  }

  lemma RunSpaceOk(md: MatchData, g: Item, start: nat, current: nat)
    requires md.Valid() && Laid(md.x, md.code, g, start) && current <= |md.env.s|
    ensures RunSpace(md, g, start, current).Ok()
  {
    var sp := RunSpace(md, g, start, current);
    forall c: Conf | c in sp.starts ensures c in sp.good {
      StartIsGood(md, g, start, current, c.o);
      assert c == Conf(c.o, 0, current);
    }
    forall e: Edge | e in sp.edges && e.from in sp.good ensures e.to in sp.good {
      StepIsGood(md, g, start, current, e.from, e.to);
    }
  }

  /** What the engine needs to know about a configuration before it expands it. */
  ghost predicate ConfReady(md: MatchData, c: Conf) {
    && 0 < c.o < |md.code| && c.cnt <= c.p <= |md.env.s|
    && Decode(md.code, c.o) != IBad && LinkedCall(md.x, md.code, c.o)
    && var i := Decode(md.code, c.o); (i.IRep? && i.max != -1 ==> c.cnt < i.max)
  }

  lemma EndIsKet(md: MatchData, g: Item, start: nat)
    requires md.Valid() && Laid(md.x, md.code, g, start)
    ensures var k := KetOffset(start, g); k < |md.code| && IsKet(md.code[k]) && Decode(md.code, k).IKet?
  {
    hide LayItem, ChainOk, EndOf, AltStarts, Starts;
    GroupLinks(md.x, md.code, start, g);
  }

  lemma InsideIsPositive(md: MatchData, g: Item, start: nat, o: nat)
    requires md.Valid() && Laid(md.x, md.code, g, start) && o in RunOffsets(g, start) && o != KetOffset(start, g)
    ensures Positive(Decode(md.code, o))
  {
    RunIsConfined(md, g, start, o);
    var i := Decode(md.code, o);
    if i.IKet? && i.back.Some? {
      assert Step(RunMachine(md, g, start), Conf(o, 0, 0), Conf(i.back.value, 0, 0));
      RunIsConfined(md, g, start, i.back.value);
    }
    DecodedIsPositive(md.code, o);
  }

  lemma GoodIsReady(md: MatchData, g: Item, start: nat, current: nat, c: Conf)
    requires md.Valid() && Laid(md.x, md.code, g, start) && c in RunSpace(md, g, start, current).good
    ensures ConfReady(md, c)
    ensures if c.o == KetOffset(start, g) then IsKet(md.code[c.o]) && c.cnt == 0 else Positive(Decode(md.code, c.o))
  {
    hide Decode, Positive, FromStart, LinkedCall, Decoded, IsProgram, LayItem, Step;
    RunIsConfined(md, g, start, c.o);
    if c.o == KetOffset(start, g) {
      EndIsKet(md, g, start);
    } else {
      InsideIsPositive(md, g, start, c.o);
    }
    DecodedBounds(md.code, c.o);
  }

  /** What the engine adds for a state is its successors in the run. */
  lemma ExpandsIsSuccessors(md: MatchData, g: Item, start: nat, current: nat, c: Conf,
                            now: seq<StateBlock>, next: seq<StateBlock>)
    requires md.Valid() && Laid(md.x, md.code, g, start) && c in RunSpace(md, g, start, current).good
    requires if c.o == KetOffset(start, g) then now == next == []
             else Expands(md.env, md.CallFacts(), Decode(md.code, c.o), c, now, next)
    ensures Successors(RunSpace(md, g, start, current), c, now, next)
  {
    RunIsConfined(md, g, start, c.o);
    var sp := RunSpace(md, g, start, current);
    forall d: Conf ensures Edge(c, d) in sp.edges <==> Listed(now, c.p, d) || Listed(next, c.p + 1, d) {
      assert Edge(c, d) in sp.edges <==> Step(RunMachine(md, g, start), c, d);
    }
  }

  // ---------- calls that come back to themselves ----------

  /** The run of the called group can be put on the chain. */
  ghost predicate CanPush(md: MatchData, chain: Recursion, i: Instr, p: nat)
    requires md.Valid() && i.ICall?
  {
    i.num < 65536 && p <= |md.env.s| && Calls(chain) <= AllCalls(|md.env.s|) && Callee(md.root, i.num).Some?
  }

  /** A call made at p comes back to one in progress: it is in progress itself, or the
    * run of the called group makes a call that comes back to one in progress. */
  ghost predicate CallLoops(md: MatchData, chain: Recursion, i: Instr, p: nat)
    requires md.Valid() && i.ICall?
    decreases CallsLeft(chain, |md.env.s|), 0
  {
    (i.num, p) in Calls(chain) ||
    (CanPush(md, chain, i, p) &&
     (PushCall(chain, i.num, p, |md.env.s|);
      RunLoops(md, Recursion(i.num, p, chain), Callee(md.root, i.num).value, i.target, p)))
  }

  /** The run reaches the configuration, and the call it makes there comes back. */
  ghost predicate LoopsAt(md: MatchData, chain: Recursion, g: Item, start: nat, current: nat, c: Conf)
    requires md.Valid() && g.Group?
    decreases CallsLeft(chain, |md.env.s|), 1
  {
    && c in RunSpace(md, g, start, current).good
    && Decode(md.code, c.o).ICall?
    && CallLoops(md, chain, Decode(md.code, c.o), c.p)
  }

  ghost predicate RunLoops(md: MatchData, chain: Recursion, g: Item, start: nat, current: nat)
    requires md.Valid() && g.Group?
    decreases CallsLeft(chain, |md.env.s|), 2
  {
    exists c: Conf :: LoopsAt(md, chain, g, start, current, c)
  }

  /** None of the calls that were expanded comes back. */
  ghost predicate Quiet(md: MatchData, chain: Recursion, done: set<Conf>)
    requires md.Valid()
  {
    forall c: Conf :: c in done && Decode(md.code, c.o).ICall? ==> !CallLoops(md, chain, Decode(md.code, c.o), c.p)
  }

  lemma QuietStep(md: MatchData, chain: Recursion, done: set<Conf>, c: Conf)
    requires md.Valid() && Quiet(md, chain, done)
    requires Decode(md.code, c.o).ICall? ==> !CallLoops(md, chain, Decode(md.code, c.o), c.p)
    ensures Quiet(md, chain, done + {c})
  {
    hide IsProgram, Decode, CallLoops;
  }

  lemma QuietAtFirst(md: MatchData, chain: Recursion)
    requires md.Valid()
    ensures Quiet(md, chain, {})
  {
  }

  lemma LoopFound(md: MatchData, chain: Recursion, g: Item, start: nat, current: nat, c: Conf)
    requires md.Valid() && g.Group? && c in RunSpace(md, g, start, current).good
    requires Decode(md.code, c.o).ICall? && CallLoops(md, chain, Decode(md.code, c.o), c.p)
    ensures RunLoops(md, chain, g, start, current)
  {
    hide IsProgram, RunSpace, Decode, CallLoops;
    assert LoopsAt(md, chain, g, start, current, c);
  }

  /** What a call that is not in progress comes down to. */
  lemma CallLoopsInside(md: MatchData, chain: Recursion, i: Instr, p: nat)
    requires md.Valid() && i.ICall? && CanPush(md, chain, i, p) && (i.num, p) !in Calls(chain)
    ensures CallLoops(md, chain, i, p)
           <==> RunLoops(md, Recursion(i.num, p, chain), Callee(md.root, i.num).value, i.target, p)
  {
    hide IsProgram, RunLoops, FindGroup;
  }

  lemma CallLoopsNow(md: MatchData, chain: Recursion, i: Instr, p: nat)
    requires md.Valid() && i.ICall? && (i.num, p) in Calls(chain)
    ensures CallLoops(md, chain, i, p)
  {
    hide IsProgram, RunLoops;
  }

  // ---------- how much workspace is enough ----------

  /** The subroutine calls among the offsets that a run visits. */
  ghost function CallOffsets(md: MatchData, g: Item, start: nat): set<nat>
    requires g.Group?
  {
    set o | o in RunOffsets(g, start) && o < |md.code| && md.code[o] == OP_RECURSE
  }

  /** Does the run count the passes of a repeat? */
  ghost predicate Counts(md: MatchData, g: Item, start: nat)
    requires g.Group?
  {
    exists o :: o in RunOffsets(g, start) && Counting(Decode(md.code, o))
  }

  /** What a run can need: the most configurations at one position, the most states that one
    * of them adds, the calls that can be made at one position, and the length of the
    * subject. */
  datatype Need = Need(confs: nat, width: nat, calls: nat, n: nat)

  ghost function NeedOf(md: MatchData, g: Item, start: nat): Need
    requires g.Group?
  {
    var m := |RunOffsets(g, start)|;
    Need(m * (TopCount(md, g, start) + 1), m + 2, |CallOffsets(md, g, start)|, |md.env.s|)
  }

  /** The largest count that a configuration of the run can have. */
  ghost function TopCount(md: MatchData, g: Item, start: nat): nat
    requires g.Group?
  {
    if Counts(md, g, start) then |md.env.s| else 0
  }

  /** The states held back for calls, when calls have been made at this many places. */
  function HeldFor(need: Need, places: nat): nat {
    places * (need.n + 1)
  }

  /** The length of the lists that always suffices. */
  function ListsFor(need: Need): nat {
    need.confs + need.width * need.confs + HeldFor(need, need.calls * (need.n + 1))
  }

  /** The length of the lists in a workspace of so many units. */
  function ListLimit(wscount: int): int {
    (wscount - 2) / (2 * INTS_PER_STATEBLOCK)
  }

  /** A call made at p is one in progress, or the run of the called group fits into the inner
    * workspace and its matches into the inner vector. */
  ghost predicate CallFits(md: MatchData, chain: Recursion, i: Instr, p: nat)
    requires md.Valid() && i.ICall?
    decreases CallsLeft(chain, |md.env.s|), 0
  {
    (i.num, p) in Calls(chain) ||
    (CanPush(md, chain, i, p) && |md.env.s| < LOCAL_SIZE / 2 &&
     (PushCall(chain, i.num, p, |md.env.s|);
      RunFits(md, Recursion(i.num, p, chain), Callee(md.root, i.num).value, i.target, p, ListLimit(LOCAL_SIZE))))
  }

  /** If the run makes a call in this configuration, the call fits. */
  ghost predicate FitsAt(md: MatchData, chain: Recursion, g: Item, start: nat, current: nat, c: Conf)
    requires md.Valid() && g.Group?
    decreases CallsLeft(chain, |md.env.s|), 1
  {
    c in RunSpace(md, g, start, current).good && Decode(md.code, c.o).ICall? ==>
      CallFits(md, chain, Decode(md.code, c.o), c.p)
  }

  /** The lists are long enough for the run, and every call that it makes fits. */
  ghost predicate RunFits(md: MatchData, chain: Recursion, g: Item, start: nat, current: nat, limit: int)
    requires md.Valid() && g.Group?
    decreases CallsLeft(chain, |md.env.s|), 2
  {
    ListsFor(NeedOf(md, g, start)) <= limit && forall c: Conf :: FitsAt(md, chain, g, start, current, c)
  }

  /** The run does not call itself without end, and there is room for it. */
  ghost predicate Succeeds(md: MatchData, chain: Recursion, g: Item, start: nat, current: nat, limit: int)
    requires md.Valid() && g.Group?
  {
    !RunLoops(md, chain, g, start, current) && RunFits(md, chain, g, start, current, limit)
  }

  /** If the instruction is a call, it does not come back and there is room for it. */
  ghost predicate GoesThrough(md: MatchData, chain: Recursion, i: Instr, p: nat)
    requires md.Valid()
  {
    i.ICall? ==> !CallLoops(md, chain, i, p) && CallFits(md, chain, i, p)
  }

  lemma SucceedsAt(md: MatchData, chain: Recursion, g: Item, start: nat, current: nat, limit: int, c: Conf)
    requires md.Valid() && g.Group? && c in RunSpace(md, g, start, current).good
    requires Succeeds(md, chain, g, start, current, limit)
    ensures GoesThrough(md, chain, Decode(md.code, c.o), c.p)
  {
    hide IsProgram, RunSpace, Decode, CallLoops, CallFits, NeedOf, ListsFor;
    assert FitsAt(md, chain, g, start, current, c);
    assert !LoopsAt(md, chain, g, start, current, c);
  }

  lemma CallFitsInside(md: MatchData, chain: Recursion, i: Instr, p: nat)
    requires md.Valid() && i.ICall? && CallFits(md, chain, i, p) && (i.num, p) !in Calls(chain)
    ensures |md.env.s| < LOCAL_SIZE / 2 && Callee(md.root, i.num).Some?
    ensures RunFits(md, Recursion(i.num, p, chain), Callee(md.root, i.num).value, i.target, p, ListLimit(LOCAL_SIZE))
  {
    hide IsProgram, FindGroup, RunSpace, NeedOf, ListsFor;
  }

  lemma CallOperands(code: seq<byte>, o: nat)
    requires Decode(code, o).ICall?
    ensures o + 3 <= |code|
    ensures var i, t := Decode(code, o), Get(code, o + 1);
            && i.target == t
            && (if t == 0 then i.num == 0 else t + 4 < |code| && i.num == Get(code, t + 3))
            && i.num < 65536
  {
    hide ChainOk, EndOf, AltStarts;
  }

  /** Is the group already being called at this position? */
  method InProgress(chain: Recursion, recno: nat, ptr: nat) returns (found: bool)
    ensures found == ((recno, ptr) in Calls(chain))
  {
    var ri := chain;
    while ri.Recursion?
      invariant (recno, ptr) in Calls(chain) <==> (recno, ptr) in Calls(ri)
      decreases ri
    {
      if recno == ri.group && ptr == ri.pos {
        return true;
      }
      ri := ri.prev;
    }
    return false;
  }

  lemma RootIsGroup(md: MatchData)
    requires md.Valid()
    ensures md.root.Group?
  {
  }

  /** A run reports more matches of a called group than its vector holds only on a subject
    * that is long enough for so many. */
  ghost predicate Overflowing(rc: int, n: nat) {
    rc == PCRE_ERROR_DFA_RECURSE ==> n >= LOCAL_SIZE / 2
  }

  lemma {:induction false} IncreasingFits(ends: seq<nat>, lo: nat, hi: nat)
    requires Increasing(ends) && forall q :: q in ends ==> lo <= q <= hi
    ensures ends != [] ==> |ends| <= ends[|ends| - 1] - lo + 1
    ensures lo <= hi ==> |ends| <= hi - lo + 1
  {
    if ends != [] {
      var before := ends[..|ends| - 1];
      assert forall q :: q in before ==> q in ends;
      IncreasingFits(before, lo, hi);
      assert ends[|ends| - 1] in ends;
      if |ends| > 1 {
        assert ends[|ends| - 2] < ends[|ends| - 1];
      }
    }
  }

  /** Run the called group, which is not being called at ptr, with itself on the chain. */
  method RunCallee(md: MatchData, recno: nat, callpat: nat, ptr: nat, local: array<int>, ghost i: Instr)
    returns (rc: int, ghost ends: seq<nat>)
    requires md.Valid() && md.CallsOk() && ptr <= |md.env.s| && (recno, ptr) !in Calls(md.recursive) && recno < 65536
    requires i.ICall? && i.num == recno && i.target == callpat && recno in md.x.target && callpat == md.x.target[recno]
    requires local.Length == LOCAL_SIZE
    modifies md, local
    ensures md.recursive == old(md.recursive)
    ensures rc >= PCRE_ERROR_NOMATCH || IsError(rc)
    ensures rc >= PCRE_ERROR_NOMATCH ==>
              && VectorHolds(local[..], local.Length / 2, ptr, ends) && rc == MatchCount(|ends|, local.Length / 2)
              && (forall q: nat :: Fact(recno, ptr, q) in md.CallFacts() <==> q in ends)
              && (forall q :: q in ends ==> ptr <= q) && Increasing(ends)
              && !CallLoops(md, md.recursive, i, ptr) && |ends| <= |md.env.s| - ptr + 1
    ensures rc == PCRE_ERROR_RECURSELOOP ==> CallLoops(md, md.recursive, i, ptr)
    ensures Overflowing(rc, |md.env.s|)
    ensures GoesThrough(md, md.recursive, i, ptr) ==> rc >= PCRE_ERROR_NOMATCH && |md.env.s| < LOCAL_SIZE / 2
    decreases CallsLeft(md.recursive, |md.env.s|), 0
  {
    hide Increasing, VectorHolds, LayItem, AllCalls, MAlts, FindGroup, CallLoops, RunLoops, IsProgram, AllEnds,
      MatchCount, Facts, CallFits, RunFits;
    RootIsGroup(md);
    CalleeIsLaid(md.x, md.code, md.root, recno);
    ghost var g := Callee(md.root, recno).value;
    var previous := md.recursive;
    PushCall(previous, recno, ptr, |md.env.s|);
    CallLoopsInside(md, previous, i, ptr);
    if CallFits(md, previous, i, ptr) {
      CallFitsInside(md, previous, i, ptr);
    }
    md.recursive := Recursion(recno, ptr, previous);
    rc, ends := InternalDfaExec(md, g, callpat, ptr, local, LOCAL_SIZE);
    md.recursive := previous;
    if rc >= PCRE_ERROR_NOMATCH {
      EndsAreFacts(md, i, g, ptr, ends);
      EndsIncrease(md, g, ptr, ends);
      CallEndsFit(md, i, ptr, ends, g);
    }
  }

  lemma EndsIncrease(md: MatchData, g: Item, ptr: nat, ends: seq<nat>)
    requires md.root.Group? && g.Group? && AllEnds(md.env, md.root, g, ptr, ends)
    ensures Increasing(ends)
  {
    hide Increasing, MAlts;
  }

  lemma CallEndsFit(md: MatchData, i: Instr, ptr: nat, ends: seq<nat>, g: Item)
    requires md.Valid() && i.ICall? && ptr <= |md.env.s| && md.root.Group? && g.Group?
    requires AllEnds(md.env, md.root, g, ptr, ends)
    requires forall q: nat :: Fact(i.num, ptr, q) in md.CallFacts() <==> q in ends
    ensures |ends| <= |md.env.s| - ptr + 1
  {
    hide Facts, MAlts, IsProgram;
    FactsAreOk(md.env, md.root);
    forall q | q in ends ensures ptr <= q <= |md.env.s| {
      assert Fact(i.num, ptr, q) in md.CallFacts();
    }
    IncreasingFits(ends, ptr, |md.env.s|);
  }

  /** Run the called group at ptr and hold back one state for each length it matched. */
  method ExpandCall(md: MatchData, o: nat, cnt: nat, ptr: nat, active: seq<StateBlock>, coming: seq<StateBlock>,
                    limit: int)
    returns (err: int, act: seq<StateBlock>, fr: seq<StateBlock>, ghost now: seq<StateBlock>,
             ghost next: seq<StateBlock>)
    requires md.Valid() && md.CallsOk() && 0 < o && ptr <= |md.env.s|
    requires Decode(md.code, o).ICall? && LinkedCall(md.x, md.code, o)
    modifies md
    ensures md.recursive == old(md.recursive)
    ensures err == 0 || IsError(err)
    ensures err == 0 ==> act == active + now && fr == coming + next
    ensures err == 0 ==> Expands(md.env, md.CallFacts(), Decode(md.code, o), Conf(o, cnt, ptr), now, next)
    ensures err == 0 ==> !CallLoops(md, md.recursive, Decode(md.code, o), ptr)
    ensures err == PCRE_ERROR_RECURSELOOP ==> CallLoops(md, md.recursive, Decode(md.code, o), ptr)
    ensures Overflowing(err, |md.env.s|)
    ensures err == 0 ==> Few(Decode(md.code, o), |md.env.s|, now, next)
    ensures GoesThrough(md, md.recursive, Decode(md.code, o), ptr) ==>
              |active| < limit && |coming| + |md.env.s| + 1 <= limit ==> err == 0
    decreases CallsLeft(md.recursive, |md.env.s|), 1
  {
    hide VectorHolds, Expands, AllCalls, CallNow, CallNext, CallLoops, Decode, IsProgram, Facts, Calls, CallFits,
      Increasing;
    act, fr, now, next, err := active, coming, [], [], 0;
    ghost var i := Decode(md.code, o);
    CallOperands(md.code, o);
    var callpat := Get(md.code, o + 1);
    var recno := if callpat == 0 then 0 else Get(md.code, callpat + 3);
    var looping := InProgress(md.recursive, recno, ptr);
    if looping {
      CallLoopsNow(md, md.recursive, i, ptr);
      err := PCRE_ERROR_RECURSELOOP;
      return;
    }
    var local := new int[LOCAL_SIZE];
    var rc, ends := RunCallee(md, recno, callpat, ptr, local, i);
    if rc == 0 {
      err := PCRE_ERROR_DFA_RECURSE;
      return;
    }
    if rc < PCRE_ERROR_NOMATCH {
      err := rc;
      return;
    }
    var ok;
    CallStatesFew(o, ptr, ends, |ends|);
    ok, act, fr := AddCallStates(o, ptr, local, rc, ends, active, coming, limit);
    now, next := CallNow(o, ptr, ends, |ends|), CallNext(o, ptr, ends, |ends|);
    err := if ok then 0 else PCRE_ERROR_DFA_WSSIZE;
    CallNextOffset(md.code, o);
    FactsReady(md);
    NoneHeld(now);
    AllHeld(next);
    CallExpands(md.env, md.CallFacts(), i, Conf(o, cnt, ptr), ends, now, next);
  }

  lemma FactsReady(md: MatchData)
    requires md.Valid()
    ensures md.root.Group? && FactsOk(md.env, md.CallFacts())
  {
    FactsAreOk(md.env, md.root);
  }

  lemma CallNextOffset(code: seq<byte>, o: nat)
    requires Decode(code, o).ICall?
    ensures Decode(code, o).next == o + 3
  {
    hide ChainOk, EndOf, AltStarts;
  }

  /** The ends found for the called group are the facts about the call. */
  lemma EndsAreFacts(md: MatchData, i: Instr, g: Item, ptr: nat, ends: seq<nat>)
    requires md.Valid() && i.ICall? && Callee(md.root, i.num) == Some(g) && g.Group? && ptr <= |md.env.s|
    requires AllEnds(md.env, md.root, g, ptr, ends)
    ensures forall q: nat :: Fact(i.num, ptr, q) in md.CallFacts() <==> q in ends
    ensures forall q :: q in ends ==> ptr <= q
  {
    RootIsGroup(md);
    hide IsProgram, Increasing, FindGroup, MAlts, Facts;
    FactsAreOk(md.env, md.root);
    forall q: nat ensures Fact(i.num, ptr, q) in md.CallFacts() <==> q in ends {
      CallsAreClosed(md.env, md.root, Fact(i.num, ptr, q));
    }
    forall q | q in ends ensures ptr <= q {
      AltsBounds(md.env, md.CallFacts(), g.alts, ptr, q);
    }
  }

  /** The states for a call that may end at each of the first j of the given positions. */
  ghost function CallNow(o: nat, ptr: nat, ends: seq<nat>, j: nat): (r: seq<StateBlock>)
    requires j <= |ends|
    ensures forall st :: st in r ==> st == StateBlock(o + 3, 0, 0)
  {
    if j == 0 then []
    else CallNow(o, ptr, ends, j - 1) + if ends[j - 1] <= ptr then [StateBlock(o + 3, 0, 0)] else []
  }

  ghost function CallNext(o: nat, ptr: nat, ends: seq<nat>, j: nat): (r: seq<StateBlock>)
    requires j <= |ends|
    ensures forall st :: st in r ==> st.offset == -(o + 3) && st.count == 0
  {
    if j == 0 then []
    else
      CallNext(o, ptr, ends, j - 1) +
      if ends[j - 1] > ptr then [StateBlock(-(o + 3), 0, ends[j - 1] - ptr - 1)] else []
  }

  lemma {:induction false} CallStatesAdd(o: nat, ptr: nat, ends: seq<nat>, j: nat)
    requires j <= |ends|
    ensures |CallNow(o, ptr, ends, j)| + |CallNext(o, ptr, ends, j)| == j
    decreases j
  {
    if j > 0 {
      CallStatesAdd(o, ptr, ends, j - 1);
    }
  }

  /** Of all the ends no more than one is the position of the call itself. */
  lemma {:induction false} CallStatesFew(o: nat, ptr: nat, ends: seq<nat>, j: nat)
    requires Increasing(ends) && j <= |ends| && forall q :: q in ends ==> ptr <= q
    ensures |CallNow(o, ptr, ends, j)| <= (if j == 0 || ends[0] > ptr then 0 else 1) && |CallNext(o, ptr, ends, j)| <= j
    decreases j
  {
    if j > 0 {
      CallStatesFew(o, ptr, ends, j - 1);
      assert ends[0] in ends;
      if j > 1 {
        assert ends[0] < ends[j - 1];
      }
    }
  }

  lemma ListedJoin(a: seq<StateBlock>, b: seq<StateBlock>, ptr: nat, d: Conf)
    ensures Listed(a + b, ptr, d) <==> Listed(a, ptr, d) || Listed(b, ptr, d)
  {
  }

  lemma ListedOne(st: StateBlock, ptr: nat, d: Conf)
    ensures Listed([st], ptr, d) <==>
            || (d.p == ptr && st == StateBlock(d.o, d.cnt, 0))
            || (d.p >= ptr && st == StateBlock(-(d.o as int), d.cnt, d.p - ptr))
    ensures !Listed([], ptr, d)
  {
  }

  /** One state stands for one end of the call. */
  lemma EndListed(o: nat, ptr: nat, e: nat, d: Conf)
    requires ptr <= e
    ensures var now := if e <= ptr then [StateBlock(o + 3, 0, 0)] else [];
            var next := if e > ptr then [StateBlock(-(o + 3), 0, e - ptr - 1)] else [];
            Listed(now, ptr, d) || Listed(next, ptr + 1, d) <==> d == Conf(o + 3, 0, e)
  {
    hide Listed;
    ListedOne(StateBlock(o + 3, 0, 0), ptr, d);
    ListedOne(StateBlock(-(o + 3), 0, if e > ptr then e - ptr - 1 else 0), ptr + 1, d);
  }

  lemma {:induction false} CallListed(o: nat, ptr: nat, ends: seq<nat>, j: nat, d: Conf)
    requires j <= |ends| && forall i :: 0 <= i < |ends| ==> ptr <= ends[i]
    ensures Listed(CallNow(o, ptr, ends, j), ptr, d) || Listed(CallNext(o, ptr, ends, j), ptr + 1, d)
            <==> d == Conf(o + 3, 0, d.p) && exists i :: 0 <= i < j && ends[i] == d.p
  {
    hide Listed;
    if j == 0 {
      ListedOne(StateBlock(1, 0, 0), ptr, d);
      ListedOne(StateBlock(1, 0, 0), ptr + 1, d);
    } else {
      CallListed(o, ptr, ends, j - 1, d);
      var e := ends[j - 1];
      var now := if e <= ptr then [StateBlock(o + 3, 0, 0)] else [];
      var next := if e > ptr then [StateBlock(-(o + 3), 0, e - ptr - 1)] else [];
      ListedJoin(CallNow(o, ptr, ends, j - 1), now, ptr, d);
      ListedJoin(CallNext(o, ptr, ends, j - 1), next, ptr + 1, d);
      EndListed(o, ptr, e, d);
    }
  }

  lemma {:induction false} CallNextBound(o: nat, ptr: nat, ends: seq<nat>, j: nat, n: nat)
    requires j <= |ends| && forall i :: 0 <= i < |ends| ==> ends[i] <= n
    ensures forall st :: st in CallNext(o, ptr, ends, j) ==> ptr + 1 + st.data <= n
  {
    if j > 0 {
      CallNextBound(o, ptr, ends, j - 1, n);
    }
  }

  lemma CallExpands(env: Env, facts: iset<Fact>, i: Instr, c: Conf, ends: seq<nat>,
                    now: seq<StateBlock>, next: seq<StateBlock>)
    requires i.ICall? && i.next == c.o + 3 && FactsOk(env, facts)
    requires forall q: nat :: Fact(i.num, c.p, q) in facts <==> q in ends
    requires now == CallNow(c.o, c.p, ends, |ends|) && next == CallNext(c.o, c.p, ends, |ends|)
    ensures Expands(env, facts, i, c, now, next)
  {
    hide CallNow, CallNext;
    forall k | 0 <= k < |ends| ensures c.p <= ends[k] <= |env.s| {
      assert Fact(i.num, c.p, ends[k]) in facts;
    }
    CallNextBound(c.o, c.p, ends, |ends|, |env.s|);
    forall d: Conf ensures Does(env, facts, i, c, d) <==> Listed(now, c.p, d) || Listed(next, c.p + 1, d) {
      CallListed(c.o, c.p, ends, |ends|, d);
    }
  }

  /** One state for each match of the called group, the shortest first. */
  method AddCallStates(o: nat, ptr: nat, local: array<int>, rc: int, ghost ends: seq<nat>,
                       active: seq<StateBlock>, coming: seq<StateBlock>, limit: int)
    returns (ok: bool, act: seq<StateBlock>, fr: seq<StateBlock>)
    requires rc != 0 && rc == MatchCount(|ends|, local.Length / 2)
    requires VectorHolds(local[..], local.Length / 2, ptr, ends)
    requires forall q :: q in ends ==> ptr <= q
    ensures ok ==> act == active + CallNow(o, ptr, ends, |ends|) && fr == coming + CallNext(o, ptr, ends, |ends|)
    ensures |active| + |CallNow(o, ptr, ends, |ends|)| <= limit && |coming| + |ends| <= limit ==> ok
  {
    act, fr, ok := active, coming, true;
    var k := if rc > 0 then rc else 0;
    while k > 0
      invariant 0 <= k <= |ends|
      invariant act == active + CallNow(o, ptr, ends, |ends| - k)
      invariant fr == coming + CallNext(o, ptr, ends, |ends| - k)
    {
      CallNowGrows(o, ptr, ends, |ends| - k + 1, |ends|);
      CallStatesAdd(o, ptr, ends, |ends| - k + 1);
      k := k - 1;
      assert ends[|ends| - 1 - k] in ends;
      var charcount := local[2 * k + 1] - local[2 * k];
      assert charcount == ends[|ends| - 1 - k] - ptr;
      if charcount > 0 {
        ok, fr := Add(fr, limit, StateBlock(-(o + 3), 0, charcount - 1));
      } else {
        ok, act := Add(act, limit, StateBlock(o + 3, 0, 0));
      }
      if !ok {
        return;
      }
    }
  }

  lemma {:induction false} CallNowGrows(o: nat, ptr: nat, ends: seq<nat>, j: nat, k: nat)
    requires j <= k <= |ends|
    ensures |CallNow(o, ptr, ends, j)| <= |CallNow(o, ptr, ends, k)|
    decreases k
  {
    if j < k {
      CallNowGrows(o, ptr, ends, j, k - 1);
    }
  }

  /** Is the state a repetition of an earlier one in the list? */
  method IsDuplicate(active: seq<StateBlock>, i: nat) returns (dup: bool)
    requires i < |active|
    ensures dup
           <==> exists j :: 0 <= j < i && active[j].offset == active[i].offset && active[j].count == active[i].count
  {
    var j := 0;
    while j < i
      invariant 0 <= j <= i
      invariant forall k :: 0 <= k < j ==> active[k].offset != active[i].offset || active[k].count != active[i].count
    {
      if active[j].offset == active[i].offset && active[j].count == active[i].count {
        return true;
      }
      j := j + 1;
    }
    return false;
  }

  /** What an instruction can add. */
  ghost predicate Few(i: Instr, n: nat, now: seq<StateBlock>, next: seq<StateBlock>) {
    && |now| <= Widest(i) && Held(now) == 0
    && if i.ICall? then |next| <= n + 1 && Held(next) == |next| else |next| <= 1 && Held(next) == 0
  }

  /** How many of the states are held back. */
  function Held(list: seq<StateBlock>): (h: nat)
    ensures h <= |list|
  {
    if list == [] then 0 else (if list[0].offset < 0 then 1 else 0) + Held(list[1..])
  }

  lemma {:induction false} HeldJoin(a: seq<StateBlock>, b: seq<StateBlock>)
    ensures Held(a + b) == Held(a) + Held(b)
    decreases |a|
  {
    if a == [] {
      assert a + b == b;
    } else {
      assert (a + b)[1..] == a[1..] + b;
      HeldJoin(a[1..], b);
    }
  }

  lemma {:induction false} NoneHeld(list: seq<StateBlock>)
    requires forall st :: st in list ==> st.offset >= 0
    ensures Held(list) == 0
  {
    if list != [] {
      assert list[0] in list;
      NoneHeld(list[1..]);
    }
  }

  lemma {:induction false} AllHeld(list: seq<StateBlock>)
    requires forall st :: st in list ==> st.offset < 0
    ensures Held(list) == |list|
  {
    if list != [] {
      assert list[0] in list;
      AllHeld(list[1..]);
    }
  }

  /** One state that is not a duplicate. */
  method ExpandState(md: MatchData, o: nat, cnt: nat, ptr: nat,
                     active: seq<StateBlock>, coming: seq<StateBlock>, limit: int)
    returns (err: int, act: seq<StateBlock>, fr: seq<StateBlock>, ghost now: seq<StateBlock>,
             ghost next: seq<StateBlock>)
    requires md.Valid() && md.CallsOk() && 0 < o && ptr <= |md.env.s|
    requires Decode(md.code, o) != IBad && LinkedCall(md.x, md.code, o) && Positive(Decode(md.code, o))
    requires var i := Decode(md.code, o); i.IRep? && i.max != -1 ==> cnt < i.max
    modifies md
    ensures md.recursive == old(md.recursive)
    ensures err == 0 || IsError(err)
    ensures err == 0 ==> act == active + now && fr == coming + next
    ensures err == 0 ==> Expands(md.env, md.CallFacts(), Decode(md.code, o), Conf(o, cnt, ptr), now, next)
    ensures var i := Decode(md.code, o);
            && (err == 0 ==> Few(i, |md.env.s|, now, next))
            && (err != 0 && GoesThrough(md, md.recursive, i, ptr) ==>
                  || |active| + Widest(i) > limit
                  || |coming| + (if i.ICall? then |md.env.s| + 1 else 1) > limit)
    ensures Decode(md.code, o).ICall? && err == 0 ==> !CallLoops(md, md.recursive, Decode(md.code, o), ptr)
    ensures err == PCRE_ERROR_RECURSELOOP ==>
              Decode(md.code, o).ICall? && CallLoops(md, md.recursive, Decode(md.code, o), ptr)
    ensures Overflowing(err, |md.env.s|)
    decreases CallsLeft(md.recursive, |md.env.s|), 2
  {
    hide CallLoops, CallFits;
    var op := md.code[o];
    if op == OP_RECURSE {
      err, act, fr, now, next := ExpandCall(md, o, cnt, ptr, active, coming, limit);
      return;
    }
    var ok;
    act, fr := active, coming;
    if IsRepeat(op) {
      ok, act, fr := ExpandRepeated(md.env, md.code, o, cnt, ptr, active, coming, limit);
    } else if IsClass(op) {
      ok, act, fr := ExpandClass(md.env, md.code, o, cnt, ptr, active, coming, limit);
    } else if IsSingleChar(op) || IsType(op) {
      ok, fr := ExpandSingle(md.env, md.code, o, cnt, ptr, coming, limit);
    } else if IsBra(op) || IsZero(op) {
      ok, act := ExpandOpening(md.env, md.code, o, cnt, ptr, active, limit);
    } else {
      ok, act := ExpandClosing(md.env, md.code, o, cnt, ptr, active, limit);
    }
    err := if ok then 0 else PCRE_ERROR_DFA_WSSIZE;
    StatesExpand(md.env, md.CallFacts(), Decode(md.code, o), Conf(o, cnt, ptr));
    StatesAreFew(md.env, Decode(md.code, o), Conf(o, cnt, ptr));
    NoneHeldOf(md.env, md.CallFacts(), Decode(md.code, o), Conf(o, cnt, ptr));
    now := NowStates(md.env, Decode(md.code, o), Conf(o, cnt, ptr));
    next := NextStates(md.env, Decode(md.code, o), Conf(o, cnt, ptr));
  }

  lemma NoneHeldOf(env: Env, facts: iset<Fact>, i: Instr, c: Conf)
    requires !i.ICall? && Positive(i) && c.o > 0
    ensures Held(NowStates(env, i, c)) == 0 && Held(NextStates(env, i, c)) == 0
  {
    StatesExpand(env, facts, i, c);
    NoneHeld(NowStates(env, i, c));
    StatesAreFew(env, i, c);
    NoneHeld(NextStates(env, i, c));
  }

  // ---------- the two loops ----------

  /** Every configuration that can occur. */
  ghost function Universe(codeSize: nat, n: nat): set<Conf> {
    set o: nat, cnt: nat, p: nat | 0 <= o < codeSize && 0 <= cnt <= n && 0 <= p <= n :: Conf(o, cnt, p)
  }

  /** The ends found are those of the expanded configurations at the final ket. */
  ghost predicate EndsInv(env: Env, endc: nat, current: nat, done: set<Conf>, ptr: nat, ends: seq<nat>) {
    && Increasing(ends)
    && (forall q :: q in ends ==> q <= ptr)
    && forall q: nat :: q in ends <==> Conf(endc, 0, q) in done && env.Allowed(current, q)
  }

  lemma EndsStep(env: Env, endc: nat, current: nat, done: set<Conf>, ptr: nat, ends: seq<nat>, c: Conf)
    requires EndsInv(env, endc, current, done, ptr, ends) && c !in done && c.p == ptr && (c.o == endc ==> c.cnt == 0)
    ensures EndsInv(env, endc, current, done + {c}, ptr,
                    if c.o == endc && env.Allowed(current, ptr) then ends + [ptr] else ends)
  {
    if c.o == endc && env.Allowed(current, ptr) {
      assert c == Conf(endc, 0, ptr);
      forall q | q in ends ensures q < ptr {
        assert Conf(endc, 0, q) in done;
      }
      var all := ends + [ptr];
      forall q: nat ensures q in all <==> Conf(endc, 0, q) in done + {c} && env.Allowed(current, q) {
        assert q in all <==> q in ends || q == ptr;
      }
      assert forall i :: 0 <= i < |ends| ==> ends[i] in ends;
    }
  }

  lemma GoodInUniverse(md: MatchData, g: Item, start: nat, current: nat, c: Conf)
    requires md.Valid() && Laid(md.x, md.code, g, start) && c in RunSpace(md, g, start, current).good
    ensures c in Universe(|md.code|, |md.env.s|)
  {
    hide Decode, Positive, FromStart, LinkedCall, Decoded, IsProgram, LayItem, Step;
    GoodIsReady(md, g, start, current, c);
  }

  lemma DoneInUniverse(md: MatchData, g: Item, start: nat, current: nat, done: set<Conf>)
    requires md.Valid() && Laid(md.x, md.code, g, start)
    requires forall c :: c in done ==> c in RunSpace(md, g, start, current).good
    ensures done <= Universe(|md.code|, |md.env.s|)
  {
    hide RunSpace, Universe, IsProgram, LayItem;
    forall c | c in done ensures c in Universe(|md.code|, |md.env.s|) {
      GoodInUniverse(md, g, start, current, c);
    }
  }

  // ---------- room in the lists ----------

  ghost function Row(o: nat, top: nat, p: nat): set<Conf> {
    set cnt: nat | 0 <= cnt <= top :: Conf(o, cnt, p)
  }

  /** The configurations at these offsets with counts up to top, at one position. */
  ghost function Layer(offs: set<nat>, top: nat, p: nat): set<Conf> {
    set o: nat, cnt: nat | o in offs && 0 <= cnt <= top :: Conf(o, cnt, p)
  }

  lemma {:induction false} RowSize(o: nat, top: nat, p: nat)
    ensures |Row(o, top, p)| == top + 1
  {
    if top == 0 {
      assert Row(o, top, p) == {Conf(o, 0, p)};
    } else {
      RowSize(o, top - 1, p);
      assert Row(o, top, p) == Row(o, top - 1, p) + {Conf(o, top, p)};
    }
  }

  lemma {:induction false} LayerSize(offs: set<nat>, top: nat, p: nat)
    ensures |Layer(offs, top, p)| == |offs| * (top + 1)
    decreases |offs|
  {
    if offs == {} {
      assert Layer(offs, top, p) == {};
    } else {
      var o :| o in offs;
      LayerSize(offs - {o}, top, p);
      RowSize(o, top, p);
      var a, b := Layer(offs - {o}, top, p), Row(o, top, p);
      assert Layer(offs, top, p) == a + b && a !! b;
      assert |offs| * (top + 1) == (|offs| - 1) * (top + 1) + (top + 1);
    }
  }

  /** The configurations that the run can have at one position. */
  ghost function RunLayer(md: MatchData, g: Item, start: nat, p: nat): set<Conf>
    requires g.Group?
  {
    Layer(RunOffsets(g, start), TopCount(md, g, start), p)
  }

  lemma GoodInLayer(md: MatchData, g: Item, start: nat, current: nat, c: Conf)
    requires md.Valid() && Laid(md.x, md.code, g, start) && c in RunSpace(md, g, start, current).good
    ensures c in RunLayer(md, g, start, c.p)
  {
    hide IsProgram, LayItem, Decode, Positive, LinkedCall, FromStart, RunOffsets;
    assert GoodConf(md, g, start, current, c);
  }

  /** Only configurations of the position have been added since done0. */
  ghost predicate AddedHere(done0: set<Conf>, done: set<Conf>, layer: set<Conf>, p: nat) {
    done0 <= done && done - done0 <= layer && forall c :: c in layer ==> c.p == p
  }

  lemma AddedSize(done0: set<Conf>, done: set<Conf>, layer: set<Conf>, p: nat)
    requires AddedHere(done0, done, layer, p)
    ensures 0 <= |done| - |done0| == |done - done0| <= |layer|
    ensures forall c :: c in done - done0 ==> c.p == p
  {
    SubsetSize(done - done0, layer);
    assert done == done0 + (done - done0);
  }

  /** The calls that have been expanded at one position. */
  ghost function CalledHere(md: MatchData, done: set<Conf>, p: nat): set<Conf> {
    set c | c in done && c.p == p && Decode(md.code, c.o).ICall?
  }

  lemma CalledAre(md: MatchData, g: Item, start: nat, current: nat, done: set<Conf>, p: nat)
    requires md.Valid() && Laid(md.x, md.code, g, start)
    requires forall c :: c in done ==> c in RunSpace(md, g, start, current).good
    ensures |CalledHere(md, done, p)| <= |CallOffsets(md, g, start)|
  {
    hide IsProgram, LayItem, Positive, LinkedCall, FromStart, RunOffsets, Decode;
    var offs := CallOffsets(md, g, start);
    forall c | c in CalledHere(md, done, p) ensures c in Layer(offs, 0, p) {
      assert GoodConf(md, g, start, current, c);
      CallByte(md.code, c.o);
    }
    SubsetSize(CalledHere(md, done, p), Layer(offs, 0, p));
    LayerSize(offs, 0, p);
  }

  lemma CallByte(code: seq<byte>, o: nat)
    requires Decode(code, o).ICall?
    ensures o < |code| && code[o] == OP_RECURSE
  {
    hide ChainOk, EndOf, AltStarts;
  }

  /** With one more configuration expanded. */
  lemma CalledStep(md: MatchData, done: set<Conf>, c: Conf)
    requires c !in done
    ensures |CalledHere(md, done + {c}, c.p)|
            == |CalledHere(md, done, c.p)| + if Decode(md.code, c.o).ICall? then 1 else 0
  {
    hide Decode;
    if Decode(md.code, c.o).ICall? {
      assert CalledHere(md, done + {c}, c.p) == CalledHere(md, done, c.p) + {c};
    } else {
      assert CalledHere(md, done + {c}, c.p) == CalledHere(md, done, c.p);
    }
  }

  /** At the position d behind the start, after e expansions of which k were calls: the lists
    * are no longer than this. What is held back for the calls made so far is still to be
    * looked at or waits for the next position. */
  ghost predicate Spare(need: Need, d: nat, active: seq<StateBlock>, rest: seq<StateBlock>, coming: seq<StateBlock>,
                        limit: int, e: nat, k: nat) {
    && ListsFor(need) <= limit
    && Held(rest) + Held(coming) <= HeldFor(need, need.calls * d + k)
    && |coming| <= e + Held(coming)
    && |active| <= need.confs + HeldFor(need, need.calls * d) + need.width * e
  }

  lemma MulBound(b: nat, e: nat, m: nat)
    requires e < m
    ensures b * e + b <= b * m
  {
    assert b * m == b * (e + 1) + b * (m - e - 1);
  }

  lemma MulMono(a: nat, b: nat, c: nat, d: nat)
    requires a <= c && b <= d
    ensures a * b <= c * d
  {
    assert c * d == a * b + a * (d - b) + (c - a) * d;
  }

  /** What is held back stays below the part of the lists that is kept for it. */
  lemma HeldBound(need: Need, d: nat, k: nat)
    requires d <= need.n && k <= need.calls
    ensures HeldFor(need, need.calls * d) <= HeldFor(need, need.calls * d + k)
    ensures HeldFor(need, need.calls * d + k) <= HeldFor(need, need.calls * (need.n + 1))
    ensures HeldFor(need, need.calls * d + k + 1) == HeldFor(need, need.calls * d + k) + need.n + 1
    ensures HeldFor(need, need.calls * d + k) <= HeldFor(need, need.calls * (d + 1))
    ensures k < need.calls ==>
              HeldFor(need, need.calls * d + k + 1) <= HeldFor(need, need.calls * (need.n + 1))
  {
    var x, y := need.calls * d + k, need.calls * (need.n + 1);
    assert need.calls * (d + 1) == need.calls * d + need.calls;
    MulMono(need.calls, d + 1, need.calls, need.n + 1);
    MulMono(need.calls * d, need.n + 1, x, need.n + 1);
    MulMono(x, need.n + 1, y, need.n + 1);
    MulMono(x, need.n + 1, need.calls * (d + 1), need.n + 1);
    assert (x + 1) * (need.n + 1) == x * (need.n + 1) + (need.n + 1);
    if k < need.calls {
      MulMono(x + 1, need.n + 1, y, need.n + 1);
    }
  }

  /** There is room for one more expansion. */
  lemma SpareRoom(need: Need, d: nat, active: seq<StateBlock>, rest: seq<StateBlock>, coming: seq<StateBlock>,
                  limit: int, e: nat, k: nat)
    requires Spare(need, d, active, rest, coming, limit, e, k) && e < need.confs && k <= need.calls && d <= need.n
    ensures |active| + need.width <= limit && |coming| < limit
    ensures k < need.calls ==> |coming| + need.n + 1 <= limit
  {
    hide HeldFor, Held;
    HeldBound(need, d, k);
    HeldBound(need, d, 0);
    MulBound(need.width, e, need.confs);
  }

  /** There is room for a state that is held back. */
  lemma SpareHold(need: Need, d: nat, active: seq<StateBlock>, st: StateBlock, later: seq<StateBlock>,
                  coming: seq<StateBlock>, limit: int, e: nat, k: nat, held: StateBlock)
    requires Spare(need, d, active, [st] + later, coming, limit, e, k) && st.offset < 0 && held.offset < 0
    requires e <= need.confs && k <= need.calls && d <= need.n
    ensures |coming| < limit && Spare(need, d, active, later, coming + [held], limit, e, k)
  {
    HeldJoin([st], later);
    HeldJoin(coming, [held]);
    assert Held([st]) == 1 == Held([held]) by {
      AllHeld([st]);
      AllHeld([held]);
    }
    hide HeldFor, Held;
    HeldBound(need, d, k);
    MulMono(need.width, 0, need.width, need.confs);
  }

  lemma SpareDrop(need: Need, d: nat, active: seq<StateBlock>, st: StateBlock, later: seq<StateBlock>,
                  coming: seq<StateBlock>, limit: int, e: nat, k: nat, active': seq<StateBlock>)
    requires Spare(need, d, active, [st] + later, coming, limit, e, k) && |active'| == |active|
    ensures Spare(need, d, active', later, coming, limit, e, k)
  {
    HeldJoin([st], later);
    hide HeldFor, Held;
  }

  lemma SpareStep(need: Need, i: Instr, d: nat, active: seq<StateBlock>, rest: seq<StateBlock>, coming: seq<StateBlock>,
                  limit: int, e: nat, k: nat, now: seq<StateBlock>, next: seq<StateBlock>)
    requires Spare(need, d, active, rest, coming, limit, e, k) && Few(i, need.n, now, next) && Widest(i) <= need.width
    requires d <= need.n && k <= need.calls
    ensures Spare(need, d, active + now, rest + now, coming + next, limit, e + 1, k + if i.ICall? then 1 else 0)
  {
    HeldJoin(rest, now);
    HeldJoin(coming, next);
    hide Held, HeldFor;
    HeldBound(need, d, k);
    assert need.width * (e + 1) == need.width * e + need.width;
  }

  /** At the next position the count of expansions starts again. */
  lemma SpareNext(need: Need, d: nat, active: seq<StateBlock>, coming: seq<StateBlock>, limit: int, e: nat, k: nat)
    requires Spare(need, d, active, [], coming, limit, e, k) && e <= need.confs && k <= need.calls && d <= need.n
    ensures Spare(need, d + 1, coming, coming, [], limit, 0, 0)
  {
    hide HeldFor;
    HeldBound(need, d, k);
  }

  /** No instruction of the run adds more states than this. */
  lemma WidestFits(md: MatchData, g: Item, start: nat, o: nat)
    requires md.Valid() && Laid(md.x, md.code, g, start) && o in RunOffsets(g, start)
    ensures Widest(Decode(md.code, o)) <= NeedOf(md, g, start).width
  {
    hide IsProgram, LayItem, Positive, LinkedCall, RunOffsets, Decode;
    RunIsConfined(md, g, start, o);
    var i := Decode(md.code, o);
    if i.IOpen? {
      OpenDiffers(md.code, o);
      forall j: nat | j < |i.starts| ensures i.starts[j] in RunOffsets(g, start) {
        var c, d := Conf(o, 0, 0), Conf(i.starts[j], 0, 0);
        StepOpens(md, g, start, o, j);
      }
      DifferentFit(i.starts, RunOffsets(g, start));
    }
  }

  lemma StepOpens(md: MatchData, g: Item, start: nat, o: nat, j: nat)
    requires md.Valid() && g.Group? && o < |md.code| && OffsetOk(md, g, start, o) && o != KetOffset(start, g)
    requires Decode(md.code, o).IOpen? && j < |Decode(md.code, o).starts|
    ensures Decode(md.code, o).starts[j] in RunOffsets(g, start)
  {
    hide IsProgram, LinkedCall, RunOffsets, Decode;
    var starts := Decode(md.code, o).starts;
    var c, d := Conf(o, 0, 0), Conf(starts[j], 0, 0);
    assert starts[j] in starts;
    assert Step(RunMachine(md, g, start), c, d);
  }

  lemma OpenDiffers(code: seq<byte>, o: nat)
    requires Decode(code, o).IOpen?
    ensures AllDifferent(Decode(code, o).starts)
  {
    hide ChainOk, AltStarts, EndOf;
    StartsDiffer(code, o, o + BraSize(code[o]));
  }

  lemma {:induction false} DifferentFit(starts: seq<nat>, offs: set<nat>)
    requires AllDifferent(starts) && forall j: nat :: j < |starts| ==> starts[j] in offs
    ensures |starts| <= |offs|
    decreases |starts|
  {
    if starts != [] {
      var o, rest := starts[0], starts[1..];
      assert forall j: nat :: j < |rest| ==> rest[j] == starts[j + 1];
      DifferentFit(rest, offs - {o});
    }
  }

  /** A state seen for the first time at this position: record a match at the final
    * ket, else add its successors. */
  method ExpandActive(md: MatchData, ghost g: Item, ghost start: nat, endCode: nat, current: nat, ptr: nat,
                      st: StateBlock, active: seq<StateBlock>, coming: seq<StateBlock>, limit: int,
                      offsets: array<int>, offsetcount: nat, matchCount: int,
                      ghost done: set<Conf>, ghost ends: seq<nat>, ghost later: seq<StateBlock>)
    returns (err: int, act: seq<StateBlock>, fr: seq<StateBlock>, count: int,
             ghost now: seq<StateBlock>, ghost next: seq<StateBlock>, ghost ends': seq<nat>)
    requires md.Valid() && md.CallsOk() && Laid(md.x, md.code, g, start) && endCode == KetOffset(start, g)
    requires current <= ptr <= |md.env.s| && st.offset > 0 && st.data == 0 && ConfOf(st, ptr) !in done
    requires RunInv(RunSpace(md, g, start, current), done, [st] + later, ptr, coming)
    requires EndsInv(md.env, endCode, current, done, ptr, ends)
    requires offsetcount <= offsets.Length && offsetcount % 2 == 0
    requires VectorHolds(offsets[..], offsetcount / 2, current, ends)
    requires matchCount == MatchCount(|ends|, offsetcount / 2)
    modifies md, offsets
    ensures md.recursive == old(md.recursive)
    ensures err == 0 || IsError(err)
    ensures err == 0 ==>
              && act == active + now && fr == coming + next
              && RunInv(RunSpace(md, g, start, current), done + {ConfOf(st, ptr)}, later + now, ptr, fr)
              && EndsInv(md.env, endCode, current, done + {ConfOf(st, ptr)}, ptr, ends')
              && VectorHolds(offsets[..], offsetcount / 2, current, ends')
              && count == MatchCount(|ends'|, offsetcount / 2)
    ensures st.offset < |md.code|
    ensures var i := Decode(md.code, st.offset);
            && (err == 0 ==> Few(i, |md.env.s|, now, next))
            && (err != 0 && GoesThrough(md, md.recursive, i, ptr) ==>
                  || |active| + Widest(i) > limit
                  || |coming| + (if i.ICall? then |md.env.s| + 1 else 1) > limit)
    ensures Decode(md.code, st.offset).ICall? && err == 0 ==>
              !CallLoops(md, md.recursive, Decode(md.code, st.offset), ptr)
    ensures err == PCRE_ERROR_RECURSELOOP ==> RunLoops(md, md.recursive, g, start, current)
    ensures Overflowing(err, |md.env.s|)
    decreases CallsLeft(md.recursive, |md.env.s|), 3
  {
    hide CallLoops, CallFits, RunLoops, RunSpace, RunInv, EndsInv, VectorHolds, IsProgram, LayItem, Decode, Calls,
      NoRepeats, AllCalls, MatchCount, Expands, Positive, LinkedCall;
    ghost var sp, c := RunSpace(md, g, start, current), ConfOf(st, ptr);
    err, act, fr, count, now, next, ends' := 0, active, coming, matchCount, [], [], ends;
    RunSpaceOk(md, g, start, current);
    HeadIsGood(sp, done, ptr, st, later, coming);
    GoodIsReady(md, g, start, current, c);
    EndsStep(md.env, endCode, current, done, ptr, ends, c);
    if IsKet(md.code[st.offset]) && st.offset == endCode {
      if md.env.Allowed(current, ptr) {
        count := RecordMatch(offsets, offsetcount, current, ptr, count, ends);
        ends' := ends + [ptr];
      }
    } else {
      err, act, fr, now, next := ExpandState(md, st.offset, st.count, ptr, active, coming, limit);
      if err != 0 {
        if err == PCRE_ERROR_RECURSELOOP {
          LoopFound(md, md.recursive, g, start, current, c);
        }
        return;
      }
    }
    KetIsNoCall(md.code, st.offset);
    ExpandsIsSuccessors(md, g, start, current, c, now, next);
    Expanded(sp, done, ptr, st, later, coming, now, next);
    assert fr == coming + next;
  }

  lemma KetIsNoCall(code: seq<byte>, o: nat)
    requires o < |code|
    ensures IsKet(code[o]) ==> !Decode(code, o).ICall?
  {
  }

  /** The scan of one position, with the states seen and those still to be looked at:
    * done0 is what had been expanded before this position. */
  ghost predicate Scanning(md: MatchData, chain: Recursion, g: Item, start: nat, current: nat, ptr: nat,
                           done0: set<Conf>, done: set<Conf>,
                           seen: seq<StateBlock>, rest: seq<StateBlock>, coming: seq<StateBlock>, ends: seq<nat>,
                           limit: int, free: bool)
    requires md.Valid() && g.Group?
  {
    && RunInv(RunSpace(md, g, start, current), done, rest, ptr, coming) && SeenInv(done, ptr, seen)
    && EndsInv(md.env, KetOffset(start, g), current, done, ptr, ends) && Quiet(md, chain, done)
    && AddedHere(done0, done, RunLayer(md, g, start, ptr), ptr) && |done| >= |done0|
    && done <= Universe(|md.code|, |md.env.s|)
    && (free ==> HasRoom(md, chain, g, start, current, ptr, done, seen + rest, rest, coming, limit, |done| - |done0|))
  }

  /** The run succeeds, and the lists are no longer than they may be. */
  ghost predicate HasRoom(md: MatchData, chain: Recursion, g: Item, start: nat, current: nat, ptr: nat, done: set<Conf>,
                          active: seq<StateBlock>, rest: seq<StateBlock>, coming: seq<StateBlock>, limit: int, e: nat)
    requires md.Valid() && g.Group?
  {
    && Succeeds(md, chain, g, start, current, limit) && current <= ptr
    && Spare(NeedOf(md, g, start), ptr - current, active, rest, coming, limit, e, |CalledHere(md, done, ptr)|)
  }

  lemma ScanStarts(md: MatchData, chain: Recursion, g: Item, start: nat, current: nat, ptr: nat, done: set<Conf>,
                   states: seq<StateBlock>, ends: seq<nat>, limit: int, free: bool)
    requires md.Valid() && Laid(md.x, md.code, g, start) && current <= ptr <= |md.env.s|
    requires RunInv(RunSpace(md, g, start, current), done, states, ptr, []) && Quiet(md, chain, done)
    requires (forall c :: c in done ==> c.p < ptr) && EndsInv(md.env, KetOffset(start, g), current, done, ptr, ends)
    requires free ==> StartsWithRoom(md, chain, g, start, current, ptr, states, limit)
    ensures Scanning(md, chain, g, start, current, ptr, done, done, [], states, [], ends, limit, free)
  {
    hide RunSpace, RunInv, SeenInv, EndsInv, Universe, IsProgram, LayItem, Quiet, Succeeds, Spare, AddedHere, Decode,
      RunLayer, NeedOf;
    var sp := RunSpace(md, g, start, current);
    RunSpaceOk(md, g, start, current);
    NothingSeen(sp, done, ptr);
    DoneAreGood(sp, done, states, ptr, []);
    DoneInUniverse(md, g, start, current, done);
    NoneAdded(md, g, start, done, ptr);
    assert [] + states == states;
    assert CalledHere(md, done, ptr) == {};
  }

  /** The run succeeds, and there is room for the states of the position. */
  ghost predicate StartsWithRoom(md: MatchData, chain: Recursion, g: Item, start: nat, current: nat, ptr: nat,
                                 states: seq<StateBlock>, limit: int)
    requires md.Valid() && g.Group?
  {
    && Succeeds(md, chain, g, start, current, limit) && current <= ptr
    && Spare(NeedOf(md, g, start), ptr - current, states, states, [], limit, 0, 0)
  }

  /** The states held back, released or dropped leave room. */
  lemma RoomToHold(md: MatchData, chain: Recursion, g: Item, start: nat, current: nat, ptr: nat, done: set<Conf>,
                   active: seq<StateBlock>, st: StateBlock, later: seq<StateBlock>, coming: seq<StateBlock>,
                   limit: int, e: nat, held: StateBlock)
    requires md.Valid() && Laid(md.x, md.code, g, start) && ptr <= |md.env.s|
    requires HasRoom(md, chain, g, start, current, ptr, done, active, [st] + later, coming, limit, e)
    requires st.offset < 0 && held.offset < 0 && e <= |RunLayer(md, g, start, ptr)|
    requires forall c :: c in done ==> c in RunSpace(md, g, start, current).good
    ensures |coming| < limit
    ensures HasRoom(md, chain, g, start, current, ptr, done, active, later, coming + [held], limit, e)
  {
    hide RunSpace, IsProgram, LayItem, Succeeds, Spare, CalledHere, CallOffsets, TopCount, RunOffsets;
    CalledAre(md, g, start, current, done, ptr);
    LayerSize(RunOffsets(g, start), TopCount(md, g, start), ptr);
    SpareHold(NeedOf(md, g, start), ptr - current, active, st, later, coming, limit, e, |CalledHere(md, done, ptr)|,
              held);
  }

  lemma RoomWithout(md: MatchData, chain: Recursion, g: Item, start: nat, current: nat, ptr: nat, done: set<Conf>,
                    active: seq<StateBlock>, st: StateBlock, later: seq<StateBlock>, coming: seq<StateBlock>,
                    limit: int, e: nat, active': seq<StateBlock>)
    requires md.Valid() && g.Group? && |active'| == |active|
    requires HasRoom(md, chain, g, start, current, ptr, done, active, [st] + later, coming, limit, e)
    ensures HasRoom(md, chain, g, start, current, ptr, done, active', later, coming, limit, e)
  {
    hide IsProgram, Succeeds, Spare, CalledHere, NeedOf;
    SpareDrop(NeedOf(md, g, start), ptr - current, active, st, later, coming, limit, e, |CalledHere(md, done, ptr)|,
              active');
  }

  /** There is room for the states that the next configuration adds, and the call that it may
    * be goes through. */
  lemma RoomToExpand(md: MatchData, chain: Recursion, g: Item, start: nat, current: nat, ptr: nat, done: set<Conf>,
                     active: seq<StateBlock>, later: seq<StateBlock>, coming: seq<StateBlock>, limit: int, e: nat,
                     c: Conf)
    requires md.Valid() && Laid(md.x, md.code, g, start) && ptr <= |md.env.s| && c !in done && c.p == ptr
    requires c in RunSpace(md, g, start, current).good
    requires forall c :: c in done ==> c in RunSpace(md, g, start, current).good
    requires HasRoom(md, chain, g, start, current, ptr, done, active, later, coming, limit, e)
    requires e < |RunLayer(md, g, start, ptr)|
    ensures var i := Decode(md.code, c.o);
            && GoesThrough(md, chain, i, ptr) && |active| + Widest(i) <= limit
            && |coming| + (if i.ICall? then |md.env.s| + 1 else 1) <= limit
  {
    hide RunSpace, IsProgram, LayItem, Succeeds, Spare, CalledHere, CallOffsets, TopCount, RunOffsets, GoesThrough,
      Decode, Widest;
    SucceedsAt(md, chain, g, start, current, limit, c);
    OffsetOf(md, g, start, current, c);
    WidestFits(md, g, start, c.o);
    CalledStep(md, done, c);
    forall d | d in done + {c} ensures d in RunSpace(md, g, start, current).good {
    }
    CalledAre(md, g, start, current, done + {c}, ptr);
    CalledAre(md, g, start, current, done, ptr);
    LayerSize(RunOffsets(g, start), TopCount(md, g, start), ptr);
    SpareRoom(NeedOf(md, g, start), ptr - current, active, later, coming, limit, e, |CalledHere(md, done, ptr)|);
  }

  lemma OffsetOf(md: MatchData, g: Item, start: nat, current: nat, c: Conf)
    requires md.Valid() && g.Group? && c in RunSpace(md, g, start, current).good
    ensures c.o in RunOffsets(g, start)
  {
    hide IsProgram, RunOffsets, Decode, FromStart;
    assert GoodConf(md, g, start, current, c);
  }

  lemma RoomAfter(md: MatchData, chain: Recursion, g: Item, start: nat, current: nat, ptr: nat, done: set<Conf>,
                  active: seq<StateBlock>, later: seq<StateBlock>, coming: seq<StateBlock>, limit: int, e: nat,
                  c: Conf, now: seq<StateBlock>, next: seq<StateBlock>)
    requires md.Valid() && Laid(md.x, md.code, g, start) && ptr <= |md.env.s| && c !in done && c.p == ptr
    requires c in RunSpace(md, g, start, current).good
    requires forall c :: c in done ==> c in RunSpace(md, g, start, current).good
    requires HasRoom(md, chain, g, start, current, ptr, done, active, later, coming, limit, e)
    requires Few(Decode(md.code, c.o), |md.env.s|, now, next)
    ensures HasRoom(md, chain, g, start, current, ptr, done + {c}, active + now, later + now, coming + next, limit,
                    e + 1)
  {
    hide RunSpace, IsProgram, LayItem, Succeeds, Spare, CalledHere, CallOffsets, TopCount, RunOffsets, Few, Decode,
      Widest;
    OffsetOf(md, g, start, current, c);
    WidestFits(md, g, start, c.o);
    CalledStep(md, done, c);
    CalledAre(md, g, start, current, done, ptr);
    SpareStep(NeedOf(md, g, start), Decode(md.code, c.o), ptr - current, active, later, coming, limit, e,
              |CalledHere(md, done, ptr)|, now, next);
  }

  /** A state that is held back goes on to the next position. */
  lemma ScanHold(md: MatchData, chain: Recursion, g: Item, start: nat, current: nat, ptr: nat, done0: set<Conf>,
                 done: set<Conf>, seen: seq<StateBlock>, st: StateBlock, later: seq<StateBlock>,
                 coming: seq<StateBlock>, ends: seq<nat>, limit: int, free: bool)
    requires md.Valid() && Laid(md.x, md.code, g, start) && current <= ptr <= |md.env.s|
    requires Scanning(md, chain, g, start, current, ptr, done0, done, seen, [st] + later, coming, ends, limit, free)
    requires st.offset < 0 && st.data > 0
    ensures free ==> |coming| < limit
    ensures var held := StateBlock(st.offset, st.count, st.data - 1);
            Scanning(md, chain, g, start, current, ptr, done0, done, seen + [st], later, coming + [held], ends, limit,
                     free)
  {
    hide RunSpace, RunInv, SeenInv, EndsInv, Universe, IsProgram, LayItem, Decode, AddedHere, Quiet, HasRoom, RunLayer;
    var sp, held := RunSpace(md, g, start, current), StateBlock(st.offset, st.count, st.data - 1);
    RunSpaceOk(md, g, start, current);
    DoneAreGood(sp, done, [st] + later, ptr, coming);
    HoldBack(sp, done, ptr, st, later, coming);
    SeenHeldBack(done, ptr, seen, st);
    AddedSize(done0, done, RunLayer(md, g, start, ptr), ptr);
    assert seen + ([st] + later) == (seen + [st]) + later;
    if free {
      RoomToHold(md, chain, g, start, current, ptr, done, seen + ([st] + later), st, later, coming, limit,
                 |done| - |done0|, held);
    }
  }

  /** A state that was held back up to now becomes a real one. */
  lemma ScanRelease(md: MatchData, chain: Recursion, g: Item, start: nat, current: nat, ptr: nat, done0: set<Conf>,
                    done: set<Conf>, seen: seq<StateBlock>, st: StateBlock, later: seq<StateBlock>,
                    coming: seq<StateBlock>, ends: seq<nat>, limit: int, free: bool)
    requires md.Valid() && Laid(md.x, md.code, g, start) && current <= ptr <= |md.env.s|
    requires Scanning(md, chain, g, start, current, ptr, done0, done, seen, [st] + later, coming, ends, limit, free)
    requires st.offset < 0 && st.data == 0
    ensures var freed := StateBlock(-st.offset, st.count, 0);
            Scanning(md, chain, g, start, current, ptr, done0, done, seen, [freed] + later, coming, ends, limit, free)
  {
    hide RunSpace, RunInv, SeenInv, EndsInv, Universe, IsProgram, LayItem, Decode, AddedHere, Quiet, Spare, Succeeds;
    var sp, freed := RunSpace(md, g, start, current), StateBlock(-st.offset, st.count, 0);
    RunSpaceOk(md, g, start, current);
    Release(sp, done, ptr, st, later, coming);
    if free {
      SpareDrop(NeedOf(md, g, start), ptr - current, seen + ([st] + later), st, later, coming, limit,
                |done| - |done0|, |CalledHere(md, done, ptr)|, seen + ([freed] + later));
      SpareReal(NeedOf(md, g, start), ptr - current, seen + ([freed] + later), freed, later, coming, limit,
                |done| - |done0|, |CalledHere(md, done, ptr)|);
    }
  }

  lemma SpareReal(need: Need, d: nat, active: seq<StateBlock>, st: StateBlock, later: seq<StateBlock>,
                  coming: seq<StateBlock>, limit: int, e: nat, k: nat)
    requires Spare(need, d, active, later, coming, limit, e, k) && st.offset >= 0
    ensures Spare(need, d, active, [st] + later, coming, limit, e, k)
  {
    HeldJoin([st], later);
    NoneHeld([st]);
    hide HeldFor, Held;
  }

  /** A duplicate is dropped. */
  lemma ScanDuplicate(md: MatchData, chain: Recursion, g: Item, start: nat, current: nat, ptr: nat, done0: set<Conf>,
                      done: set<Conf>, seen: seq<StateBlock>, st: StateBlock, later: seq<StateBlock>,
                      coming: seq<StateBlock>, ends: seq<nat>, limit: int, free: bool, k: nat)
    requires md.Valid() && Laid(md.x, md.code, g, start) && current <= ptr <= |md.env.s|
    requires Scanning(md, chain, g, start, current, ptr, done0, done, seen, [st] + later, coming, ends, limit, free)
    requires st.offset >= 0 && k < |seen| && seen[k].offset == st.offset && seen[k].count == st.count
    ensures Scanning(md, chain, g, start, current, ptr, done0, done, seen + [st], later, coming, ends, limit, free)
  {
    hide RunSpace, RunInv, SeenInv, EndsInv, Universe, IsProgram, LayItem, Decode, AddedHere, Quiet, HasRoom;
    var sp := RunSpace(md, g, start, current);
    RunSpaceOk(md, g, start, current);
    HeadIsGood(sp, done, ptr, st, later, coming);
    WasSeen(done, ptr, seen, st, k);
    DropDuplicate(sp, done, ptr, st, later, coming);
    assert seen + ([st] + later) == (seen + [st]) + later;
    if free {
      RoomWithout(md, chain, g, start, current, ptr, done, seen + ([st] + later), st, later, coming, limit,
                  |done| - |done0|, (seen + [st]) + later);
    }
  }

  /** A state that has not been seen: it may be expanded. */
  lemma ScanFresh(md: MatchData, chain: Recursion, g: Item, start: nat, current: nat, ptr: nat, done0: set<Conf>,
                  done: set<Conf>, seen: seq<StateBlock>, st: StateBlock, later: seq<StateBlock>,
                  coming: seq<StateBlock>, ends: seq<nat>, limit: int, free: bool)
    requires md.Valid() && Laid(md.x, md.code, g, start) && current <= ptr <= |md.env.s|
    requires Scanning(md, chain, g, start, current, ptr, done0, done, seen, [st] + later, coming, ends, limit, free)
    requires st.offset >= 0
    requires forall k :: 0 <= k < |seen| ==> seen[k].offset != st.offset || seen[k].count != st.count
    ensures st.offset > 0 && st.data == 0 && ConfOf(st, ptr) !in done
    ensures RunInv(RunSpace(md, g, start, current), done, [st] + later, ptr, coming)
    ensures EndsInv(md.env, KetOffset(start, g), current, done, ptr, ends)
    ensures var i := Decode(md.code, st.offset);
            free ==>
              && GoesThrough(md, chain, i, ptr) && |seen + ([st] + later)| + Widest(i) <= limit
              && |coming| + (if i.ICall? then |md.env.s| + 1 else 1) <= limit
  {
    hide RunSpace, RunInv, SeenInv, EndsInv, Universe, IsProgram, LayItem, Decode, AddedHere, Quiet, HasRoom,
      RunLayer, GoesThrough, Widest;
    var sp, c := RunSpace(md, g, start, current), ConfOf(st, ptr);
    RunSpaceOk(md, g, start, current);
    HeadIsGood(sp, done, ptr, st, later, coming);
    DoneAreGood(sp, done, [st] + later, ptr, coming);
    NotSeen(done, ptr, seen, st);
    OneAdded(md, g, start, current, done0, done, c, ptr);
    if free {
      RoomToExpand(md, chain, g, start, current, ptr, done, seen + ([st] + later), [st] + later, coming, limit,
                   |done| - |done0|, c);
    }
  }

  /** And it has been expanded. */
  lemma ScanExpanded(md: MatchData, chain: Recursion, g: Item, start: nat, current: nat, ptr: nat, done0: set<Conf>,
                     done: set<Conf>, seen: seq<StateBlock>, st: StateBlock, later: seq<StateBlock>,
                     coming: seq<StateBlock>, ends: seq<nat>, limit: int, free: bool,
                     now: seq<StateBlock>, next: seq<StateBlock>, ends': seq<nat>)
    requires md.Valid() && Laid(md.x, md.code, g, start) && current <= ptr <= |md.env.s|
    requires Scanning(md, chain, g, start, current, ptr, done0, done, seen, [st] + later, coming, ends, limit, free)
    requires st.offset > 0 && st.data == 0 && ConfOf(st, ptr) !in done
    requires forall k :: 0 <= k < |seen| ==> seen[k].offset != st.offset || seen[k].count != st.count
    requires RunInv(RunSpace(md, g, start, current), done + {ConfOf(st, ptr)}, later + now, ptr, coming + next)
    requires EndsInv(md.env, KetOffset(start, g), current, done + {ConfOf(st, ptr)}, ptr, ends')
    requires Few(Decode(md.code, st.offset), |md.env.s|, now, next)
    requires Decode(md.code, st.offset).ICall? ==> !CallLoops(md, chain, Decode(md.code, st.offset), ptr)
    ensures |done + {ConfOf(st, ptr)}| == |done| + 1
    ensures Scanning(md, chain, g, start, current, ptr, done0, done + {ConfOf(st, ptr)}, seen + [st], later + now,
                     coming + next, ends', limit, free)
  {
    hide RunSpace, RunInv, SeenInv, EndsInv, Universe, IsProgram, LayItem, Decode, AddedHere, Quiet, HasRoom,
      RunLayer, Few, CallLoops;
    var sp, c := RunSpace(md, g, start, current), ConfOf(st, ptr);
    RunSpaceOk(md, g, start, current);
    HeadIsGood(sp, done, ptr, st, later, coming);
    DoneAreGood(sp, done, [st] + later, ptr, coming);
    OneAdded(md, g, start, current, done0, done, c, ptr);
    GoodInUniverse(md, g, start, current, c);
    NotSeen(done, ptr, seen, st);
    QuietStep(md, chain, done, c);
    assert seen + ([st] + later) + now == (seen + [st]) + (later + now);
    if free {
      RoomWithout(md, chain, g, start, current, ptr, done, seen + ([st] + later), st, later, coming, limit,
                  |done| - |done0|, seen + ([st] + later));
      RoomAfter(md, chain, g, start, current, ptr, done, seen + ([st] + later), later, coming, limit,
                |done| - |done0|, c, now, next);
    }
  }

  /** One state of the list: held back, released, dropped as a duplicate, or expanded. */
  method ScanState(md: MatchData, ghost g: Item, ghost start: nat, endCode: nat, current: nat, ptr: nat,
                   active0: seq<StateBlock>, i: nat, coming0: seq<StateBlock>, limit: int, offsets: array<int>,
                   offsetcount: nat, matchCount: int,
                   ghost done0: set<Conf>, ghost done: set<Conf>, ghost seen: seq<StateBlock>,
                   ghost later: seq<StateBlock>,
                   ghost ends0: seq<nat>, ghost free: bool)
    returns (err: int, active: seq<StateBlock>, coming: seq<StateBlock>, count: int,
             ghost done': set<Conf>, ghost seen': seq<StateBlock>, ghost rest': seq<StateBlock>, ghost ends: seq<nat>)
    requires md.Valid() && md.CallsOk() && Laid(md.x, md.code, g, start) && endCode == KetOffset(start, g)
    requires current <= ptr <= |md.env.s| && i == |seen| < |active0| && active0 == seen + [active0[i]] + later
    requires Scanning(md, md.recursive, g, start, current, ptr, done0, done, seen, [active0[i]] + later, coming0, ends0,
                      limit, free)
    requires offsetcount <= offsets.Length && offsetcount % 2 == 0
    requires VectorHolds(offsets[..], offsetcount / 2, current, ends0)
    requires matchCount == MatchCount(|ends0|, offsetcount / 2)
    modifies md, offsets
    ensures md.recursive == old(md.recursive)
    ensures (err == 0 || IsError(err)) && (free ==> err == 0)
    ensures err == PCRE_ERROR_RECURSELOOP ==> RunLoops(md, md.recursive, g, start, current)
    ensures Overflowing(err, |md.env.s|)
    ensures err == 0 ==>
              && active == seen' + rest' && |seen'| == i + 1
              && Scanning(md, md.recursive, g, start, current, ptr, done0, done', seen', rest', coming, ends, limit,
                          free)
              && VectorHolds(offsets[..], offsetcount / 2, current, ends)
              && count == MatchCount(|ends|, offsetcount / 2)
              && ((done' == done && |active| == |active0|) || (|done'| == |done| + 1 && done < done'))
    decreases CallsLeft(md.recursive, |md.env.s|), 4
  {
    hide RunSpace, RunInv, EndsInv, VectorHolds, IsProgram, LayItem, Decode, Calls, NoRepeats, AllCalls, MatchCount,
      Few, RunLoops, CallLoops, GoesThrough, Widest, Scanning;
    err, active, coming, count, done', ends := 0, active0, coming0, matchCount, done, ends0;
    var st := active[i];
    seen', rest' := seen + [st], later;
    assert seen + ([st] + later) == active0 == seen' + later;
    var ok;
    if st.offset < 0 && st.data > 0 {
      ScanHold(md, md.recursive, g, start, current, ptr, done0, done, seen, st, later, coming, ends, limit, free);
      ok, coming := Add(coming, limit, StateBlock(st.offset, st.count, st.data - 1));
      err := if ok then 0 else PCRE_ERROR_DFA_WSSIZE;
      return;
    }
    if st.offset < 0 {
      ScanRelease(md, md.recursive, g, start, current, ptr, done0, done, seen, st, later, coming, ends, limit, free);
      st := StateBlock(-st.offset, st.count, 0);
      active := active[i := st];
      seen' := seen + [st];
      assert active == seen + ([st] + later) == seen' + later;
    }
    assert forall k :: 0 <= k < |seen| ==> seen[k] == active[k];
    var dup := IsDuplicate(active, i);
    if dup {
      ghost var k :| 0 <= k < i && active[k].offset == st.offset && active[k].count == st.count;
      ScanDuplicate(md, md.recursive, g, start, current, ptr, done0, done, seen, st, later, coming, ends, limit, free,
                    k);
      return;
    }
    ScanFresh(md, md.recursive, g, start, current, ptr, done0, done, seen, st, later, coming, ends, limit, free);
    ghost var now, next;
    err, active, coming, count, now, next, ends := ExpandActive(md, g, start, endCode, current, ptr, st, active, coming,
                                                               limit, offsets, offsetcount, count, done, ends, later);
    if err != 0 {
      return;
    }
    ScanExpanded(md, md.recursive, g, start, current, ptr, done0, done, seen, st, later, coming0, ends0, limit, free,
                 now, next, ends);
    done', rest' := done + {ConfOf(st, ptr)}, later + now;
    assert seen' + rest' == active;
  }

  /** Work through the active states of one subject position. Each configuration is
    * expanded at most once; expanded counts how many were. */
  method ScanPosition(md: MatchData, ghost g: Item, ghost start: nat, endCode: nat, current: nat, ptr: nat,
                      states: seq<StateBlock>, limit: int, offsets: array<int>, offsetcount: nat, matchCount: int,
                      ghost done0: set<Conf>, ghost ends0: seq<nat>, ghost free: bool)
    returns (err: int, coming: seq<StateBlock>, count: int, ghost done: set<Conf>, ghost ends: seq<nat>,
             ghost expanded: nat)
    requires md.Valid() && md.CallsOk() && Laid(md.x, md.code, g, start) && endCode == KetOffset(start, g)
    requires current <= ptr <= |md.env.s|
    requires RunInv(RunSpace(md, g, start, current), done0, states, ptr, []) && Quiet(md, md.recursive, done0)
    requires forall c :: c in done0 ==> c.p < ptr
    requires EndsInv(md.env, endCode, current, done0, ptr, ends0)
    requires offsetcount <= offsets.Length && offsetcount % 2 == 0
    requires VectorHolds(offsets[..], offsetcount / 2, current, ends0)
    requires matchCount == MatchCount(|ends0|, offsetcount / 2)
    requires free ==> StartsWithRoom(md, md.recursive, g, start, current, ptr, states, limit)
    modifies md, offsets
    ensures md.recursive == old(md.recursive)
    ensures err == 0 || IsError(err)
    ensures free ==> err == 0 && StartsWithRoom(md, md.recursive, g, start, current, ptr + 1, coming, limit)
    ensures done0 <= done && expanded == |done - done0| <= NeedOf(md, g, start).confs
    ensures forall c :: c in done - done0 ==> c.p == ptr
    ensures err == PCRE_ERROR_RECURSELOOP ==> RunLoops(md, md.recursive, g, start, current)
    ensures Overflowing(err, |md.env.s|)
    ensures err == 0 ==>
              && RunInv(RunSpace(md, g, start, current), done, [], ptr, coming) && Quiet(md, md.recursive, done)
              && EndsInv(md.env, endCode, current, done, ptr, ends)
              && VectorHolds(offsets[..], offsetcount / 2, current, ends)
              && count == MatchCount(|ends|, offsetcount / 2)
    decreases CallsLeft(md.recursive, |md.env.s|), 5
  {
    hide RunSpace, RunInv, EndsInv, VectorHolds, Universe, IsProgram, LayItem, Calls, NoRepeats,
      AllCalls, MatchCount, StartsWithRoom, Quiet, RunLoops, NeedOf, Scanning;
    ghost var universe := Universe(|md.code|, |md.env.s|);
    err, coming, count, done, ends, expanded := 0, [], matchCount, done0, ends0, 0;
    var active := states;
    var i := 0;
    ghost var seen, rest := [], active;
    ScanStarts(md, md.recursive, g, start, current, ptr, done, states, ends, limit, free);
    while i < |active|
      invariant err == 0 && md.recursive == old(md.recursive)
      invariant active == seen + rest && i == |seen|
      invariant Scanning(md, md.recursive, g, start, current, ptr, done0, done, seen, rest, coming, ends, limit, free)
      invariant expanded == |done| - |done0|
      invariant VectorHolds(offsets[..], offsetcount / 2, current, ends)
      invariant count == MatchCount(|ends|, offsetcount / 2)
      decreases |universe| - |done|, |active| - i
    {
      assert rest == [active[i]] + rest[1..];
      ghost var before := done;
      ScanInside(md, md.recursive, g, start, current, ptr, done0, done, seen, rest, coming, ends, limit, free);
      err, active, coming, count, done, seen, rest, ends := ScanState(md, g, start, endCode, current, ptr, active, i,
        coming, limit, offsets, offsetcount, count, done0, done, seen, rest[1..], ends, free);
      if err != 0 {
        done := before;
        return;
      }
      i, expanded := i + 1, expanded + if done == before then 0 else 1;
      ScanInside(md, md.recursive, g, start, current, ptr, done0, done, seen, rest, coming, ends, limit, free);
    }
    assert rest == [] && seen + rest == seen;
    ScanEnds(md, md.recursive, g, start, current, ptr, done0, done, seen, coming, ends, limit, free);
  }

  lemma ScanInside(md: MatchData, chain: Recursion, g: Item, start: nat, current: nat, ptr: nat, done0: set<Conf>,
                   done: set<Conf>,
                   seen: seq<StateBlock>, rest: seq<StateBlock>, coming: seq<StateBlock>, ends: seq<nat>, limit: int,
                   free: bool)
    requires md.Valid() && g.Group?
    requires Scanning(md, chain, g, start, current, ptr, done0, done, seen, rest, coming, ends, limit, free)
    ensures |done| <= |Universe(|md.code|, |md.env.s|)|
    ensures done0 <= done && |done| - |done0| == |done - done0| <= NeedOf(md, g, start).confs
    ensures forall c :: c in done - done0 ==> c.p == ptr
  {
    hide RunSpace, RunInv, SeenInv, EndsInv, Universe, IsProgram, Quiet, HasRoom, RunOffsets, TopCount, CallOffsets;
    SubsetSize(done, Universe(|md.code|, |md.env.s|));
    LayerSize(RunOffsets(g, start), TopCount(md, g, start), ptr);
    AddedSize(done0, done, RunLayer(md, g, start, ptr), ptr);
  }

  /** When all states have been looked at. */
  lemma ScanEnds(md: MatchData, chain: Recursion, g: Item, start: nat, current: nat, ptr: nat, done0: set<Conf>,
                 done: set<Conf>,
                 seen: seq<StateBlock>, coming: seq<StateBlock>, ends: seq<nat>, limit: int, free: bool)
    requires md.Valid() && Laid(md.x, md.code, g, start) && current <= ptr <= |md.env.s|
    requires Scanning(md, chain, g, start, current, ptr, done0, done, seen, [], coming, ends, limit, free)
    ensures RunInv(RunSpace(md, g, start, current), done, [], ptr, coming) && Quiet(md, chain, done)
    ensures EndsInv(md.env, KetOffset(start, g), current, done, ptr, ends)
    ensures free ==> StartsWithRoom(md, chain, g, start, current, ptr + 1, coming, limit)
    ensures done0 <= done && |done| - |done0| == |done - done0| <= NeedOf(md, g, start).confs
    ensures forall c :: c in done - done0 ==> c.p == ptr
  {
    hide RunSpace, RunInv, SeenInv, EndsInv, Universe, IsProgram, LayItem, Quiet, Spare, Succeeds, NeedOf, AddedHere,
      CalledHere, RunOffsets, TopCount, CallOffsets;
    ScanInside(md, chain, g, start, current, ptr, done0, done, seen, [], coming, ends, limit, free);
    if free {
      RunSpaceOk(md, g, start, current);
      DoneAreGood(RunSpace(md, g, start, current), done, [], ptr, coming);
      CalledAre(md, g, start, current, done, ptr);
      NeedIs(md, g, start);
      SpareNext(NeedOf(md, g, start), ptr - current, seen + [], coming, limit, |done| - |done0|,
                |CalledHere(md, done, ptr)|);
    }
  }

  lemma NeedIs(md: MatchData, g: Item, start: nat)
    requires g.Group?
    ensures NeedOf(md, g, start).calls == |CallOffsets(md, g, start)| && NeedOf(md, g, start).n == |md.env.s|
  {
    hide RunOffsets, CallOffsets, TopCount;
  }

  lemma NoneAdded(md: MatchData, g: Item, start: nat, done: set<Conf>, p: nat)
    requires g.Group?
    ensures AddedHere(done, done, RunLayer(md, g, start, p), p)
  {
    hide RunOffsets, TopCount;
  }

  lemma OneAdded(md: MatchData, g: Item, start: nat, current: nat, done0: set<Conf>, done: set<Conf>, c: Conf, ptr: nat)
    requires md.Valid() && Laid(md.x, md.code, g, start) && c in RunSpace(md, g, start, current).good && c.p == ptr
    requires c !in done
    requires AddedHere(done0, done, RunLayer(md, g, start, ptr), ptr)
    ensures AddedHere(done0, done + {c}, RunLayer(md, g, start, ptr), ptr) && |done + {c}| == |done| + 1
    ensures 0 <= |done| - |done0| < |RunLayer(md, g, start, ptr)|
  {
    hide RunSpace, IsProgram, LayItem, Decode, Positive, LinkedCall, RunLayer;
    GoodInLayer(md, g, start, current, c);
    AddedSize(done0, done + {c}, RunLayer(md, g, start, ptr), ptr);
    AddedSize(done0, done, RunLayer(md, g, start, ptr), ptr);
  }

  // ---------- the result of a run ----------

  lemma {:induction false} ClosedUnderPaths(md: MatchData, g: Item, start: nat, current: nat, done: set<Conf>,
                                            n: nat, c: Conf, t: Conf)
    requires md.Valid() && g.Group? && c in done && Path(RunMachine(md, g, start), n, c, t)
    requires forall e :: e in RunSpace(md, g, start, current).edges && e.from in done ==> e.to in done
    ensures t in done
  {
    hide Step, IsProgram, LayItem, GoodConf;
    if n > 0 {
      var d :| Step(RunMachine(md, g, start), c, d) && Path(RunMachine(md, g, start), n - 1, d, t);
      assert Edge(c, d) in RunSpace(md, g, start, current).edges;
      ClosedUnderPaths(md, g, start, current, done, n - 1, d, t);
    }
  }

  /** When both lists are empty the ends found are all the ends there are. */
  lemma RunResult(md: MatchData, g: Item, start: nat, current: nat, done: set<Conf>, ptr: nat, ends: seq<nat>)
    requires md.Valid() && Laid(md.x, md.code, g, start) && current <= |md.env.s|
    requires RunInv(RunSpace(md, g, start, current), done, [], ptr, [])
    requires EndsInv(md.env, KetOffset(start, g), current, done, ptr, ends)
    ensures AllEnds(md.env, md.root, g, current, ends)
  {
    hide Step, LayItem, RunInv, Path, RunOffsets, Decode;
    var sp, m, endc := RunSpace(md, g, start, current), RunMachine(md, g, start), KetOffset(start, g);
    Complete(sp, done, ptr);
    DoneAreGood(sp, done, [], ptr, []);
    KetIsInRun(g, start);
    RunIsConfined(md, g, start, endc);
    FactsAreOk(md.env, md.root);
    forall q: nat ensures Conf(endc, 0, q) in done <==> MAlts(md.env, md.CallFacts(), g.alts, current, q) {
      RunOfGroup(m, g, start, current, q);
      if Conf(endc, 0, q) in done {
        assert GoodConf(md, g, start, current, Conf(endc, 0, q));
      }
      if o :| o in Starts(g.alts, start + BraSize(g.bra)) && Reaches(m, Conf(o, 0, current), Conf(endc, 0, q)) {
        assert Conf(o, 0, current) in sp.starts;
        var n: nat :| Path(m, n, Conf(o, 0, current), Conf(endc, 0, q));
        ClosedUnderPaths(md, g, start, current, done, n, Conf(o, 0, current), Conf(endc, 0, q));
      }
    }
  }

  /** Everything the run reaches has been expanded. */
  lemma ReachedIsDone(md: MatchData, g: Item, start: nat, current: nat, done: set<Conf>, ptr: nat, c: Conf)
    requires md.Valid() && Laid(md.x, md.code, g, start)
    requires RunInv(RunSpace(md, g, start, current), done, [], ptr, []) && c in RunSpace(md, g, start, current).good
    ensures c in done
  {
    hide Step, LayItem, IsProgram, RunInv, Path, RunOffsets, Decode;
    var m := RunMachine(md, g, start);
    Complete(RunSpace(md, g, start, current), done, ptr);
    assert GoodConf(md, g, start, current, c);
    var o :| o in Starts(g.alts, start + BraSize(g.bra)) && Reaches(m, Conf(o, 0, current), c);
    assert Conf(o, 0, current) in RunSpace(md, g, start, current).starts;
    var n: nat :| Path(m, n, Conf(o, 0, current), c);
    ClosedUnderPaths(md, g, start, current, done, n, Conf(o, 0, current), c);
  }

  /** So if no call that was expanded comes back, none does. */
  lemma QuietRun(md: MatchData, chain: Recursion, g: Item, start: nat, current: nat, done: set<Conf>, ptr: nat)
    requires md.Valid() && Laid(md.x, md.code, g, start) && Quiet(md, chain, done)
    requires RunInv(RunSpace(md, g, start, current), done, [], ptr, [])
    ensures !RunLoops(md, chain, g, start, current)
  {
    hide RunInv, LayItem, IsProgram, RunSpace, Decode, CallLoops;
    forall c: Conf ensures !LoopsAt(md, chain, g, start, current, c) {
      if c in RunSpace(md, g, start, current).good {
        ReachedIsDone(md, g, start, current, done, ptr, c);
      }
    }
  }

  lemma KetIsInRun(g: Item, start: nat)
    requires g.Group?
    ensures KetOffset(start, g) in RunOffsets(g, start)
  {
  }

  /** The lists before the first position: a state for each branch. */
  lemma InitialInv(md: MatchData, g: Item, start: nat, current: nat)
    requires md.Valid() && Laid(md.x, md.code, g, start) && current <= |md.env.s|
    ensures var starts := Starts(g.alts, start + BraSize(g.bra));
            RunInv(RunSpace(md, g, start, current), {}, AtZero(starts), current, [])
  {
    hide Step, IsProgram, LayItem, GoodConf, Path, RunOffsets, Decode;
    var sp, starts := RunSpace(md, g, start, current), Starts(g.alts, start + BraSize(g.bra));
    forall st | st in AtZero(starts) ensures st.offset > 0 && st.data == 0 && ConfOf(st, current) in sp.good {
      var k :| 0 <= k < |starts| && AtZero(starts)[k] == st;
      StartIsGood(md, g, start, current, starts[k]);
      assert starts[k] in starts;
      GoodIsReady(md, g, start, current, Conf(starts[k], 0, current));
    }
    forall c | c in sp.starts ensures Covered({}, AtZero(starts), current, [], c) {
      var k :| 0 <= k < |starts| && starts[k] == c.o;
      assert AtZero(starts)[k] == StateBlock(c.o, 0, 0);
    }
  }

  /** Run the group that starts at offset start over the subject from current on.
    * Without an error the result is every end position the group can match. */
  method InternalDfaExec(md: MatchData, ghost g: Item, start: nat, current: nat, offsets: array<int>, wscount: int)
    returns (rc: int, ghost ends: seq<nat>)
    requires md.Valid() && md.CallsOk() && Laid(md.x, md.code, g, start) && current <= |md.env.s|
    requires wscount >= 20
    modifies md, offsets
    ensures md.recursive == old(md.recursive)
    ensures rc >= PCRE_ERROR_NOMATCH ==>
              && AllEnds(md.env, md.root, g, current, ends)
              && VectorHolds(offsets[..], offsets.Length / 2, current, ends)
              && rc == MatchCount(|ends|, offsets.Length / 2)
    ensures rc >= PCRE_ERROR_NOMATCH || IsError(rc)
    ensures rc >= PCRE_ERROR_NOMATCH ==> !RunLoops(md, md.recursive, g, start, current)
    ensures rc == PCRE_ERROR_RECURSELOOP ==> RunLoops(md, md.recursive, g, start, current)
    ensures Overflowing(rc, |md.env.s|)
    ensures Succeeds(md, md.recursive, g, start, current, ListLimit(wscount)) ==> rc >= PCRE_ERROR_NOMATCH
    decreases CallsLeft(md.recursive, |md.env.s|), 6
  {
    hide RunSpace, RunInv, EndsInv, VectorHolds, IsProgram, LayItem, Decode, Calls, NoRepeats, AllCalls, ChainOk, EndOf,
      AltStarts, Starts, MatchCount, AllEnds, Succeeds, StartsWithRoom, Quiet, RunLoops, CallLoops;
    ghost var free := Succeeds(md, md.recursive, g, start, current, ListLimit(wscount));
    OpeningOf(md, g, start);
    InitialInv(md, g, start, current);
    ghost var sp := RunSpace(md, g, start, current);
    var offsetcount := offsets.Length - offsets.Length % 2;
    var limit := (wscount - 2) / (2 * INTS_PER_STATEBLOCK);
    ends := [];
    var endCode := SkipBranches(md.code, start);
    if free {
      RoomAtStart(md, md.recursive, g, start, current, limit);
    }
    var ok, coming := OpenBranches(md.code, start, [], limit);
    if !ok {
      rc := PCRE_ERROR_DFA_WSSIZE;
      return;
    }
    ghost var done: set<Conf> := {};
    ghost var expanded;
    QuietAtFirst(md, md.recursive);
    var ptr, matchCount, err := current, PCRE_ERROR_NOMATCH, 0;
    NothingFound(md.env, endCode, current, offsets, offsetcount / 2);
    WithBranchesIs([], md.code, start, start + BraSize(md.code[start]));
    assert coming == AtZero(Starts(g.alts, start + BraSize(g.bra)));
    while true
      invariant free ==> StartsWithRoom(md, md.recursive, g, start, current, ptr, coming, limit)
      invariant current <= ptr <= |md.env.s| && md.recursive == old(md.recursive)
      invariant RunInv(sp, done, coming, ptr, []) && Quiet(md, md.recursive, done)
      invariant forall c :: c in done ==> c.p < ptr
      invariant EndsInv(md.env, endCode, current, done, ptr, ends)
      invariant VectorHolds(offsets[..], offsetcount / 2, current, ends)
      invariant matchCount == MatchCount(|ends|, offsetcount / 2)
      decreases |md.env.s| - ptr
    {
      var clen := if ptr < |md.env.s| then 1 else 0;
      err, coming, matchCount, done, ends, expanded := ScanPosition(md, g, start, endCode, current, ptr, coming, limit,
                                                         offsets, offsetcount, matchCount, done, ends, free);
      if err != 0 {
        rc := err;
        return;
      }
      if |coming| <= 0 {
        break;
      }
      Advance(sp, done, ptr, coming);
      ComingIsInside(md, g, start, current, done, ptr, coming);
      EndsLater(md.env, endCode, current, done, ptr, ends);
      ptr := ptr + clen;
    }
    RunResult(md, g, start, current, done, ptr, ends);
    QuietRun(md, md.recursive, g, start, current, done, ptr);
    rc := matchCount;
  }

  /** There is room for the states of the branches. */
  lemma RoomAtStart(md: MatchData, chain: Recursion, g: Item, start: nat, current: nat, limit: int)
    requires md.Valid() && Laid(md.x, md.code, g, start) && Succeeds(md, chain, g, start, current, limit)
    requires ChainOk(md.code, start)
    ensures var all := WithBranches([], md.code, start, start + BraSize(md.code[start]));
            |all| <= limit && StartsWithRoom(md, chain, g, start, current, current, all, limit)
  {
    hide IsProgram, LayItem, ChainOk, AltStarts, WithBranches, RunLoops, CallFits, RunSpace, RunOffsets, CallOffsets,
      TopCount, Decode, Starts;
    var st, h := start + BraSize(g.bra), start + BraSize(md.code[start]);
    OpeningOf(md, g, start);
    WithBranchesIs([], md.code, start, h);
    StartsDiffer(md.code, start, h);
    var starts, offs := Starts(g.alts, st), RunOffsets(g, start);
    forall j: nat | j < |starts| ensures starts[j] in offs {
      assert starts[j] in starts;
      StartInRun(md, g, start, starts[j]);
    }
    DifferentFit(starts, offs);
    var all := AtZero(starts);
    assert [] + all == all;
    NoneHeld(all);
    var need := NeedOf(md, g, start);
    MulMono(|offs|, 1, |offs|, TopCount(md, g, start) + 1);
    MulMono(0, 0, need.width, need.confs);
    MulMono(0, 0, need.calls * (need.n + 1), need.n + 1);
    MulMono(0, 0, need.calls, need.n + 1);
  }

  lemma StartInRun(md: MatchData, g: Item, start: nat, o: nat)
    requires md.Valid() && Laid(md.x, md.code, g, start) && o in Starts(g.alts, start + BraSize(g.bra))
    ensures o in RunOffsets(g, start)
  {
    hide IsProgram, LayItem, CodeItem, CodeAlts, OffsetOk, Offsets, AltsOffsets, Starts, Reaches, Decode, DecodedTo;
    var m := RunMachine(md, g, start);
    KetIsInRun(g, start);
    RunIsConfined(md, g, start, KetOffset(start, g));
    GroupParts(m.ins, g, start);
    StartsAreOffsets(m.ins, g.alts, start + BraSize(g.bra), KetOffset(start, g), o);
  }

  lemma OpeningOf(md: MatchData, g: Item, start: nat)
    requires md.Valid() && Laid(md.x, md.code, g, start)
    ensures ChainOk(md.code, start) && EndOf(md.code, start) == KetOffset(start, g) && IsBra(md.code[start])
    ensures AltStarts(md.code, start, start + BraSize(md.code[start])) == Starts(g.alts, start + BraSize(g.bra))
  {
    hide LayItem, ChainOk, EndOf, AltStarts, Starts;
    GroupLinks(md.x, md.code, start, g);
  }

  lemma NothingFound(env: Env, endc: nat, current: nat, offsets: array<int>, pairs: nat)
    requires 2 * pairs <= offsets.Length
    ensures EndsInv(env, endc, current, {}, current, []) && VectorHolds(offsets[..], pairs, current, [])
    ensures MatchCount(0, pairs) == PCRE_ERROR_NOMATCH
  {
  }

  lemma EndsLater(env: Env, endc: nat, current: nat, done: set<Conf>, ptr: nat, ends: seq<nat>)
    requires EndsInv(env, endc, current, done, ptr, ends)
    ensures EndsInv(env, endc, current, done, ptr + 1, ends)
  {
  }

  /** States wait for the next position only if there is one. */
  lemma ComingIsInside(md: MatchData, g: Item, start: nat, current: nat, done: set<Conf>, ptr: nat,
                       coming: seq<StateBlock>)
    requires md.Valid() && Laid(md.x, md.code, g, start) && coming != []
    requires RunInv(RunSpace(md, g, start, current), done, coming, ptr + 1, [])
    ensures ptr < |md.env.s|
  {
    hide RunSpace, RunInv, IsProgram, LayItem, Decode;
    assert coming == [coming[0]] + coming[1..];
    HeadIsGood(RunSpace(md, g, start, current), done, ptr + 1, coming[0], coming[1..], []);
    GoodIsReady(md, g, start, current, ConfOf(coming[0], ptr + 1));
  }
}
