/** What auto-possessification leaves of the matches that the DFA engine reports, which
  * are all of them and not only the first. A match or a call is lost only where it ends
  * in front of a character that a repeat could still take from behind which the end of
  * the pattern, or of the called group, is reached without a character.
  */
module Ends {
  import opened Opcodes
  import opened Tree
  import opened Meaning
  import opened Machine
  import opened Runs
  import opened Decoding
  import opened Pattern
  import opened Expansion
  import opened Program
  import opened CodeScan
  import opened References
  import opened Closure
  import opened PropertyLists
  import opened Settling
  import opened HardSets
  import opened Rewriting
  import opened Strictness
  import opened AutoPossession
  import opened Finding
  import opened Passing

  /** A program and what it was rewritten to, as auto-possessification leaves them: what
    * comes behind every repeat it made possessive is settled. */
  ghost predicate Rewritten(x: PlainLinks, code: seq<byte>, root: Item, code': seq<byte>, tb: Tables, made: set<nat>) {
    && TablesOk(tb) && Hardenings(x, code, root, code', tb, made)
    && forall o: nat :: o in made ==> Ripe(code, tb, o)
  }

  lemma RewrittenParts(x: PlainLinks, code: seq<byte>, root: Item, code': seq<byte>, tb: Tables, made: set<nat>)
    requires Rewritten(x, code, root, code', tb, made)
    ensures root.Group? && |code| > 0 && |code'| > 0 && HardSet(root, 0, made).Group?
    ensures CallsIn(HardSet(root, 0, made)) == CallsIn(root) && Stricter(HardSet(root, 0, made), root)
    ensures IsProgram(x, code, root) && IsProgram(x, code', HardSet(root, 0, made))
  {
    hide LayItem, FindOffset, HardSet;
  }

  // ---------- the groups that are called ----------

  /** The offset of the group that a call leads to; 0 stands for the whole pattern. */
  function CalleeOffset(root: Item, num: nat): Option<nat> {
    if num == 0 then Some(0) else FindOffset(root, 0, num)
  }

  lemma CalleeHasOffset(root: Item, num: nat)
    requires root.Group?
    ensures Callee(root, num).Some? <==> CalleeOffset(root, num).Some?
  {
    NotFound(root, 0, num);
  }

  /** The instructions between the bracket and the ket of the group, and the ket. */
  function CalleeInner(root: Item, num: nat): set<nat>
    requires root.Group? && Callee(root, num).Some? && CalleeOffset(root, num).Some?
  {
    var g, a := Callee(root, num).value, CalleeOffset(root, num).value;
    AltsOffsets(g.alts, a + BraSize(g.bra))
  }

  function CalleeKet(root: Item, num: nat): nat
    requires root.Group? && Callee(root, num).Some? && CalleeOffset(root, num).Some?
  {
    KetOffset(CalleeOffset(root, num).value, Callee(root, num).value)
  }

  lemma {:induction false} FoundOffsets(it: Item, a: nat, num: nat)
    requires FindGroup(it, num).Some? && FindOffset(it, a, num).Some?
    ensures Offsets(FindGroup(it, num).value, FindOffset(it, a, num).value) <= Offsets(it, a)
    decreases it
  {
    match it
    case Group(bra, n, alts, _) => if n != num || num == 0 { FoundOffsetsAlts(alts, a + BraSize(bra), num); }
    case Zero(_, g) => FoundOffsets(g, a + 1, num);
    case _ =>
  }

  lemma {:induction false} FoundOffsetsBranch(b: Branch, a: nat, num: nat)
    requires FindInBranch(b, num).Some? && FindOffsetInBranch(b, a, num).Some?
    ensures Offsets(FindInBranch(b, num).value, FindOffsetInBranch(b, a, num).value) <= BranchOffsets(b, a)
    decreases b
  {
    NotFound(b.head, a, num);
    if FindGroup(b.head, num).Some? {
      FoundOffsets(b.head, a, num);
    } else {
      FoundOffsetsBranch(b.tail, a + Size(b.head), num);
    }
  }

  lemma {:induction false} FoundOffsetsAlts(alts: Alts, st: nat, num: nat)
    requires FindInAlts(alts, num).Some? && FindOffsetInAlts(alts, st, num).Some?
    ensures Offsets(FindInAlts(alts, num).value, FindOffsetInAlts(alts, st, num).value) <= AltsOffsets(alts, st)
    decreases alts
  {
    NotFoundBranch(alts.b, st, num);
    if FindInBranch(alts.b, num).Some? {
      FoundOffsetsBranch(alts.b, st, num);
    } else {
      FoundOffsetsAlts(alts.rest, st + BranchSize(alts.b) + 3, num);
    }
  }

  /** The called group of the rewritten tree is the rewritten group. */
  lemma HardCallee(root: Item, made: set<nat>, num: nat)
    requires root.Group?
    ensures HardSet(root, 0, made).Group? && CalleeOffset(HardSet(root, 0, made), num) == CalleeOffset(root, num)
    ensures Callee(HardSet(root, 0, made), num).Some? <==> Callee(root, num).Some?
    ensures Callee(root, num).Some? ==>
              && CalleeOffset(root, num).Some?
              && Callee(HardSet(root, 0, made), num)
                 == Some(HardSet(Callee(root, num).value, CalleeOffset(root, num).value, made))
  {
    HardFound(root, 0, made, num);
  }

  lemma CalleeDecodes(x: PlainLinks, code: seq<byte>, root: Item, num: nat)
    requires IsProgram(x, code, root) && Callee(root, num).Some?
    ensures root.Group? && CalleeOffset(root, num).Some?
    ensures var g, a := Callee(root, num).value, CalleeOffset(root, num).value;
            && g.Group?
            && CodeItem(Decoded(code), a, g)
            && CalleeKet(root, num) < |code|
            && IsKet(code[CalleeKet(root, num)])
  {
    hide LayItem, CodeItem, DecodedTo, TargetsOk;
    CalleeHasOffset(root, num);
    var g, a := Callee(root, num).value, CalleeOffset(root, num).value;
    ProgramTargets(x, code, root);
    if num != 0 {
      FoundItem(x, code, 0, root, num);
    }
    ItemDecodes(x, code, a, g);
    GroupLinks(x, code, a, g);
  }

  lemma CalleeInside(x: PlainLinks, code: seq<byte>, root: Item, num: nat)
    requires IsProgram(x, code, root) && Callee(root, num).Some?
    ensures root.Group? && CalleeOffset(root, num).Some?
    ensures CalleeInner(root, num) <= AllOffsets(root) && Inside(code, CalleeInner(root, num), CalleeKet(root, num))
  {
    hide IsProgram, CodeAlts, AltsOffsets, Leads, DecodedTo, Decode;
    CalleeDecodes(x, code, root, num);
    var g, a := Callee(root, num).value, CalleeOffset(root, num).value;
    var st, k := a + BraSize(g.bra), KetOffset(a, g);
    if num != 0 {
      FoundOffsets(root, 0, num);
    }
    GroupParts(Decoded(code), g, a);
    forall o: nat | o in CalleeInner(root, num)
      ensures o < |code| && o != k && Leads(Decode(code, o), o, CalleeInner(root, num) + {k})
    {
      Hardening.OffsetInsideAlts(g.alts, st, o);
      AltsLead(Decoded(code), g.alts, st, k, o);
      InstrIs(code, o);
    }
  }

  lemma {:induction false} SameStarts(alts: Alts, st: nat, made: set<nat>)
    ensures Starts(HardSetAlts(alts, st, made), st) == Starts(alts, st)
    decreases alts
  {
    if alts.More? {
      SameStarts(alts.rest, st + BranchSize(alts.b) + 3, made);
    }
  }

  // ---------- one pass through a group ----------

  /** No repeat of the group could take the character at q and be the last one to take
    * anything. */
  ghost predicate Unclashed(code: seq<byte>, root: Item, made: set<nat>, env: Env, num: nat, q: nat)
    requires root.Group? && Callee(root, num).Some? && CalleeOffset(root, num).Some?
  {
    forall o: nat :: o in made && o in CalleeInner(root, num) ==> !Clashes(code, env, CalleeKet(root, num), o, q)
  }

  /** Every pass through a group is kept, unless it ends in front of a character that one
    * of its repeats could take; then there is a longer one. */
  lemma PassKept(x: PlainLinks, code: seq<byte>, root: Item, code': seq<byte>, tb: Tables, made: set<nat>, env: Env,
                 facts: iset<Fact>, num: nat, p: nat, q: nat)
    returns (r: nat)
    requires Rewritten(x, code, root, code', tb, made) && Fits(env, tb) && FactsOk(env, facts) && p <= |env.s|
    requires root.Group? && Callee(root, num).Some? && MAlts(env, facts, Callee(root, num).value.alts, p, q)
    ensures CalleeOffset(root, num).Some? && Callee(HardSet(root, 0, made), num).Some?
    ensures MAlts(env, facts, Callee(HardSet(root, 0, made), num).value.alts, p, q)
         || (!Unclashed(code, root, made, env, num, q)
             && q < r <= |env.s| && MAlts(env, facts, Callee(root, num).value.alts, p, r))
  {
    hide Rewritten, IsProgram, Stricter, Fits, TablesOk, CodeItem, CodeAlts, HardSet, HardSetAlts, Inside, Paired,
      Clashes, Counted, AltsOffsets, MAlts, Path, Starts, DecodedTo;
    RewrittenParts(x, code, root, code', tb, made);
    HardCallee(root, made, num);
    CalleeDecodes(x, code, root, num);
    CalleeDecodes(x, code', HardSet(root, 0, made), num);
    CalleeInside(x, code, root, num);
    var g, a := Callee(root, num).value, CalleeOffset(root, num).value;
    var g', k, st := HardSet(g, a, made), KetOffset(a, g), a + BraSize(g.bra);
    HardGroup(g, a, made);
    SameStarts(g.alts, st, made);
    var m, m', inner := Over(code, env, k, facts), Over(code', env, k, facts), CalleeInner(root, num);
    MachineReady(code, env, tb, k, facts);
    MachineReady(code', env, tb, k, facts);
    PairedUp(x, code, root, code', tb, made, env, k);
    RunOfGroup(m, g, a, p, q);
    RunOfGroup(m', g', a, p, q);
    var o :| o in Starts(g.alts, st) && Reaches(m, Conf(o, 0, p), Conf(k, 0, q));
    var n: nat :| Path(m, n, Conf(o, 0, p), Conf(k, 0, q));
    StartInside(code, g, a, o, p);
    var e;
    e, r := RunKept(code, code', AllOffsets(root), made, tb, env, k, facts, inner, n, Conf(o, 0, p), q);
    RunOfGroup(m, g, a, p, r);
  }

  lemma HardGroup(g: Item, a: nat, made: set<nat>)
    requires g.Group?
    ensures var g' := HardSet(g, a, made);
            && g'.Group?
            && g'.bra == g.bra
            && g'.alts == HardSetAlts(g.alts, a + BraSize(g.bra), made)
            && KetOffset(a, g') == KetOffset(a, g)
  {
  }

  lemma MachineReady(code: seq<byte>, env: Env, tb: Tables, endc: nat, facts: iset<Fact>)
    requires Fits(env, tb) && FactsOk(env, facts)
    ensures Ready(Over(code, env, endc, facts))
  {
  }

  lemma PairedUp(x: PlainLinks, code: seq<byte>, root: Item, code': seq<byte>, tb: Tables, made: set<nat>, env: Env,
                 endc: nat)
    requires Rewritten(x, code, root, code', tb, made) && Fits(env, tb) && endc < |code| && IsKet(code[endc])
    ensures Paired(code, code', AllOffsets(root), made, tb, env, endc)
  {
    hide IsProgram, SameExcept, SameMatches, Stricter, Fits, TablesOk, Closed, HardSet, Ripe, AllOffsets;
    ProgramIsClosed(x, code, root);
  }

  lemma StartInside(code: seq<byte>, g: Item, a: nat, o: nat, p: nat)
    requires g.Group? && CodeItem(Decoded(code), a, g) && o in Starts(g.alts, a + BraSize(g.bra))
    ensures o in AltsOffsets(g.alts, a + BraSize(g.bra)) || o == KetOffset(a, g)
    ensures Counted(code, Conf(o, 0, p))
  {
    hide CodeItem, CodeAlts, AltsOffsets, Starts, DecodedTo;
    GroupParts(Decoded(code), g, a);
    StartsAreOffsets(Decoded(code), g.alts, a + BraSize(g.bra), KetOffset(a, g), o);
    DecodedBounds(code, o);
    hide Decode;
  }

  // ---------- the meaning of a tree relies only on the calls in it ----------

  lemma {:induction false} ItemRelies(env: Env, f1: iset<Fact>, f2: iset<Fact>, it: Item, p: nat, q: nat)
    requires Agree(f1, f2, CallsIn(it)) && MItem(env, f1, it, p, q)
    ensures MItem(env, f2, it, p, q)
    decreases it, 0
  {
    match it
    case Group(_, _, alts, ket) =>
      if ket == OP_KET {
        AltsRely(env, f1, f2, alts, p, q);
      } else {
        var n := LoopPasses(env, f1, it, p, q);
        IterRelies(env, f1, f2, alts, n, p, q);
      }
    case Zero(_, g) => if p != q { ItemRelies(env, f1, f2, g, p, q); }
    case Call(num) => assert Fact(num, p, q) in f2;
    case _ =>
  }

  lemma {:induction false} BranchRelies(env: Env, f1: iset<Fact>, f2: iset<Fact>, b: Branch, p: nat, q: nat)
    requires Agree(f1, f2, CallsInBranch(b)) && MBranch(env, f1, b, p, q)
    ensures MBranch(env, f2, b, p, q)
    decreases b, 0
  {
    if b.Cons? {
      var r := BranchSplit(env, f1, b, p, q);
      ItemRelies(env, f1, f2, b.head, p, r);
      BranchRelies(env, f1, f2, b.tail, r, q);
      BranchJoin(env, f2, b, p, r, q);
    }
  }

  lemma {:induction false} AltsRely(env: Env, f1: iset<Fact>, f2: iset<Fact>, alts: Alts, p: nat, q: nat)
    requires Agree(f1, f2, CallsInAlts(alts)) && MAlts(env, f1, alts, p, q)
    ensures MAlts(env, f2, alts, p, q)
    decreases alts, 0
  {
    if MBranch(env, f1, alts.b, p, q) {
      BranchRelies(env, f1, f2, alts.b, p, q);
    } else {
      AltsRely(env, f1, f2, alts.rest, p, q);
    }
  }

  lemma {:induction false} IterRelies(env: Env, f1: iset<Fact>, f2: iset<Fact>, alts: Alts, n: nat, p: nat, q: nat)
    requires Agree(f1, f2, CallsInAlts(alts)) && MIter(env, f1, alts, n, p, q)
    ensures MIter(env, f2, alts, n, p, q)
    decreases alts, n + 1
  {
    if n > 0 {
      var r := IterTake(env, f1, alts, n, p, q);
      AltsRely(env, f1, f2, alts, p, r);
      IterRelies(env, f1, f2, alts, n - 1, r, q);
      IterJoin(env, f2, alts, n - 1, p, r, q);
    }
  }

  lemma {:induction false} FoundCalls(it: Item, num: nat)
    requires FindGroup(it, num).Some?
    ensures CallsIn(FindGroup(it, num).value) <= CallsIn(it)
    decreases it
  {
    match it
    case Group(_, n, alts, _) => if n != num || num == 0 { FoundCallsAlts(alts, num); }
    case Zero(_, g) => FoundCalls(g, num);
    case _ =>
  }

  lemma {:induction false} FoundCallsBranch(b: Branch, num: nat)
    requires FindInBranch(b, num).Some?
    ensures CallsIn(FindInBranch(b, num).value) <= CallsInBranch(b)
    decreases b
  {
    if FindGroup(b.head, num).Some? {
      FoundCalls(b.head, num);
    } else {
      FoundCallsBranch(b.tail, num);
    }
  }

  lemma {:induction false} FoundCallsAlts(alts: Alts, num: nat)
    requires FindInAlts(alts, num).Some?
    ensures CallsIn(FindInAlts(alts, num).value) <= CallsInAlts(alts)
    decreases alts
  {
    if FindInBranch(alts.b, num).Some? {
      FoundCallsBranch(alts.b, num);
    } else {
      FoundCallsAlts(alts.rest, num);
    }
  }

  lemma CalleeCalls(root: Item, num: nat)
    requires root.Group? && Callee(root, num).Some?
    ensures CallsInAlts(Callee(root, num).value.alts) <= CallsIn(root)
  {
    if num != 0 {
      FoundCalls(root, num);
    }
  }

  lemma CalleeRelies(env: Env, f1: iset<Fact>, f2: iset<Fact>, root: Item, f: Fact)
    requires root.Group? && Agree(f1, f2, CallsIn(root)) && CallMatches(env, root, f1, f)
    ensures CallMatches(env, root, f2, f)
  {
    hide MAlts, CallsIn, CallsInAlts;
    CalleeCalls(root, f.num);
    AltsRely(env, f1, f2, Callee(root, f.num).value.alts, f.p, f.q);
  }

  /** The facts about the groups that are called. */
  ghost function About(facts: iset<Fact>, nums: set<nat>): iset<Fact> {
    iset f: Fact | f in facts && f.num in nums
  }

  // ---------- what calls match ----------

  /** Whatever the original code makes of a call, given the calls of the rewritten code,
    * and ends in front of a character that a repeat could take, the rewritten code makes
    * of it too. */
  ghost predicate CallsSpared(code: seq<byte>, root: Item, made: set<nat>, env: Env)
    requires root.Group? && HardSet(root, 0, made).Group?
  {
    var hard := HardSet(root, 0, made);
    forall f: Fact :: f.num in CallsIn(root) && CallMatches(env, root, Facts(env, hard), f)
                      && CalleeOffset(root, f.num).Some? && !Unclashed(code, root, made, env, f.num, f.q)
                      ==> f in Facts(env, hard)
  }

  lemma CallSpared(code: seq<byte>, root: Item, made: set<nat>, env: Env, f: Fact)
    requires root.Group? && HardSet(root, 0, made).Group? && CallsSpared(code, root, made, env)
    requires f.num in CallsIn(root) && CallMatches(env, root, Facts(env, HardSet(root, 0, made)), f)
    requires CalleeOffset(root, f.num).Some? && !Unclashed(code, root, made, env, f.num, f.q)
    ensures f in Facts(env, HardSet(root, 0, made))
  {
    hide CallMatches, Facts, Unclashed;
  }

  /** Given the calls of the rewritten code, one more call is kept. */
  lemma CallKept(x: PlainLinks, code: seq<byte>, root: Item, code': seq<byte>, tb: Tables, made: set<nat>, env: Env,
                 f: Fact)
    requires Rewritten(x, code, root, code', tb, made) && Fits(env, tb) && root.Group? && HardSet(root, 0, made).Group?
    requires f.num in CallsIn(root) && CallMatches(env, root, Facts(env, HardSet(root, 0, made)), f)
    requires CallsSpared(code, root, made, env)
    ensures f in Facts(env, HardSet(root, 0, made))
  {
    hide Rewritten, Fits, MAlts, Facts, Unclashed, HardSet, CallsSpared;
    var hard := HardSet(root, 0, made);
    FactsAreOk(env, hard);
    CallsAreClosed(env, hard, f);
    var r := PassKept(x, code, root, code', tb, made, env, Facts(env, hard), f.num, f.p, f.q);
    if !MAlts(env, Facts(env, hard), Callee(hard, f.num).value.alts, f.p, f.q) {
      CallSpared(code, root, made, env, f);
    }
  }

  lemma {:induction false} FactsToKept(x: PlainLinks, code: seq<byte>, root: Item, code': seq<byte>, tb: Tables,
                                       made: set<nat>,
                                       env: Env, d: nat)
    requires Rewritten(x, code, root, code', tb, made) && Fits(env, tb) && root.Group? && HardSet(root, 0, made).Group?
    requires CallsSpared(code, root, made, env)
    ensures About(FactsTo(env, root, d), CallsIn(root)) <= Facts(env, HardSet(root, 0, made))
  {
    hide Rewritten, Fits, Facts, HardSet, CallsSpared, CallMatches, CallsIn, FactsTo;
    var hard := HardSet(root, 0, made);
    forall f: Fact | f in FactsTo(env, root, d) && f.num in CallsIn(root) ensures f in Facts(env, hard) {
      var e := FactNeeds(env, root, d, f);
      FactsToKept(x, code, root, code', tb, made, env, e);
      var some := About(FactsTo(env, root, e), CallsIn(root));
      assert Agree(FactsTo(env, root, e), some, CallsIn(root));
      CalleeRelies(env, FactsTo(env, root, e), some, root, f);
      CallMono(env, some, Facts(env, hard), root, f);
      CallKept(x, code, root, code', tb, made, env, f);
    }
  }

  lemma FactNeeds(env: Env, root: Item, d: nat, f: Fact) returns (e: nat)
    requires root.Group? && f in FactsTo(env, root, d)
    ensures e < d && CallMatches(env, root, FactsTo(env, root, e), f)
  {
    hide CallMatches;
    e := d - 1;
  }

  lemma CallMono(env: Env, f1: iset<Fact>, f2: iset<Fact>, root: Item, f: Fact)
    requires root.Group? && f1 <= f2 && CallMatches(env, root, f1, f)
    ensures CallMatches(env, root, f2, f)
  {
    AltsMono(env, f1, f2, Callee(root, f.num).value.alts, f.p, f.q);
  }

  /** Exactly then do calls match in the rewritten code what they match in the original
    * one. */
  lemma CallsKept(x: PlainLinks, code: seq<byte>, root: Item, code': seq<byte>, tb: Tables, made: set<nat>, env: Env)
    requires Rewritten(x, code, root, code', tb, made) && Fits(env, tb)
    ensures root.Group? && HardSet(root, 0, made).Group?
    ensures Agree(Facts(env, HardSet(root, 0, made)), Facts(env, root), CallsIn(root))
           <==> CallsSpared(code, root, made, env)
  {
    hide Rewritten, Fits, Facts, HardSet, CallMatches, CallsIn, Unclashed, Stricter;
    RewrittenParts(x, code, root, code', tb, made);
    var hard := HardSet(root, 0, made);
    if Agree(Facts(env, hard), Facts(env, root), CallsIn(root)) {
      forall f: Fact | f.num in CallsIn(root) && CallMatches(env, root, Facts(env, hard), f)
        ensures f in Facts(env, hard)
      {
        CalleeRelies(env, Facts(env, hard), Facts(env, root), root, f);
        CallsAreClosed(env, root, f);
      }
    }
    if CallsSpared(code, root, made, env) {
      hide CallsSpared;
      FactsFewer(env, hard, root);
      forall f: Fact | f.num in CallsIn(root) && f in Facts(env, root) ensures f in Facts(env, hard) {
        var d := FactDepth(env, root, f);
        FactsToKept(x, code, root, code', tb, made, env, d);
      }
    }
  }

  lemma FactDepth(env: Env, root: Item, f: Fact) returns (d: nat)
    requires root.Group? && f in Facts(env, root)
    ensures f in FactsTo(env, root, d)
  {
    d :| FactAt(env, root, d, f);
  }

  lemma FactsFewer(env: Env, hard: Item, soft: Item)
    requires Stricter(hard, soft)
    ensures Facts(env, hard) <= Facts(env, soft)
  {
    hide FactsTo, FactAt, Within;
    forall f: Fact | f in Facts(env, hard) ensures f in Facts(env, soft) {
      var d := FactDepth(env, hard, f);
      FactsToWithin(env, hard, soft, d);
      FactAmong(env, soft, d, f);
    }
  }

  lemma FactAmong(env: Env, root: Item, d: nat, f: Fact)
    requires root.Group? && f in FactsTo(env, root, d)
    ensures f in Facts(env, root)
  {
    assert FactAt(env, root, d, f);
  }

  /** What follows the repeats of these groups is settled before the group's own ket. */
  ghost predicate Contained(code: seq<byte>, root: Item, made: set<nat>, nums: set<nat>)
    requires root.Group?
  {
    forall num: nat, o: nat :: num in nums && Callee(root, num).Some? && CalleeOffset(root, num).Some?
                               && o in made && o in CalleeInner(root, num) && Slack(Decode(code, o))
                               ==> CalleeKet(root, num) !in Passed(code, Decode(code, o).next)
  }

  lemma ContainedUnclashed(code: seq<byte>, root: Item, made: set<nat>, nums: set<nat>, env: Env, num: nat, q: nat)
    requires root.Group? && Contained(code, root, made, nums) && num in nums
    requires Callee(root, num).Some? && CalleeOffset(root, num).Some?
    ensures Unclashed(code, root, made, env, num, q)
  {
    hide Decode, Passed, HitAt, CalleeInner, CalleeKet, Callee;
  }

  /** In particular if what follows the repeats of called groups is settled within them. */
  lemma ContainedCalls(code: seq<byte>, root: Item, made: set<nat>, env: Env)
    requires root.Group? && HardSet(root, 0, made).Group? && Contained(code, root, made, CallsIn(root))
    ensures CallsSpared(code, root, made, env)
  {
    hide Facts, HardSet, MAlts, CallsIn, Unclashed, Contained;
    forall f: Fact | f.num in CallsIn(root) && CallMatches(env, root, Facts(env, HardSet(root, 0, made)), f)
                     && Callee(root, f.num).Some? && CalleeOffset(root, f.num).Some?
      ensures Unclashed(code, root, made, env, f.num, f.q)
    {
      ContainedUnclashed(code, root, made, CallsIn(root), env, f.num, f.q);
    }
  }

  // ---------- what the whole pattern matches ----------

  /** Is there a match from p that ends at low or later? */
  ghost predicate MatchesTo(env: Env, root: Item, p: nat, low: nat)
    requires root.Group?
  {
    exists q: nat :: q >= low && Matches(env, root, p, q)
  }

  /** The rewritten code matches no more than the original. */
  lemma NoNewEnd(x: PlainLinks, code: seq<byte>, root: Item, code': seq<byte>, tb: Tables, made: set<nat>, env: Env,
                 p: nat, q: nat)
    requires Rewritten(x, code, root, code', tb, made) && root.Group?
    requires HardSet(root, 0, made).Group? && Matches(env, HardSet(root, 0, made), p, q)
    ensures Matches(env, root, p, q)
  {
    hide Rewritten, Matches, HardSet, Stricter;
    RewrittenParts(x, code, root, code', tb, made);
    StricterMatches(env, HardSet(root, 0, made), root, p, q);
  }

  /** The same calls match, and the end is one that the repeats leave alone: the match is
    * kept. Otherwise there is a longer one. */
  lemma MatchKept(x: PlainLinks, code: seq<byte>, root: Item, code': seq<byte>, tb: Tables, made: set<nat>, env: Env,
                  p: nat, q: nat)
    returns (r: nat)
    requires Rewritten(x, code, root, code', tb, made) && Fits(env, tb) && p <= |env.s|
    requires root.Group? && HardSet(root, 0, made).Group? && Matches(env, root, p, q)
    requires Agree(Facts(env, HardSet(root, 0, made)), Facts(env, root), CallsIn(root))
    ensures Matches(env, HardSet(root, 0, made), p, q)
         || (!Unclashed(code, root, made, env, 0, q) && q < r <= |env.s| && Matches(env, root, p, r))
  {
    hide Rewritten, Fits, MAlts, Facts, Unclashed, HardSet, CallsIn, CallsInAlts;
    var hard := HardSet(root, 0, made);
    FactsAreOk(env, hard);
    FactsAreOk(env, root);
    CalleeCalls(root, 0);
    AltsRely(env, Facts(env, root), Facts(env, hard), root.alts, p, q);
    AltsBounds(env, Facts(env, root), root.alts, p, q);
    r := PassKept(x, code, root, code', tb, made, env, Facts(env, hard), 0, p, q);
    if !MAlts(env, Facts(env, hard), hard.alts, p, q) {
      AltsRely(env, Facts(env, hard), Facts(env, root), root.alts, p, r);
    }
  }

  /** Only matches are lost behind which a character stands that a repeat could take from
    * behind which the end of the pattern is reached. */
  lemma KeptEnd(x: PlainLinks, code: seq<byte>, root: Item, code': seq<byte>, tb: Tables, made: set<nat>, env: Env,
                p: nat, q: nat)
    requires Rewritten(x, code, root, code', tb, made) && Fits(env, tb) && p <= |env.s| && root.Group?
    requires HardSet(root, 0, made).Group? && CallsSpared(code, root, made, env)
    requires Unclashed(code, root, made, env, 0, q)
    ensures Matches(env, HardSet(root, 0, made), p, q) <==> Matches(env, root, p, q)
  {
    hide Rewritten, Fits, Matches, Facts, Unclashed, HardSet, CallsIn, CallsSpared;
    CallsKept(x, code, root, code', tb, made, env);
    if Matches(env, HardSet(root, 0, made), p, q) {
      NoNewEnd(x, code, root, code', tb, made, env, p, q);
    }
    if Matches(env, root, p, q) {
      var r := MatchKept(x, code, root, code', tb, made, env, p, q);
    }
  }

  /** If every repeat is settled before the ket of each called group around it and before
    * the end of the pattern, nothing is lost, calls included. */
  lemma AllEndsKept(x: PlainLinks, code: seq<byte>, root: Item, code': seq<byte>, tb: Tables, made: set<nat>, env: Env,
                    p: nat, q: nat)
    requires Rewritten(x, code, root, code', tb, made) && Fits(env, tb) && p <= |env.s| && root.Group?
    requires Contained(code, root, made, CallsIn(root) + {0})
    ensures HardSet(root, 0, made).Group? && (Matches(env, HardSet(root, 0, made), p, q) <==> Matches(env, root, p, q))
  {
    hide Rewritten, Fits, Matches, HardSet, Unclashed, CallsSpared;
    RewrittenParts(x, code, root, code', tb, made);
    ContainedUnclashed(code, root, made, CallsIn(root) + {0}, env, 0, q);
    ContainedCalls(code, root, made, env);
    KeptEnd(x, code, root, code', tb, made, env, p, q);
  }

  /** The match or a longer one is kept. */
  lemma {:induction false} FurtherKept(x: PlainLinks, code: seq<byte>, root: Item, code': seq<byte>, tb: Tables,
                                       made: set<nat>,
                                       env: Env, p: nat, q: nat) returns (r: nat)
    requires Rewritten(x, code, root, code', tb, made) && Fits(env, tb) && p <= |env.s|
    requires root.Group? && HardSet(root, 0, made).Group? && Matches(env, root, p, q)
    requires Agree(Facts(env, HardSet(root, 0, made)), Facts(env, root), CallsIn(root))
    ensures q <= r && Matches(env, HardSet(root, 0, made), p, r)
    decreases |env.s| - q
  {
    hide Rewritten, Fits, Matches, Facts, HardSet, CallsIn, Unclashed;
    r := q;
    if !Matches(env, HardSet(root, 0, made), p, q) {
      var e := MatchKept(x, code, root, code', tb, made, env, p, q);
      r := FurtherKept(x, code, root, code', tb, made, env, p, e);
    }
  }

  /** However far a match is asked to reach, both have one or neither: so the rewritten
    * code fails at the same starts, and its longest match is as long. */
  lemma SameReach(x: PlainLinks, code: seq<byte>, root: Item, code': seq<byte>, tb: Tables, made: set<nat>, env: Env,
                  p: nat, low: nat)
    requires Rewritten(x, code, root, code', tb, made) && Fits(env, tb) && p <= |env.s| && root.Group?
    requires HardSet(root, 0, made).Group? && CallsSpared(code, root, made, env)
    ensures MatchesTo(env, root, p, low) <==> MatchesTo(env, HardSet(root, 0, made), p, low)
  {
    hide Rewritten, Fits, Matches, Facts, HardSet, CallsIn, CallsSpared;
    CallsKept(x, code, root, code', tb, made, env);
    var hard := HardSet(root, 0, made);
    if q: nat :| q >= low && Matches(env, root, p, q) {
      var r := FurtherKept(x, code, root, code', tb, made, env, p, q);
      assert r >= low && Matches(env, hard, p, r);
    }
    if q: nat :| q >= low && Matches(env, hard, p, q) {
      NoNewEnd(x, code, root, code', tb, made, env, p, q);
      assert q >= low && Matches(env, root, p, q);
    }
  }

  // ---------- patterns that end with a repeat ----------

  /** Every alternative ends with an unlimited possessive repeat of the atom, perhaps in
    * brackets of its own. */
  predicate RunsOut(alts: Alts, atom: Atom)
    decreases alts
  {
    BranchRunsOut(alts.b, atom) && (alts.More? ==> RunsOut(alts.rest, atom))
  }

  predicate BranchRunsOut(b: Branch, atom: Atom)
    decreases b
  {
    b.Cons? && if b.tail.Nil? then ItemRunsOut(b.head, atom) else BranchRunsOut(b.tail, atom)
  }

  predicate ItemRunsOut(it: Item, atom: Atom)
    decreases it
  {
    match it
    case Rep(a, k, lo, hi) => a == atom && RepMax(a, k, lo, hi) == -1 && RepPoss(a, k)
    case Group(_, _, alts, ket) => ket == OP_KET && RunsOut(alts, atom)
    case _ => false
  }

  lemma {:induction false} ItemEndsOut(env: Env, facts: iset<Fact>, it: Item, atom: Atom, p: nat, q: nat)
    requires ItemRunsOut(it, atom) && MItem(env, facts, it, p, q)
    ensures !HitAt(env, atom, q)
    decreases it
  {
    if it.Group? {
      AltsEndOut(env, facts, it.alts, atom, p, q);
    }
  }

  lemma {:induction false} BranchEndsOut(env: Env, facts: iset<Fact>, b: Branch, atom: Atom, p: nat, q: nat)
    requires BranchRunsOut(b, atom) && MBranch(env, facts, b, p, q)
    ensures !HitAt(env, atom, q)
    decreases b
  {
    var r := BranchSplit(env, facts, b, p, q);
    if b.tail.Cons? {
      BranchEndsOut(env, facts, b.tail, atom, r, q);
    } else {
      SingleItem(env, facts, b.head, p, q);
      ItemEndsOut(env, facts, b.head, atom, p, q);
    }
  }

  lemma {:induction false} AltsEndOut(env: Env, facts: iset<Fact>, alts: Alts, atom: Atom, p: nat, q: nat)
    requires RunsOut(alts, atom) && MAlts(env, facts, alts, p, q)
    ensures !HitAt(env, atom, q)
    decreases alts
  {
    if MBranch(env, facts, alts.b, p, q) {
      BranchEndsOut(env, facts, alts.b, atom, p, q);
    } else {
      AltsEndOut(env, facts, alts.rest, atom, p, q);
    }
  }

  /** The repeats that can clash at the end of the pattern are those of the atom. */
  ghost predicate ClashesOnly(code: seq<byte>, root: Item, made: set<nat>, atom: Atom)
    requires root.Group? && Callee(root, 0).Some? && CalleeOffset(root, 0).Some?
  {
    forall o: nat :: o in made && o in CalleeInner(root, 0) && Slack(Decode(code, o))
                     && CalleeKet(root, 0) in Passed(code, Decode(code, o).next)
                     ==> Decode(code, o).atom == atom
  }

  /** If every alternative ends with a repeat of the same atom, exactly those matches are
    * left behind which the repeat could take no further character; so all matches are
    * reported if and only if none of them stops short of such a character. */
  lemma EndsLeft(x: PlainLinks, code: seq<byte>, root: Item, code': seq<byte>, tb: Tables, made: set<nat>, env: Env,
                 p: nat, atom: Atom)
    requires Rewritten(x, code, root, code', tb, made) && Fits(env, tb) && p <= |env.s| && root.Group?
    requires HardSet(root, 0, made).Group? && CallsSpared(code, root, made, env) && ClashesOnly(code, root, made, atom)
    requires RunsOut(HardSet(root, 0, made).alts, atom)
    ensures forall q: nat ::
              Matches(env, HardSet(root, 0, made), p, q) <==> Matches(env, root, p, q) && !HitAt(env, atom, q)
    ensures (forall q: nat :: Matches(env, root, p, q) ==> Matches(env, HardSet(root, 0, made), p, q))
       <==> forall q: nat :: Matches(env, root, p, q) ==> !HitAt(env, atom, q)
  {
    hide Rewritten, Fits, Facts, RunsOut, HitAt, MAlts, HardSet, CallsSpared, Unclashed, ClashesOnly;
    var hard := HardSet(root, 0, made);
    forall q: nat ensures Matches(env, hard, p, q) <==> Matches(env, root, p, q) && !HitAt(env, atom, q) {
      if Matches(env, hard, p, q) {
        AltsEndOut(env, Facts(env, hard), hard.alts, atom, p, q);
        NoNewEnd(x, code, root, code', tb, made, env, p, q);
      }
      if !HitAt(env, atom, q) {
        UnclashedThere(code, root, made, env, atom, q);
        KeptEnd(x, code, root, code', tb, made, env, p, q);
      }
    }
  }

  lemma UnclashedThere(code: seq<byte>, root: Item, made: set<nat>, env: Env, atom: Atom, q: nat)
    requires root.Group? && Callee(root, 0).Some? && CalleeOffset(root, 0).Some?
    requires ClashesOnly(code, root, made, atom) && !HitAt(env, atom, q)
    ensures Unclashed(code, root, made, env, 0, q)
  {
    hide Decode, Passed, HitAt, CalleeInner, CalleeKet, Callee;
  }
}
