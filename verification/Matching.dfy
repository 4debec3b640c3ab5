/** The whole way from a pattern to what is reported about a subject: compile, make
  * repeats possessive unless that is switched off, and run the engine from the first
  * start at which there can be a match. What is promised speaks only of what the
  * pattern as it is written means.
  */
module Matching {
  import opened Opcodes
  import opened Tree
  import opened Meaning
  import opened Machine
  import opened Runs
  import opened Decoding
  import opened Pattern
  import opened Expansion
  import opened Sizing
  import opened Program
  import opened References
  import opened Closure
  import opened PropertyLists
  import opened Hardening
  import opened HardSets
  import opened Rewriting
  import opened Strictness
  import opened AutoPossession
  import opened Passing
  import opened Trailing
  import opened Ends
  import opened Endings
  import opened DfaExec
  import opened Rooms
  import opened Compile
  import opened Driver
  import opened Regexes

  // ---------- room for the runs ----------

  /** Every called group of the pattern is small enough for the inner workspace. */
  ghost predicate CallsSmall(pattern: Choice, n: nat)
    requires ChoiceOk(pattern)
  {
    forall num :: num in CalledChoice(pattern) && Called(pattern, num).Some? ==>
      ChoiceOk(Called(pattern, num).value) && Small(ExpandChoice(Called(pattern, num).value), n)
  }

  /** Rewriting repeats leaves a group as small as it was. */
  lemma {:induction false} HardKeeps(it: Item, a: nat, made: set<nat>)
    ensures CallsIn(HardSet(it, a, made)) == CallsIn(it) && RepFree(HardSet(it, a, made)) == RepFree(it)
    decreases it
  {
    match it
    case Group(bra, _, alts, _) => HardKeepsAlts(alts, a + BraSize(bra), made);
    case Zero(_, g) => HardKeeps(g, a + 1, made);
    case _ =>
  }

  lemma {:induction false} HardKeepsBranch(b: Branch, a: nat, made: set<nat>)
    ensures CallsInBranch(HardSetBranch(b, a, made)) == CallsInBranch(b)
    ensures RepFreeBranch(HardSetBranch(b, a, made)) == RepFreeBranch(b)
    decreases b
  {
    if b.Cons? {
      HardKeeps(b.head, a, made);
      HardKeepsBranch(b.tail, a + Size(b.head), made);
    }
  }

  lemma {:induction false} HardKeepsAlts(alts: Alts, st: nat, made: set<nat>)
    ensures CallsInAlts(HardSetAlts(alts, st, made)) == CallsInAlts(alts)
    ensures RepFreeAlts(HardSetAlts(alts, st, made)) == RepFreeAlts(alts)
    decreases alts
  {
    HardKeepsBranch(alts.b, st, made);
    if alts.More? {
      HardKeepsAlts(alts.rest, st + BranchSize(alts.b) + 3, made);
    }
  }

  lemma HardIsSmall(g: Item, a: nat, made: set<nat>, n: nat)
    requires g.Group? && Small(g.alts, n)
    ensures HardSet(g, a, made).Group? && Small(HardSet(g, a, made).alts, n)
  {
    hide HardSetAlts, StatesFor, RepFreeAlts, CallsInAlts;
    HardKeepsAlts(g.alts, a + BraSize(g.bra), made);
  }

  /** So the called groups of the code are small. */
  lemma CodeIsSmall(pattern: Choice, t: Tables, code: seq<byte>, o: Origin, n: nat)
    requires ChoiceOk(pattern) && CodeOf(pattern, t, code, o) && CallsSmall(pattern, n) && CallsExist(pattern)
    ensures AllSmall(CodeTree(pattern, o), n)
  {
    hide Expand, HardSet, Small, FindGroup, FindChoice, CodeOf, CalledChoice, CallsIn, Stricter;
    SameCalls(pattern, t, code, o);
    var root := CodeTree(pattern, o);
    forall num | num in CallsIn(root) ensures Callee(root, num).Some? && Small(Callee(root, num).value.alts, n) {
      CalleeFound(pattern, num);
      var g := Callee(Expand(pattern), num).value;
      if num == 0 {
        HardIsSmall(g, 0, o.made, n);
      } else {
        HardFound(Expand(pattern), 0, o.made, num);
        HardIsSmall(g, FindOffset(Expand(pattern), 0, num).value, o.made, n);
      }
    }
  }

  /** A workspace that suffices for the pattern on a subject of this length. */
  function EnoughSpace(pattern: Choice, n: nat): nat
    requires ChoiceOk(pattern)
  {
    var size := Size(Expand(pattern)) + 1;
    SpaceFor(if CalledChoice(pattern) == {} then StatesFor(size, n) else StatesWithCalls(size, n))
  }

  lemma RoomForAll(pattern: Choice, t: Tables, o: Origin, md: MatchData, wscount: int)
    requires md.Valid() && ChoiceOk(pattern) && CodeOf(pattern, t, md.code, o) && md.root == CodeTree(pattern, o)
    requires CallsSmall(pattern, |md.env.s|) && CallsExist(pattern) && wscount >= EnoughSpace(pattern, |md.env.s|)
    ensures AllSucceed(md, wscount)
  {
    hide IsProgram, CodeOf, CodeTree, CallsSmall, CallsExist, Succeeds, Expand, AllSmall, CalledChoice, CallsIn,
      StatesFor, LayItem;
    SameCalls(pattern, t, md.code, o);
    CodeIsSmall(pattern, t, md.code, o, |md.env.s|);
    RootIsLaid(md);
    forall p: nat | p <= |md.env.s| ensures Succeeds(md, NoRecursion, md.root, 0, p, ListLimit(wscount)) {
      SmallCallsSucceed(md, p, wscount);
    }
  }

  // ---------- from the pattern to the matches ----------

  /** What the driver reports from the start, told by the pattern: nothing is meant before
    * the start, everything reported is meant, and everything meant from there is reported
    * or ends sooner, in front of a character that a trailing repeat could take. */
  ghost predicate Reports(env: Env, pattern: Choice, autoPossess: bool, start: nat, ends: seq<nat>) {
    && env.startOffset <= start <= |env.s| && Increasing(ends) && ends != []
    && (forall p: nat, q: nat :: env.startOffset <= p < start ==> !Means(env, pattern, p, q))
    && (forall q: nat :: q in ends ==> Means(env, pattern, start, q))
    && forall q: nat :: Means(env, pattern, start, q) ==>
         || q in ends
         || (autoPossess && q < ends[|ends| - 1]
             && exists atom :: atom in TrailingChoice(pattern) && HitAt(env, atom, q))
  }

  lemma LastIsLargest(ends: seq<nat>, e: nat)
    requires Increasing(ends) && e in ends
    ensures e <= ends[|ends| - 1]
  {
    var k :| 0 <= k < |ends| && ends[k] == e;
    assert k < |ends| - 1 ==> ends[k] < ends[|ends| - 1];
  }

  /** What is meant and not reported could not be reported. */
  lemma NotReported(env: Env, pattern: Choice, t: Tables, autoPossess: bool, code: seq<byte>, o: Origin, start: nat,
                    ends: seq<nat>, q: nat)
    requires ChoiceOk(pattern) && Dependable(env, pattern, t, code, o) && (!autoPossess ==> o.made == {})
    requires start <= |env.s|
    requires forall e: nat :: e in ends <==> Matches(env, CodeTree(pattern, o), start, e)
    requires Means(env, pattern, start, q) && q !in ends
    ensures autoPossess && exists atom :: atom in TrailingChoice(pattern) && HitAt(env, atom, q)
  {
    hide Matches, Means, Dependable, ChoiceOk, CodeTree, HitAt, TrailingChoice;
    if o.made == {} || forall atom :: atom in TrailingChoice(pattern) ==> !HitAt(env, atom, q) {
      AllFound(env, pattern, t, code, o, start, q);
    }
  }

  lemma ReportsAll(env: Env, pattern: Choice, t: Tables, autoPossess: bool, code: seq<byte>, o: Origin, start: nat,
                   ends: seq<nat>)
    requires ChoiceOk(pattern) && Dependable(env, pattern, t, code, o) && (!autoPossess ==> o.made == {})
    requires env.startOffset <= start <= |env.s| && NoMatchFrom(env, CodeTree(pattern, o), env.startOffset, start)
    requires Increasing(ends) && ends != []
    requires forall q: nat :: q in ends <==> Matches(env, CodeTree(pattern, o), start, q)
    ensures Reports(env, pattern, autoPossess, start, ends)
  {
    hide Matches, Means, Dependable, ChoiceOk, CodeTree, NoMatchFrom, HitAt, TrailingChoice, Increasing;
    FoundMeans(env, pattern, t, code, o, env.startOffset, start, ends);
    forall q: nat | Means(env, pattern, start, q) && q !in ends
      ensures autoPossess && q < ends[|ends| - 1]
      ensures exists atom :: atom in TrailingChoice(pattern) && HitAt(env, atom, q)
    {
      NotReported(env, pattern, t, autoPossess, code, o, start, ends, q);
      var e: nat :| e in ends && e >= q;
      LastIsLargest(ends, e);
    }
  }

  lemma NothingMeant(env: Env, pattern: Choice, t: Tables, code: seq<byte>, o: Origin, hi: nat)
    requires ChoiceOk(pattern) && Dependable(env, pattern, t, code, o) && hi <= |env.s| + 1
    requires NoMatchFrom(env, CodeTree(pattern, o), env.startOffset, hi)
    ensures forall p: nat, q: nat :: env.startOffset <= p < hi ==> !Means(env, pattern, p, q)
  {
    hide Means, Dependable, ChoiceOk, CodeTree, NoMatchFrom;
    NothingMissed(env, pattern, t, code, o, env.startOffset, hi);
  }

  lemma SameCalls(pattern: Choice, t: Tables, code: seq<byte>, o: Origin)
    requires ChoiceOk(pattern) && CodeOf(pattern, t, code, o)
    ensures CallsIn(CodeTree(pattern, o)) == CalledChoice(pattern) && |code| == Size(Expand(pattern)) + 1
  {
    RewrittenParts(o.x, o.emitted, Expand(pattern), code, t, o.made);
    CallsOfPattern(pattern);
    hide LayItem, FindOffset;
  }

  /** Compile the pattern and find where it first matches the subject, and all the ends
    * there. The conditions can be seen before: with options on empty matches every called
    * group takes a character, and repeats are made possessive only if none of a called
    * group can be the last thing of the group to take a character. */
  method Match(pattern: Choice, t: Tables, autoPossess: bool, env: Env, onlyFirst: bool, noStartOptimize: bool,
               offsets: array<int>, wscount: int)
    returns (err: nat, rc: int, ghost start: nat, ghost ends: seq<nat>)
    requires ChoiceOk(pattern) && PlainChoice(pattern) && TablesOk(t) && Fits(env, t)
    requires env.startOffset <= |env.s| && wscount >= 20
    requires CallsTake(env, pattern) && (autoPossess ==> CallsSettled(pattern))
    modifies offsets
    ensures err == 0 <==> Total(MeasuredChoice(pattern)) <= MAX_PATTERN_SIZE && CallsExist(pattern)
    ensures err == 0 && rc >= 0 ==>
              && Reports(env, pattern, autoPossess, start, ends)
              && VectorHolds(offsets[..], offsets.Length / 2, start, ends)
              && rc == MatchCount(|ends|, offsets.Length / 2)
    ensures err == 0 && rc == PCRE_ERROR_NOMATCH ==>
              forall p: nat, q: nat ::
                env.startOffset <= p <= (if onlyFirst then env.startOffset else |env.s|) ==> !Means(env, pattern, p, q)
    ensures err == 0 ==> rc >= 0 || rc == PCRE_ERROR_NOMATCH || IsError(rc)
    ensures err == 0 && CallsSmall(pattern, |env.s|) && wscount >= EnoughSpace(pattern, |env.s|) ==>
              rc >= 0 || rc == PCRE_ERROR_NOMATCH
  {
    hide ChoiceOk, PlainChoice, TablesOk, Fits, CallsTake, CallsSettled, Means, CallsExist, MeasuredChoice, CodeOf,
      CodeTree, MadeRightly, RecordOf, Recorded, Dependable, IsProgram, Stricter, VectorHolds, MatchCount, EnoughSpace,
      CallsSmall, AllSucceed, Matches, NoMatchFrom, Increasing, Expand, RunLoops, Reports;
    rc, start, ends := PCRE_ERROR_NOMATCH, 0, [];
    var re;
    ghost var o;
    err, re, o := PcreCompile(pattern, t, autoPossess);
    if err != 0 {
      return;
    }
    CodeParts(pattern, t, re.code, o);
    SameCalls(pattern, t, re.code, o);
    IsDependable(env, pattern, t, re.code, o);
    EnvOk(env, t);
    RecordedThere(env, t.fcc, re, CodeTree(pattern, o));
    var md := new MatchData(re.code, env, o.x, CodeTree(pattern, o));
    if CallsSmall(pattern, |env.s|) && wscount >= EnoughSpace(pattern, |env.s|) {
      RoomForAll(pattern, t, o, md, wscount);
    }
    rc, start, ends := PcreDfaExec(md, re, env.startOffset, onlyFirst, noStartOptimize, offsets, wscount);
    if rc >= 0 {
      ReportsAll(env, pattern, t, autoPossess, re.code, o, start, ends);
    } else if rc == PCRE_ERROR_NOMATCH {
      NothingMeant(env, pattern, t, re.code, o, if onlyFirst then env.startOffset + 1 else |env.s| + 1);
    }
  }

  lemma EnvOk(env: Env, t: Tables)
    requires Fits(env, t)
    ensures env.Ok() && env.fcc == t.fcc && |env.fcc| == 256
  {
  }

  lemma RecordedThere(env: Env, fcc: seq<byte>, re: Regex, root: Item)
    requires root.Group? && |fcc| == 256 && RecordedFor(fcc, re, root) && env.Ok() && env.fcc == fcc
    ensures Recorded(env, re, root)
  {
  }
}
