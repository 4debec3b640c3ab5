/** Where the promises end: patterns and subjects for which the engine reports less than
  * the pattern means.
  */
module Limits {
  import opened Opcodes
  import opened Tree
  import opened Meaning
  import opened Pattern
  import opened Expansion
  import opened Machine
  import opened Runs
  import opened Decoding
  import opened Program
  import opened Backtrack
  import opened PropertyLists
  import opened Closure
  import opened Settling
  import opened Comparing
  import opened Hardening
  import opened HardSets
  import opened Rewriting
  import opened Finding
  import opened Trailing
  import opened Ends
  import opened Endings
  import opened Sizing
  import opened References
  import opened Compile
  import opened Rooms
  import opened Regexes
  import opened Matching

  // ---------- options on empty matches apply to calls ----------

  /** b? */
  const OPTIONAL_B := Only(Then(Repeat(Single(Chr(OP_CHAR, 98)), 0, 1, Greedy), End))

  /** (?1)a */
  const CALL_THEN_A := Then(Recurse(1), Then(Single(Chr(OP_CHAR, 97)), End))

  /** (b?)(?1)a */
  const OPTIONAL_CALLEE := Only(Then(Sub(1, OPTIONAL_B), CALL_THEN_A))

  lemma NothingMeansOptional(env: Env, facts: iset<Fact>, p: nat)
    ensures MeansChoice(env, facts, OPTIONAL_B, p, p)
  {
    var n := OPTIONAL_B.seq0.first;
    assert MeansTimes(env, facts, n.body, 0, p, p);
    assert MeansNode(env, facts, n, p, p);
    assert MeansSequence(env, facts, End, p, p);
  }

  lemma CallThenA(env: Env, facts: iset<Fact>)
    requires env.Ok() && env.s == [97] && Fact(1, 0, 0) in facts
    ensures MeansSequence(env, facts, CALL_THEN_A, 0, 1)
  {
    var a := CALL_THEN_A.rest;
    assert MeansNode(env, facts, a.first, 0, 1) && MeansSequence(env, facts, End, 1, 1);
    assert MeansSequence(env, facts, a, 0, 1);
    assert MeansNode(env, facts, Recurse(1), 0, 0);
  }

  lemma OptionalCalleeOk()
    ensures ChoiceOk(OPTIONAL_CALLEE) && PlainChoice(OPTIONAL_CALLEE) && Called(OPTIONAL_CALLEE, 1) == Some(OPTIONAL_B)
  {
  }

  lemma FirstThenCall(env: Env, facts: iset<Fact>)
    requires MeansChoice(env, facts, OPTIONAL_B, 0, 0) && MeansSequence(env, facts, CALL_THEN_A, 0, 1)
    ensures MeansChoice(env, facts, OPTIONAL_CALLEE, 0, 1)
  {
    hide MeansSequence;
    OptionalSequence(env, facts);
  }

  lemma OptionalSequence(env: Env, facts: iset<Fact>)
    requires MeansChoice(env, facts, OPTIONAL_B, 0, 0) && MeansSequence(env, facts, CALL_THEN_A, 0, 1)
    ensures MeansSequence(env, facts, OPTIONAL_CALLEE.seq0, 0, 1)
  {
    hide MeansChoice;
    assert MeansNode(env, facts, OPTIONAL_CALLEE.seq0.first, 0, 0);
  }

  /** It matters: with the option against empty matches the call in this pattern must
    * not match nothing, and so the code misses a match that is not empty. */
  lemma FilteredCall(env: Env)
    requires env.Ok() && env.s == [97] && env.notempty
    ensures ChoiceOk(OPTIONAL_CALLEE) && PlainChoice(OPTIONAL_CALLEE)
    ensures Means(env, OPTIONAL_CALLEE, 0, 1) && !Matches(env, Expand(OPTIONAL_CALLEE), 0, 1)
  {
    OptionalCalleeOk();
    hide Matches, Expand, ChoiceOk, PlainChoice, MeansChoice, MeansSequence, Called;
    var facts := Calls(env, OPTIONAL_CALLEE);
    NoMatchForA(env);
    NothingMeansOptional(env, CallsTo(env, OPTIONAL_CALLEE, 0), 0);
    assert CallMeans(env, OPTIONAL_CALLEE, 1, Fact(1, 0, 0));
    NothingMeansOptional(env, facts, 0);
    CallThenA(env, facts);
    FirstThenCall(env, facts);
  }

  /** A match that ends behind the a has called the group for nothing. */
  lemma CallsForNothing(env: Env, facts: iset<Fact>)
    requires |env.s| == 1 && FactsOk(env, facts) && MeansChoice(env, facts, OPTIONAL_CALLEE, 0, 1)
    ensures Fact(1, 0, 0) in facts
  {
    var r := SequenceTake(env, facts, OPTIONAL_CALLEE.seq0, 0, 1);
    var t := SequenceTake(env, facts, CALL_THEN_A, r, 1);
    var u := SequenceTake(env, facts, CALL_THEN_A.rest, t, 1);
    NodeBounds(env, facts, OPTIONAL_CALLEE.seq0.first, 0, r);
    assert Fact(1, r, t) in facts;
  }

  lemma NoMatchForA(env: Env)
    requires env.Ok() && env.s == [97] && env.notempty
    requires ChoiceOk(OPTIONAL_CALLEE) && PlainChoice(OPTIONAL_CALLEE)
    ensures !Matches(env, Expand(OPTIONAL_CALLEE), 0, 1)
  {
    hide Expand, MeansChoice;
    var root := Expand(OPTIONAL_CALLEE);
    RootAlts(OPTIONAL_CALLEE);
    FactsAreOk(env, root);
    ChoiceExpands(env, Facts(env, root), OPTIONAL_CALLEE, 0, 1);
    CallsAreClosed(env, root, Fact(1, 0, 0));
    if MeansChoice(env, Facts(env, root), OPTIONAL_CALLEE, 0, 1) {
      CallsForNothing(env, Facts(env, root));
    }
  }

  // ---------- a repeat in front of the end becomes possessive ----------

  /** A character. */
  function Letter(c: byte): Node {
    Single(Chr(OP_CHAR, c))
  }

  /** a+ */
  const A_PLUS := Repeat(Letter(97), 1, -1, Greedy)

  const JUST_A_PLUS := Only(Then(A_PLUS, End))

  lemma RunOfOne(env: Env, facts: iset<Fact>)
    requires env.Ok() && env.s == [97, 97]
    ensures MeansChoice(env, facts, JUST_A_PLUS, 0, 1)
  {
    RepeatIsRep(env, facts, Chr(OP_CHAR, 97), 1, -1, Greedy, 0, 1);
    assert MRep(env, Chr(OP_CHAR, 97), 1, -1, false, 0, 1);
    assert MeansSequence(env, facts, End, 1, 1);
    assert MeansSequence(env, facts, JUST_A_PLUS.seq0, 0, 1);
  }

  lemma JustAPlus()
    ensures ChoiceOk(JUST_A_PLUS) && PlainChoice(JUST_A_PLUS) && EndsWithChoice(JUST_A_PLUS, Chr(OP_CHAR, 97))
  {
  }

  /** On "aa" the pattern means "a" as well; compiled by default it does not match it. */
  lemma LostEnd(env: Env, t: Tables, code: seq<byte>, o: Origin)
    requires env.Ok() && env.s == [97, 97] && !env.notempty
    requires ChoiceOk(JUST_A_PLUS) && CodeOf(JUST_A_PLUS, t, code, o) && MadeRightly(JUST_A_PLUS, t, o)
    ensures Means(env, JUST_A_PLUS, 0, 1) && !Matches(env, CodeTree(JUST_A_PLUS, o), 0, 1)
  {
    hide CodeOf, Rightly, RunsOut, EndsWithChoice, ChoiceOk, PlainChoice, Expand, MAlts, IsProgram, TablesOk, Facts,
      MeansChoice;
    var a := Chr(OP_CHAR, 97);
    RunOfOne(env, Calls(env, JUST_A_PLUS));
    JustAPlus();
    EmittedProgram(JUST_A_PLUS, t, code, o);
    EndIsHardened(o.x, o.emitted, JUST_A_PLUS, t, o.made, a);
    TakesSecond(env, Facts(env, CodeTree(JUST_A_PLUS, o)), CodeTree(JUST_A_PLUS, o));
  }

  /** A possessive repeat does not stop in front of the second a. */
  lemma TakesSecond(env: Env, facts: iset<Fact>, root: Item)
    requires env.Ok() && env.s == [97, 97] && root.Group? && RunsOut(root.alts, Chr(OP_CHAR, 97))
    ensures !MAlts(env, facts, root.alts, 0, 1)
  {
    hide RunsOut, MAlts;
    assert HitAt(env, Chr(OP_CHAR, 97), 1);
    if MAlts(env, facts, root.alts, 0, 1) {
      AltsEndOut(env, facts, root.alts, Chr(OP_CHAR, 97), 0, 1);
    }
  }

  // ---------- and for the engine a call is not atomic ----------

  /** (a+)b|c(?1)a */
  const CALLED_PLUS := Or(Then(Sub(1, JUST_A_PLUS), Then(Letter(98), End)), CALL_IN_BETWEEN)

  const CALL_IN_BETWEEN := Only(Then(Letter(99), Then(Recurse(1), Then(Letter(97), End))))

  /** The tree of that pattern, and what it is when its repeat is possessive. */
  const PLUS := Rep(Chr(OP_CHAR, 97), K_PLUS, 0, 0)

  const SOFT_GROUP := Group(OP_CBRA, 1, Last(Cons(PLUS, Nil)), OP_KET)

  const PLUS_GROUP := Group(OP_CBRA, 1, Last(Cons(Rep(Chr(OP_CHAR, 97), K_POSPLUS, 0, 0), Nil)), OP_KET)

  const CALL_BRANCH := Cons(One(Chr(OP_CHAR, 99)), Cons(Call(1), Cons(One(Chr(OP_CHAR, 97)), Nil)))

  const THEN_B := Cons(One(Chr(OP_CHAR, 98)), Nil)

  const SOFT_CALLED := Group(OP_BRA, 0, More(Cons(SOFT_GROUP, THEN_B), Last(CALL_BRANCH)), OP_KET)

  const HARD_CALLED := Group(OP_BRA, 0, More(Cons(PLUS_GROUP, THEN_B), Last(CALL_BRANCH)), OP_KET)

  lemma SoftTree()
    ensures ChoiceOk(CALLED_PLUS) && PlainChoice(CALLED_PLUS) && Expand(CALLED_PLUS) == SOFT_CALLED
  {
    assert ExpandSequence(JUST_A_PLUS.seq0) == Append(ExpandNode(A_PLUS), Nil);
    assert ExpandNode(A_PLUS) == Cons(PLUS, Nil);
    assert ExpandNode(CALLED_PLUS.seq0.first) == Cons(SOFT_GROUP, Nil);
    assert ExpandSequence(CALLED_PLUS.seq0) == Cons(SOFT_GROUP, THEN_B);
    var c := CALL_IN_BETWEEN.seq0;
    assert ExpandSequence(c.rest.rest) == Cons(One(Chr(OP_CHAR, 97)), Nil);
    assert ExpandSequence(c.rest) == Cons(Call(1), Cons(One(Chr(OP_CHAR, 97)), Nil));
    assert ExpandSequence(c) == CALL_BRANCH;
  }

  /** With the repeat, which is at offset 8, made possessive. */
  lemma HardTree(made: set<nat>)
    requires 8 in made
    ensures HardSet(SOFT_CALLED, 0, made) == HARD_CALLED
  {
    assert HardSet(PLUS, 8, made) == Rep(Chr(OP_CHAR, 97), K_POSPLUS, 0, 0);
    assert HardSetBranch(Cons(PLUS, Nil), 8, made) == PLUS_GROUP.alts.b;
    assert HardSet(SOFT_GROUP, 3, made) == PLUS_GROUP;
    var m := 3 + Size(SOFT_GROUP);
    assert HardSetBranch(THEN_B, m, made) == THEN_B;
    var e := m + BranchSize(THEN_B) + 3;
    assert HardSetBranch(CALL_BRANCH.tail.tail, e + 5, made) == CALL_BRANCH.tail.tail;
    assert HardSetBranch(CALL_BRANCH.tail, e + 2, made) == CALL_BRANCH.tail;
    assert HardSetBranch(CALL_BRANCH, e, made) == CALL_BRANCH;
  }

  lemma PlusSizes()
    ensures Size(PLUS) == 2 && Size(SOFT_GROUP) == 10 && KetOffset(3, SOFT_GROUP) == 10
  {
    assert BranchSize(Nil) == 0 && BranchSize(Cons(PLUS, Nil)) == 2 && AltsSize(SOFT_GROUP.alts) == 2;
  }

  lemma BranchParts(ins: seq<Instr>, a: nat, b: Branch)
    requires CodeBranch(ins, a, b) && b.Cons?
    ensures CodeItem(ins, a, b.head) && CodeBranch(ins, a + Size(b.head), b.tail)
  {
    hide CodeItem;
  }

  lemma PlusCoded(ins: seq<Instr>)
    requires CodeItem(ins, 0, SOFT_CALLED)
    ensures |ins| > 13 && ins[8] == IRep(Chr(OP_CHAR, 97), 1, -1, false, 10)
    ensures ins[10] == IKet(13, None) && ins[13] == IOne(Chr(OP_CHAR, 98), 15)
  {
    hide CodeAlts, CodeBranch, Size, KetOffset, Offsets, AltsOffsets, Leads;
    PlusSizes();
    Runs.GroupParts(ins, SOFT_CALLED, 0);
    AltParts(ins, SOFT_CALLED.alts, 3, KetOffset(0, SOFT_CALLED));
    BranchParts(ins, 3, Cons(SOFT_GROUP, THEN_B));
    BranchParts(ins, 13, THEN_B);
    Runs.GroupParts(ins, SOFT_GROUP, 3);
    AltParts(ins, SOFT_GROUP.alts, 8, 10);
    BranchParts(ins, 8, Cons(PLUS, Nil));
  }

  /** A repeat, the ket of its group, and a b. */
  lemma PlusDecodes(x: PlainLinks, code: seq<byte>)
    requires IsProgram(x, code, SOFT_CALLED)
    ensures Decode(code, 8) == IRep(Chr(OP_CHAR, 97), 1, -1, false, 10) && Softens(code, 8) && !Backtrack.Lazy(code, 8)
    ensures |code| > 13 && Decode(code, 10) == IKet(13, None) && Decode(code, 13) == IOne(Chr(OP_CHAR, 98), 15)
  {
    hide IsProgram, Decode, DecodedTo, CodeItem, Softens, Backtrack.Lazy, LayRep;
    ProgramDecodes(x, code, SOFT_CALLED);
    PlusCoded(Decoded(code));
    InstrIs(code, 8);
    InstrIs(code, 10);
    InstrIs(code, 13);
    PlusLaid(x, code);
    SoftRep(code, 8, PLUS.atom, PLUS.k, 0, 0);
  }

  lemma PlusLaid(x: PlainLinks, code: seq<byte>)
    requires IsProgram(x, code, SOFT_CALLED)
    ensures LayRep(code, 8, PLUS.atom, PLUS.k, 0, 0)
  {
    assert LayAlts(x, code, 0, 3, SOFT_CALLED.alts, 0, OP_KET);
    assert LayBranch(x, code, 3, Cons(SOFT_GROUP, THEN_B));
    assert LayItem(x, code, 3, SOFT_GROUP);
    assert LayAlts(x, code, 3, 8, SOFT_GROUP.alts, 3, OP_KET);
    assert LayBranch(x, code, 8, Cons(PLUS, Nil));
  }

  lemma PlusOffset()
    ensures 8 in Offsets(SOFT_CALLED, 0)
  {
    assert 8 in BranchOffsets(Cons(PLUS, Nil), 8);
    assert 8 in Offsets(SOFT_GROUP, 3);
    assert 8 in BranchOffsets(Cons(SOFT_GROUP, THEN_B), 3);
    assert 8 in AltsOffsets(SOFT_CALLED.alts, 3);
  }

  lemma NoBIsA(t: Tables)
    requires |t.ctypes| == 256 && |t.fcc| == 256
    ensures Exclusive(t, Chr(OP_CHAR, 97), IOne(Chr(OP_CHAR, 98), 15))
  {
  }

  /** The b settles the repeat, so it is made possessive. */
  lemma PlusIsDue(x: PlainLinks, code: seq<byte>, t: Tables)
    requires IsProgram(x, code, SOFT_CALLED) && |t.ctypes| == 256 && |t.fcc| == 256
    ensures Due(code, t, 8)
  {
    hide IsProgram, Decode, Settled, Inner, Softens, Backtrack.Lazy, Exclusive;
    var a := Chr(OP_CHAR, 97);
    PlusDecodes(x, code);
    NoBIsA(t);
    SettledAtItem(code, 13, t, a, true);
    NoInnerItem(code, 13);
    SettledKet(code, 10, t, a, true);
  }

  /** A call of the possessive group takes every a there is. */
  lemma CallTakesAll(env: Env, p: nat, q: nat)
    requires env.Ok() && Fact(1, p, q) in Facts(env, HARD_CALLED)
    ensures !HitAt(env, Chr(OP_CHAR, 97), q)
  {
    CallsAreClosed(env, HARD_CALLED, Fact(1, p, q));
    assert FindInBranch(Cons(PLUS_GROUP, THEN_B), 1) == Some(PLUS_GROUP);
    assert Callee(HARD_CALLED, 1) == Some(PLUS_GROUP);
    SingleItem(env, Facts(env, HARD_CALLED), Rep(Chr(OP_CHAR, 97), K_POSPLUS, 0, 0), p, q);
  }

  lemma NothingIsFound(env: Env, p: nat, q: nat)
    requires env.Ok() && env.s == [99, 97, 97]
    ensures !Matches(env, HARD_CALLED, p, q)
  {
    var facts := Facts(env, HARD_CALLED);
    if MBranch(env, facts, HARD_CALLED.alts.b, p, q) {
      var r := BranchSplit(env, facts, HARD_CALLED.alts.b, p, q);
      SingleItem(env, facts, One(Chr(OP_CHAR, 98)), r, q);
    }
    if MBranch(env, facts, CALL_BRANCH, p, q) {
      var r := BranchSplit(env, facts, CALL_BRANCH, p, q);
      var t := BranchSplit(env, facts, CALL_BRANCH.tail, r, q);
      SingleItem(env, facts, One(Chr(OP_CHAR, 97)), t, q);
      CallTakesAll(env, r, t);
    }
  }

  lemma CalledIsHard(t: Tables, code: seq<byte>, o: Origin)
    requires ChoiceOk(CALLED_PLUS) && CodeOf(CALLED_PLUS, t, code, o) && MadeRightly(CALLED_PLUS, t, o)
    ensures CodeTree(CALLED_PLUS, o) == HARD_CALLED
  {
    hide CodeOf, IsProgram, ChoiceOk, TablesOk, Due, Ripe, HardSet, Expand, Offsets;
    SoftTree();
    EmittedProgram(CALLED_PLUS, t, code, o);
    PlusIsDue(o.x, o.emitted, t);
    PlusOffset();
    HardTree(o.made);
  }

  /** On "caa" the pattern means everything, with one a for the call; compiled by default
    * it matches nothing at all. */
  lemma LostMatch(env: Env, t: Tables, code: seq<byte>, o: Origin)
    requires env.Ok() && env.s == [99, 97, 97]
    requires ChoiceOk(CALLED_PLUS) && CodeOf(CALLED_PLUS, t, code, o) && MadeRightly(CALLED_PLUS, t, o)
    ensures Means(env, CALLED_PLUS, 0, 3)
    ensures forall p: nat, q: nat :: !Matches(env, CodeTree(CALLED_PLUS, o), p, q)
  {
    hide Matches, Means, CodeTree, CodeOf, MadeRightly, ChoiceOk;
    CalledIsHard(t, code, o);
    forall p: nat, q: nat ensures !Matches(env, HARD_CALLED, p, q) {
      NothingIsFound(env, p, q);
    }
    AllIsMeant(env);
  }

  lemma AllIsMeant(env: Env)
    requires env.Ok() && env.s == [99, 97, 97]
    ensures Means(env, CALLED_PLUS, 0, 3)
  {
    assert Called(CALLED_PLUS, 1) == Some(JUST_A_PLUS);
    OneA(env, CallsTo(env, CALLED_PLUS, 0));
    hide MeansChoice, FindChoice;
    assert CallMeans(env, CALLED_PLUS, 1, Fact(1, 1, 2));
    CallInBetween(env, Calls(env, CALLED_PLUS));
    SecondMeant(env, Calls(env, CALLED_PLUS), 0, 3);
  }

  lemma SecondMeant(env: Env, facts: iset<Fact>, p: nat, q: nat)
    requires MeansChoice(env, facts, CALL_IN_BETWEEN, p, q)
    ensures MeansChoice(env, facts, CALLED_PLUS, p, q)
  {
  }

  lemma OneA(env: Env, facts: iset<Fact>)
    requires env.Ok() && env.s == [99, 97, 97]
    ensures MeansChoice(env, facts, JUST_A_PLUS, 1, 2)
  {
    RepeatIsRep(env, facts, Chr(OP_CHAR, 97), 1, -1, Greedy, 1, 2);
    assert MRep(env, Chr(OP_CHAR, 97), 1, -1, false, 1, 2);
    assert MeansSequence(env, facts, End, 2, 2);
    assert MeansSequence(env, facts, JUST_A_PLUS.seq0, 1, 2);
  }

  lemma CallInBetween(env: Env, facts: iset<Fact>)
    requires env.Ok() && env.s == [99, 97, 97] && Fact(1, 1, 2) in facts
    ensures MeansChoice(env, facts, CALL_IN_BETWEEN, 0, 3)
  {
    var s := CALL_IN_BETWEEN.seq0;
    assert MeansSequence(env, facts, End, 3, 3);
    assert MeansNode(env, facts, Letter(97), 2, 3) && MeansSequence(env, facts, s.rest.rest, 2, 3);
    assert MeansNode(env, facts, Recurse(1), 1, 2) && MeansSequence(env, facts, s.rest, 1, 3);
    assert MeansNode(env, facts, Letter(99), 0, 1);
  }

  // ---------- where nothing gets lost ----------

  /** (a+b)(?1) */
  const SETTLED_CALL := Only(Then(Sub(1, Only(Then(A_PLUS, Then(Letter(98), End)))), Then(Recurse(1), End)))

  /** With the b inside the called group its repeat is settled there, and every end that
    * is meant is reported. */
  lemma NothingLost(env: Env, t: Tables, code: seq<byte>, o: Origin, p: nat, q: nat)
    requires ChoiceOk(SETTLED_CALL) && CodeOf(SETTLED_CALL, t, code, o) && Fits(env, t) && p <= |env.s|
    requires !env.notempty && !env.notemptyAtStart
    ensures !CallsSettled(CALLED_PLUS)
    ensures Matches(env, CodeTree(SETTLED_CALL, o), p, q) <==> Means(env, SETTLED_CALL, p, q)
  {
    CallsAreSettled();
    CallIsUnsettled();
    hide ChoiceOk, PlainChoice, CodeOf, CodeTree, Fits, Matches, Means, Dependable, CallsSettled, TrailingChoice, HitAt;
    IsDependable(env, SETTLED_CALL, t, code, o);
    AllFound(env, SETTLED_CALL, t, code, o, p, q);
  }

  lemma CallsAreSettled()
    ensures PlainChoice(SETTLED_CALL) && CallsSettled(SETTLED_CALL) && TrailingChoice(SETTLED_CALL) == {}
  {
    var g := Only(Then(A_PLUS, Then(Letter(98), End)));
    assert Called(SETTLED_CALL, 1) == Some(g);
    assert TrailingSequence(End) == {} && TrailingSequence(Then(Letter(98), End)) == {};
    assert TrailingChoice(g) == {};
    var rest := Then(Recurse(1), End);
    assert TrailingSequence(rest) == {} && !SkippableSequence(rest);
    assert CalledSequence(rest) == {1};
    assert CalledChoice(g) == {};
    assert CalledChoice(SETTLED_CALL) == {1};
  }

  lemma CallIsUnsettled()
    ensures !CallsSettled(CALLED_PLUS)
  {
    assert Called(CALLED_PLUS, 1) == Some(JUST_A_PLUS);
    assert TrailingSequence(JUST_A_PLUS.seq0) == {Chr(OP_CHAR, 97)};
    assert Chr(OP_CHAR, 97) in TrailingChoice(JUST_A_PLUS);
    assert 1 in CalledSequence(CALL_IN_BETWEEN.seq0.rest);
    assert 1 in CalledChoice(CALLED_PLUS);
  }

  // ---------- a call for which there is room ----------

  /** (a)(?1) */
  const CALL_OF_A := Only(Then(Sub(1, JUST_AN_A), Then(Recurse(1), End)))

  const JUST_AN_A := Only(Then(Letter(97), End))

  /** On a subject of less than 500 characters and with enough workspace the pattern is
    * compiled and matched without an error. */
  lemma CallSucceeds(env: Env, t: Tables)
    requires TablesOk(t) && Fits(env, t) && |env.s| < 500 && !env.notempty && !env.notemptyAtStart
    ensures ChoiceOk(CALL_OF_A) && PlainChoice(CALL_OF_A) && CallsExist(CALL_OF_A)
    ensures CallsTake(env, CALL_OF_A) && CallsSettled(CALL_OF_A) && CallsSmall(CALL_OF_A, |env.s|)
    ensures Total(MeasuredChoice(CALL_OF_A)) <= MAX_PATTERN_SIZE
  {
    CalledAre();
    var g := Called(CALL_OF_A, 1).value;
    assert g == JUST_AN_A && CalledChoice(g) == {};
    assert TrailingSequence(End) == {} && TrailingSequence(JUST_AN_A.seq0) == {};
    AnASmall(|env.s|);
  }

  lemma CalledAre()
    ensures Called(CALL_OF_A, 1) == Some(JUST_AN_A) && CalledChoice(CALL_OF_A) == {1}
  {
    var rest := Then(Recurse(1), End);
    assert CalledSequence(rest) == {1};
    assert CalledSequence(JUST_AN_A.seq0) == {};
  }

  lemma AnASmall(n: nat)
    requires n < 500
    ensures ChoiceOk(JUST_AN_A) && Small(ExpandChoice(JUST_AN_A), n)
  {
    var b := Cons(One(Chr(OP_CHAR, 97)), Nil);
    assert ExpandSequence(End) == Nil && Append(b, Nil) == b;
    assert ExpandChoice(JUST_AN_A) == Last(b);
    assert CallsInBranch(b) == {} && RepFreeBranch(b) && BranchSize(b) == 2;
  }

  /** What it then has to report on two letters a. */
  lemma CallMeansTwo(env: Env)
    requires env.Ok() && env.s == [97, 97]
    ensures Means(env, CALL_OF_A, 0, 2)
  {
    var facts := Calls(env, CALL_OF_A);
    assert MeansSequence(env, facts, End, 2, 2) && MeansSequence(env, facts, End, 1, 1);
    assert HitAt(env, Chr(OP_CHAR, 97), 0) && HitAt(env, Chr(OP_CHAR, 97), 1);
    assert MeansNode(env, facts, Letter(97), 0, 1);
    assert MeansChoice(env, facts, JUST_AN_A, 0, 1);
    assert MeansNode(env, facts, Sub(1, JUST_AN_A), 0, 1);
    ACallOfA(env);
    assert MeansNode(env, facts, Recurse(1), 1, 2);
    assert MeansSequence(env, facts, Then(Recurse(1), End), 1, 2);
    assert MeansSequence(env, facts, CALL_OF_A.seq0, 0, 2);
  }

  lemma ACallOfA(env: Env)
    requires env.Ok() && env.s == [97, 97]
    ensures Fact(1, 1, 2) in Calls(env, CALL_OF_A)
  {
    CalledAre();
    var facts := CallsTo(env, CALL_OF_A, 0);
    assert MeansSequence(env, facts, End, 2, 2) && HitAt(env, Chr(OP_CHAR, 97), 1);
    assert MeansNode(env, facts, Letter(97), 1, 2);
    assert MeansSequence(env, facts, JUST_AN_A.seq0, 1, 2);
    assert CallMeans(env, CALL_OF_A, 1, Fact(1, 1, 2));
  }
}
