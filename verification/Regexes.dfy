/** Compiled patterns end to end: compiling a pattern, making repeats possessive where
  * that changes no first match, recording what is known about the starts of its
  * matches, and what the matches found then say about the pattern as it was written.
  */
module Regexes {
  import opened Opcodes
  import opened Tree
  import opened Meaning
  import opened Pattern
  import opened Expansion
  import opened Sizing
  import opened Program
  import opened References
  import opened PropertyLists
  import opened Machine
  import opened Decoding
  import opened Closure
  import opened Settling
  import opened HardSets
  import opened Rewriting
  import opened Strictness
  import opened AutoPossession
  import opened Backtrack
  import opened Trying
  import opened Ordering
  import opened Passing
  import opened Trailing
  import opened Ends
  import opened Endings
  import opened DfaExec
  import opened Anchored
  import opened Anchoring
  import opened FirstReq
  import opened Letters
  import opened Compile
  import opened Driver

  /** With the character tables of the compilation, the record is right. */
  ghost predicate RecordedFor(fcc: seq<byte>, re: Regex, root: Item)
    requires root.Group? && |fcc| == 256
  {
    forall env: Env :: env.Ok() && env.fcc == fcc ==> Recorded(env, re, root)
  }

  /** What was found about the pattern holds of every match of its code, rewritten or
    * not. */
  lemma MatchClaims(env: Env, pattern: Choice, root: Item, first: Char, req: Char, p: nat, q: nat)
    requires ChoiceOk(pattern) && PlainChoice(pattern) && ChoiceClaims(pattern, first, req)
    requires Stricter(root, Expand(pattern))
    requires env.Ok() && p <= |env.s| && Matches(env, root, p, q)
    ensures Claims(env, first, req, p, q)
  {
    hide Matches, ChoiceClaims, ChoiceOk, PlainChoice, Expand, MeansChoice, Stricter;
    StricterMatches(env, root, Expand(pattern), p, q);
    ExpansionIsSound(env, pattern, p, q);
    CallsAreOk(env, pattern);
    ChoiceClaimsAt(env, Pattern.Calls(env, pattern), pattern, first, req, p, q);
  }

  /** From what the second pass found to what is recorded. */
  lemma RecordIsRight(env: Env, pattern: Choice, root: Item, first: Char, req: Char, re: Regex)
    requires ChoiceOk(pattern) && PlainChoice(pattern) && ChoiceClaims(pattern, first, req) && env.Ok()
    requires root.Group? && Stricter(root, Expand(pattern))
    requires re.anchored ==> !re.firstSet && EarlierAlts(root, root.alts)
    requires re.firstSet ==>
              && first.flags >= 0
              && re.firstChar == first.c
              && (re.firstCaseless <==> Caseless(first.flags) && env.fcc[first.c] != first.c)
    requires re.reqSet ==>
              && req.flags >= 0
              && re.reqChar == req.c
              && (re.reqCaseless <==> Caseless(req.flags) && env.fcc[req.c] != req.c)
    ensures Recorded(env, re, root)
  {
    hide Matches, EarlierAlts, ChoiceClaims, ChoiceOk, PlainChoice, Expand, Stricter;
    if re.anchored {
      AnchoredMatches(root);
    }
    forall p: nat, q: nat | p <= |env.s| && Matches(env, root, p, q)
      ensures re.firstSet ==> p < |env.s| && IsChar(env, env.s[p], re.firstChar, re.firstCaseless)
      ensures re.reqSet ==> HasReq(env, re, if re.firstSet then p + 1 else p, q)
    {
      MatchClaims(env, pattern, root, first, req, p, q);
      if re.reqSet {
        var i: nat :| ReqFrom(first, p) <= i < q && Sees(env, req, i);
        assert IsChar(env, env.s[i], re.reqChar, re.reqCaseless);
      }
    }
  }

  /** A character as it is recorded: without regard to case only if it has two. */
  predicate RecordedChar(ch: Char, fcc: seq<byte>, c: byte, caseless: bool)
    requires |fcc| == 256
  {
    c == ch.c && (caseless <==> Caseless(ch.flags) && fcc[ch.c] != ch.c)
  }

  /** What is recorded of a pattern: the first character unless its code is anchored, and
    * the required one, for anchored code only behind something of variable length. */
  ghost predicate RecordOf(pattern: Choice, root: Item, fcc: seq<byte>, re: Regex)
    requires ChoiceOk(pattern) && root.Group? && |fcc| == 256
  {
    var (first, req, _) := ChoiceChars(pattern, false);
    && (re.anchored <==> AnchoredAlts(root.alts))
    && (re.firstSet <==> !re.anchored && first.flags >= 0)
    && (re.firstSet ==> RecordedChar(first, fcc, re.firstChar, re.firstCaseless))
    && (re.reqSet <==> req.flags >= 0 && (!re.anchored || req.flags >= REQ_VARY))
    && (re.reqSet ==> RecordedChar(req, fcc, re.reqChar, re.reqCaseless))
  }

  /** How the code in use came about: the code that the second pass emitted, and the
    * repeats that auto-possessification made possessive in it. */
  datatype Origin = Origin(x: PlainLinks, emitted: seq<byte>, made: set<nat>)

  /** The tree of the code in use. */
  function CodeTree(pattern: Choice, o: Origin): (root: Item)
    requires ChoiceOk(pattern)
    ensures root.Group?
  {
    HardSet(Expand(pattern), 0, o.made)
  }

  /** The code is that of the pattern, rewritten or as it was emitted. */
  ghost predicate CodeOf(pattern: Choice, t: Tables, code: seq<byte>, o: Origin)
    requires ChoiceOk(pattern)
  {
    Rewritten(o.x, o.emitted, Expand(pattern), code, t, o.made)
  }

  /** The repeats made possessive are those that have to be. */
  ghost predicate MadeRightly(pattern: Choice, t: Tables, o: Origin)
    requires ChoiceOk(pattern)
  {
    Rightly(o.emitted, t, AllOffsets(Expand(pattern)), o.made)
  }

  lemma AsEmitted(x: PlainLinks, code: seq<byte>, root: Item, t: Tables)
    requires IsProgram(x, code, root) && TablesOk(t)
    ensures Rewritten(x, code, root, code, t, {})
  {
    hide IsProgram, TablesOk, Hardenings, HardSet;
    NothingMade(x, code, root, t);
  }

  /** Unless that is switched off, make repeats of the emitted code possessive. */
  method Rewrite(emitted: seq<byte>, t: Tables, autoPossess: bool, ghost x: PlainLinks, ghost pattern: Choice)
    returns (code: seq<byte>, ghost o: Origin)
    requires ChoiceOk(pattern) && IsProgram(x, emitted, Expand(pattern)) && TablesOk(t)
    ensures CodeOf(pattern, t, code, o) && o.x == x && o.emitted == emitted
    ensures if autoPossess then MadeRightly(pattern, t, o) else o.made == {}
  {
    hide IsProgram, TablesOk, Expand, Hardenings, Ripe, Inner;
    code := emitted;
    o := Origin(x, emitted, {});
    if autoPossess {
      var buf := new byte[|emitted|](i requires 0 <= i < |emitted| => emitted[i]);
      assert buf[..] == emitted;
      ghost var made := AutoPossessify(buf, t, x, Expand(pattern));
      code := buf[..];
      o := Origin(x, emitted, made);
    } else {
      AsEmitted(x, emitted, Expand(pattern), t);
    }
  }

  lemma CodeParts(pattern: Choice, t: Tables, code: seq<byte>, o: Origin)
    requires ChoiceOk(pattern) && CodeOf(pattern, t, code, o)
    ensures IsProgram(o.x, code, CodeTree(pattern, o)) && Stricter(CodeTree(pattern, o), Expand(pattern))
  {
    RewrittenParts(o.x, o.emitted, Expand(pattern), code, t, o.made);
  }

  /** Backtracking over the code finds the first match in the order of the pattern:
    * alternatives from left to right, more passes of a greedy quantifier first, fewer of a
    * lazy one. */
  ghost predicate FindsPreferred(pattern: Choice, t: Tables, code: seq<byte>)
    requires ChoiceOk(pattern)
  {
    && |code| > 0
    && forall env: Env, d: nat, p: nat :: Fits(env, t) && p <= |env.s| ==>
         FirstMatch(code, env, d, p) == FirstIn(Preferred(env, pattern, d, p), AllowedEnds(env, p))
  }

  lemma FirstIsPreferred(pattern: Choice, t: Tables, code: seq<byte>, o: Origin)
    requires ChoiceOk(pattern) && CodeOf(pattern, t, code, o)
    ensures FindsPreferred(pattern, t, code)
  {
    hide FirstIn, Preferred, AllowedEnds, Expand, FirstEnd, Fits, IsProgram, HardSet, SameMatches;
    RewrittenParts(o.x, o.emitted, Expand(pattern), code, t, o.made);
    forall env: Env, d: nat, p: nat | Fits(env, t) && p <= |env.s|
      ensures FirstMatch(code, env, d, p) == FirstIn(Preferred(env, pattern, d, p), AllowedEnds(env, p))
    {
      SameFirstMatch(o.emitted, code, t, env, d, p);
      FirstPreferred(o.x, o.emitted, pattern, env, d, AllowedEnds(env, p), p);
    }
  }

  /** Record whether the code is anchored, its first character and its required character. */
  method Record(pattern: Choice, fcc: seq<byte>, code: seq<byte>, ghost x: PlainLinks, ghost root: Item)
    returns (re: Regex)
    requires ChoiceOk(pattern) && PlainChoice(pattern) && |fcc| == 256
    requires IsProgram(x, code, root) && Stricter(root, Expand(pattern))
    ensures root.Group? && re.code == code && RecordedFor(fcc, re, root) && RecordOf(pattern, root, fcc, re)
  {
    hide ChoiceChars, AnchoredAlts, IsProgram, Recorded, ChoiceOk, PlainChoice, Expand, ChoiceClaims, EarlierAlts,
      Within;
    re := Regex(code, false, false, 0, false, false, 0, false);
    var first, req, vary := ScanChoice(pattern, false);
    var anchored := PatternIsAnchored(code, x, root);
    if anchored {
      re := re.(anchored := true);
    } else if first.flags >= 0 {
      re := re.(firstSet := true, firstChar := first.c,
                firstCaseless := Caseless(first.flags) && fcc[first.c] != first.c);
    }
    if req.flags >= 0 && (!re.anchored || req.flags >= REQ_VARY) {
      re := re.(reqSet := true, reqChar := req.c,
                reqCaseless := Caseless(req.flags) && fcc[req.c] != req.c);
    }
    forall env: Env | env.Ok() && env.fcc == fcc ensures Recorded(env, re, root) {
      RecordIsRight(env, pattern, root, first, req, re);
    }
  }

  lemma RecordIsAnchored(pattern: Choice, o: Origin, fcc: seq<byte>, re: Regex)
    requires ChoiceOk(pattern) && |fcc| == 256 && RecordOf(pattern, CodeTree(pattern, o), fcc, re)
    ensures re.anchored <==> AnchoredChoice(pattern)
  {
    hide AnchoredAlts, AnchoredChoice, Expand, HardSet, ChoiceChars;
    CodeIsAnchored(pattern, o.made);
  }

  /** For a pattern without alternatives that is not anchored it can be told from its letters
    * which characters are recorded. */
  lemma RecordedLetters(pattern: Choice, root: Item, fcc: seq<byte>, re: Regex)
    requires ChoiceOk(pattern) && root.Group? && |fcc| == 256 && RecordOf(pattern, root, fcc, re)
    requires pattern.Only? && StraightSequence(pattern.seq0) && !re.anchored
    ensures var st, ls := StartOfSequence(pattern.seq0), LettersOfSequence(pattern.seq0);
            && (re.firstSet <==> st.First?)
            && (re.firstSet ==> re.firstChar == st.letter.c)
            && (re.reqSet <==> |ls| > if st.First? then 1 else 0)
            && (re.reqSet ==> re.reqChar == ls[|ls| - 1].c)
  {
    hide AnchoredAlts, ChoiceChars, StartOfSequence, LettersOfSequence;
    LettersFound(pattern, false);
  }

  /** If it is anchored and ends with a letter, that is recorded exactly if something of
    * variable length comes before it. */
  lemma RecordedLate(pattern: Choice, root: Item, fcc: seq<byte>, re: Regex)
    requires ChoiceOk(pattern) && root.Group? && |fcc| == 256 && RecordOf(pattern, root, fcc, re)
    requires pattern.Only? && EndsWithLetter(pattern.seq0) && re.anchored
    ensures re.reqSet <==> VariesBefore(pattern.seq0)
  {
    hide AnchoredAlts, SequenceChars, EndsWithLetter, VariesBefore;
    LastLetterVaries(pattern.seq0, UNSET, UNSET, false);
  }

  /** Compile a pattern and record what is known about the starts of its matches. */
  method PcreCompile(pattern: Choice, t: Tables, autoPossess: bool) returns (err: nat, re: Regex, ghost o: Origin)
    requires ChoiceOk(pattern) && PlainChoice(pattern) && TablesOk(t)
    ensures err == 0 <==> Total(MeasuredChoice(pattern)) <= MAX_PATTERN_SIZE && CallsExist(pattern)
    ensures |t.fcc| == 256
    ensures err == 0 ==> CodeOf(pattern, t, re.code, o)
    ensures err == 0 ==> if autoPossess then MadeRightly(pattern, t, o) else o.made == {}
    ensures err == 0 ==>
              RecordedFor(t.fcc, re, CodeTree(pattern, o)) && RecordOf(pattern, CodeTree(pattern, o), t.fcc, re)
    ensures err == 0 ==> FindsPreferred(pattern, t, re.code)
    ensures err == 0 ==> (re.anchored <==> AnchoredChoice(pattern))
  {
    hide FindsPreferred, AnchoredChoice;
    TableSizes(t);
    hide IsProgram, ChoiceOk, PlainChoice, Expand, CallsExist, MeasuredChoice, TablesOk, CodeOf, CodeTree, MadeRightly,
      Stricter, RecordedFor, RecordOf;
    re := Regex([], false, false, 0, false, false, 0, false);
    var emitted;
    ghost var links: Links;
    err, emitted, links := CompilePattern(pattern);
    o := Origin(Links(map[], {}, false), [], {});
    if err != 0 {
      return;
    }
    var code;
    code, o := Rewrite(emitted, t, autoPossess, links, pattern);
    CodeParts(pattern, t, code, o);
    FirstIsPreferred(pattern, t, code, o);
    re := Record(pattern, t.fcc, code, o.x, CodeTree(pattern, o));
    RecordIsAnchored(pattern, o, t.fcc, re);
  }

  // ---------- what the matches found say about the pattern ----------

  /** Whatever is found is meant, whatever the options and rewritings. */
  lemma FoundIsMeant(env: Env, pattern: Choice, t: Tables, code: seq<byte>, o: Origin, p: nat, q: nat)
    requires ChoiceOk(pattern) && PlainChoice(pattern) && CodeOf(pattern, t, code, o)
    requires p <= |env.s| && Matches(env, CodeTree(pattern, o), p, q)
    ensures Means(env, pattern, p, q)
  {
    hide Matches, Means, Expand, CodeTree, ChoiceOk, PlainChoice, CodeOf, Stricter;
    CodeParts(pattern, t, code, o);
    StricterMatches(env, CodeTree(pattern, o), Expand(pattern), p, q);
    ExpansionIsSound(env, pattern, p, q);
  }

  /** Does the pattern mean something from p that ends at low or later? */
  ghost predicate MeansTo(env: Env, pattern: Choice, p: nat, low: nat) {
    exists q: nat :: q >= low && Means(env, pattern, p, q)
  }

  /** Calls take characters where the options demand it, and those that end in front of a
    * character which a repeat could take are spared by the rewriting. */
  ghost predicate Dependable(env: Env, pattern: Choice, t: Tables, code: seq<byte>, o: Origin)
    requires ChoiceOk(pattern)
  {
    && PlainChoice(pattern) && CodeOf(pattern, t, code, o) && Fits(env, t) && CallsTake(env, pattern)
    && CallsSpared(o.emitted, Expand(pattern), o.made, env)
  }

  lemma NothingToContain(code: seq<byte>, root: Item, nums: set<nat>)
    requires root.Group?
    ensures Contained(code, root, {}, nums)
  {
  }

  /** The latter is so if the code was not rewritten, and can otherwise be seen before the
    * pattern is compiled. */
  lemma IsDependable(env: Env, pattern: Choice, t: Tables, code: seq<byte>, o: Origin)
    requires ChoiceOk(pattern) && PlainChoice(pattern) && CodeOf(pattern, t, code, o) && Fits(env, t)
    requires CallsTake(env, pattern)
    requires o.made == {} || CallsSettled(pattern)
    ensures Dependable(env, pattern, t, code, o)
  {
    hide ChoiceOk, PlainChoice, Fits, CallsTake, Hardenings, Contained, Expand, Ripe, TablesOk, Called, TrailingChoice,
      CallsSpared, CallsIn, HardSet;
    CallsOfPattern(pattern);
    if o.made == {} {
      NothingToContain(o.emitted, Expand(pattern), CalledChoice(pattern));
    } else {
      EmittedProgram(pattern, t, code, o);
      SettledIsContained(o.x, o.emitted, pattern, t, o.made, CalledChoice(pattern));
    }
    ContainedCalls(o.emitted, Expand(pattern), o.made, env);
  }

  lemma EmittedProgram(pattern: Choice, t: Tables, code: seq<byte>, o: Origin)
    requires ChoiceOk(pattern) && CodeOf(pattern, t, code, o)
    ensures IsProgram(o.x, o.emitted, Expand(pattern)) && TablesOk(t) && |t.ctypes| == 256 && |t.fcc| == 256
  {
    RewrittenParts(o.x, o.emitted, Expand(pattern), code, t, o.made);
    hide IsProgram;
  }

  lemma ReachIsMeant(env: Env, pattern: Choice, t: Tables, code: seq<byte>, o: Origin, p: nat, low: nat)
    requires ChoiceOk(pattern) && Dependable(env, pattern, t, code, o) && p <= |env.s|
    ensures MatchesTo(env, CodeTree(pattern, o), p, low) <==> MeansTo(env, pattern, p, low)
  {
    hide Matches, Means, Expand, ChoiceOk, PlainChoice, CallsTake, Fits, Rewritten, CallsSpared;
    CallsTakeUnfiltered(env, pattern);
    CallsOfPattern(pattern);
    SameReach(o.x, o.emitted, Expand(pattern), code, t, o.made, env, p, low);
    forall q: nat ensures Matches(env, Expand(pattern), p, q) <==> Means(env, pattern, p, q) {
      ExpansionKeepsMeaning(env, pattern, p, q);
    }
  }

  lemma CallsOfPattern(pattern: Choice)
    requires ChoiceOk(pattern)
    ensures Expand(pattern).Group? && CallsIn(Expand(pattern)) == CalledChoice(pattern)
  {
    CallsOfChoice(pattern);
  }

  /** Where the driver finds no match the pattern as written has none, and where it has
    * none the driver finds none. */
  lemma NothingMissed(env: Env, pattern: Choice, t: Tables, code: seq<byte>, o: Origin, lo: nat, hi: nat)
    requires ChoiceOk(pattern) && Dependable(env, pattern, t, code, o) && hi <= |env.s| + 1
    ensures NoMatchFrom(env, CodeTree(pattern, o), lo, hi)
           <==> forall p: nat, q: nat :: lo <= p < hi ==> !Means(env, pattern, p, q)
  {
    hide Matches, Means, Dependable, ChoiceOk, CodeTree;
    var root := CodeTree(pattern, o);
    forall p: nat | lo <= p < hi ensures NoMatchAt(env, root, p) <==> forall q: nat :: !Means(env, pattern, p, q) {
      ReachIsMeant(env, pattern, t, code, o, p, 0);
    }
    if NoMatchFrom(env, root, lo, hi) {
      forall p: nat, q: nat | lo <= p < hi ensures !Means(env, pattern, p, q) {
        assert NoMatchAt(env, root, p);
      }
    }
  }

  lemma DependableParts(env: Env, pattern: Choice, t: Tables, code: seq<byte>, o: Origin)
    requires ChoiceOk(pattern) && Dependable(env, pattern, t, code, o)
    ensures CodeOf(pattern, t, code, o) && PlainChoice(pattern)
  {
  }

  /** What the driver reports: a start before which the pattern means nothing, ends that
    * are all meant, and among them the last one that is meant. */
  lemma FoundMeans(env: Env, pattern: Choice, t: Tables, code: seq<byte>, o: Origin, startOffset: nat, start: nat,
                   ends: seq<nat>)
    requires ChoiceOk(pattern) && Dependable(env, pattern, t, code, o) && startOffset <= start <= |env.s|
    requires NoMatchFrom(env, CodeTree(pattern, o), startOffset, start)
    requires forall q: nat :: q in ends <==> Matches(env, CodeTree(pattern, o), start, q)
    ensures forall p: nat, q: nat :: startOffset <= p < start ==> !Means(env, pattern, p, q)
    ensures forall q: nat :: q in ends ==> Means(env, pattern, start, q)
    ensures forall q: nat :: Means(env, pattern, start, q) ==> exists e: nat :: e in ends && e >= q
  {
    hide Matches, Means, Dependable, ChoiceOk, PlainChoice, CodeOf, CodeTree;
    NothingMissed(env, pattern, t, code, o, startOffset, start);
    DependableParts(env, pattern, t, code, o);
    forall q: nat | q in ends ensures Means(env, pattern, start, q) {
      FoundIsMeant(env, pattern, t, code, o, start, q);
    }
    forall q: nat | Means(env, pattern, start, q) ensures exists e: nat :: e in ends && e >= q {
      ReachIsMeant(env, pattern, t, code, o, start, q);
      assert MeansTo(env, pattern, start, q);
      var e: nat :| e >= q && Matches(env, CodeTree(pattern, o), start, e);
    }
  }

  /** The repeats that clash at the end of the pattern are among those that can be seen to
    * trail in it. */
  lemma TrailingUnclashed(env: Env, pattern: Choice, t: Tables, code: seq<byte>, o: Origin, q: nat)
    requires ChoiceOk(pattern) && PlainChoice(pattern) && CodeOf(pattern, t, code, o)
    requires o.made == {} || forall atom :: atom in TrailingChoice(pattern) ==> !HitAt(env, atom, q)
    ensures Callee(Expand(pattern), 0).Some? && CalleeOffset(Expand(pattern), 0).Some?
    ensures Unclashed(o.emitted, Expand(pattern), o.made, env, 0, q)
  {
    hide ChoiceOk, PlainChoice, Hardenings, Expand, Ripe, TablesOk, Decode, Passed, HitAt, TrailingChoice, CalleeInner,
      CalleeKet;
    EmittedProgram(pattern, t, code, o);
    var root := Expand(pattern);
    forall e: nat | e in o.made && e in CalleeInner(root, 0)
      ensures !Clashes(o.emitted, env, CalleeKet(root, 0), e, q)
    {
      if Clashes(o.emitted, env, CalleeKet(root, 0), e, q) {
        TrailingOf(o.x, o.emitted, pattern, t, 0, e);
      }
    }
  }

  /** All ends are reported if the code was not rewritten; else those are behind which no
    * character stands that a trailing repeat of the pattern could take. */
  lemma AllFound(env: Env, pattern: Choice, t: Tables, code: seq<byte>, o: Origin, start: nat, q: nat)
    requires ChoiceOk(pattern) && Dependable(env, pattern, t, code, o) && start <= |env.s|
    requires o.made == {} || forall atom :: atom in TrailingChoice(pattern) ==> !HitAt(env, atom, q)
    ensures Matches(env, CodeTree(pattern, o), start, q) <==> Means(env, pattern, start, q)
  {
    hide Matches, Means, Expand, ChoiceOk, PlainChoice, CallsTake, Fits, Rewritten, CallsSpared, Unclashed,
      TrailingChoice, HitAt;
    CallsTakeUnfiltered(env, pattern);
    CallsOfPattern(pattern);
    ExpansionKeepsMeaning(env, pattern, start, q);
    TrailingUnclashed(env, pattern, t, code, o, q);
    KeptEnd(o.x, o.emitted, Expand(pattern), code, t, o.made, env, start, q);
  }

  lemma OnlyClashesOf(pattern: Choice, t: Tables, code: seq<byte>, o: Origin, atom: Atom)
    requires ChoiceOk(pattern) && PlainChoice(pattern) && CodeOf(pattern, t, code, o)
    requires TrailingChoice(pattern) <= {atom}
    ensures Callee(Expand(pattern), 0).Some? && CalleeOffset(Expand(pattern), 0).Some?
    ensures ClashesOnly(o.emitted, Expand(pattern), o.made, atom)
  {
    hide ChoiceOk, PlainChoice, Hardenings, Expand, Ripe, TablesOk, Decode, Passed, TrailingChoice, CalleeInner,
      CalleeKet;
    EmittedProgram(pattern, t, code, o);
    var root := Expand(pattern);
    forall e: nat | e in o.made && e in CalleeInner(root, 0) && Slack(Decode(o.emitted, e))
                    && CalleeKet(root, 0) in Passed(o.emitted, Decode(o.emitted, e).next)
      ensures Decode(o.emitted, e).atom == atom
    {
      TrailingOf(o.x, o.emitted, pattern, t, 0, e);
    }
  }

  /** If every alternative ends with an unlimited repeat of the same atom, and no other
    * repeat trails, compiling by default loses exactly the matches that stop short of a
    * character which the repeat could take: all ends are reported if and only if there
    * are no such matches. */
  lemma AllFoundExactly(env: Env, pattern: Choice, t: Tables, code: seq<byte>, o: Origin, start: nat, atom: Atom)
    requires ChoiceOk(pattern) && Dependable(env, pattern, t, code, o) && MadeRightly(pattern, t, o) && start <= |env.s|
    requires EndsWithChoice(pattern, atom) && TrailingChoice(pattern) <= {atom}
    ensures forall q: nat ::
              Matches(env, CodeTree(pattern, o), start, q) <==> Means(env, pattern, start, q) && !HitAt(env, atom, q)
    ensures (forall q: nat :: Means(env, pattern, start, q) ==> Matches(env, CodeTree(pattern, o), start, q))
       <==> forall q: nat :: Means(env, pattern, start, q) ==> !HitAt(env, atom, q)
  {
    hide Matches, Means, Expand, ChoiceOk, PlainChoice, CallsTake, Fits, Rewritten, RunsOut, HitAt, CallsSpared,
      ClashesOnly, TrailingChoice, EndsWithChoice, Rightly;
    EmittedProgram(pattern, t, code, o);
    CallsTakeUnfiltered(env, pattern);
    CallsOfPattern(pattern);
    EndIsHardened(o.x, o.emitted, pattern, t, o.made, atom);
    OnlyClashesOf(pattern, t, code, o, atom);
    EndsLeft(o.x, o.emitted, Expand(pattern), code, t, o.made, env, start, atom);
    forall q: nat ensures Matches(env, Expand(pattern), start, q) <==> Means(env, pattern, start, q) {
      ExpansionKeepsMeaning(env, pattern, start, q);
    }
  }
}
