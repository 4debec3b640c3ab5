/** The second compile pass: from a pattern to a finished program. The main result
  * is that the code is the expansion of the pattern, within the space that the
  * first pass measured, and that every subroutine call ends up linked to the
  * first bracket with its number.
  */
module Compile {
  import opened Opcodes
  import opened Tree
  import opened Meaning
  import opened Pattern
  import opened Expansion
  import opened Sizing
  import opened Program
  import opened Walk
  import opened Relocation
  import opened Emission
  import opened CodeBuffer
  import opened Items
  import opened Repeats
  import opened Wrapping
  import opened Moving
  import opened Copying
  import opened GroupRepeats
  import opened Groups
  import opened References

  /** A character with its quantifier. */
  method CompileSingle(cd: Compiler, atom: Atom, min: nat, max: int, greed: Greed)
    requires cd.Valid() && Good(Now(cd)) && AtomOk(atom) && cd.end > 0
    requires min <= MAX_REPEAT && (max == -1 || min <= max <= MAX_REPEAT)
    requires cd.end + Larger(AtomSize(atom), SingleLength(atom, min, max, greed)) < cd.buf.Length
    modifies cd, cd.buf
    ensures cd.Valid() && Emitted(old(Now(cd)), Now(cd), ExpandAtom(atom, min, max, greed))
  {
    hide Compiler.Valid, Good, Emitted, ExpandSingle;
    cd.Bounds();
    ghost var s := Now(cd);
    var previous, itemHwm := cd.end, |cd.hwm|;
    var kind := if greed == Possessive then Greedy else greed;
    NoLonger(atom, min, max, greed);
    EmitAtom(cd, atom);
    if atom.Cls? {
      RepeatClass(cd, previous, min, max, kind, s, atom);
    } else {
      RepeatCharacter(cd, previous, min, max, kind, s, atom);
    }
    if greed == Possessive {
      if max != 0 && (atom.Cls? || !(min == 1 && max == 1)) {
        Possessify(cd, previous, itemHwm, min, max, s, atom);
      } else {
        NothingToPossessify(atom, min, max);
      }
    }
  }

  lemma NoLonger(atom: Atom, min: nat, max: int, greed: Greed)
    requires max == -1 || min <= max
    ensures SingleLength(atom, min, max, if greed == Possessive then Greedy else greed)
         <= SingleLength(atom, min, max, greed)
  {
    SingleSize(atom, min, max, greed);
    SingleSize(atom, min, max, Greedy);
  }

  lemma NothingToPossessify(atom: Atom, min: nat, max: int)
    requires (max == -1 || min <= max) && (max == 0 || (!atom.Cls? && min == 1 && max == 1))
    ensures ExpandSingle(atom, min, max, Possessive) == ExpandSingle(atom, min, max, Greedy)
  {
  }

  // ---------- the recursive descent ----------

  /** What the descent needs: a good state, and room for what was measured. */
  ghost predicate Room(cd: Compiler, length: nat)
    reads cd, cd.buf
  {
    cd.Valid() && Good(Now(cd)) && cd.finalBracount < 65536 && cd.end + length < cd.buf.Length
  }

  /** A call of a group with a number beyond the last one. */
  ghost predicate BadCall(calls: set<nat>, last: nat) {
    exists num :: num in calls && num > last
  }

  method CompileNode(cd: Compiler, n: Node) returns (err: nat)
    requires NodeOk(n) && Room(cd, MeasuredNode(n)) && cd.end > 0
    modifies cd, cd.buf
    ensures cd.Valid() && cd.end <= cd.buf.Length
    ensures err == 0 ==> Emitted(old(Now(cd)), Now(cd), ExpandNode(n)) && cd.end <= old(cd.end) + MeasuredNode(n)
    ensures err != 0 ==> BadCall(CalledNode(n), cd.finalBracount)
    decreases n, 1
  {
    ghost var s := Now(cd);
    err := 0;
    match n {
      case Assert(op) => EmitAnchor(cd, op);
      case Single(atom) => EmitAtom(cd, atom);
      case Sub(num, c) => err := CompileRegex(cd, num, c);
      case Recurse(num) => err := EmitCall(cd, num);
      case Repeat(body, min, max, greed) =>
        if body.Single? {
          CompileSingle(cd, body.atom, min, max, greed);
        } else {
          err := CompileRepeat(cd, n);
        }
    }
    if err == 0 {
      NodeEnds(s, Now(cd), n);
    }
  }

  lemma NodeEnds(s: State, t: State, n: Node)
    requires NodeOk(n) && Emitted(s, t, ExpandNode(n))
    ensures |t.code| <= |s.code| + MeasuredNode(n)
  {
    NodeFits(n);
  }

  /** What the quantifier of a group or call is applied to: a repeated call is put
    * into atomic brackets first. */
  function RepeatedItem(body: Node): (g: Item)
    requires NodeOk(body) && (body.Sub? || body.Recurse?)
    ensures Repeatable(g)
  {
    if body.Sub? then GroupItem(body.num, ExpandChoice(body.choice), OP_KET) else Once(Cons(Call(body.num), Nil))
  }

  /** The group, or the call in its atomic brackets. */
  method CompileRepeated(cd: Compiler, body: Node) returns (err: nat)
    requires NodeOk(body) && (body.Sub? || body.Recurse?) && cd.end > 0
    requires Room(cd, if body.Sub? then MeasuredNode(body) else 3 + BRACKETS)
    modifies cd, cd.buf
    ensures cd.Valid()
    ensures err == 0 ==> Emitted(old(Now(cd)), Now(cd), Cons(RepeatedItem(body), Nil))
    ensures err != 0 ==> BadCall(CalledNode(body), cd.finalBracount)
    decreases body, 0
  {
    hide Compiler.Valid, Good, Emitted, MeasuredChoice, ExpandChoice;
    cd.Bounds();
    if body.Sub? {
      err := CompileRegex(cd, body.num, body.choice);
      return;
    }
    ghost var s := Now(cd);
    var previous := cd.end;
    err := EmitCall(cd, body.num);
    if err == 0 {
      cd.Bounds();
      CallEnds(s, Now(cd), body.num);
      WrapCall(cd, previous, s, body.num);
    }
  }

  /** A group or a call with its quantifier. */
  method CompileRepeat(cd: Compiler, n: Node) returns (err: nat)
    requires NodeOk(n) && n.Repeat? && !n.body.Single? && Room(cd, MeasuredNode(n)) && cd.end > 0
    modifies cd, cd.buf
    ensures cd.Valid()
    ensures err == 0 ==> Emitted(old(Now(cd)), Now(cd), ExpandNode(n))
    ensures err != 0 ==> BadCall(CalledNode(n), cd.finalBracount)
    decreases n, 0
  {
    assert NodeOk(n.body);
    hide Compiler.Valid, Good, Emitted, GroupLength, MeasuredNode, ExpandChoice, ExpandGroup, Size;
    cd.Bounds();
    ghost var s, g := Now(cd), RepeatedItem(n.body);
    var previous, itemHwm := cd.end, |cd.hwm|;
    RepeatRoom(n);
    err := CompileRepeated(cd, n.body);
    if err == 0 {
      cd.Bounds();
      EmittedGoods(s, Now(cd), g);
      RepeatGroup(cd, previous, itemHwm, n.min, n.max, n.greed, s, g);
    }
  }

  lemma CallEnds(s: State, t: State, num: nat)
    requires Emitted(s, t, Cons(Call(num), Nil))
    ensures |t.code| == |s.code| + 3
  {
    OneSize(Call(num));
    EmittedGood(s, t, Cons(Call(num), Nil));
  }

  lemma RepeatRoom(n: Node)
    requires NodeOk(n) && n.Repeat? && !n.body.Single? && NodeOk(n.body)
    ensures n.body.Sub? ==> MeasuredNode(n.body) <= MeasuredNode(n)
    ensures n.body.Recurse? ==> 3 + BRACKETS <= MeasuredNode(n)
    ensures GroupLength(Size(RepeatedItem(n.body)), n.min, n.max, n.greed) <= MeasuredNode(n)
  {
    hide GroupLength, MeasuredChoice, ExpandChoice, AltsSize, Waste, CopiesMade;
    var g := RepeatedItem(n.body);
    if n.body.Sub? {
      NodeFits(n.body);
      OneSize(g);
      GroupGrows(Size(g), Waste(n.body), n.min, n.max, n.greed);
      LongerThanOne(MeasuredNode(n.body), n.min, n.max, n.greed);
    } else {
      CallSize(n.body.num);
      LongerThanOne(3 + BRACKETS, n.min, n.max, n.greed);
    }
  }

  /** One alternative. */
  method CompileSequence(cd: Compiler, sq: Sequence) returns (err: nat)
    requires SequenceOk(sq) && Room(cd, MeasuredSequence(sq)) && cd.end > 0
    modifies cd, cd.buf
    ensures cd.Valid()
    ensures err == 0 ==>
              Emitted(old(Now(cd)), Now(cd), ExpandSequence(sq)) && cd.end <= old(cd.end) + MeasuredSequence(sq)
    ensures err != 0 ==> BadCall(CalledSequence(sq), cd.finalBracount)
    decreases sq, 1
  {
    hide Compiler.Valid, Good, Emitted, ExpandNode, MeasuredNode;
    cd.Bounds();
    ghost var s := Now(cd);
    ghost var done := Nil;
    var rest := sq;
    EmittedNothing(s);
    while rest.Then?
      invariant cd.Valid() && cd.end == |cd.code| && cd.end > 0 && cd.finalBracount < 65536
      invariant SequenceOk(rest) && (rest == sq || rest < sq)
      invariant Emitted(s, Now(cd), done) && Append(done, ExpandSequence(rest)) == ExpandSequence(sq)
      invariant cd.end + MeasuredSequence(rest) <= |s.code| + MeasuredSequence(sq)
      invariant CalledSequence(rest) <= CalledSequence(sq)
      decreases rest
    {
      ghost var t := Now(cd);
      EmittedGood(s, t, done);
      err := CompileNode(cd, rest.first);
      if err != 0 {
        return;
      }
      cd.Bounds();
      EmittedTwice(s, t, Now(cd), done, ExpandNode(rest.first));
      AppendAssoc(done, ExpandNode(rest.first), ExpandSequence(rest.rest));
      done := Append(done, ExpandNode(rest.first));
      rest := rest.rest;
    }
    AppendNil(done);
    err := 0;
  }

  // ---------- a group ----------

  /** The bracket, holding zero while the group is open. */
  method OpenRegex(cd: Compiler, num: nat)
    requires cd.Valid() && Good(Now(cd)) && num < 65536 && cd.end + HeaderLength(num) <= cd.buf.Length
    modifies cd, cd.buf
    ensures cd.Valid() && cd.end == old(cd.end) + HeaderLength(num)
    ensures Opened(old(Now(cd)), Now(cd), num, []) && Pending(old(Now(cd)), Now(cd), num, [], old(cd.end))
  {
    ghost var s := Now(cd);
    hide Good, Opened, Pending;
    cd.Emit(if num == 0 then OP_BRA else OP_CBRA);
    cd.EmitLink(0);
    if num != 0 {
      cd.EmitLink(num);
    }
    assert cd.code == s.code + HeaderBytes(num);
    cd.x := Noted(cd.x, num, |s.code|);
    HeaderOpens(s, Now(cd), num);
  }

  /** The header of the next alternative, with a link back to the last one. */
  method NextBranch(cd: Compiler, lastBranch: nat, ghost s: State, ghost num: nat, ghost alts: seq<Alt>)
    requires alts != [] && lastBranch == alts[|alts| - 1].h <= cd.end && alts[|alts| - 1].e == cd.end
    requires cd.Valid() && Opened(s, Now(cd), num, alts) && cd.end + 3 <= cd.buf.Length
    modifies cd`end, cd`code, cd.buf
    ensures cd.Valid() && cd.end == old(cd.end) + 3
    ensures Opened(s, Now(cd), num, alts) && Pending(s, Now(cd), num, alts, old(cd.end))
  {
    ghost var t := Now(cd);
    hide Opened, Pending;
    var link := cd.end - lastBranch;
    cd.Emit(OP_ALT);
    cd.EmitLink(link);
    assert cd.code == t.code + [OP_ALT, link / 256 % 256, link % 256];
    AltStarts(s, t, Now(cd), num, alts, link);
  }

  /** Reverse the chain of alternatives and add the ket. */
  method CloseRegex(cd: Compiler, start: nat, lastBranch: nat, ghost s: State, ghost num: nat, ghost alts: seq<Alt>,
                    ghost cs: seq<Choice>)
    requires alts != [] && Complete(alts, cs) && lastBranch == alts[|alts| - 1].h && alts[|alts| - 1].e == cd.end
    requires cd.Valid() && Opened(s, Now(cd), num, alts) && start == |s.code| && cd.end + 3 <= cd.buf.Length
    modifies cd`end, cd`code, cd.buf
    ensures cd.Valid() && Emitted(s, Now(cd), Cons(GroupItem(num, ExpandChoice(cs[0]), OP_KET), Nil))
  {
    hide Compiler.Valid, Opened, Emitted, Reversed, InOrder, LinksBack, Complete;
    cd.Bounds();
    ghost var t := Now(cd);
    OpenedParts(s, t, num, alts);
    OpenedLinks(s, t, num, alts);
    ReverseChain(cd, lastBranch, alts, |s.code|, HeaderLength(num));
    cd.Bounds();
    ghost var code1 := cd.code;
    var length := cd.end - start;
    cd.Emit(OP_KET);
    cd.Bounds();
    cd.EmitLink(length);
    assert cd.code == code1 + [OP_KET, length / 256 % 256, length % 256];
    GroupCloses(s, t, Now(cd), code1, num, alts, cs, length);
  }

  lemma OpenedLinks(s: State, t: State, num: nat, alts: seq<Alt>)
    requires Opened(s, t, num, alts)
    ensures LinksBack(t.code, alts, |alts|)
  {
  }

  lemma OpenedGood(s: State, t: State, num: nat, alts: seq<Alt>, h: nat)
    requires Opened(s, t, num, alts) && Pending(s, t, num, alts, h)
    ensures Good(t) && h <= |t.code|
  {
  }

  lemma FirstChosen(c: Choice)
    requires ChoiceOk(c)
    ensures Chosen([], [c], 0)
  {
  }

  lemma MoreChosen(alts: seq<Alt>, alt: Alt, cs: seq<Choice>)
    requires Chosen(alts, cs, |alts|) && |cs| == |alts| + 1 && SequenceOk(cs[|alts|].seq0)
    requires alt.b == ExpandSequence(cs[|alts|].seq0)
    ensures Chosen(alts + [alt], cs, |alts| + 1)
  {
  }

  lemma MoreChoices(alts: seq<Alt>, cs: seq<Choice>, rest: Choice)
    requires Chosen(alts, cs, |alts|) && |cs| == |alts| > 0 && cs[|cs| - 1].Or? && rest == cs[|cs| - 1].others
    requires ChoiceOk(rest)
    ensures Chosen(alts, cs + [rest], |alts|)
  {
  }

  lemma AllChosen(alts: seq<Alt>, cs: seq<Choice>)
    requires Chosen(alts, cs, |alts|) && |cs| == |alts| > 0 && cs[|cs| - 1].Only?
    ensures Complete(alts, cs)
  {
  }

  /** A group: its bracket, its alternatives and its ket. */
  method CompileRegex(cd: Compiler, num: nat, c: Choice) returns (err: nat)
    requires num < 65536 && ChoiceOk(c) && Room(cd, HeaderLength(num) + MeasuredChoice(c) + 3)
    modifies cd, cd.buf
    ensures cd.Valid()
    ensures err == 0 ==> Emitted(old(Now(cd)), Now(cd), Cons(GroupItem(num, ExpandChoice(c), OP_KET), Nil))
    ensures err != 0 ==> BadCall(CalledChoice(c), cd.finalBracount)
    decreases c, 0
  {
    hide Compiler.Valid, Good, Emitted, Opened, Pending, Reversed, Complete, Chosen, InOrder, HeaderBytes, KetAdded;
    cd.Bounds();
    var start: nat, rest := cd.end, c;
    ghost var s := Now(cd);
    OpenRegex(cd, num);
    cd.Bounds();
    var lastBranch: nat := start;
    ghost var alts: seq<Alt>, cs := [], [c];
    FirstChosen(c);
    while true
      invariant cd.Valid() && cd.end == |cd.code| && cd.end > 0 && cd.finalBracount < 65536
      invariant Opened(s, Now(cd), num, alts) && Pending(s, Now(cd), num, alts, lastBranch)
      invariant Chosen(alts, cs, |alts|) && |cs| == |alts| + 1 && cs[|alts|] == rest && cs[0] == c
      invariant ChoiceOk(rest) && (rest == c || rest < c)
      invariant cd.end + MeasuredChoice(rest) + 3 < cd.buf.Length
      invariant CalledChoice(rest) <= CalledChoice(c)
      decreases rest
    {
      ghost var t := Now(cd);
      OpenedGood(s, t, num, alts, lastBranch);
      err := CompileSequence(cd, rest.seq0);
      if err != 0 {
        return;
      }
      cd.Bounds();
      ghost var alt := Alt(lastBranch, |t.code|, cd.end, ExpandSequence(rest.seq0));
      BranchCompletes(s, t, Now(cd), num, alts, lastBranch, ExpandSequence(rest.seq0));
      MoreChosen(alts, alt, cs);
      alts := alts + [alt];
      if rest.Only? {
        break;
      }
      NextBranch(cd, lastBranch, s, num, alts);
      cd.Bounds();
      lastBranch := cd.end - 3;
      rest := rest.others;
      MoreChoices(alts, cs, rest);
      cs := cs + [rest];
    }
    err := 0;
    AllChosen(alts, cs);
    CloseRegex(cd, start, lastBranch, s, num, alts, cs);
  }

  // ---------- the largest group number ----------

  function LargestNode(n: Node): nat
    decreases n
  {
    match n
    case Sub(num, c) => Larger(num, LargestChoice(c))
    case Repeat(body, _, _, _) => LargestNode(body)
    case _ => 0
  }

  function LargestSequence(s: Sequence): nat
    decreases s
  {
    if s.End? then 0 else Larger(LargestNode(s.first), LargestSequence(s.rest))
  }

  function LargestChoice(c: Choice): nat
    decreases c
  {
    if c.Only? then LargestSequence(c.seq0) else Larger(LargestSequence(c.seq0), LargestChoice(c.others))
  }

  lemma {:induction false} NodeLargest(n: Node, num: nat)
    requires NodeOk(n)
    ensures LargestNode(n) < 65536 && (FindNode(n, num).Some? ==> num <= LargestNode(n))
    decreases n
  {
    match n
    case Sub(_, c) => ChoiceLargest(c, num);
    case Repeat(body, _, _, _) => NodeLargest(body, num);
    case _ =>
  }

  lemma {:induction false} SequenceLargest(s: Sequence, num: nat)
    requires SequenceOk(s)
    ensures LargestSequence(s) < 65536 && (FindSequence(s, num).Some? ==> num <= LargestSequence(s))
    decreases s
  {
    if s.Then? {
      NodeLargest(s.first, num);
      SequenceLargest(s.rest, num);
    }
  }

  lemma {:induction false} ChoiceLargest(c: Choice, num: nat)
    requires ChoiceOk(c)
    ensures LargestChoice(c) < 65536 && (FindChoice(c, num).Some? ==> num <= LargestChoice(c))
    decreases c
  {
    SequenceLargest(c.seq0, num);
    if c.Or? {
      ChoiceLargest(c.others, num);
    }
  }

  // ---------- filling in the forward references ----------

  const ERR20 := 20
  const ERR53 := 53

  /** Everything is emitted; what is listed is what is still a number. */
  ghost predicate Unfilled(s: State, root: Item) {
    && root.Group? && LayItem(s.x, s.code, 0, root) && |s.code| == Size(root) && ListOk(s)
    && (forall o: nat :: o in s.x.forward ==> o in Operands(root, 0))
    && (forall n :: n in s.x.target <==> n == 0 || FindOffset(root, 0, n).Some?)
    && (forall n ::
          n in s.x.target ==> if n == 0 then s.x.target[n] == 0 else FindOffset(root, 0, n) == Some(s.x.target[n]))
    && (forall n :: n in s.x.target ==> s.x.target[n] < |s.code|)
  }

  lemma EmittedUnfilled(s: State, t: State, root: Item)
    requires s == State([], [], Links(map[0 := 0], {}, true)) && Emitted(s, t, Cons(root, Nil)) && root.Group?
    ensures Unfilled(t, root)
  {
    EmittedItem(s, t, root);
    GoodParts(t);
    TargetsInside(t);
    hide LayItem, Size, Good, Emitted, FindOffset, ListOk;
    forall n: nat ensures n in t.x.target <==> n == 0 || FindOffset(root, 0, n).Some? {
      assert n > 0 ==> Target(t.x, n) == Either(Target(s.x, n), FindOffset(root, 0, n));
    }
    forall n | n in t.x.target
      ensures if n == 0 then t.x.target[n] == 0 else FindOffset(root, 0, n) == Some(t.x.target[n])
    {
      assert n > 0 ==> Target(t.x, n) == Either(Target(s.x, n), FindOffset(root, 0, n));
    }
  }

  lemma EmptyGood(s: State)
    requires s == State([], [], Links(map[0 := 0], {}, true))
    ensures Good(s)
  {
    assert Walks(s.code, 0, 0);
  }

  /** The last listed operand of an unfilled state. */
  lemma LastListed(s: State, root: Item)
    requires Unfilled(s, root) && |s.hwm| > 0
    ensures var o := s.hwm[|s.hwm| - 1];
            && 0 < o && o + 1 < |s.code| && s.code[o - 1] == OP_RECURSE && Get(s.code, o) in CallsIn(root)
            && o in s.x.forward && o in Operands(root, 0)
  {
    hide LayItem, Size, Get;
    var o := s.hwm[|s.hwm| - 1];
    assert o in s.x.forward;
    OperandCalls(s.x, s.code, 0, root, o);
  }

  /** What the search for a bracket finds. */
  lemma UnfilledMeets(s: State, root: Item)
    requires Unfilled(s, root)
    ensures Walks(s.code, 0, |s.code|)
    ensures forall n: nat | n > 0 :: FirstIn(s.code, 0, |s.code|, n) == Target(s.x, n)
  {
    WalkItem(s.x, s.code, 0, root);
    hide LayItem, Size, ListOk, Walks, FirstIn;
    forall n: nat | n > 0 ensures FirstIn(s.code, 0, |s.code|, n) == Target(s.x, n) {
      assert FirstIn(s.code, 0, |s.code|, n) == FindOffset(root, 0, n);
    }
  }

  lemma FillStep(s: State, t: State, root: Item, v: nat)
    requires Unfilled(s, root) && |s.hwm| > 0 && v < 65536
    requires var o := s.hwm[|s.hwm| - 1];
             && o + 1 < |s.code| && Target(s.x, Get(s.code, o)) == Some(v)
             && t == State(Put(s.code, o, v), s.hwm[..|s.hwm| - 1], s.x.(forward := s.x.forward - {o}))
    ensures Unfilled(t, root)
  {
    var o := s.hwm[|s.hwm| - 1];
    LastListed(s, root);
    hide LayItem, Size, Put, Get;
    FillItem(s.x, s.code, t.x, t.code, o, v, 0, root);
    forall p ensures p in t.x.forward <==> p in t.hwm {
      if p in s.hwm {
        var i :| 0 <= i < |s.hwm| && s.hwm[i] == p;
        assert i < |s.hwm| - 1 ==> t.hwm[i] == p;
      }
    }
  }

  /** Fill in the listed operands, the last one first. The bracket found for one
    * number is reused while the same number comes again. */
  method FillReferences(cd: Compiler, ghost root: Item) returns (err: nat)
    requires cd.Valid() && Unfilled(Now(cd), root) && cd.end < cd.buf.Length && cd.buf[cd.end] == OP_END
    modifies cd`code, cd`hwm, cd`x, cd.buf
    ensures cd.Valid() && Unfilled(Now(cd), root)
    ensures err == 0 ==> cd.hwm == []
    ensures err != 0 ==> err == ERR53 && exists n :: n in CallsIn(root) && n != 0 && FindOffset(root, 0, n).None?
  {
    var prevRecno: int, groupptr: Option<nat> := -1, None;
    hide Unfilled, CallsIn, FindOffset, Walks, FirstIn;
    err := 0;
    while err == 0 && |cd.hwm| > 0
      invariant cd.Valid() && Unfilled(Now(cd), root) && cd.buf[cd.end] == OP_END && |cd.code| == |old(cd.code)|
      invariant prevRecno >= -1 && (prevRecno >= 0 ==> groupptr == Target(cd.x, prevRecno))
      invariant err != 0 ==> err == ERR53 && exists n :: n in CallsIn(root) && n != 0 && FindOffset(root, 0, n).None?
      decreases |cd.hwm| + (if err == 0 then 1 else 0)
    {
      ghost var s := Now(cd);
      LastListed(s, root);
      UnfilledMeets(s, root);
      UnfilledTargets(s, root);
      var offset := cd.hwm[|cd.hwm| - 1];
      if offset == 0 || cd.buf[offset - 1] != OP_RECURSE {
        // The list has gone wrong, which is shown not to happen.
        assert false;
      }
      var recno := cd.LinkAt(offset);
      if recno != prevRecno {
        groupptr := FindReference(cd, recno);
        prevRecno := recno;
      }
      if groupptr.None? {
        err := ERR53;
      } else {
        cd.hwm := cd.hwm[..|cd.hwm| - 1];
        cd.SetLink(offset, groupptr.value);
        cd.x := cd.x.(forward := cd.x.forward - {offset});
        FillStep(s, Now(cd), root, groupptr.value);
      }
    }
  }

  method FindReference(cd: Compiler, recno: nat) returns (r: Option<nat>)
    requires cd.Valid() && cd.end < cd.buf.Length && cd.buf[cd.end] == OP_END && Walks(cd.code, 0, cd.end)
    requires forall n: nat | n > 0 :: FirstIn(cd.code, 0, cd.end, n) == Target(cd.x, n)
    requires Target(cd.x, 0) == Some(0)
    ensures r == Target(cd.x, recno)
  {
    if recno == 0 {
      return Some(0);
    }
    r := FindBracket(cd, recno, cd.end);
  }

  lemma UnfilledTargets(s: State, root: Item)
    requires Unfilled(s, root)
    ensures Target(s.x, 0) == Some(0) && |s.code| == Size(root)
    ensures forall n: nat :: Target(s.x, n).None? <==> n != 0 && FindOffset(root, 0, n).None?
    ensures forall n :: n in s.x.target ==> s.x.target[n] < |s.code|
  {
  }

  // ---------- the whole pattern ----------

  /** Every called group exists. */
  predicate CallsExist(pattern: Choice) {
    forall n :: n in CalledChoice(pattern) ==> Called(pattern, n).Some?
  }

  lemma CallsExistInTree(pattern: Choice, n: nat)
    requires ChoiceOk(pattern)
    ensures n in CallsIn(Expand(pattern)) <==> n in CalledChoice(pattern)
    ensures n != 0 && FindOffset(Expand(pattern), 0, n).None? <==> Called(pattern, n).None?
  {
    CallsOfChoice(pattern);
    CalleeFound(pattern, n);
    NotFound(Expand(pattern), 0, n);
  }

  lemma NoBadCall(pattern: Choice)
    requires ChoiceOk(pattern) && BadCall(CalledChoice(pattern), LargestChoice(pattern))
    ensures !CallsExist(pattern)
  {
    var n :| n in CalledChoice(pattern) && n > LargestChoice(pattern);
    ChoiceLargest(pattern, n);
  }

  lemma ProgramDone(s: State, root: Item)
    requires Unfilled(s, root) && s.hwm == [] && root.bra == OP_BRA && root.ket == OP_KET && Size(root) + 1 <= 65536
    ensures IsCode(s.x, s.code + [OP_END], root)
    ensures forall n :: n in CallsIn(root) ==> n == 0 || FindOffset(root, 0, n).Some?
  {
    hide LayItem, Size, FindOffset, CallsIn;
    assert s.x.forward == {};
    assert Moved(s.x, s.code, s.x, s.code + [OP_END], 0, Size(root), 0);
    RelocateItem(s.x, s.code, s.x, s.code + [OP_END], 0, Size(root), 0, root);
    forall n | n in CallsIn(root) ensures n == 0 || FindOffset(root, 0, n).Some? {
      CallsLinked(s.x, s.code, 0, root, n);
    }
  }

  /** Emit the whole pattern and fill in the forward references. */
  method CompileInto(cd: Compiler, pattern: Choice) returns (err: nat)
    requires ChoiceOk(pattern)
    requires cd.Valid() && Now(cd) == State([], [], Links(map[0 := 0], {}, true))
    requires cd.finalBracount == LargestChoice(pattern)
    requires cd.buf.Length == Total(MeasuredChoice(pattern)) <= MAX_PATTERN_SIZE
    modifies cd, cd.buf
    ensures cd.Valid() && (err == 0 <==> CallsExist(pattern))
    ensures err == 0 ==> Unfilled(Now(cd), Expand(pattern)) && cd.hwm == [] && cd.end < cd.buf.Length
  {
    hide Compiler.Valid, Unfilled, Expand, CallsIn, FindOffset, BadCall, CallsExist, Good, Emitted, MeasuredChoice,
      ExpandChoice;
    ghost var s, root := Now(cd), Expand(pattern);
    cd.Bounds();
    EmptyGood(s);
    ChoiceLargest(pattern, 0);
    RootIsPlain(pattern);
    PatternFits(pattern);
    err := CompileRegex(cd, 0, pattern);
    if err != 0 {
      NoBadCall(pattern);
      return;
    }
    EmittedUnfilled(s, Now(cd), root);
    UnfilledTargets(Now(cd), root);
    cd.Bounds();
    cd.Terminate();
    err := FillReferences(cd, root);
    UnfilledTargets(Now(cd), root);
    cd.Bounds();
    Verdict(pattern, Now(cd), err);
  }

  lemma PatternFits(pattern: Choice)
    requires ChoiceOk(pattern)
    ensures Size(Expand(pattern)) + 1 <= Total(MeasuredChoice(pattern))
    ensures HeaderLength(0) == 3
  {
    ChoiceFits(pattern);
  }

  /** Compile a pattern: measure it, emit it into a buffer of that size, and fill
    * in the forward references. It succeeds exactly when the pattern is not too
    * long and every called group exists. Whatever the quantifiers, the code fits; if
    * no atomic group was needed, it is a program. */
  method CompilePattern(pattern: Choice) returns (err: nat, code: seq<byte>, ghost x: Links)
    requires ChoiceOk(pattern)
    ensures err == 0 <==> Total(MeasuredChoice(pattern)) <= MAX_PATTERN_SIZE && CallsExist(pattern)
    ensures err == 0 ==> IsCode(x, code, Expand(pattern)) && |code| <= Total(MeasuredChoice(pattern))
    ensures err == 0 && PlainChoice(pattern) ==> !x.atomic && IsProgram(x, code, Expand(pattern))
  {
    code, x := [], Links(map[0 := 0], {}, false);
    var length := PreCompile(pattern);
    if length.None? {
      return ERR20, code, x;
    }
    var cd := new Compiler(length.value, LargestChoice(pattern));
    hide Unfilled, IsCode, IsProgram, Expand, CallsExist, MeasuredChoice;
    err := CompileInto(cd, pattern);
    if err == 0 {
      UnfilledTargets(Now(cd), Expand(pattern));
      RootIsPlain(pattern);
      PatternFits(pattern);
      ProgramDone(Now(cd), Expand(pattern));
      cd.Emit(OP_END);
      code, x := cd.buf[..cd.end], cd.x;
      if PlainChoice(pattern) {
        ChoiceIsPlain(pattern);
        CodeIsProgram(x, code, pattern);
        x := x.(atomic := false);
      }
    }
  }

  lemma Verdict(pattern: Choice, s: State, err: nat)
    requires ChoiceOk(pattern) && Unfilled(s, Expand(pattern))
    requires err == 0 ==> s.hwm == []
    requires err != 0 ==> exists n :: n in CallsIn(Expand(pattern)) && n != 0 && FindOffset(Expand(pattern), 0, n).None?
    requires Size(Expand(pattern)) + 1 <= 65536
    ensures err == 0 <==> CallsExist(pattern)
  {
    hide Unfilled, Expand, FindOffset, CallsIn;
    if err != 0 {
      var n :| n in CallsIn(Expand(pattern)) && n != 0 && FindOffset(Expand(pattern), 0, n).None?;
      CallsExistInTree(pattern, n);
    } else {
      RootIsPlain(pattern);
      ProgramDone(s, Expand(pattern));
      forall n | n in CalledChoice(pattern) ensures Called(pattern, n).Some? {
        CallsExistInTree(pattern, n);
      }
    }
  }

  lemma RootIsPlain(pattern: Choice)
    requires ChoiceOk(pattern)
    ensures Expand(pattern) == GroupItem(0, ExpandChoice(pattern), OP_KET)
    ensures Expand(pattern).bra == OP_BRA && Expand(pattern).ket == OP_KET
  {
  }

  // ---------- patterns that need no atomic group ----------

  lemma {:induction false} NestIsPlain(g: Item, k: nat, greed: Greed)
    requires k >= 1 && PlainItem(g)
    ensures PlainItem(Nest(g, k, greed))
    decreases k
  {
    if k > 1 {
      NestIsPlain(g, k - 1, greed);
      var body := NestBody(g, k, greed);
      assert PlainBranch(body.tail) && PlainBranch(body);
      assert PlainAlts(Last(body));
    }
  }

  lemma {:induction false} CopiesArePlain(g: Item, k: nat, tail: Branch)
    requires PlainItem(g) && PlainBranch(tail)
    ensures PlainBranch(Copies(g, k, tail))
    decreases k
  {
    if k > 0 {
      CopiesArePlain(g, k - 1, tail);
    }
  }

  lemma GroupIsPlain(num: nat, alts: Alts, min: nat, max: int, greed: Greed)
    requires (max == -1 || min <= max) && greed != Possessive && PlainAlts(alts)
    ensures PlainBranch(ExpandGroup(GroupItem(num, alts, OP_KET), min, max, greed))
  {
    var g := GroupItem(num, alts, OP_KET);
    assert PlainBranch(Nil);
    if max == -1 {
      CopiesArePlain(g, if min == 0 then 0 else min - 1, Cons(LoopItem(g, greed), Nil));
    } else if max > 0 {
      if max > min {
        NestIsPlain(g, max - min, greed);
      }
      CopiesArePlain(g, min, if max == min then Nil else Cons(Nest(g, max - min, greed), Nil));
    }
  }

  lemma SingleIsPlain(atom: Atom, min: nat, max: int, greed: Greed)
    requires max == -1 || min <= max
    ensures PlainBranch(ExpandSingle(atom, min, max, greed))
  {
    var b := ExpandSingle(atom, min, max, greed);
    if b.Cons? {
      assert PlainBranch(b.tail);
    }
  }

  lemma {:induction false} AppendIsPlain(b: Branch, c: Branch)
    requires PlainBranch(b) && PlainBranch(c)
    ensures PlainBranch(Append(b, c))
  {
    if b.Cons? {
      AppendIsPlain(b.tail, c);
    }
  }

  lemma {:induction false} NodeIsPlain(n: Node)
    requires NodeOk(n) && PlainNode(n)
    ensures PlainBranch(ExpandNode(n))
    decreases n
  {
    match n
    case Sub(_, c) => ChoiceIsPlain(c);
    case Repeat(body, min, max, greed) =>
      assert NodeOk(body) && PlainNode(body);
      if body.Single? {
        SingleIsPlain(body.atom, min, max, greed);
      } else {
        ChoiceIsPlain(body.choice);
        GroupIsPlain(body.num, ExpandChoice(body.choice), min, max, greed);
      }
    case _ =>
  }

  lemma {:induction false} SequenceIsPlain(s: Sequence)
    requires SequenceOk(s) && PlainSequence(s)
    ensures PlainBranch(ExpandSequence(s))
    decreases s
  {
    if s.Then? {
      NodeIsPlain(s.first);
      SequenceIsPlain(s.rest);
      AppendIsPlain(ExpandNode(s.first), ExpandSequence(s.rest));
    }
  }

  lemma {:induction false} ChoiceIsPlain(c: Choice)
    requires ChoiceOk(c) && PlainChoice(c)
    ensures PlainAlts(ExpandChoice(c))
    decreases c
  {
    SequenceIsPlain(c.seq0);
    if c.Or? {
      ChoiceIsPlain(c.others);
    }
  }

  lemma CodeIsProgram(x: Links, code: seq<byte>, pattern: Choice)
    requires ChoiceOk(pattern) && IsCode(x, code, Expand(pattern)) && PlainAlts(ExpandChoice(pattern))
    ensures IsProgram(x.(atomic := false), code, Expand(pattern))
  {
    PlainLaid(x, code, 0, Expand(pattern));
    hide LayItem, FindOffset;
  }
}
