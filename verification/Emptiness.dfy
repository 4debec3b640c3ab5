/** Could a branch match the empty string? Asked of finished code, to tell callers
  * whether a pattern can match nothing. The main result is that "no" is never
  * wrong, although calls are followed only once.
  */
module Emptiness {
  import opened Opcodes
  import opened Tree
  import opened Meaning
  import opened Machine
  import opened Decoding
  import opened Program
  import opened DfaStates
  import opened CodeScan

  // ---------- what it means to match something ----------

  ghost predicate NonEmptyItem(root: Item, it: Item)
    requires root.Group?
  {
    forall env: Env, p: nat, q: nat ::
      env.Ok() && p <= |env.s| && MItem(env, Facts(env, root), it, p, q) ==> q > p
  }

  ghost predicate NonEmptyBranch(root: Item, b: Branch)
    requires root.Group?
  {
    forall env: Env, p: nat, q: nat ::
      env.Ok() && p <= |env.s| && MBranch(env, Facts(env, root), b, p, q) ==> q > p
  }

  /** No match of any of the alternatives is empty. */
  ghost predicate NonEmptyAlts(root: Item, alts: Alts)
    requires root.Group?
  {
    forall env: Env, p: nat, q: nat ::
      env.Ok() && p <= |env.s| && MAlts(env, Facts(env, root), alts, p, q) ==> q > p
  }

  lemma NonEmptyCons(root: Item, b: Branch)
    requires root.Group? && b.Cons? && (NonEmptyItem(root, b.head) || NonEmptyBranch(root, b.tail))
    ensures NonEmptyBranch(root, b)
  {
    forall env: Env, p: nat, q: nat | env.Ok() && p <= |env.s| && MBranch(env, Facts(env, root), b, p, q)
      ensures q > p
    {
      var r := BranchSplit(env, Facts(env, root), b, p, q);
      FactsAreOk(env, root);
      ItemBounds(env, Facts(env, root), b.head, p, r);
      BranchBounds(env, Facts(env, root), b.tail, r, q);
    }
  }

  lemma NonEmptyMore(root: Item, alts: Alts)
    requires root.Group? && NonEmptyBranch(root, alts.b) && (alts.More? ==> NonEmptyAlts(root, alts.rest))
    ensures NonEmptyAlts(root, alts)
  {
  }

  lemma NonEmptyGroup(root: Item, g: Item)
    requires root.Group? && g.Group? && NonEmptyAlts(root, g.alts)
    ensures NonEmptyItem(root, g)
  {
    forall env: Env, p: nat, q: nat | env.Ok() && p <= |env.s| && MItem(env, Facts(env, root), g, p, q)
      ensures q > p
    {
      if g.ket == OP_KET {
        assert MAlts(env, Facts(env, root), g.alts, p, q);
      } else {
        FactsAreOk(env, root);
        var n := LoopPasses(env, Facts(env, root), g, p, q);
        var r := IterTake(env, Facts(env, root), g.alts, n, p, q);
        AltsBounds(env, Facts(env, root), g.alts, p, r);
        IterBounds(env, Facts(env, root), g.alts, n - 1, r, q);
        assert r > p;
      }
    }
  }

  lemma NonEmptyCall(root: Item, num: nat)
    requires root.Group? && Callee(root, num).Some? && NonEmptyAlts(root, Callee(root, num).value.alts)
    ensures NonEmptyItem(root, Call(num))
  {
    forall env: Env, p: nat, q: nat | env.Ok() && p <= |env.s| && MItem(env, Facts(env, root), Call(num), p, q)
      ensures q > p
    {
      CallsAreClosed(env, root, Fact(num, p, q));
    }
  }

  lemma NonEmptyOne(root: Item, it: Item)
    requires root.Group? && it.One?
    ensures NonEmptyItem(root, it)
  {
  }

  lemma NonEmptyRep(root: Item, it: Item)
    requires root.Group? && it.Rep? && RepMin(it.atom, it.k, it.lo, it.hi) > 0
    ensures NonEmptyItem(root, it)
  {
  }

  // ---------- the answer that the scan finds ----------

  /** What all scans of one pattern share: its calls, its tree, its code, and where
    * the scan ends at the latest. */
  datatype Scope = Scope(x: PlainLinks, root: Item, code: seq<byte>, endcode: nat)

  /** Can the item at offset a be passed without a character? A call from inside the
    * called group, and one that is being followed already, is passed over. */
  ghost predicate PassesItem(sc: Scope, it: Item, a: nat, recurses: RecurseCheck)
    requires sc.root.Group? && Followed(recurses) <= Below(|sc.code|)
    decreases ChecksLeft(recurses, |sc.code|), it
  {
    match it
    case Anchor(_) => true
    case One(_) => false
    case Rep(atom, k, lo, hi) => RepMin(atom, k, lo, hi) == 0
    case Group(bra, _, alts, _) => MarkedEmpty(sc.code, a) || PassesAlts(sc, alts, a + BraSize(bra), recurses)
    case Zero(_, _) => true
    case Call(num) =>
      num !in sc.x.target || Callee(sc.root, num).None? ||
      var cs, g := sc.x.target[num], Callee(sc.root, num).value;
      cs >= |sc.code| || cs <= a <= KetOffset(cs, g) || cs in Followed(recurses) ||
      (FollowOne(recurses, cs, |sc.code|);
       PassesAlts(sc, g.alts, cs + BraSize(g.bra), RecurseCheck(cs, recurses)))
  }

  ghost predicate PassesBranch(sc: Scope, b: Branch, a: nat, recurses: RecurseCheck)
    requires sc.root.Group? && Followed(recurses) <= Below(|sc.code|)
    decreases ChecksLeft(recurses, |sc.code|), b
  {
    a >= sc.endcode || b.Nil? ||
    (PassesItem(sc, b.head, a, recurses) && PassesBranch(sc, b.tail, a + Size(b.head), recurses))
  }

  ghost predicate PassesAlts(sc: Scope, alts: Alts, st: nat, recurses: RecurseCheck)
    requires sc.root.Group? && Followed(recurses) <= Below(|sc.code|)
    decreases ChecksLeft(recurses, |sc.code|), alts
  {
    PassesBranch(sc, alts.b, st, recurses) ||
    (alts.More? && PassesAlts(sc, alts.rest, st + BranchSize(alts.b) + 3, recurses))
  }

  /** The bracket carries the mark of a loop that may match nothing. */
  predicate MarkedEmpty(code: seq<byte>, a: nat) {
    a < |code| && (code[a] == OP_SBRA || code[a] == OP_SCBRA)
  }

  /** What cannot be passed without a character matches at least one. */
  lemma {:induction false} NotPassedItem(sc: Scope, it: Item, a: nat, recurses: RecurseCheck)
    requires sc.root.Group? && Followed(recurses) <= Below(|sc.code|) && !PassesItem(sc, it, a, recurses)
    ensures NonEmptyItem(sc.root, it)
    decreases ChecksLeft(recurses, |sc.code|), it
  {
    hide NonEmptyItem, NonEmptyAlts, Followed, ChecksLeft, PassesAlts, RepMin;
    match it
    case One(_) => NonEmptyOne(sc.root, it);
    case Rep(_, _, _, _) => NonEmptyRep(sc.root, it);
    case Group(bra, _, alts, _) =>
      NotPassedAlts(sc, alts, a + BraSize(bra), recurses);
      NonEmptyGroup(sc.root, it);
    case Call(num) =>
      var cs, g := sc.x.target[num], Callee(sc.root, num).value;
      FollowOne(recurses, cs, |sc.code|);
      NotPassedAlts(sc, g.alts, cs + BraSize(g.bra), RecurseCheck(cs, recurses));
      NonEmptyCall(sc.root, num);
    case _ =>
  }

  lemma {:induction false} NotPassedBranch(sc: Scope, b: Branch, a: nat, recurses: RecurseCheck)
    requires sc.root.Group? && Followed(recurses) <= Below(|sc.code|) && !PassesBranch(sc, b, a, recurses)
    ensures NonEmptyBranch(sc.root, b)
    decreases ChecksLeft(recurses, |sc.code|), b
  {
    hide NonEmptyItem, NonEmptyBranch, Followed, ChecksLeft, PassesItem;
    if !PassesItem(sc, b.head, a, recurses) {
      NotPassedItem(sc, b.head, a, recurses);
    } else {
      NotPassedBranch(sc, b.tail, a + Size(b.head), recurses);
    }
    NonEmptyCons(sc.root, b);
  }

  lemma {:induction false} NotPassedAlts(sc: Scope, alts: Alts, st: nat, recurses: RecurseCheck)
    requires sc.root.Group? && Followed(recurses) <= Below(|sc.code|) && !PassesAlts(sc, alts, st, recurses)
    ensures NonEmptyAlts(sc.root, alts)
    decreases ChecksLeft(recurses, |sc.code|), alts
  {
    hide NonEmptyBranch, NonEmptyAlts, Followed, ChecksLeft, PassesBranch, BranchSize;
    NotPassedBranch(sc, alts.b, st, recurses);
    if alts.More? {
      NotPassedAlts(sc, alts.rest, st + BranchSize(alts.b) + 3, recurses);
    }
    NonEmptyMore(sc.root, alts);
  }

  // ---------- when the answer is exact ----------

  /** Only loops that can be passed carry the mark, and every call is followed: it stands
    * outside the called group, and that group is not being followed already. */
  ghost predicate TameItem(sc: Scope, it: Item, a: nat, recurses: RecurseCheck)
    requires sc.root.Group? && Followed(recurses) <= Below(|sc.code|)
    decreases ChecksLeft(recurses, |sc.code|), it
  {
    match it
    case Group(bra, _, alts, _) =>
      && (MarkedEmpty(sc.code, a) ==> PassesAlts(sc, alts, a + BraSize(bra), recurses))
      && TameAlts(sc, alts, a + BraSize(bra), recurses)
    case Zero(_, g) => TameItem(sc, g, a + 1, recurses)
    case Call(num) =>
      num in sc.x.target && Callee(sc.root, num).Some? &&
      var cs, g := sc.x.target[num], Callee(sc.root, num).value;
      cs < |sc.code| && !(cs <= a <= KetOffset(cs, g)) && cs !in Followed(recurses) &&
      cs + BraSize(g.bra) + AltsSize(g.alts) <= sc.endcode &&
      (FollowOne(recurses, cs, |sc.code|);
       TameAlts(sc, g.alts, cs + BraSize(g.bra), RecurseCheck(cs, recurses)))
    case Anchor(op) => IsAnchor(op)
    case _ => true
  }

  ghost predicate TameBranch(sc: Scope, b: Branch, a: nat, recurses: RecurseCheck)
    requires sc.root.Group? && Followed(recurses) <= Below(|sc.code|)
    decreases ChecksLeft(recurses, |sc.code|), b
  {
    b.Cons? ==> TameItem(sc, b.head, a, recurses) && TameBranch(sc, b.tail, a + Size(b.head), recurses)
  }

  ghost predicate TameAlts(sc: Scope, alts: Alts, st: nat, recurses: RecurseCheck)
    requires sc.root.Group? && Followed(recurses) <= Below(|sc.code|)
    decreases ChecksLeft(recurses, |sc.code|), alts
  {
    && TameBranch(sc, alts.b, st, recurses)
    && (alts.More? ==> TameAlts(sc, alts.rest, st + BranchSize(alts.b) + 3, recurses))
  }

  /** The empty subject, whose start is also its end, when matching nothing is allowed. */
  ghost predicate Nothing(env: Env) {
    env.s == [] && !env.notbol && !env.noteol && env.Allowed(0, 0)
  }

  lemma {:induction false} PassedItem(sc: Scope, it: Item, a: nat, recurses: RecurseCheck, env: Env)
    requires sc.root.Group? && Followed(recurses) <= Below(|sc.code|) && TameItem(sc, it, a, recurses)
    requires PassesItem(sc, it, a, recurses) && Nothing(env) && a + Size(it) <= sc.endcode
    ensures MItem(env, Facts(env, sc.root), it, 0, 0)
    decreases ChecksLeft(recurses, |sc.code|), it
  {
    hide MAlts, MBranch, PassesAlts, TameAlts, AltsSize, Facts, Followed, ChecksLeft, FindGroup;
    var facts := Facts(env, sc.root);
    match it
    case Group(bra, _, alts, ket) =>
      PassedAlts(sc, alts, a + BraSize(bra), recurses, env);
      if ket != OP_KET {
        assert MIter(env, facts, alts, 0, 0, 0);
        assert MIter(env, facts, alts, 1, 0, 0);
      }
    case Call(num) =>
      var cs, g := sc.x.target[num], Callee(sc.root, num).value;
      FollowOne(recurses, cs, |sc.code|);
      PassedAlts(sc, g.alts, cs + BraSize(g.bra), RecurseCheck(cs, recurses), env);
      CallsAreClosed(env, sc.root, Fact(num, 0, 0));
    case _ =>
  }

  lemma {:induction false} PassedBranch(sc: Scope, b: Branch, a: nat, recurses: RecurseCheck, env: Env)
    requires sc.root.Group? && Followed(recurses) <= Below(|sc.code|) && TameBranch(sc, b, a, recurses)
    requires PassesBranch(sc, b, a, recurses) && Nothing(env) && a + BranchSize(b) <= sc.endcode
    ensures MBranch(env, Facts(env, sc.root), b, 0, 0)
    decreases ChecksLeft(recurses, |sc.code|), b
  {
    hide MItem, PassesItem, TameItem, Size, Facts, Followed, ChecksLeft;
    if b.Cons? {
      SizeIsPositive(b.head);
      PassedItem(sc, b.head, a, recurses, env);
      PassedBranch(sc, b.tail, a + Size(b.head), recurses, env);
    }
  }

  lemma SizeIsPositive(it: Item)
    ensures Size(it) > 0
  {
  }

  /** What can be passed without a character matches the empty subject. */
  lemma {:induction false} PassedAlts(sc: Scope, alts: Alts, st: nat, recurses: RecurseCheck, env: Env)
    requires sc.root.Group? && Followed(recurses) <= Below(|sc.code|) && TameAlts(sc, alts, st, recurses)
    requires PassesAlts(sc, alts, st, recurses) && Nothing(env) && st + AltsSize(alts) <= sc.endcode
    ensures MAlts(env, Facts(env, sc.root), alts, 0, 0)
    decreases ChecksLeft(recurses, |sc.code|), alts
  {
    hide MBranch, PassesBranch, TameBranch, BranchSize, Facts, Followed, ChecksLeft;
    if PassesBranch(sc, alts.b, st, recurses) {
      PassedBranch(sc, alts.b, st, recurses, env);
    } else {
      PassedAlts(sc, alts.rest, st + BranchSize(alts.b) + 3, recurses, env);
    }
  }

  // ---------- the scan ----------

  /** Does the repeat opcode at offset k of its run demand a character? */
  predicate DemandsOne(k: nat) {
    k == K_PLUS || k == K_MINPLUS || k == K_POSPLUS || k == K_EXACT
  }

  predicate ClassDemandsOne(k: nat) {
    k == K_PLUS || k == K_MINPLUS || k == K_CRPOSPLUS
  }

  /** Must the item at cc match something? If not, where does the scan go on? A
    * class with a repeat is passed in two steps. */
  method ItemDemands(code: seq<byte>, cc: nat, endcode: nat, recurses: RecurseCheck, ghost x: PlainLinks,
                     ghost root: Item, ghost it: Item)
    returns (demands: bool, next: nat)
    requires root.Group? && IsProgram(x, code, root) && LayItem(x, code, cc, it) && Plain(code, cc + Size(it))
    requires Followed(recurses) <= Below(|code|) && cc + Size(it) + 3 <= |code| && cc > 0
    ensures demands <==> !PassesItem(Scope(x, root, code, endcode), it, cc, recurses)
    ensures !demands ==> next == cc + Size(it) || (next == cc + 1 + BITMAP_SIZE && it.Rep? && it.atom.Cls?)
    decreases ChecksLeft(recurses, |code|), it, 1
  {
    hide IsProgram, LayAlts, ChainOk, EndOf, PassesAlts, Callee;
    var op := code[cc];
    demands, next := false, cc + OpLength(op);
    ItemKinds(x, code, cc, it);
    if op == OP_RECURSE {
      demands := CallDemands(code, cc, endcode, recurses, x, root, it);
    } else if IsZero(op) {
      ZeroAt(x, code, cc, it);
      var end := SkipBranches(code, cc + 1);
      next := end + 3;
    } else if op == OP_SBRA || op == OP_SCBRA {
      BraAt(x, code, cc, it);
      var end := SkipBranches(code, cc);
      next := end + 3;
    } else if op == OP_BRA || op == OP_CBRA {
      GroupAt(x, code, cc, it);
      LinkIsSet(code, cc);
      if Get(code, cc + 1) == 0 {
        return;
      }
      var empty, end := AnyBranchEmpty(code, cc, endcode, recurses, x, root, it.alts, cc, it.ket);
      demands, next := !empty, end + 3;
    } else if IsClass(op) {
      ClassAt(x, code, cc, it);
      var e := cc + OpLength(OP_CLASS);
      if !IsClassRepeat(code[e]) {
        demands := true;
      } else {
        var k := code[e] - OP_CRSTAR;
        demands := ClassDemandsOne(k) || (HasRange(k) && Get(code, e + 1) > 0);
      }
    } else if IsSingleChar(op) || IsType(op) {
      demands := true;
    } else if IsRepeat(op) {
      RepAt(x, code, cc, it);
      demands := DemandsOne((op - OP_STAR) % 13);
    }
  }

  /** The link of a finished bracket leads forward. */
  lemma LinkIsSet(code: seq<byte>, h: nat)
    requires ChainOk(code, h)
    ensures h + 3 <= |code| && Get(code, h + 1) > 0
  {
  }

  lemma ZeroAt(x: PlainLinks, code: seq<byte>, a: nat, it: Item)
    requires LayItem(x, code, a, it) && IsZero(code[a])
    ensures it.Zero? && ChainOk(code, a + 1) && EndOf(code, a + 1) + 3 == a + Size(it)
  {
    LayZero(x, code, a, it);
    GroupLinks(x, code, a + 1, it.group);
  }

  lemma CalledBra(x: PlainLinks, code: seq<byte>, root: Item, num: nat, g: Item)
    requires root.Group? && IsProgram(x, code, root) && num in x.target && Callee(root, num) == Some(g) && g.Group?
    ensures var cs := x.target[num];
            && cs < |code|
            && OpLength(code[cs]) == BraSize(g.bra)
            && ChainOk(code, cs)
            && EndOf(code, cs) == KetOffset(cs, g)
  {
    hide IsProgram, LayItem, LayAlts, OpLength, ChainOk, EndOf;
    CalleeIsLaid(x, code, root, num);
    GroupLinks(x, code, x.target[num], g);
    LayGroup(x, code, x.target[num], g);
    BraLength(code[x.target[num]]);
  }

  /** Whether a call is followed, and what it then says. */
  lemma CallFollowed(sc: Scope, num: nat, a: nat, recurses: RecurseCheck, g: Item)
    requires sc.root.Group? && Followed(recurses) <= Below(|sc.code|) && num in sc.x.target
    requires Callee(sc.root, num) == Some(g) && g.Group?
    requires sc.x.target[num] < |sc.code|
    ensures var cs := sc.x.target[num];
            && (cs <= a <= KetOffset(cs, g) || cs in Followed(recurses) ==> PassesItem(sc, Call(num), a, recurses))
            && (!(cs <= a <= KetOffset(cs, g)) && cs !in Followed(recurses) ==>
                  && Followed(RecurseCheck(cs, recurses)) <= Below(|sc.code|)
                  && (PassesItem(sc, Call(num), a, recurses)
                      <==> PassesAlts(sc, g.alts, cs + BraSize(g.bra), RecurseCheck(cs, recurses))))
  {
    hide PassesAlts, ChecksLeft;
    var cs := sc.x.target[num];
    if cs !in Followed(recurses) {
      FollowOne(recurses, cs, |sc.code|);
    }
  }

  /** Must a call match something? */
  method CallDemands(code: seq<byte>, cc: nat, endcode: nat, recurses: RecurseCheck, ghost x: PlainLinks,
                     ghost root: Item, ghost it: Item)
    returns (demands: bool)
    requires root.Group? && IsProgram(x, code, root) && LayItem(x, code, cc, it) && it.Call?
    requires Followed(recurses) <= Below(|code|)
    ensures demands <==> !PassesItem(Scope(x, root, code, endcode), it, cc, recurses)
    decreases ChecksLeft(recurses, |code|), it, 0
  {
    hide IsProgram, LayAlts, LayItem, PassesItem, PassesAlts, ChainOk, EndOf, Get, FindGroup, Followed, ChecksLeft,
      Below, OpLength;
    CallOperand(x, code, root, cc, it);
    var scode := Get(code, cc + 1);
    ghost var g := CalledGroup(x, code, root, it.num);
    CalledBra(x, code, root, it.num, g);
    CallFollowed(Scope(x, root, code, endcode), it.num, cc, recurses, g);
    var endgroup := SkipBranches(code, scode);
    if cc >= scode && cc <= endgroup {
      return false;
    }
    var found := OnChain(recurses, scode);
    if found {
      return false;
    }
    FollowOne(recurses, scode, |code|);
    var empty, _ := AnyBranchEmpty(code, scode, endcode, RecurseCheck(scode, recurses), x, root, g.alts, scode, g.ket);
    demands := !empty;
  }

  /** Could one of the alternatives from the header h on be empty? Also returns the
    * offset of the ket. */
  method AnyBranchEmpty(code: seq<byte>, h: nat, endcode: nat, recurses: RecurseCheck,
                        ghost x: PlainLinks, ghost root: Item, ghost alts: Alts, ghost bra: nat, ghost ket: byte)
    returns (empty: bool, end: nat)
    requires root.Group? && IsProgram(x, code, root) && IsKet(ket)
    requires h < |code| && LayAlts(x, code, h, h + OpLength(code[h]), alts, bra, ket)
    requires Followed(recurses) <= Below(|code|)
    ensures empty <==> PassesAlts(Scope(x, root, code, endcode), alts, h + OpLength(code[h]), recurses)
    ensures ChainOk(code, h) && end == EndOf(code, h)
    decreases ChecksLeft(recurses, |code|), alts, 2
  {
    hide IsProgram, LayAlts, LayBranch, Headed, ChainOk, EndOf, ChecksLeft, Followed, OpLength, BranchSize,
      PassesBranch, PassesAlts, Below;
    ghost var sc := Scope(x, root, code, endcode);
    empty, end := false, h;
    ghost var cur := alts;
    FirstHeader(x, code, h, alts, bra, ket);
    while true
      invariant cur == alts || cur < alts
      invariant Headed(x, code, h, end, cur, bra, ket) && end < |code|
      invariant PassesAlts(sc, alts, h + OpLength(code[h]), recurses)
             <==> empty || PassesAlts(sc, cur, end + OpLength(code[end]), recurses)
      decreases cur
    {
      AtHeader(x, code, h, end, cur, bra, ket);
      HeaderStep(sc, h, end, cur, bra, ket, recurses);
      if !empty {
        empty := CouldBeEmptyBranch(code, end, endcode, recurses, x, root, cur.b);
      }
      NextHeader(x, code, h, end, cur, bra, ket);
      end := end + Get(code, end + 1);
      if code[end] != OP_ALT {
        break;
      }
      cur := cur.rest;
    }
  }

  /** The answer for the alternatives, one at a time. */
  lemma HeaderStep(sc: Scope, h: nat, end: nat, cur: Alts, bra: nat, ket: byte, recurses: RecurseCheck)
    requires sc.root.Group? && Followed(recurses) <= Below(|sc.code|)
    requires Headed(sc.x, sc.code, h, end, cur, bra, ket) && end + 3 <= |sc.code|
    ensures var st := end + OpLength(sc.code[end]);
            PassesAlts(sc, cur, st, recurses) <==>
              PassesBranch(sc, cur.b, st, recurses)
              || (cur.More? && var n := end + Get(sc.code, end + 1);
                               n < |sc.code| && PassesAlts(sc, cur.rest, n + OpLength(sc.code[n]), recurses))
    ensures cur.More? ==> var n := end + Get(sc.code, end + 1); n < |sc.code| && sc.code[n] == OP_ALT
    ensures cur.Last? ==> var n := end + Get(sc.code, end + 1); n < |sc.code| && sc.code[n] != OP_ALT
  {
    hide LayBranch, LayAlts, ChainOk, EndOf, PassesBranch, Followed, ChecksLeft;
    LayFirst(sc.x, sc.code, end, end + OpLength(sc.code[end]), cur, bra, ket);
  }

  /** Where the scan stands in a branch that ends at e: at the start of what is left
    * of it, or in the middle of a repeated class. */
  ghost predicate Standing(x: PlainLinks, code: seq<byte>, cc: nat, rest: Branch, mid: bool, e: nat) {
    && e + 3 <= |code| && (code[e] == OP_ALT || IsKet(code[e])) && 0 < cc <= e
    && if mid then
         && rest.Cons? && rest.head.Rep? && rest.head.atom.Cls? && cc >= 1 + BITMAP_SIZE
         && LayBranch(x, code, cc - 1 - BITMAP_SIZE, rest) && cc - 1 - BITMAP_SIZE + BranchSize(rest) == e
       else LayBranch(x, code, cc, rest) && cc + BranchSize(rest) == e
  }

  lemma HereAt(x: PlainLinks, code: seq<byte>, cc: nat, rest: Branch, e: nat)
    requires Standing(x, code, cc, rest, false, e) && code[cc] != OP_ALT && !IsKet(code[cc])
    ensures rest.Cons? && LayItem(x, code, cc, rest.head) && Plain(code, cc + Size(rest.head))
    ensures cc + Size(rest.head) + 3 <= |code|
    ensures Standing(x, code, cc + Size(rest.head), rest.tail, false, e)
    ensures rest.head.Rep? && rest.head.atom.Cls? ==> Standing(x, code, cc + 1 + BITMAP_SIZE, rest, true, e)
  {
    hide LayItem, LayBranch, Size, BranchSize;
    if rest.Nil? {
      NilSize();
    } else {
      OpenBranch(x, code, cc, rest.head, rest.tail);
      BranchByte(x, code, cc + Size(rest.head), rest.tail);
      ClassSize(rest.head);
    }
  }

  lemma ClassSize(it: Item)
    ensures it.Rep? && it.atom.Cls? ==> Size(it) > 1 + BITMAP_SIZE
    ensures Size(it) > 0
  {
  }

  lemma MidAt(x: PlainLinks, code: seq<byte>, cc: nat, rest: Branch, e: nat)
    requires Standing(x, code, cc, rest, true, e)
    ensures rest.Cons? && IsClassRepeat(code[cc]) && Standing(x, code, cc + OpLength(code[cc]), rest.tail, false, e)
  {
    OpenBranch(x, code, cc - 1 - BITMAP_SIZE, rest.head, rest.tail);
    hide LayBranch, BranchSize;
  }

  /** Only in the middle of a repeated class does the scan meet a class repeat. */
  lemma MidByte(x: PlainLinks, code: seq<byte>, cc: nat, rest: Branch, mid: bool, e: nat)
    requires Standing(x, code, cc, rest, mid, e)
    ensures mid <==> IsClassRepeat(code[cc])
  {
    if mid {
      OpenBranch(x, code, cc - 1 - BITMAP_SIZE, rest.head, rest.tail);
    } else {
      BranchByte(x, code, cc, rest);
    }
    hide LayBranch, BranchSize;
  }

  /** The scan of branch b from st: what is left decides. */
  ghost predicate Ahead(sc: Scope, recurses: RecurseCheck, b: Branch, st: nat, cc: nat, rest: Branch, mid: bool, e: nat)
    requires sc.root.Group? && Followed(recurses) <= Below(|sc.code|)
  {
    && (rest == b || rest < b)
    && Standing(sc.x, sc.code, cc, rest, mid, e)
    && (PassesBranch(sc, b, st, recurses) <==>
          if mid then PassesBranch(sc, rest.tail, cc - 1 - BITMAP_SIZE + Size(rest.head), recurses)
          else PassesBranch(sc, rest, cc, recurses))
  }

  lemma AfterMid(sc: Scope, recurses: RecurseCheck, b: Branch, st: nat, cc: nat, rest: Branch, mid: bool, e: nat)
    requires sc.root.Group? && Followed(recurses) <= Below(|sc.code|)
    requires Ahead(sc, recurses, b, st, cc, rest, mid, e) && cc < |sc.code| && IsClassRepeat(sc.code[cc])
    ensures rest.Cons? && Ahead(sc, recurses, b, st, cc + OpLength(sc.code[cc]), rest.tail, false, e)
    ensures OpLength(sc.code[cc]) > 0
  {
    hide Standing, PassesBranch, Followed, ChecksLeft;
    MidByte(sc.x, sc.code, cc, rest, mid, e);
    MidAt(sc.x, sc.code, cc, rest, e);
    MidSize(sc.x, sc.code, cc, rest, e);
  }

  lemma MidSize(x: PlainLinks, code: seq<byte>, cc: nat, rest: Branch, e: nat)
    requires Standing(x, code, cc, rest, true, e)
    ensures cc + OpLength(code[cc]) == cc - 1 - BITMAP_SIZE + Size(rest.head)
  {
    OpenBranch(x, code, cc - 1 - BITMAP_SIZE, rest.head, rest.tail);
    hide LayBranch, BranchSize;
  }

  lemma BeforeItem(sc: Scope, recurses: RecurseCheck, b: Branch, st: nat, cc: nat, rest: Branch, mid: bool, e: nat)
    requires sc.root.Group? && Followed(recurses) <= Below(|sc.code|)
    requires Ahead(sc, recurses, b, st, cc, rest, mid, e) && cc < |sc.code|
    requires !IsClassRepeat(sc.code[cc]) && sc.code[cc] != OP_ALT && !IsKet(sc.code[cc])
    ensures rest.Cons? && rest.head < b && LayItem(sc.x, sc.code, cc, rest.head) && Plain(sc.code, cc + Size(rest.head))
    ensures cc + Size(rest.head) + 3 <= |sc.code| && cc > 0
  {
    hide Standing, PassesBranch, LayItem, Followed, ChecksLeft;
    MidByte(sc.x, sc.code, cc, rest, mid, e);
    StandsInside(sc.x, sc.code, cc, rest, mid, e);
    HereAt(sc.x, sc.code, cc, rest, e);
  }

  lemma PassesCons(sc: Scope, recurses: RecurseCheck, b: Branch, a: nat)
    requires sc.root.Group? && Followed(recurses) <= Below(|sc.code|) && b.Cons? && a < sc.endcode
    ensures PassesBranch(sc, b, a, recurses)
       <==> PassesItem(sc, b.head, a, recurses) && PassesBranch(sc, b.tail, a + Size(b.head), recurses)
  {
  }

  lemma AfterItem(sc: Scope, recurses: RecurseCheck, b: Branch, st: nat, cc: nat, rest: Branch, mid: bool, e: nat,
                  demands: bool, next: nat)
    requires sc.root.Group? && Followed(recurses) <= Below(|sc.code|) && cc < sc.endcode
    requires Ahead(sc, recurses, b, st, cc, rest, mid, e) && cc < |sc.code|
    requires !IsClassRepeat(sc.code[cc]) && sc.code[cc] != OP_ALT && !IsKet(sc.code[cc]) && rest.Cons?
    requires demands <==> !PassesItem(sc, rest.head, cc, recurses)
    requires !demands ==>
              next == cc + Size(rest.head) || (next == cc + 1 + BITMAP_SIZE && rest.head.Rep? && rest.head.atom.Cls?)
    ensures demands ==> !PassesBranch(sc, b, st, recurses)
    ensures !demands ==>
              && next > cc
              && if next == cc + Size(rest.head) then Ahead(sc, recurses, b, st, next, rest.tail, false, e)
                 else Ahead(sc, recurses, b, st, next, rest, true, e)
  {
    hide Standing, PassesBranch, PassesItem, LayItem, Size, Followed, ChecksLeft;
    MidByte(sc.x, sc.code, cc, rest, mid, e);
    HereAt(sc.x, sc.code, cc, rest, e);
    PassesCons(sc, recurses, rest, cc);
    ClassSize(rest.head);
  }

  /** At the end of the branch, or of the scan, nothing stands in the way. */
  lemma NothingLeft(sc: Scope, recurses: RecurseCheck, b: Branch, st: nat, cc: nat, rest: Branch, mid: bool, e: nat)
    requires sc.root.Group? && Followed(recurses) <= Below(|sc.code|) && Ahead(sc, recurses, b, st, cc, rest, mid, e)
    requires cc >= sc.endcode || (cc < |sc.code| && (sc.code[cc] == OP_ALT || IsKet(sc.code[cc])))
    ensures PassesBranch(sc, b, st, recurses)
  {
    hide Followed, ChecksLeft, LayItem, PassesItem;
    if mid {
      MidAt(sc.x, sc.code, cc, rest, e);
      MidSize(sc.x, sc.code, cc, rest, e);
    } else if rest.Cons? {
      OpenBranch(sc.x, sc.code, cc, rest.head, rest.tail);
      ItemByte(sc.x, sc.code, cc, rest.head);
    }
  }

  /** Could the branch behind the header at h be empty? The scan goes on up to
    * endcode at the most. */
  method CouldBeEmptyBranch(code: seq<byte>, h: nat, endcode: nat, recurses: RecurseCheck,
                            ghost x: PlainLinks, ghost root: Item, ghost b: Branch)
    returns (empty: bool)
    requires root.Group? && IsProgram(x, code, root)
    requires h < |code| && OpLength(code[h]) > 0 && LayBranch(x, code, h + OpLength(code[h]), b)
    requires var e := h + OpLength(code[h]) + BranchSize(b);
             e + 3 <= |code| && (code[e] == OP_ALT || IsKet(code[e]))
    requires Followed(recurses) <= Below(|code|)
    ensures empty <==> PassesBranch(Scope(x, root, code, endcode), b, h + OpLength(code[h]), recurses)
    decreases ChecksLeft(recurses, |code|), b, 1
  {
    hide IsProgram, LayItem, LayBranch, Ahead, PassesItem, PassesBranch, ChecksLeft, Followed, Size, BranchSize,
      OpLength, Below;
    ghost var sc := Scope(x, root, code, endcode);
    var cc := h + OpLength(code[h]);
    ghost var st, rest, mid, e := cc, b, false, cc + BranchSize(b);
    StartsAhead(sc, recurses, b, cc, e);
    while cc < endcode
      invariant Ahead(sc, recurses, b, st, cc, rest, mid, e)
      decreases e - cc
    {
      StillInside(sc, recurses, b, st, cc, rest, mid, e);
      var op := code[cc];
      if op == OP_ALT || IsKet(op) {
        NothingLeft(sc, recurses, b, st, cc, rest, mid, e);
        return true;
      }
      if IsClassRepeat(op) {
        AfterMid(sc, recurses, b, st, cc, rest, mid, e);
        cc, rest, mid := cc + OpLength(op), rest.tail, false;
      } else {
        BeforeItem(sc, recurses, b, st, cc, rest, mid, e);
        var demands, next := ItemDemands(code, cc, endcode, recurses, x, root, rest.head);
        AfterItem(sc, recurses, b, st, cc, rest, mid, e, demands, next);
        if demands {
          return false;
        }
        mid := next != cc + Size(rest.head);
        rest := if mid then rest else rest.tail;
        cc := next;
      }
    }
    NothingLeft(sc, recurses, b, st, cc, rest, mid, e);
    return true;
  }

  lemma StartsAhead(sc: Scope, recurses: RecurseCheck, b: Branch, cc: nat, e: nat)
    requires sc.root.Group? && Followed(recurses) <= Below(|sc.code|)
    requires LayBranch(sc.x, sc.code, cc, b) && e == cc + BranchSize(b) && cc > 0
    requires e + 3 <= |sc.code| && (sc.code[e] == OP_ALT || IsKet(sc.code[e]))
    ensures Ahead(sc, recurses, b, cc, cc, b, false, e)
  {
    hide PassesBranch, Followed;
  }

  lemma StillInside(sc: Scope, recurses: RecurseCheck, b: Branch, st: nat, cc: nat, rest: Branch, mid: bool, e: nat)
    requires sc.root.Group? && Followed(recurses) <= Below(|sc.code|) && Ahead(sc, recurses, b, st, cc, rest, mid, e)
    ensures cc <= e < |sc.code|
  {
    hide PassesBranch, Followed;
  }

  lemma StandsInside(x: PlainLinks, code: seq<byte>, cc: nat, rest: Branch, mid: bool, e: nat)
    requires Standing(x, code, cc, rest, mid, e)
    ensures 0 < cc <= e
  {
  }

  // ---------- the whole pattern ----------

  /** Can the pattern match the empty string? "No" is always right, and if every call is
    * followed "yes" is right as well: it matches the empty subject. */
  method MatchesEmpty(code: seq<byte>, ghost x: PlainLinks, ghost root: Item) returns (empty: bool)
    requires root.Group? && IsProgram(x, code, root)
    ensures empty <==> PassesAlts(Scope(x, root, code, |code|), root.alts, BraSize(root.bra), NoCheck)
    ensures !empty ==> forall env: Env, p: nat, q: nat :: env.Ok() && p <= |env.s| && Matches(env, root, p, q) ==> q > p
    ensures empty && TameAlts(Scope(x, root, code, |code|), root.alts, BraSize(root.bra), NoCheck) ==>
              forall env: Env :: Nothing(env) ==> Matches(env, root, 0, 0)
  {
    hide PassesAlts, TameAlts, NonEmptyAlts;
    ghost var sc := Scope(x, root, code, |code|);
    LayGroup(x, code, 0, root);
    assert code[0] == OP_BRA;
    var e, end := AnyBranchEmpty(code, 0, |code|, NoCheck, x, root, root.alts, 0, root.ket);
    empty := e;
    if !empty {
      NotPassedAlts(sc, root.alts, BraSize(root.bra), NoCheck);
      NonEmptyMatches(root);
    } else if TameAlts(sc, root.alts, BraSize(root.bra), NoCheck) {
      EmptyMatches(sc);
    }
  }

  lemma NonEmptyMatches(root: Item)
    requires root.Group? && NonEmptyAlts(root, root.alts)
    ensures forall env: Env, p: nat, q: nat :: env.Ok() && p <= |env.s| && Matches(env, root, p, q) ==> q > p
  {
  }

  lemma EmptyMatches(sc: Scope)
    requires sc.root.Group? && TameAlts(sc, sc.root.alts, BraSize(sc.root.bra), NoCheck)
    requires PassesAlts(sc, sc.root.alts, BraSize(sc.root.bra), NoCheck)
    requires BraSize(sc.root.bra) + AltsSize(sc.root.alts) <= sc.endcode
    ensures forall env: Env :: Nothing(env) ==> Matches(env, sc.root, 0, 0)
  {
    hide PassesAlts, TameAlts, MAlts;
    forall env: Env | Nothing(env) ensures Matches(env, sc.root, 0, 0) {
      PassedAlts(sc, sc.root.alts, BraSize(sc.root.bra), NoCheck, env);
    }
  }
}
