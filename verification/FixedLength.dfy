/** The fixed length of a group, as lookbehinds need it, on finished code. The main
  * result is that a length is only reported when everything the group can match
  * has that length, through nested groups and subroutine calls.
  */
module FixedLength {
  import opened Opcodes
  import opened Tree
  import opened Meaning
  import opened Machine
  import opened Decoding
  import opened Program
  import opened DfaStates
  import opened CodeScan
  import opened References
  import opened Widths

  // ---------- what a fixed length means ----------

  ghost predicate FixedItem(root: Item, it: Item, d: nat)
    requires root.Group?
  {
    forall env: Env, p: nat, q: nat ::
      env.Ok() && p <= |env.s| && MItem(env, Facts(env, root), it, p, q) ==> q == p + d
  }

  ghost predicate FixedBranch(root: Item, b: Branch, d: nat)
    requires root.Group?
  {
    forall env: Env, p: nat, q: nat ::
      env.Ok() && p <= |env.s| && MBranch(env, Facts(env, root), b, p, q) ==> q == p + d
  }

  /** Every match of one of the alternatives has length d. */
  ghost predicate FixedAlts(root: Item, alts: Alts, d: nat)
    requires root.Group?
  {
    forall env: Env, p: nat, q: nat ::
      env.Ok() && p <= |env.s| && MAlts(env, Facts(env, root), alts, p, q) ==> q == p + d
  }

  lemma FixedCons(root: Item, b: Branch, d: nat, e: nat)
    requires root.Group? && b.Cons? && FixedItem(root, b.head, d) && FixedBranch(root, b.tail, e)
    ensures FixedBranch(root, b, d + e)
  {
    forall env: Env, p: nat, q: nat | env.Ok() && p <= |env.s| && MBranch(env, Facts(env, root), b, p, q)
      ensures q == p + (d + e)
    {
      var r := BranchSplit(env, Facts(env, root), b, p, q);
      FactsAreOk(env, root);
      ItemBounds(env, Facts(env, root), b.head, p, r);
    }
  }

  lemma FixedMore(root: Item, alts: Alts, d: nat)
    requires root.Group? && FixedBranch(root, alts.b, d) && (alts.More? ==> FixedAlts(root, alts.rest, d))
    ensures FixedAlts(root, alts, d)
  {
  }

  lemma FixedGroup(root: Item, g: Item, d: nat)
    requires root.Group? && g.Group? && g.ket == OP_KET && FixedAlts(root, g.alts, d)
    ensures FixedItem(root, g, d)
  {
  }

  /** A call matches what one pass through the called group matches. */
  lemma FixedCall(root: Item, num: nat, d: nat)
    requires root.Group? && Callee(root, num).Some? && FixedAlts(root, Callee(root, num).value.alts, d)
    ensures FixedItem(root, Call(num), d)
  {
    forall env: Env, p: nat, q: nat | env.Ok() && p <= |env.s| && MItem(env, Facts(env, root), Call(num), p, q)
      ensures q == p + d
    {
      CallsAreClosed(env, root, Fact(num, p, q));
    }
  }

  lemma FixedSimple(root: Item, it: Item)
    requires root.Group?
    ensures it.Anchor? ==> FixedItem(root, it, 0)
    ensures it.One? ==> FixedItem(root, it, 1)
  {
  }

  lemma FixedRep(root: Item, atom: Atom, k: nat, lo: nat, hi: nat)
    requires root.Group? && RepOk(atom, k, lo, hi)
    ensures !atom.Cls? && k == K_EXACT ==> FixedItem(root, Rep(atom, k, lo, hi), hi)
    ensures atom.Cls? && HasRange(k) && lo == hi ==> FixedItem(root, Rep(atom, k, lo, hi), lo)
  {
  }

  // ---------- the length that the scan finds ----------

  /** The fixed length of a repeat with these counts. */
  function RepLength(atom: Atom, k: nat, lo: nat, hi: nat): Option<nat> {
    if !atom.Cls? then (if k == K_EXACT then Some(hi) else None)
    else if HasRange(k) && lo == hi then Some(lo) else None
  }

  function Sum(a: Option<nat>, b: Option<nat>): Option<nat> {
    if a.Some? && b.Some? then Some(a.value + b.value) else None
  }

  function Agree(a: Option<nat>, b: Option<nat>): Option<nat> {
    if a == b then a else None
  }

  /** The length of the item at offset a. A call is followed unless it stands inside
    * the called group or the group is being followed already. */
  ghost function LengthOf(sc: Scope, it: Item, a: nat, recurses: RecurseCheck): Option<nat>
    requires sc.root.Group? && Followed(recurses) <= Below(sc.size)
    decreases ChecksLeft(recurses, sc.size), it
  {
    match it
    case Anchor(_) => Some(0)
    case One(_) => Some(1)
    case Rep(atom, k, lo, hi) => RepLength(atom, k, lo, hi)
    case Group(bra, _, alts, ket) => if ket == OP_KET then LengthOfAlts(sc, alts, a + BraSize(bra), recurses) else None
    case Zero(_, _) => None
    case Call(num) =>
      if !sc.atend || num !in sc.x.target || Callee(sc.root, num).None? then None
      else
        var cs, g := sc.x.target[num], Callee(sc.root, num).value;
        if cs >= sc.size || cs < a < KetOffset(cs, g) || cs in Followed(recurses) || g.ket != OP_KET then None
        else
          FollowOne(recurses, cs, sc.size);
          LengthOfAlts(sc, g.alts, cs + BraSize(g.bra), RecurseCheck(cs, recurses))
  }

  ghost function LengthOfBranch(sc: Scope, b: Branch, a: nat, recurses: RecurseCheck): Option<nat>
    requires sc.root.Group? && Followed(recurses) <= Below(sc.size)
    decreases ChecksLeft(recurses, sc.size), b
  {
    match b
    case Nil => Some(0)
    case Cons(it, rest) => Sum(LengthOf(sc, it, a, recurses), LengthOfBranch(sc, rest, a + Size(it), recurses))
  }

  ghost function LengthOfAlts(sc: Scope, alts: Alts, st: nat, recurses: RecurseCheck): Option<nat>
    requires sc.root.Group? && Followed(recurses) <= Below(sc.size)
    decreases ChecksLeft(recurses, sc.size), alts
  {
    match alts
    case Last(b) => LengthOfBranch(sc, b, st, recurses)
    case More(b, rest) =>
      Agree(LengthOfBranch(sc, b, st, recurses), LengthOfAlts(sc, rest, st + BranchSize(b) + 3, recurses))
  }

  ghost predicate RepsOkItem(it: Item)
    decreases it
  {
    match it
    case Rep(atom, k, lo, hi) => RepOk(atom, k, lo, hi)
    case Group(_, _, alts, _) => RepsOkAlts(alts)
    case Zero(_, g) => RepsOkItem(g)
    case _ => true
  }

  ghost predicate RepsOkBranch(b: Branch)
    decreases b
  {
    b.Cons? ==> RepsOkItem(b.head) && RepsOkBranch(b.tail)
  }

  ghost predicate RepsOkAlts(alts: Alts)
    decreases alts
  {
    RepsOkBranch(alts.b) && (alts.More? ==> RepsOkAlts(alts.rest))
  }

  /** Every match of the item has the length. */
  lemma {:induction false} LengthIsFixed(sc: Scope, it: Item, a: nat, recurses: RecurseCheck)
    requires sc.root.Group? && Followed(recurses) <= Below(sc.size) && RepsOkItem(it) && RepsOkItem(sc.root)
    requires LengthOf(sc, it, a, recurses).Some?
    ensures FixedItem(sc.root, it, LengthOf(sc, it, a, recurses).value)
    decreases ChecksLeft(recurses, sc.size), it
  {
    hide FixedItem, FixedAlts, Followed, ChecksLeft;
    match it
    case Rep(atom, k, lo, hi) => FixedRep(sc.root, atom, k, lo, hi);
    case Group(bra, _, alts, _) =>
      LengthIsFixedAlts(sc, alts, a + BraSize(bra), recurses);
      FixedGroup(sc.root, it, LengthOf(sc, it, a, recurses).value);
    case Call(num) =>
      var cs, g := sc.x.target[num], Callee(sc.root, num).value;
      FollowOne(recurses, cs, sc.size);
      CalleeReps(sc.root, num);
      LengthIsFixedAlts(sc, g.alts, cs + BraSize(g.bra), RecurseCheck(cs, recurses));
      FixedCall(sc.root, num, LengthOf(sc, it, a, recurses).value);
    case _ => FixedSimple(sc.root, it);
  }

  lemma {:induction false} LengthIsFixedBranch(sc: Scope, b: Branch, a: nat, recurses: RecurseCheck)
    requires sc.root.Group? && Followed(recurses) <= Below(sc.size) && RepsOkBranch(b) && RepsOkItem(sc.root)
    requires LengthOfBranch(sc, b, a, recurses).Some?
    ensures FixedBranch(sc.root, b, LengthOfBranch(sc, b, a, recurses).value)
    decreases ChecksLeft(recurses, sc.size), b
  {
    hide FixedItem, LengthOf, ChecksLeft, Followed;
    if b.Cons? {
      LengthIsFixed(sc, b.head, a, recurses);
      LengthIsFixedBranch(sc, b.tail, a + Size(b.head), recurses);
      hide FixedBranch;
      FixedCons(sc.root, b, LengthOf(sc, b.head, a, recurses).value,
                LengthOfBranch(sc, b.tail, a + Size(b.head), recurses).value);
    }
  }

  lemma {:induction false} LengthIsFixedAlts(sc: Scope, alts: Alts, st: nat, recurses: RecurseCheck)
    requires sc.root.Group? && Followed(recurses) <= Below(sc.size) && RepsOkAlts(alts) && RepsOkItem(sc.root)
    requires LengthOfAlts(sc, alts, st, recurses).Some?
    ensures FixedAlts(sc.root, alts, LengthOfAlts(sc, alts, st, recurses).value)
    decreases ChecksLeft(recurses, sc.size), alts
  {
    hide FixedAlts, FixedBranch, LengthOfBranch, ChecksLeft, Followed;
    LengthIsFixedBranch(sc, alts.b, st, recurses);
    if alts.More? {
      LengthIsFixedAlts(sc, alts.rest, st + BranchSize(alts.b) + 3, recurses);
    }
    FixedMore(sc.root, alts, LengthOfAlts(sc, alts, st, recurses).value);
  }

  lemma CalleeReps(root: Item, num: nat)
    requires root.Group? && RepsOkItem(root) && Callee(root, num).Some?
    ensures RepsOkAlts(Callee(root, num).value.alts)
  {
    if num != 0 {
      FoundReps(root, num);
    }
  }

  lemma {:induction false} FoundReps(it: Item, num: nat)
    requires RepsOkItem(it) && FindGroup(it, num).Some?
    ensures RepsOkAlts(FindGroup(it, num).value.alts)
    decreases it
  {
    match it
    case Group(_, n, alts, _) => if n != num || num == 0 { FoundRepsAlts(alts, num); }
    case Zero(_, g) => FoundReps(g, num);
    case _ =>
  }

  lemma {:induction false} FoundRepsBranch(b: Branch, num: nat)
    requires RepsOkBranch(b) && FindInBranch(b, num).Some?
    ensures RepsOkAlts(FindInBranch(b, num).value.alts)
    decreases b
  {
    if FindGroup(b.head, num).Some? {
      FoundReps(b.head, num);
    } else {
      FoundRepsBranch(b.tail, num);
    }
  }

  lemma {:induction false} FoundRepsAlts(alts: Alts, num: nat)
    requires RepsOkAlts(alts) && FindInAlts(alts, num).Some?
    ensures RepsOkAlts(FindInAlts(alts, num).value.alts)
    decreases alts
  {
    if FindInBranch(alts.b, num).Some? {
      FoundRepsBranch(alts.b, num);
    } else {
      FoundRepsAlts(alts.rest, num);
    }
  }

  lemma {:induction false} LaidReps(x: PlainLinks, code: seq<byte>, a: nat, it: Item)
    requires LayItem(x, code, a, it)
    ensures RepsOkItem(it)
    decreases it
  {
    hide LayAlts;
    match it
    case Group(bra, _, alts, ket) => LaidRepsAlts(x, code, a, a + BraSize(bra), alts, a, ket);
    case Zero(_, g) => LaidReps(x, code, a + 1, g);
    case _ =>
  }

  lemma {:induction false} LaidRepsBranch(x: PlainLinks, code: seq<byte>, a: nat, b: Branch)
    requires LayBranch(x, code, a, b)
    ensures RepsOkBranch(b)
    decreases b
  {
    hide LayItem;
    if b.Cons? {
      LaidReps(x, code, a, b.head);
      LaidRepsBranch(x, code, a + Size(b.head), b.tail);
    }
  }

  lemma {:induction false} LaidRepsAlts(x: PlainLinks, code: seq<byte>, h: nat, st: nat, alts: Alts, bra: nat,
                                        ket: byte)
    requires LayAlts(x, code, h, st, alts, bra, ket)
    ensures RepsOkAlts(alts)
    decreases alts
  {
    hide LayAlts, LayBranch, BranchSize;
    LayFirst(x, code, h, st, alts, bra, ket);
    LaidRepsBranch(x, code, st, alts.b);
    if alts.More? {
      LaidRepsAlts(x, code, st + BranchSize(alts.b), st + BranchSize(alts.b) + 3, alts.rest, bra, ket);
    }
  }

  // ---------- where there is no length ----------

  /** A repeat has the length that both of its limits are, if they are the same. */
  lemma RepIsEven(atom: Atom, k: nat, lo: nat, hi: nat)
    requires RepOk(atom, k, lo, hi)
    ensures RepLength(atom, k, lo, hi)
         == if RepMin(atom, k, lo, hi) == RepMax(atom, k, lo, hi) then Some(RepMin(atom, k, lo, hi)) else None
  {
  }

  /** There is no length exactly if, with the called groups in place of the calls, there
    * is something uneven inside the item; else it is that of the shortest match. */
  lemma {:induction false} NoLength(sc: Scope, it: Item, a: nat, recurses: RecurseCheck)
    requires sc.root.Group? && Followed(recurses) <= Below(sc.size) && RepsOkItem(it) && RepsOkItem(sc.root)
    ensures var inlined := Inlined(sc, it, a, recurses);
            LengthOf(sc, it, a, recurses) == if Even(Parts(inlined)) then Some(Shortest(inlined)) else None
    decreases ChecksLeft(recurses, sc.size), it
  {
    hide Even, Parts, PartsOfAlts, OneLength, Lengths, ShortestOfAlts, Followed, ChecksLeft, LengthOfAlts, InlinedAlts;
    match it
    case Rep(atom, k, lo, hi) =>
      RepIsEven(atom, k, lo, hi);
      EvenSimple(it);
    case Group(bra, num, alts, ket) =>
      NoLengthAlts(sc, alts, a + BraSize(bra), recurses);
      EvenGroup(bra, num, InlinedAlts(sc, alts, a + BraSize(bra), recurses), ket);
    case Zero(op, g) => EvenZero(op, Inlined(sc, g, a + 1, recurses));
    case Call(num) =>
      if Followable(sc, num, a, recurses) {
        var cs, g := sc.x.target[num], Callee(sc.root, num).value;
        FollowOne(recurses, cs, sc.size);
        CalleeReps(sc.root, num);
        NoLengthAlts(sc, g.alts, cs + BraSize(g.bra), RecurseCheck(cs, recurses));
        EvenGroup(g.bra, g.num, InlinedAlts(sc, g.alts, cs + BraSize(g.bra), RecurseCheck(cs, recurses)), g.ket);
      } else {
        EvenSimple(it);
      }
    case _ => EvenSimple(it);
  }

  lemma {:induction false} NoLengthBranch(sc: Scope, b: Branch, a: nat, recurses: RecurseCheck)
    requires sc.root.Group? && Followed(recurses) <= Below(sc.size) && RepsOkBranch(b) && RepsOkItem(sc.root)
    ensures var inlined := InlinedBranch(sc, b, a, recurses);
            LengthOfBranch(sc, b, a, recurses)
            == if Even(PartsOfBranch(inlined)) then Some(ShortestOfBranch(inlined)) else None
    decreases ChecksLeft(recurses, sc.size), b
  {
    hide Even, Parts, Shortest, Followed, ChecksLeft, LengthOf, Inlined;
    if b.Nil? {
      NothingUneven();
    } else {
      NoLength(sc, b.head, a, recurses);
      NoLengthBranch(sc, b.tail, a + Size(b.head), recurses);
      EvenParts(Parts(Inlined(sc, b.head, a, recurses)),
                PartsOfBranch(InlinedBranch(sc, b.tail, a + Size(b.head), recurses)));
    }
  }

  lemma NothingUneven()
    ensures Even({})
  {
  }

  lemma {:induction false} NoLengthAlts(sc: Scope, alts: Alts, st: nat, recurses: RecurseCheck)
    requires sc.root.Group? && Followed(recurses) <= Below(sc.size) && RepsOkAlts(alts) && RepsOkItem(sc.root)
    ensures var inlined := InlinedAlts(sc, alts, st, recurses);
            LengthOfAlts(sc, alts, st, recurses)
            == if Even(PartsOfAlts(inlined)) && OneLength(inlined) then Some(ShortestOfAlts(inlined)) else None
    decreases ChecksLeft(recurses, sc.size), alts
  {
    hide Even, PartsOfBranch, ShortestOfBranch, Followed, ChecksLeft, LengthOfBranch, InlinedBranch;
    hide OneLength, ShortestOfAlts, Lengths;
    NoLengthBranch(sc, alts.b, st, recurses);
    OneLengthMore(InlinedBranch(sc, alts.b, st, recurses), Last(Nil));
    if alts.More? {
      OneLengthMore(InlinedBranch(sc, alts.b, st, recurses),
                    InlinedAlts(sc, alts.rest, st + BranchSize(alts.b) + 3, recurses));
      NoLengthAlts(sc, alts.rest, st + BranchSize(alts.b) + 3, recurses);
      EvenParts(PartsOfBranch(InlinedBranch(sc, alts.b, st, recurses)),
                PartsOfAlts(InlinedAlts(sc, alts.rest, st + BranchSize(alts.b) + 3, recurses)));
    } else {
      assert PartsOfAlts(InlinedAlts(sc, alts, st, recurses)) == PartsOfBranch(InlinedBranch(sc, alts.b, st, recurses));
    }
  }

  /** Without calls there is nothing to replace. */
  lemma {:induction false} NothingInlined(sc: Scope, it: Item, a: nat, recurses: RecurseCheck)
    requires sc.root.Group? && Followed(recurses) <= Below(sc.size) && CallsIn(it) == {}
    ensures Inlined(sc, it, a, recurses) == it
    decreases it
  {
    hide InlinedAlts, Followed, ChecksLeft;
    match it
    case Group(bra, _, alts, _) => NothingInlinedAlts(sc, alts, a + BraSize(bra), recurses);
    case Zero(_, g) => NothingInlined(sc, g, a + 1, recurses);
    case _ =>
  }

  lemma {:induction false} NothingInlinedBranch(sc: Scope, b: Branch, a: nat, recurses: RecurseCheck)
    requires sc.root.Group? && Followed(recurses) <= Below(sc.size) && CallsInBranch(b) == {}
    ensures InlinedBranch(sc, b, a, recurses) == b
    decreases b
  {
    hide Inlined, Followed, ChecksLeft;
    if b.Cons? {
      NothingInlined(sc, b.head, a, recurses);
      NothingInlinedBranch(sc, b.tail, a + Size(b.head), recurses);
    }
  }

  lemma {:induction false} NothingInlinedAlts(sc: Scope, alts: Alts, st: nat, recurses: RecurseCheck)
    requires sc.root.Group? && Followed(recurses) <= Below(sc.size) && CallsInAlts(alts) == {}
    ensures InlinedAlts(sc, alts, st, recurses) == alts
    decreases alts
  {
    hide InlinedBranch, Followed, ChecksLeft;
    NothingInlinedBranch(sc, alts.b, st, recurses);
    if alts.More? {
      NothingInlinedAlts(sc, alts.rest, st + BranchSize(alts.b) + 3, recurses);
    }
  }

  /** The group that the scan of some alternatives is about, with the called groups in
    * place of the calls that are followed. */
  ghost function Scanned(sc: Scope, alts: Alts, st: nat, ket: byte, recurses: RecurseCheck): Item
    requires sc.root.Group? && Followed(recurses) <= Below(sc.size)
  {
    Group(OP_BRA, 0, InlinedAlts(sc, alts, st, recurses), ket)
  }

  /** A length is reported exactly if nothing in the group is uneven, and then it is that
    * of the shortest match. */
  ghost predicate Tells(d: int, g: Item) {
    && (d >= 0 <==> forall part :: part in Parts(g) ==> !Uneven(part))
    && (d >= 0 ==> d == Shortest(g))
  }

  lemma NoLengthScanned(x: PlainLinks, code: seq<byte>, root: Item, atend: bool, h: nat, st: nat, alts: Alts, bra: nat,
                        ket: byte, recurses: RecurseCheck)
    requires root.Group? && IsProgram(x, code, root) && LayAlts(x, code, h, st, alts, bra, ket)
    requires Followed(recurses) <= Below(|code|)
    ensures var sc := ScopeOf(x, root, code, atend);
            var r := if ket == OP_KET then LengthOfAlts(sc, alts, st, recurses) else None;
            forall d: int :: Reports(d, r, atend) ==> Tells(d, Scanned(sc, alts, st, ket, recurses))
  {
    hide LayItem, LayAlts, RepsOkItem, RepsOkAlts, Parts, PartsOfAlts, OneLength, ShortestOfAlts, LengthOfAlts,
      InlinedAlts, Followed;
    var sc := ScopeOf(x, root, code, atend);
    LaidReps(x, code, 0, root);
    LaidRepsAlts(x, code, h, st, alts, bra, ket);
    NoLengthAlts(sc, alts, st, recurses);
    EvenGroup(OP_BRA, 0, InlinedAlts(sc, alts, st, recurses), ket);
  }

  // ---------- the scan ----------

  /** The scope of a program. */
  ghost function ScopeOf(x: PlainLinks, root: Item, code: seq<byte>, atend: bool): Scope {
    Scope(x, root, |code|, atend)
  }

  /** The result of a scan: the length if there is one, else a negative number, which
    * is -3 if a call could not be followed yet. */
  ghost predicate Reports(d: int, r: Option<nat>, atend: bool) {
    if d >= 0 then r == Some(d as nat) else r.None? && (d == -1 || (d == -3 && !atend))
  }

  const INT_MAX := 0x7fff_ffff

  /** A length that is reported is what a C int holds if and only if it fits in one. */
  predicate Holds(d: int, fits: bool) {
    d >= 0 ==> (fits <==> d <= INT_MAX)
  }

  /** The length of one item, and the offset behind it; does every sum that was formed on
    * the way fit in a C int? */
  method ItemLength(code: seq<byte>, cc: nat, atend: bool, recurses: RecurseCheck,
                    ghost x: PlainLinks, ghost root: Item, ghost it: Item)
    returns (d: int, next: nat, ghost fits: bool)
    requires root.Group? && IsProgram(x, code, root) && LayItem(x, code, cc, it) && Plain(code, cc + Size(it))
    requires Followed(recurses) <= Below(|code|) && cc + Size(it) + 3 <= |code| && cc > 0
    ensures Reports(d, LengthOf(ScopeOf(x, root, code, atend), it, cc, recurses), atend)
    ensures d >= 0 ==> next == cc + Size(it)
    ensures Holds(d, fits)
    decreases ChecksLeft(recurses, |code|), it, 1
  {
    hide IsProgram, LayAlts, ChainOk, EndOf, LengthOfAlts, Callee;
    d, next, fits := -1, cc, true;
    var op := code[cc];
    ItemKinds(x, code, cc, it);
    if op == OP_CBRA || op == OP_BRA {
      GroupAt(x, code, cc, it);
      d, fits := FindFixedLength(code, if op == OP_CBRA then cc + 2 else cc, atend, recurses, x, root, cc, it.alts, cc,
                                 it.ket);
      if d >= 0 {
        var end := SkipBranches(code, cc);
        next := end + 3;
      }
    } else if op == OP_RECURSE {
      d, fits := CallLength(code, cc, atend, recurses, x, root, it);
      next := cc + 3;
    } else if IsAnchor(op) {
      d, next := 0, cc + OpLength(op);
    } else if IsSingleChar(op) {
      d, next := 1, cc + 2;
    } else if IsType(op) {
      d, next := 1, cc + 1;
    } else if IsRepeat(op) && (op - OP_STAR) % 13 == K_EXACT {
      RepAt(x, code, cc, it);
      d, next := Get(code, cc + 1), cc + 4;
    } else if IsClass(op) {
      ClassAt(x, code, cc, it);
      var e := cc + OpLength(OP_CLASS);
      if !IsClassRepeat(code[e]) {
        d, next := 1, e;
      } else if HasRange(code[e] - OP_CRSTAR) && Get(code, e + 1) == Get(code, e + 3) {
        d, next := Get(code, e + 1), e + 5;
      }
    }
  }

  /** Whether a call is followed, and what it then contributes. */
  lemma CallFollowed(sc: Scope, num: nat, a: nat, recurses: RecurseCheck, g: Item)
    requires sc.root.Group? && Followed(recurses) <= Below(sc.size) && num in sc.x.target
    requires Callee(sc.root, num) == Some(g) && g.Group?
    requires sc.atend && sc.x.target[num] < sc.size
    ensures var cs := sc.x.target[num];
            && (cs < a < KetOffset(cs, g) || cs in Followed(recurses) ==> LengthOf(sc, Call(num), a, recurses).None?)
            && (!(cs < a < KetOffset(cs, g)) && cs !in Followed(recurses) ==>
                  && Followed(RecurseCheck(cs, recurses)) <= Below(sc.size)
                  && LengthOf(sc, Call(num), a, recurses)
                     == if g.ket == OP_KET then
                          LengthOfAlts(sc, g.alts, cs + BraSize(g.bra), RecurseCheck(cs, recurses))
                        else None)
  {
    hide LengthOfAlts, ChecksLeft;
    var cs := sc.x.target[num];
    if cs !in Followed(recurses) {
      FollowOne(recurses, cs, sc.size);
    }
  }

  lemma NotFollowed(sc: Scope, num: nat, a: nat, recurses: RecurseCheck)
    requires sc.root.Group? && Followed(recurses) <= Below(sc.size) && !sc.atend
    ensures LengthOf(sc, Call(num), a, recurses).None?
  {
  }

  /** The length of a called group. */
  method CallLength(code: seq<byte>, cc: nat, atend: bool, recurses: RecurseCheck,
                    ghost x: PlainLinks, ghost root: Item, ghost it: Item)
    returns (d: int, ghost fits: bool)
    requires root.Group? && IsProgram(x, code, root) && LayItem(x, code, cc, it) && it.Call?
    requires Followed(recurses) <= Below(|code|) && cc + 6 <= |code| && cc > 0
    ensures Reports(d, LengthOf(ScopeOf(x, root, code, atend), it, cc, recurses), atend)
    ensures Holds(d, fits)
    decreases ChecksLeft(recurses, |code|), it, 0
  {
    hide IsProgram, LayAlts, ChainOk, EndOf, LengthOfAlts, LengthOf, FindGroup, LayItem, Followed, ChecksLeft, Below,
      Get;
    if !atend {
      NotFollowed(ScopeOf(x, root, code, atend), it.num, cc, recurses);
      return -3, true;
    }
    CallOperand(x, code, root, cc, it);
    var cs := Get(code, cc + 1);
    ghost var g := CalledGroup(x, code, root, it.num);
    CalledEnd(x, code, root, it.num);
    CallFollowed(ScopeOf(x, root, code, atend), it.num, cc, recurses, g);
    var ce := SkipBranches(code, cs);
    if cc > cs && cc < ce {
      return -1, true;
    }
    var found := OnChain(recurses, cs);
    if found {
      return -1, true;
    }
    FollowOne(recurses, cs, |code|);
    d, fits := FindFixedLength(code, cs + 2, atend, RecurseCheck(cs, recurses), x, root, cs, g.alts, cs, g.ket);
  }

  lemma CalledEnd(x: PlainLinks, code: seq<byte>, root: Item, num: nat)
    requires root.Group? && IsProgram(x, code, root) && num in x.target
    ensures Callee(root, num).Some?
    ensures var cs, g := x.target[num], Callee(root, num).value;
            ChainOk(code, cs) && EndOf(code, cs) == KetOffset(cs, g)
  {
    hide IsProgram, LayItem, ChainOk, EndOf, FindGroup;
    CalleeIsLaid(x, code, root, num);
    GroupLinks(x, code, x.target[num], Callee(root, num).value);
  }

  /** Where the scan stands: cur are the alternatives from the current one on, and
    * rest is what is left of its branch, at cc. */
  ghost predicate Scanning(x: PlainLinks, code: seq<byte>, h: nat, st: nat, cur: Alts, bra: nat, ket: byte, cc: nat,
                           rest: Branch) {
    && LayAlts(x, code, h, st, cur, bra, ket)
    && LayBranch(x, code, cc, rest)
    && st <= cc && cc + BranchSize(rest) == st + BranchSize(cur.b)
  }

  /** The scan as a whole: the header of the current alternative, the start of its
    * branch, the alternatives from there on, the position and what is left of the
    * branch there, the length scanned in it, and the length of those before. */
  datatype Scan = Scan(h: nat, st: nat, cur: Alts, cc: nat, rest: Branch, n: nat, length: int)

  /** What is left decides: the rest of the branch about its length, the alternatives
    * from the current one on about the length of all. */
  ghost predicate ScanOk(sc: Scope, recurses: RecurseCheck, code: seq<byte>, alts: Alts, st: nat, bra: nat, ket: byte,
                         s: Scan)
    requires sc.root.Group? && Followed(recurses) <= Below(sc.size)
  {
    && Scanning(sc.x, code, s.h, s.st, s.cur, bra, ket, s.cc, s.rest)
    && LengthOfBranch(sc, s.cur.b, s.st, recurses) == Sum(Some(s.n), LengthOfBranch(sc, s.rest, s.cc, recurses))
    && LengthOfAlts(sc, alts, st, recurses) ==
       if s.length < 0 then LengthOfAlts(sc, s.cur, s.st, recurses)
       else Agree(Some(s.length as nat), LengthOfAlts(sc, s.cur, s.st, recurses))
  }

  lemma ScanItem(sc: Scope, recurses: RecurseCheck, code: seq<byte>, alts: Alts, st: nat, bra: nat, ket: byte, s: Scan)
    requires sc.root.Group? && Followed(recurses) <= Below(sc.size) && ScanOk(sc, recurses, code, alts, st, bra, ket, s)
    requires IsKet(ket)
    ensures s.cc + 3 <= |code| && s.cc > 0
    ensures if code[s.cc] == OP_ALT || IsKet(code[s.cc]) || code[s.cc] == OP_END then
              s.rest.Nil? && (code[s.cc] == if s.cur.Last? then ket else OP_ALT)
            else
              && s.rest.Cons? && LayItem(sc.x, code, s.cc, s.rest.head) && Plain(code, s.cc + Size(s.rest.head))
              && s.cc + Size(s.rest.head) + 3 <= |code|
  {
    hide LayAlts, LayItem, LayBranch, Scanning, Size, BranchSize, LengthOfBranch, LengthOfAlts;
    ScanAt(sc.x, code, s.h, s.st, s.cur, bra, ket, s.cc, s.rest);
    if s.rest.Cons? {
      ItemByte(sc.x, code, s.cc, s.rest.head);
    }
  }

  lemma ScanAt(x: PlainLinks, code: seq<byte>, h: nat, st: nat, cur: Alts, bra: nat, ket: byte, cc: nat, rest: Branch)
    requires Scanning(x, code, h, st, cur, bra, ket, cc, rest) && IsKet(ket)
    ensures cc + 3 <= |code| && cc > 0
    ensures rest.Nil? ==> code[cc] == if cur.Last? then ket else OP_ALT
    ensures rest.Cons? ==>
              && LayItem(x, code, cc, rest.head) && Plain(code, cc + Size(rest.head))
              && cc + Size(rest.head) + 3 <= |code|
  {
    hide LayAlts, LayItem;
    LayFirst(x, code, h, st, cur, bra, ket);
    if rest.Cons? {
      OpenBranch(x, code, cc, rest.head, rest.tail);
      BranchByte(x, code, cc + Size(rest.head), rest.tail);
    }
  }

  lemma LengthCons(sc: Scope, b: Branch, a: nat, recurses: RecurseCheck)
    requires sc.root.Group? && Followed(recurses) <= Below(sc.size) && b.Cons?
    ensures LengthOfBranch(sc, b, a, recurses)
         == Sum(LengthOf(sc, b.head, a, recurses), LengthOfBranch(sc, b.tail, a + Size(b.head), recurses))
  {
  }

  lemma AfterItem(sc: Scope, recurses: RecurseCheck, code: seq<byte>, alts: Alts, st: nat, bra: nat, ket: byte, s: Scan)
    requires sc.root.Group? && Followed(recurses) <= Below(sc.size) && ScanOk(sc, recurses, code, alts, st, bra, ket, s)
    requires s.rest.Cons?
    ensures var r := LengthOf(sc, s.rest.head, s.cc, recurses);
            if r.Some? then
              ScanOk(sc, recurses, code, alts, st, bra, ket,
                     s.(cc := s.cc + Size(s.rest.head), rest := s.rest.tail, n := s.n + r.value))
            else LengthOfAlts(sc, alts, st, recurses).None?
  {
    hide LayAlts, LayItem, LayBranch, LengthOf, LengthOfBranch, BranchSize;
    OpenBranch(sc.x, code, s.cc, s.rest.head, s.rest.tail);
    LengthCons(sc, s.rest, s.cc, recurses);
  }

  lemma AfterAlt(sc: Scope, recurses: RecurseCheck, code: seq<byte>, alts: Alts, st: nat, bra: nat, ket: byte, s: Scan)
    requires sc.root.Group? && Followed(recurses) <= Below(sc.size) && ScanOk(sc, recurses, code, alts, st, bra, ket, s)
    requires s.rest.Nil?
    ensures s.length >= 0 && s.length != s.n ==> LengthOfAlts(sc, alts, st, recurses).None?
    ensures (s.length < 0 || s.length == s.n) && s.cur.Last? ==> LengthOfAlts(sc, alts, st, recurses) == Some(s.n)
    ensures (s.length < 0 || s.length == s.n) && s.cur.More? ==>
              ScanOk(sc, recurses, code, alts, st, bra, ket,
                     Scan(s.cc, s.cc + 3, s.cur.rest, s.cc + 3, s.cur.rest.b, 0, s.n))
  {
    hide LayAlts, LayBranch, LengthOf, BranchSize;
    NilSize();
    assert LengthOfBranch(sc, s.rest, s.cc, recurses) == Some(0);
    if s.cur.More? {
      ScanNext(sc.x, code, s.h, s.st, s.cur, bra, ket, s.cc);
    }
  }

  lemma ScanNext(x: PlainLinks, code: seq<byte>, h: nat, st: nat, cur: Alts, bra: nat, ket: byte, cc: nat)
    requires Scanning(x, code, h, st, cur, bra, ket, cc, Nil) && cur.More?
    ensures Scanning(x, code, cc, cc + 3, cur.rest, bra, ket, cc + 3, cur.rest.b)
    ensures cc == st + BranchSize(cur.b)
  {
    hide LayAlts, LayBranch, LayItem;
    LayFirst(x, code, h, st, cur, bra, ket);
    LayFirst(x, code, cc, cc + 3, cur.rest, bra, ket);
    NilSize();
  }

  /** The length that everything the alternatives match has, negative if there is
    * none; p is three bytes before their first branch. Unless a sum formed on the way is
    * too large for a C int, it is what the C code computes; for a length that is
    * reported this means that the length itself fits. */
  method FindFixedLength(code: seq<byte>, p: nat, atend: bool, recurses: RecurseCheck,
                         ghost x: PlainLinks, ghost root: Item, ghost h: nat, ghost alts: Alts, ghost bra: nat,
                         ghost ket: byte)
    returns (length: int, ghost fits: bool)
    requires root.Group? && IsProgram(x, code, root) && LayAlts(x, code, h, p + 3, alts, bra, ket) && IsKet(ket)
    requires Followed(recurses) <= Below(|code|)
    ensures Reports(length,
                    if ket == OP_KET then LengthOfAlts(ScopeOf(x, root, code, atend), alts, p + 3, recurses) else None,
                    atend)
    ensures Tells(length, Scanned(ScopeOf(x, root, code, atend), alts, p + 3, ket, recurses))
    ensures Holds(length, fits)
    decreases ChecksLeft(recurses, |code|), alts, 1
  {
    hide IsProgram, LayAlts, LayItem, LayBranch, ScanOk, ChecksLeft, Followed, LengthOf, LengthOfBranch, LengthOfAlts;
    hide Tells, Scanned;
    length, fits := -1, true;
    NoLengthScanned(x, code, root, atend, h, p + 3, alts, bra, ket, recurses);
    ghost var sc := ScopeOf(x, root, code, atend);
    var branchlength: nat, cc: nat := 0, p + 3;
    ghost var s := Scan(h, p + 3, alts, p + 3, alts.b, 0, -1);
    StartsScan(sc, recurses, code, h, p + 3, alts, bra, ket);
    while true
      invariant (s.cur == alts || s.cur < alts) && (s.rest == s.cur.b || s.rest < s.cur.b)
      invariant s.cc == cc && s.n == branchlength && s.length == length >= -1
      invariant fits <==> branchlength <= INT_MAX && length <= INT_MAX
      invariant ScanOk(sc, recurses, code, alts, p + 3, bra, ket, s)
      decreases s.cur, s.rest
    {
      ScanItem(sc, recurses, code, alts, p + 3, bra, ket, s);
      var op := code[cc];
      if op == OP_ALT || IsKet(op) || op == OP_END {
        if op == OP_KETRMAX || op == OP_KETRMIN {
          length := -1;
          return;
        }
        AfterAlt(sc, recurses, code, alts, p + 3, bra, ket, s);
        if length < 0 {
          length := branchlength;
        } else if length != branchlength {
          length := -1;
          return;
        }
        if op != OP_ALT {
          return;
        }
        s := Scan(cc, cc + 3, s.cur.rest, cc + 3, s.cur.rest.b, 0, length);
        cc := cc + 3;
        branchlength := 0;
      } else {
        var d, next;
        ghost var small;
        d, next, small := ItemLength(code, cc, atend, recurses, x, root, s.rest.head);
        AfterItem(sc, recurses, code, alts, p + 3, bra, ket, s);
        if d < 0 {
          length := d;
          return;
        }
        fits := fits && small && branchlength + d <= INT_MAX;
        s := s.(cc := next, rest := s.rest.tail, n := s.n + d);
        branchlength, cc := branchlength + d, next;
      }
    }
  }

  lemma StartsScan(sc: Scope, recurses: RecurseCheck, code: seq<byte>, h: nat, st: nat, alts: Alts, bra: nat, ket: byte)
    requires sc.root.Group? && Followed(recurses) <= Below(sc.size) && LayAlts(sc.x, code, h, st, alts, bra, ket)
    ensures ScanOk(sc, recurses, code, alts, st, bra, ket, Scan(h, st, alts, st, alts.b, 0, -1))
  {
    LayFirst(sc.x, code, h, st, alts, bra, ket);
  }

  /** The length of a group is exact: everything the group can match has it. */
  lemma LengthIsExact(x: PlainLinks, code: seq<byte>, root: Item, atend: bool, a: nat, g: Item)
    requires root.Group? && IsProgram(x, code, root) && g.Group? && LayItem(x, code, a, g)
    requires LengthOfAlts(ScopeOf(x, root, code, atend), g.alts, a + BraSize(g.bra), NoCheck).Some?
    ensures FixedAlts(root, g.alts,
                      LengthOfAlts(ScopeOf(x, root, code, atend), g.alts, a + BraSize(g.bra), NoCheck).value)
  {
    hide LayItem, FixedAlts, LengthOfAlts;
    LaidReps(x, code, 0, root);
    LaidReps(x, code, a, g);
    LengthIsFixedAlts(ScopeOf(x, root, code, atend), g.alts, a + BraSize(g.bra), NoCheck);
  }

  // ---------- lengths fit ----------

  /** Without calls an item that takes n bytes of code has a length of at most 16384 n:
    * four bytes are needed to say 65535. */
  lemma {:induction false} ItemLengthFits(sc: Scope, it: Item, a: nat, recurses: RecurseCheck)
    requires sc.root.Group? && Followed(recurses) <= Below(sc.size) && RepsOkItem(it) && CallsIn(it) == {}
    ensures LengthOf(sc, it, a, recurses).Some? ==> LengthOf(sc, it, a, recurses).value <= 16384 * Size(it)
    decreases it
  {
    hide LengthOfAlts, Followed, ChecksLeft;
    match it
    case Group(bra, _, alts, _) => AltsLengthFits(sc, alts, a + BraSize(bra), recurses);
    case _ =>
  }

  lemma {:induction false} BranchLengthFits(sc: Scope, b: Branch, a: nat, recurses: RecurseCheck)
    requires sc.root.Group? && Followed(recurses) <= Below(sc.size) && RepsOkBranch(b) && CallsInBranch(b) == {}
    ensures LengthOfBranch(sc, b, a, recurses).Some? ==>
              LengthOfBranch(sc, b, a, recurses).value <= 16384 * BranchSize(b)
    decreases b
  {
    hide LengthOf, Followed, ChecksLeft;
    if b.Cons? {
      ItemLengthFits(sc, b.head, a, recurses);
      BranchLengthFits(sc, b.tail, a + Size(b.head), recurses);
    }
  }

  lemma {:induction false} AltsLengthFits(sc: Scope, alts: Alts, st: nat, recurses: RecurseCheck)
    requires sc.root.Group? && Followed(recurses) <= Below(sc.size) && RepsOkAlts(alts) && CallsInAlts(alts) == {}
    ensures LengthOfAlts(sc, alts, st, recurses).Some? ==>
              LengthOfAlts(sc, alts, st, recurses).value <= 16384 * AltsSize(alts)
    decreases alts
  {
    hide LengthOfBranch, Followed, ChecksLeft;
    BranchLengthFits(sc, alts.b, st, recurses);
    if alts.More? {
      AltsLengthFits(sc, alts.rest, st + BranchSize(alts.b) + 3, recurses);
    }
  }

  /** So in a program, which is no longer than 65536 bytes, no length of a group without
    * calls is too large for an int, nor are the sums of parts that lead up to it. */
  lemma LengthFits(x: PlainLinks, code: seq<byte>, root: Item, atend: bool, a: nat, g: Item)
    requires root.Group? && IsProgram(x, code, root) && g.Group? && LayItem(x, code, a, g) && CallsIn(g) == {}
    ensures var d := LengthOfAlts(ScopeOf(x, root, code, atend), g.alts, a + BraSize(g.bra), NoCheck);
            d.Some? ==> d.value <= INT_MAX
  {
    hide LengthOfAlts;
    LaidReps(x, code, a, g);
    AltsLengthFits(ScopeOf(x, root, code, atend), g.alts, a + BraSize(g.bra), NoCheck);
    SizesFit(x, code, root, a, g);
  }

  lemma SizesFit(x: PlainLinks, code: seq<byte>, root: Item, a: nat, g: Item)
    requires IsProgram(x, code, root) && g.Group? && LayItem(x, code, a, g)
    ensures AltsSize(g.alts) <= 65536
  {
  }
}
