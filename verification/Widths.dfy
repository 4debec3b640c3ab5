/** The lengths of what a tree without calls matches, and what keeps them from being
  * one fixed length. Calls are replaced by the called groups first, as far as they
  * can be followed.
  */
module Widths {
  import opened Opcodes
  import opened Tree
  import opened Meaning
  import opened Machine
  import opened Decoding
  import opened Program
  import opened CodeScan

  // ---------- parts ----------

  /** The item and everything inside it. */
  ghost function Parts(it: Item): set<Item>
    decreases it
  {
    {it} + match it
           case Group(_, _, alts, _) => PartsOfAlts(alts)
           case Zero(_, g) => Parts(g)
           case _ => {}
  }

  ghost function PartsOfBranch(b: Branch): set<Item>
    decreases b
  {
    if b.Nil? then {} else Parts(b.head) + PartsOfBranch(b.tail)
  }

  ghost function PartsOfAlts(alts: Alts): set<Item>
    decreases alts
  {
    PartsOfBranch(alts.b) + if alts.More? then PartsOfAlts(alts.rest) else {}
  }

  // ---------- lengths ----------

  /** The length of the shortest string that the item can match, as far as its
    * quantifiers say. */
  ghost function Shortest(it: Item): nat
    decreases it
  {
    match it
    case Anchor(_) => 0
    case One(_) => 1
    case Rep(atom, k, lo, hi) => RepMin(atom, k, lo, hi)
    case Group(_, _, alts, _) => ShortestOfAlts(alts)
    case Zero(_, _) => 0
    case Call(_) => 0
  }

  ghost function ShortestOfBranch(b: Branch): nat
    decreases b
  {
    if b.Nil? then 0 else Shortest(b.head) + ShortestOfBranch(b.tail)
  }

  ghost function ShortestOfAlts(alts: Alts): nat
    decreases alts
  {
    var d := ShortestOfBranch(alts.b);
    if alts.Last? then d
    else
      var e := ShortestOfAlts(alts.rest);
      if d <= e then d else e
  }

  /** The shortest lengths of the alternatives. */
  ghost function Lengths(alts: Alts): set<nat>
    decreases alts
  {
    {ShortestOfBranch(alts.b)} + if alts.More? then Lengths(alts.rest) else {}
  }

  lemma {:induction false} ShortestIsLeast(alts: Alts)
    ensures ShortestOfAlts(alts) in Lengths(alts) && forall d :: d in Lengths(alts) ==> ShortestOfAlts(alts) <= d
    decreases alts
  {
    if alts.More? {
      ShortestIsLeast(alts.rest);
    }
  }

  /** Nothing that the item matches is shorter. */
  lemma {:induction false} NothingShorter(env: Env, facts: iset<Fact>, it: Item, p: nat, q: nat)
    requires FactsOk(env, facts) && p <= |env.s| && MItem(env, facts, it, p, q)
    ensures q - p >= Shortest(it)
    decreases it, 0
  {
    ItemBounds(env, facts, it, p, q);
    match it
    case Group(_, _, alts, ket) =>
      if ket == OP_KET {
        NothingShorterAlts(env, facts, alts, p, q);
      } else {
        var n := LoopPasses(env, facts, it, p, q);
        NothingShorterIter(env, facts, alts, n, p, q);
      }
    case _ =>
  }

  lemma {:induction false} NothingShorterBranch(env: Env, facts: iset<Fact>, b: Branch, p: nat, q: nat)
    requires FactsOk(env, facts) && p <= |env.s| && MBranch(env, facts, b, p, q)
    ensures q - p >= ShortestOfBranch(b)
    decreases b, 0
  {
    if b.Cons? {
      var r := BranchSplit(env, facts, b, p, q);
      ItemBounds(env, facts, b.head, p, r);
      NothingShorter(env, facts, b.head, p, r);
      NothingShorterBranch(env, facts, b.tail, r, q);
    }
  }

  lemma {:induction false} NothingShorterAlts(env: Env, facts: iset<Fact>, alts: Alts, p: nat, q: nat)
    requires FactsOk(env, facts) && p <= |env.s| && MAlts(env, facts, alts, p, q)
    ensures q - p >= ShortestOfAlts(alts)
    decreases alts, 0
  {
    if MBranch(env, facts, alts.b, p, q) {
      NothingShorterBranch(env, facts, alts.b, p, q);
    } else {
      NothingShorterAlts(env, facts, alts.rest, p, q);
    }
  }

  lemma {:induction false} NothingShorterIter(env: Env, facts: iset<Fact>, alts: Alts, n: nat, p: nat, q: nat)
    requires FactsOk(env, facts) && p <= |env.s| && n >= 1 && MIter(env, facts, alts, n, p, q)
    ensures q - p >= ShortestOfAlts(alts)
    decreases alts, 1
  {
    var r: nat :| MAlts(env, facts, alts, p, r) && MIter(env, facts, alts, n - 1, r, q);
    NothingShorterAlts(env, facts, alts, p, r);
    AltsBounds(env, facts, alts, p, r);
    IterBounds(env, facts, alts, n - 1, r, q);
  }

  // ---------- calls replaced by the called groups ----------

  /** What all scans of one pattern share: its calls, its tree, the size of its code,
    * and whether calls can be followed. */
  datatype Scope = Scope(x: PlainLinks, root: Item, size: nat, atend: bool)

  /** A call is followed when the code is finished, unless it stands inside the called
    * group or that group is being followed already. */
  ghost predicate Followable(sc: Scope, num: nat, a: nat, recurses: RecurseCheck)
    requires sc.root.Group?
  {
    && sc.atend && num in sc.x.target && Callee(sc.root, num).Some? && sc.x.target[num] < sc.size
    && !(sc.x.target[num] < a < KetOffset(sc.x.target[num], Callee(sc.root, num).value))
    && sc.x.target[num] !in Followed(recurses)
  }

  /** The item with the called groups in place of the calls that are followed. */
  ghost function Inlined(sc: Scope, it: Item, a: nat, recurses: RecurseCheck): (r: Item)
    requires sc.root.Group? && Followed(recurses) <= Below(sc.size)
    decreases ChecksLeft(recurses, sc.size), it
  {
    match it
    case Group(bra, num, alts, ket) => Group(bra, num, InlinedAlts(sc, alts, a + BraSize(bra), recurses), ket)
    case Zero(op, g) => Zero(op, Inlined(sc, g, a + 1, recurses))
    case Call(num) =>
      if Followable(sc, num, a, recurses) then
        var cs, g := sc.x.target[num], Callee(sc.root, num).value;
        FollowOne(recurses, cs, sc.size);
        Group(g.bra, g.num, InlinedAlts(sc, g.alts, cs + BraSize(g.bra), RecurseCheck(cs, recurses)), g.ket)
      else it
    case _ => it
  }

  ghost function InlinedBranch(sc: Scope, b: Branch, a: nat, recurses: RecurseCheck): Branch
    requires sc.root.Group? && Followed(recurses) <= Below(sc.size)
    decreases ChecksLeft(recurses, sc.size), b
  {
    match b
    case Nil => Nil
    case Cons(it, rest) => Cons(Inlined(sc, it, a, recurses), InlinedBranch(sc, rest, a + Size(it), recurses))
  }

  ghost function InlinedAlts(sc: Scope, alts: Alts, st: nat, recurses: RecurseCheck): Alts
    requires sc.root.Group? && Followed(recurses) <= Below(sc.size)
    decreases ChecksLeft(recurses, sc.size), alts
  {
    match alts
    case Last(b) => Last(InlinedBranch(sc, b, st, recurses))
    case More(b, rest) =>
      More(InlinedBranch(sc, b, st, recurses), InlinedAlts(sc, rest, st + BranchSize(b) + 3, recurses))
  }

  // ---------- what has no fixed length ----------

  /** A repeat whose limits differ, an optional or a looping group, alternatives of
    * different lengths, and a call that is not followed. */
  ghost predicate Uneven(part: Item) {
    match part
    case Rep(atom, k, lo, hi) => RepMin(atom, k, lo, hi) != RepMax(atom, k, lo, hi)
    case Group(_, _, alts, ket) => ket != OP_KET || exists d, e :: d in Lengths(alts) && e in Lengths(alts) && d != e
    case Zero(_, _) => true
    case Call(_) => true
    case _ => false
  }

  ghost predicate Even(parts: set<Item>) {
    forall part :: part in parts ==> !Uneven(part)
  }

  lemma EvenParts(a: set<Item>, b: set<Item>)
    ensures Even(a + b) <==> Even(a) && Even(b)
  {
  }

  /** All alternatives have the same shortest length. */
  ghost predicate OneLength(alts: Alts) {
    forall d :: d in Lengths(alts) ==> d == ShortestOfAlts(alts)
  }

  lemma OneLengthMore(b: Branch, rest: Alts)
    ensures OneLength(Last(b)) && ShortestOfAlts(Last(b)) == ShortestOfBranch(b)
    ensures OneLength(More(b, rest)) <==> OneLength(rest) && ShortestOfBranch(b) == ShortestOfAlts(rest)
    ensures OneLength(More(b, rest)) ==> ShortestOfAlts(More(b, rest)) == ShortestOfBranch(b)
  {
    ShortestIsLeast(rest);
    var alts := More(b, rest);
    assert forall d :: d in Lengths(alts) <==> d == ShortestOfBranch(b) || d in Lengths(rest);
  }

  lemma EvenGroup(bra: byte, num: nat, alts: Alts, ket: byte)
    ensures Even(Parts(Group(bra, num, alts, ket)))
            <==> ket == OP_KET && Even(PartsOfAlts(alts)) && OneLength(alts)
  {
    var g := Group(bra, num, alts, ket);
    ShortestIsLeast(alts);
    EvenParts({g}, PartsOfAlts(alts));
  }

  lemma EvenZero(op: byte, g: Item)
    ensures !Even(Parts(Zero(op, g)))
  {
    assert Zero(op, g) in Parts(Zero(op, g));
  }

  lemma EvenSimple(it: Item)
    requires !it.Group? && !it.Zero?
    ensures Even(Parts(it)) <==> !Uneven(it)
  {
  }
}
