/** What compiled code means: a relation between two positions of one subject.
  * Subroutine calls are read from a set of facts; the meaning of a whole
  * pattern uses the least set of facts closed under its own groups.
  */
module Meaning {
  import opened Opcodes
  import opened Tree

  datatype Option<+T> = None | Some(value: T)

  const CTYPE_SPACE: bv8 := 0x01
  const CTYPE_DIGIT: bv8 := 0x04
  const CTYPE_WORD: bv8 := 0x10

  /** The subject, the character tables and the match-time options. */
  datatype Env = Env(
    s: seq<byte>,
    lcc: seq<byte>,
    fcc: seq<byte>,
    ctypes: seq<bv8>,
    nl: byte,
    notbol: bool,
    noteol: bool,
    dollarEndonly: bool,
    notempty: bool,
    notemptyAtStart: bool,
    startOffset: nat)
  {
    /** The tables cover every byte, and lower-casing identifies exactly the
      * characters that are equal up to case flipping. */
    ghost predicate Ok() {
      && |lcc| == 256 && |fcc| == 256 && |ctypes| == 256
      && forall c: byte, d: byte :: lcc[c] == lcc[d] <==> (c == d || c == fcc[d])
    }

    /** May a match that starts at p end at q, given the options on empty matches? */
    predicate Allowed(p: nat, q: nat) {
      q > p || (!notempty && (!notemptyAtStart || p > startOffset))
    }
  }

  predicate HasType(env: Env, mask: bv8, c: byte)
    requires |env.ctypes| == 256
  {
    env.ctypes[c] & mask != 0
  }

  predicate TypeHit(env: Env, op: byte, c: byte)
    requires |env.ctypes| == 256
  {
    if op == OP_DIGIT then HasType(env, CTYPE_DIGIT, c)
    else if op == OP_NOT_DIGIT then !HasType(env, CTYPE_DIGIT, c)
    else if op == OP_WHITESPACE then HasType(env, CTYPE_SPACE, c)
    else if op == OP_NOT_WHITESPACE then !HasType(env, CTYPE_SPACE, c)
    else if op == OP_WORDCHAR then HasType(env, CTYPE_WORD, c)
    else if op == OP_NOT_WORDCHAR then !HasType(env, CTYPE_WORD, c)
    else op != OP_ANY || c != env.nl
  }

  /** Does the atom match the character? */
  predicate Hit(env: Env, atom: Atom, c: byte)
    requires |env.ctypes| == 256 && |env.fcc| == 256 && AtomOk(atom)
  {
    match atom
    case Chr(op, d) =>
      if op == OP_CHAR then c == d
      else if op == OP_CHARI then c == d || c == env.fcc[d]
      else if op == OP_NOT then c != d
      else c != d && c != env.fcc[d]
    case Type(op) => TypeHit(env, op, c)
    case Cls(_, bits) => InBitmap(bits, c)
  }

  /** Does the atom match the character at position p of the subject? */
  predicate HitAt(env: Env, atom: Atom, p: nat) {
    |env.ctypes| == 256 && |env.fcc| == 256 && AtomOk(atom) && p < |env.s| && Hit(env, atom, env.s[p])
  }

  predicate AnchorHolds(env: Env, op: byte, p: nat) {
    if op == OP_SOD then p == 0
    else if op == OP_CIRC then p == 0 && !env.notbol
    else if op == OP_EOD then p >= |env.s|
    else !env.noteol && (p >= |env.s| || (!env.dollarEndonly && p == |env.s| - 1 && env.s[p] == env.nl))
  }

  /** The bounds of a repeat; -1 means no upper bound. */
  function RepMin(atom: Atom, k: nat, lo: nat, hi: nat): nat {
    if atom.Cls? then
      if HasRange(k) then lo else if k == K_PLUS || k == K_MINPLUS || k == K_CRPOSPLUS then 1 else 0
    else
      if k == K_EXACT then hi else if k == K_PLUS || k == K_MINPLUS || k == K_POSPLUS then 1 else 0
  }

  function RepMax(atom: Atom, k: nat, lo: nat, hi: nat): (r: int)
    ensures r >= -1
  {
    if atom.Cls? then
      if HasRange(k) then (if hi == 0 then -1 else hi)
      else if k == K_QUERY || k == K_MINQUERY || k == K_CRPOSQUERY then 1 else -1
    else
      if HasCount(k) then hi else if k == K_QUERY || k == K_MINQUERY || k == K_POSQUERY then 1 else -1
  }

  predicate RepPoss(atom: Atom, k: nat) {
    if atom.Cls? then k >= K_CRPOSSTAR else k >= K_POSSTAR
  }

  /** Every character in s[p..q] is matched by the atom. */
  ghost predicate Run(env: Env, atom: Atom, p: nat, q: nat) {
    p <= q <= |env.s| && forall i :: p <= i < q ==> HitAt(env, atom, i)
  }

  ghost predicate MRep(env: Env, atom: Atom, min: nat, max: int, poss: bool, p: nat, q: nat) {
    && Run(env, atom, p, q)
    && min <= q - p
    && (max == -1 || q - p <= max)
    && (poss ==> q - p == max || !HitAt(env, atom, q))
  }

  /** A subroutine call of group num at p may end at q. */
  datatype Fact = Fact(num: nat, p: nat, q: nat)

  ghost predicate MItem(env: Env, facts: iset<Fact>, it: Item, p: nat, q: nat)
    decreases it, 0
  {
    match it
    case Anchor(op) => p == q && AnchorHolds(env, op, p)
    case One(atom) => q == p + 1 && HitAt(env, atom, p)
    case Rep(atom, k, lo, hi) =>
      MRep(env, atom, RepMin(atom, k, lo, hi), RepMax(atom, k, lo, hi), RepPoss(atom, k), p, q)
    case Group(_, _, alts, ket) =>
      if ket == OP_KET then MAlts(env, facts, alts, p, q)
      else exists n: nat :: n >= 1 && MIter(env, facts, alts, n, p, q)
    case Zero(op, g) => p == q || (op != OP_SKIPZERO && MItem(env, facts, g, p, q))
    case Call(num) => Fact(num, p, q) in facts
  }

  ghost predicate MBranch(env: Env, facts: iset<Fact>, b: Branch, p: nat, q: nat)
    decreases b, 0
  {
    match b
    case Nil => p == q
    case Cons(it, rest) => exists r: nat :: MItem(env, facts, it, p, r) && MBranch(env, facts, rest, r, q)
  }

  ghost predicate MAlts(env: Env, facts: iset<Fact>, alts: Alts, p: nat, q: nat)
    decreases alts, 0
  {
    match alts
    case Last(b) => MBranch(env, facts, b, p, q)
    case More(b, rest) => MBranch(env, facts, b, p, q) || MAlts(env, facts, rest, p, q)
  }

  /** Exactly n passes through the group, one after the other. */
  ghost predicate MIter(env: Env, facts: iset<Fact>, alts: Alts, n: nat, p: nat, q: nat)
    decreases alts, n + 1
  {
    if n == 0 then p == q
    else exists r: nat :: MAlts(env, facts, alts, p, r) && MIter(env, facts, alts, n - 1, r, q)
  }

  /** The first group, in the order of the code, that has the given number. */
  function FindGroup(it: Item, num: nat): (r: Option<Item>)
    ensures r.Some? ==> r.value.Group? && r.value.num == num
    decreases it
  {
    match it
    case Group(_, n, alts, _) => if n == num && num != 0 then Some(it) else FindInAlts(alts, num)
    case Zero(_, g) => FindGroup(g, num)
    case _ => None
  }

  function FindInBranch(b: Branch, num: nat): (r: Option<Item>)
    ensures r.Some? ==> r.value.Group? && r.value.num == num
    decreases b
  {
    match b
    case Nil => None
    case Cons(it, rest) => var r := FindGroup(it, num); if r.Some? then r else FindInBranch(rest, num)
  }

  function FindInAlts(alts: Alts, num: nat): (r: Option<Item>)
    ensures r.Some? ==> r.value.Group? && r.value.num == num
    decreases alts
  {
    match alts
    case Last(b) => FindInBranch(b, num)
    case More(b, rest) => var r := FindInBranch(b, num); if r.Some? then r else FindInAlts(rest, num)
  }

  /** The group a call of num leads to; 0 stands for the whole pattern. */
  function Callee(root: Item, num: nat): (r: Option<Item>)
    requires root.Group?
    ensures r.Some? ==> r.value.Group?
  {
    if num == 0 then Some(root) else FindGroup(root, num)
  }

  /** One pass through the called group, whatever its own repeat. */
  ghost predicate CallMatches(env: Env, root: Item, facts: iset<Fact>, f: Fact)
    requires root.Group?
  {
    && f.p <= |env.s|
    && env.Allowed(f.p, f.q)
    && Callee(root, f.num).Some?
    && MAlts(env, facts, Callee(root, f.num).value.alts, f.p, f.q)
  }

  ghost predicate FactAt(env: Env, root: Item, d: nat, f: Fact)
    requires root.Group?
    decreases d, 0
  {
    d > 0 && CallMatches(env, root, FactsTo(env, root, d - 1), f)
  }

  /** The facts that need calls nested less than d deep. */
  ghost function FactsTo(env: Env, root: Item, d: nat): iset<Fact>
    requires root.Group?
    decreases d, 1
  {
    iset f: Fact | FactAt(env, root, d, f)
  }

  ghost predicate SomeDepth(env: Env, root: Item, f: Fact)
    requires root.Group?
  {
    exists d: nat :: FactAt(env, root, d, f)
  }

  ghost function Facts(env: Env, root: Item): iset<Fact>
    requires root.Group?
  {
    iset f: Fact | SomeDepth(env, root, f)
  }

  /** The whole pattern matches s[p..q]. */
  ghost predicate Matches(env: Env, root: Item, p: nat, q: nat)
    requires root.Group?
  {
    MAlts(env, Facts(env, root), root.alts, p, q) && env.Allowed(p, q)
  }

  // ---------- taking the meaning apart ----------

  lemma BranchSplit(env: Env, facts: iset<Fact>, b: Branch, p: nat, q: nat) returns (r: nat)
    requires b.Cons? && MBranch(env, facts, b, p, q)
    ensures MItem(env, facts, b.head, p, r) && MBranch(env, facts, b.tail, r, q)
  {
    r :| MItem(env, facts, b.head, p, r) && MBranch(env, facts, b.tail, r, q);
  }

  lemma BranchJoin(env: Env, facts: iset<Fact>, b: Branch, p: nat, r: nat, q: nat)
    requires b.Cons? && MItem(env, facts, b.head, p, r) && MBranch(env, facts, b.tail, r, q)
    ensures MBranch(env, facts, b, p, q)
  {
  }

  lemma IterTake(env: Env, facts: iset<Fact>, alts: Alts, n: nat, p: nat, q: nat) returns (r: nat)
    requires n > 0 && MIter(env, facts, alts, n, p, q)
    ensures MAlts(env, facts, alts, p, r) && MIter(env, facts, alts, n - 1, r, q)
  {
    r :| MAlts(env, facts, alts, p, r) && MIter(env, facts, alts, n - 1, r, q);
  }

  lemma IterJoin(env: Env, facts: iset<Fact>, alts: Alts, n: nat, p: nat, r: nat, q: nat)
    requires MAlts(env, facts, alts, p, r) && MIter(env, facts, alts, n, r, q)
    ensures MIter(env, facts, alts, n + 1, p, q)
  {
  }

  lemma LoopPasses(env: Env, facts: iset<Fact>, g: Item, p: nat, q: nat) returns (n: nat)
    requires g.Group? && g.ket != OP_KET && MItem(env, facts, g, p, q)
    ensures n >= 1 && MIter(env, facts, g.alts, n, p, q)
  {
    n :| n >= 1 && MIter(env, facts, g.alts, n, p, q);
  }

  // ---------- positions stay inside the subject ----------

  ghost predicate FactsOk(env: Env, facts: iset<Fact>) {
    forall f :: f in facts ==> f.p <= f.q <= |env.s|
  }

  lemma {:induction false} ItemBounds(env: Env, facts: iset<Fact>, it: Item, p: nat, q: nat)
    requires FactsOk(env, facts) && p <= |env.s| && MItem(env, facts, it, p, q)
    ensures p <= q <= |env.s|
    decreases it, 0
  {
    match it
    case Anchor(_) =>
    case One(_) =>
    case Rep(_, _, _, _) =>
    case Group(_, _, alts, ket) =>
      if ket == OP_KET {
        AltsBounds(env, facts, alts, p, q);
      } else {
        var n: nat :| n >= 1 && MIter(env, facts, alts, n, p, q);
        IterBounds(env, facts, alts, n, p, q);
      }
    case Zero(_, g) => if p != q { ItemBounds(env, facts, g, p, q); }
    case Call(num) => assert Fact(num, p, q) in facts;
  }

  lemma {:induction false} BranchBounds(env: Env, facts: iset<Fact>, b: Branch, p: nat, q: nat)
    requires FactsOk(env, facts) && p <= |env.s| && MBranch(env, facts, b, p, q)
    ensures p <= q <= |env.s|
    decreases b, 0
  {
    if b.Cons? {
      var r: nat :| MItem(env, facts, b.head, p, r) && MBranch(env, facts, b.tail, r, q);
      ItemBounds(env, facts, b.head, p, r);
      BranchBounds(env, facts, b.tail, r, q);
    }
  }

  lemma {:induction false} AltsBounds(env: Env, facts: iset<Fact>, alts: Alts, p: nat, q: nat)
    requires FactsOk(env, facts) && p <= |env.s| && MAlts(env, facts, alts, p, q)
    ensures p <= q <= |env.s|
    decreases alts, 0
  {
    if MBranch(env, facts, alts.b, p, q) {
      BranchBounds(env, facts, alts.b, p, q);
    } else {
      AltsBounds(env, facts, alts.rest, p, q);
    }
  }

  lemma {:induction false} IterBounds(env: Env, facts: iset<Fact>, alts: Alts, n: nat, p: nat, q: nat)
    requires FactsOk(env, facts) && p <= |env.s| && MIter(env, facts, alts, n, p, q)
    ensures p <= q <= |env.s|
    decreases alts, n + 1
  {
    if n > 0 {
      var r: nat :| MAlts(env, facts, alts, p, r) && MIter(env, facts, alts, n - 1, r, q);
      AltsBounds(env, facts, alts, p, r);
      IterBounds(env, facts, alts, n - 1, r, q);
    }
  }

  lemma {:induction false} FactsToOk(env: Env, root: Item, d: nat)
    requires root.Group?
    ensures FactsOk(env, FactsTo(env, root, d))
  {
    if d > 0 {
      FactsToOk(env, root, d - 1);
      forall f | f in FactsTo(env, root, d) ensures f.p <= f.q <= |env.s| {
        assert FactAt(env, root, d, f);
        AltsBounds(env, FactsTo(env, root, d - 1), Callee(root, f.num).value.alts, f.p, f.q);
      }
    }
  }

  lemma FactsAreOk(env: Env, root: Item)
    requires root.Group?
    ensures FactsOk(env, Facts(env, root))
  {
    forall f | f in Facts(env, root) ensures f.p <= f.q <= |env.s| {
      var d: nat :| FactAt(env, root, d, f);
      FactsToOk(env, root, d);
    }
  }

  // ---------- more facts, more matches ----------

  lemma {:induction false} ItemMono(env: Env, f1: iset<Fact>, f2: iset<Fact>, it: Item, p: nat, q: nat)
    requires f1 <= f2 && MItem(env, f1, it, p, q)
    ensures MItem(env, f2, it, p, q)
    decreases it, 0
  {
    match it
    case Group(_, _, alts, ket) =>
      if ket == OP_KET {
        AltsMono(env, f1, f2, alts, p, q);
      } else {
        var n: nat :| n >= 1 && MIter(env, f1, alts, n, p, q);
        IterMono(env, f1, f2, alts, n, p, q);
      }
    case Zero(_, g) => if p != q { ItemMono(env, f1, f2, g, p, q); }
    case _ =>
  }

  lemma {:induction false} BranchMono(env: Env, f1: iset<Fact>, f2: iset<Fact>, b: Branch, p: nat, q: nat)
    requires f1 <= f2 && MBranch(env, f1, b, p, q)
    ensures MBranch(env, f2, b, p, q)
    decreases b, 0
  {
    if b.Cons? {
      var r: nat :| MItem(env, f1, b.head, p, r) && MBranch(env, f1, b.tail, r, q);
      ItemMono(env, f1, f2, b.head, p, r);
      BranchMono(env, f1, f2, b.tail, r, q);
    }
  }

  lemma {:induction false} AltsMono(env: Env, f1: iset<Fact>, f2: iset<Fact>, alts: Alts, p: nat, q: nat)
    requires f1 <= f2 && MAlts(env, f1, alts, p, q)
    ensures MAlts(env, f2, alts, p, q)
    decreases alts, 0
  {
    if MBranch(env, f1, alts.b, p, q) {
      BranchMono(env, f1, f2, alts.b, p, q);
    } else {
      AltsMono(env, f1, f2, alts.rest, p, q);
    }
  }

  lemma {:induction false} IterMono(env: Env, f1: iset<Fact>, f2: iset<Fact>, alts: Alts, n: nat, p: nat, q: nat)
    requires f1 <= f2 && MIter(env, f1, alts, n, p, q)
    ensures MIter(env, f2, alts, n, p, q)
    decreases alts, n + 1
  {
    if n > 0 {
      var r: nat :| MAlts(env, f1, alts, p, r) && MIter(env, f1, alts, n - 1, r, q);
      AltsMono(env, f1, f2, alts, p, r);
      IterMono(env, f1, f2, alts, n - 1, r, q);
    }
  }

  lemma {:induction false} FactsToStep(env: Env, root: Item, d: nat)
    requires root.Group?
    ensures FactsTo(env, root, d) <= FactsTo(env, root, d + 1)
  {
    if d > 0 {
      FactsToStep(env, root, d - 1);
      forall f | f in FactsTo(env, root, d) ensures f in FactsTo(env, root, d + 1) {
        AltsMono(env, FactsTo(env, root, d - 1), FactsTo(env, root, d), Callee(root, f.num).value.alts, f.p, f.q);
      }
    }
  }

  lemma {:induction false} FactsToMono(env: Env, root: Item, d: nat, e: nat)
    requires root.Group? && d <= e
    ensures FactsTo(env, root, d) <= FactsTo(env, root, e)
    decreases e - d
  {
    if d < e {
      FactsToStep(env, root, d);
      FactsToMono(env, root, d + 1, e);
    }
  }

  // ---------- a match uses finitely many facts ----------

  lemma {:induction false} ItemDepth(env: Env, root: Item, it: Item, p: nat, q: nat) returns (d: nat)
    requires root.Group? && MItem(env, Facts(env, root), it, p, q)
    ensures MItem(env, FactsTo(env, root, d), it, p, q)
    decreases it, 0
  {
    d := 0;
    match it
    case Group(_, _, alts, ket) =>
      if ket == OP_KET {
        d := AltsDepth(env, root, alts, p, q);
      } else {
        var n: nat :| n >= 1 && MIter(env, Facts(env, root), alts, n, p, q);
        d := IterDepth(env, root, alts, n, p, q);
      }
    case Zero(_, g) => if p != q { d := ItemDepth(env, root, g, p, q); }
    case Call(num) => d :| FactAt(env, root, d, Fact(num, p, q));
    case _ =>
  }

  lemma {:induction false} BranchDepth(env: Env, root: Item, b: Branch, p: nat, q: nat) returns (d: nat)
    requires root.Group? && MBranch(env, Facts(env, root), b, p, q)
    ensures MBranch(env, FactsTo(env, root, d), b, p, q)
    decreases b, 0
  {
    d := 0;
    if b.Cons? {
      var r: nat :| MItem(env, Facts(env, root), b.head, p, r) && MBranch(env, Facts(env, root), b.tail, r, q);
      var d1 := ItemDepth(env, root, b.head, p, r);
      var d2 := BranchDepth(env, root, b.tail, r, q);
      d := if d1 < d2 then d2 else d1;
      FactsToMono(env, root, d1, d);
      FactsToMono(env, root, d2, d);
      ItemMono(env, FactsTo(env, root, d1), FactsTo(env, root, d), b.head, p, r);
      BranchMono(env, FactsTo(env, root, d2), FactsTo(env, root, d), b.tail, r, q);
    }
  }

  lemma {:induction false} AltsDepth(env: Env, root: Item, alts: Alts, p: nat, q: nat) returns (d: nat)
    requires root.Group? && MAlts(env, Facts(env, root), alts, p, q)
    ensures MAlts(env, FactsTo(env, root, d), alts, p, q)
    decreases alts, 0
  {
    if MBranch(env, Facts(env, root), alts.b, p, q) {
      d := BranchDepth(env, root, alts.b, p, q);
    } else {
      d := AltsDepth(env, root, alts.rest, p, q);
    }
  }

  lemma {:induction false} IterDepth(env: Env, root: Item, alts: Alts, n: nat, p: nat, q: nat) returns (d: nat)
    requires root.Group? && MIter(env, Facts(env, root), alts, n, p, q)
    ensures MIter(env, FactsTo(env, root, d), alts, n, p, q)
    decreases alts, n + 1
  {
    d := 0;
    if n > 0 {
      var r: nat :| MAlts(env, Facts(env, root), alts, p, r) && MIter(env, Facts(env, root), alts, n - 1, r, q);
      var d1 := AltsDepth(env, root, alts, p, r);
      var d2 := IterDepth(env, root, alts, n - 1, r, q);
      d := if d1 < d2 then d2 else d1;
      FactsToMono(env, root, d1, d);
      FactsToMono(env, root, d2, d);
      AltsMono(env, FactsTo(env, root, d1), FactsTo(env, root, d), alts, p, r);
      IterMono(env, FactsTo(env, root, d2), FactsTo(env, root, d), alts, n - 1, r, q);
    }
  }

  /** The facts of a pattern are a fixed point: a call matches exactly what one
    * pass through the called group matches, calls included. */
  lemma CallsAreClosed(env: Env, root: Item, f: Fact)
    requires root.Group?
    ensures f in Facts(env, root) <==> CallMatches(env, root, Facts(env, root), f)
  {
    if f in Facts(env, root) {
      var d: nat :| FactAt(env, root, d, f);
      assert FactsTo(env, root, d - 1) <= Facts(env, root);
      AltsMono(env, FactsTo(env, root, d - 1), Facts(env, root), Callee(root, f.num).value.alts, f.p, f.q);
    }
    if CallMatches(env, root, Facts(env, root), f) {
      var d := AltsDepth(env, root, Callee(root, f.num).value.alts, f.p, f.q);
      assert f in FactsTo(env, root, d + 1);
    }
  }
}
