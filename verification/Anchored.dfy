/** Is a pattern anchored? It is when every alternative starts with an anchor at the
  * start of the subject, or with an unlimited repeat of any character. The main
  * result is that for an anchored pattern a match at a later start implies a match
  * at every earlier one, so trying one start is enough.
  */
module Anchored {
  import opened Opcodes
  import opened Tree
  import opened Meaning
  import opened Machine
  import opened Decoding
  import opened Program
  import opened CodeScan

  /** A match from a later start implies one from an earlier start, to the same end. */
  ghost predicate EarlierItem(root: Item, it: Item)
    requires root.Group?
  {
    forall env: Env, p: nat, p': nat, q: nat ::
      env.Ok() && p < p' <= |env.s| && MItem(env, Facts(env, root), it, p', q) ==>
        MItem(env, Facts(env, root), it, p, q)
  }

  ghost predicate EarlierBranch(root: Item, b: Branch)
    requires root.Group?
  {
    forall env: Env, p: nat, p': nat, q: nat ::
      env.Ok() && p < p' <= |env.s| && MBranch(env, Facts(env, root), b, p', q) ==>
        MBranch(env, Facts(env, root), b, p, q)
  }

  ghost predicate EarlierAlts(root: Item, alts: Alts)
    requires root.Group?
  {
    forall env: Env, p: nat, p': nat, q: nat ::
      env.Ok() && p < p' <= |env.s| && MAlts(env, Facts(env, root), alts, p', q) ==>
        MAlts(env, Facts(env, root), alts, p, q)
  }

  lemma EarlierFirst(root: Item, b: Branch)
    requires root.Group? && b.Cons? && EarlierItem(root, b.head)
    ensures EarlierBranch(root, b)
  {
    forall env: Env, p: nat, p': nat, q: nat | env.Ok() && p < p' <= |env.s| && MBranch(env, Facts(env, root), b, p', q)
      ensures MBranch(env, Facts(env, root), b, p, q)
    {
      var r := BranchSplit(env, Facts(env, root), b, p', q);
      BranchJoin(env, Facts(env, root), b, p, r, q);
    }
  }

  lemma EarlierMore(root: Item, alts: Alts)
    requires root.Group? && EarlierBranch(root, alts.b) && (alts.More? ==> EarlierAlts(root, alts.rest))
    ensures EarlierAlts(root, alts)
  {
  }

  lemma EarlierGroup(root: Item, g: Item)
    requires root.Group? && g.Group? && EarlierAlts(root, g.alts)
    ensures EarlierItem(root, g)
  {
    forall env: Env, p: nat, p': nat, q: nat | env.Ok() && p < p' <= |env.s| && MItem(env, Facts(env, root), g, p', q)
      ensures MItem(env, Facts(env, root), g, p, q)
    {
      if g.ket == OP_KET {
        assert MAlts(env, Facts(env, root), g.alts, p', q);
      } else {
        var n := LoopPasses(env, Facts(env, root), g, p', q);
        var r := IterTake(env, Facts(env, root), g.alts, n, p', q);
        IterJoin(env, Facts(env, root), g.alts, n - 1, p, r, q);
      }
    }
  }

  /** A start anchor matches at no later start at all. */
  lemma EarlierAnchor(root: Item, op: byte)
    requires root.Group? && (op == OP_SOD || op == OP_CIRC)
    ensures EarlierItem(root, Anchor(op))
  {
  }

  /** An unlimited repeat of any character can take in what lies before. */
  lemma EarlierAny(root: Item, k: nat)
    requires root.Group? && (k == K_STAR || k == K_MINSTAR || k == K_POSSTAR)
    ensures EarlierItem(root, Rep(Type(OP_ALLANY), k, 0, 0))
  {
    var atom := Type(OP_ALLANY);
    forall env: Env, p: nat, p': nat, q: nat
      | env.Ok() && p < p' <= |env.s| && MItem(env, Facts(env, root), Rep(atom, k, 0, 0), p', q)
      ensures MItem(env, Facts(env, root), Rep(atom, k, 0, 0), p, q)
    {
      assert forall i: nat :: i < |env.s| ==> HitAt(env, atom, i);
    }
  }

  // ---------- what the scan looks for ----------

  /** The branch starts with an anchor at the start of the subject, with an unlimited
    * repeat of any character, or with a group all of whose alternatives do. */
  predicate AnchoredBranch(b: Branch)
    decreases b
  {
    b.Cons? &&
    match b.head
    case Anchor(op) => op == OP_SOD || op == OP_CIRC
    case Rep(atom, k, _, _) => atom == Type(OP_ALLANY) && (k == K_STAR || k == K_MINSTAR || k == K_POSSTAR)
    case Group(_, _, alts, _) => AnchoredAlts(alts)
    case _ => false
  }

  predicate AnchoredAlts(alts: Alts)
    decreases alts
  {
    AnchoredBranch(alts.b) && (alts.More? ==> AnchoredAlts(alts.rest))
  }

  lemma {:induction false} AnchoredIsEarlier(root: Item, alts: Alts)
    requires root.Group? && AnchoredAlts(alts) && WellFormedAlts(alts)
    ensures EarlierAlts(root, alts)
    decreases alts
  {
    hide EarlierAlts, EarlierBranch;
    BranchIsEarlier(root, alts.b);
    if alts.More? {
      AnchoredIsEarlier(root, alts.rest);
    }
    EarlierMore(root, alts);
  }

  lemma {:induction false} BranchIsEarlier(root: Item, b: Branch)
    requires root.Group? && AnchoredBranch(b) && WellFormedBranch(b)
    ensures EarlierBranch(root, b)
    decreases b
  {
    hide EarlierAlts, EarlierItem, EarlierBranch;
    match b.head
    case Anchor(op) => EarlierAnchor(root, op); EarlierFirst(root, b);
    case Rep(_, k, lo, hi) => EarlierAny(root, k); EarlierFirst(root, b);
    case Group(_, _, alts, _) =>
      AnchoredIsEarlier(root, alts);
      EarlierGroup(root, b.head);
      EarlierFirst(root, b);
    case _ =>
  }

  /** The repeats that a branch may start with carry no counts. */
  predicate WellFormedBranch(b: Branch)
    decreases b
  {
    b.Cons? ==>
      match b.head
      case Rep(atom, k, lo, hi) => RepOk(atom, k, lo, hi)
      case Group(_, _, alts, _) => WellFormedAlts(alts)
      case _ => true
  }

  predicate WellFormedAlts(alts: Alts)
    decreases alts
  {
    WellFormedBranch(alts.b) && (alts.More? ==> WellFormedAlts(alts.rest))
  }

  lemma {:induction false} LaidIsWellFormed(x: PlainLinks, code: seq<byte>, h: nat, st: nat, alts: Alts, bra: nat,
                                            ket: byte)
    requires LayAlts(x, code, h, st, alts, bra, ket) && IsKet(ket)
    ensures WellFormedAlts(alts)
    decreases alts
  {
    hide LayAlts, LayBranch;
    LayFirst(x, code, h, st, alts, bra, ket);
    LaidBranchIsWellFormed(x, code, st, alts.b);
    if alts.More? {
      LaidIsWellFormed(x, code, st + BranchSize(alts.b), st + BranchSize(alts.b) + 3, alts.rest, bra, ket);
    }
  }

  lemma {:induction false} LaidBranchIsWellFormed(x: PlainLinks, code: seq<byte>, a: nat, b: Branch)
    requires LayBranch(x, code, a, b)
    ensures WellFormedBranch(b)
    decreases b
  {
    if b.Cons? {
      OpenBranch(x, code, a, b.head, b.tail);
      hide LayAlts;
      if b.head.Group? {
        LayGroup(x, code, a, b.head);
        LaidIsWellFormed(x, code, a, a + BraSize(b.head.bra), b.head.alts, a, b.head.ket);
      }
    }
  }

  // ---------- the scan ----------

  /** Do all alternatives from the header at h on start with an anchor? */
  method IsAnchored(code: seq<byte>, h: nat, ghost x: PlainLinks, ghost alts: Alts, ghost bra: nat, ghost ket: byte)
    returns (anchored: bool)
    requires h < |code| && IsKet(ket) && LayAlts(x, code, h, h + OpLength(code[h]), alts, bra, ket)
    ensures anchored <==> AnchoredAlts(alts)
    decreases alts, 1
  {
    hide LayAlts, LayBranch, AnchoredBranch, Headed, ChainOk, EndOf, BranchSize;
    var here: nat := h;
    ghost var cur := alts;
    FirstHeader(x, code, h, alts, bra, ket);
    while true
      invariant cur == alts || cur < alts
      invariant Headed(x, code, h, here, cur, bra, ket)
      invariant AnchoredAlts(cur) <==> AnchoredAlts(alts)
      decreases cur
    {
      AtHeader(x, code, h, here, cur, bra, ket);
      var starts := StartsAnchored(code, here + OpLength(code[here]), x, cur.b);
      if !starts {
        return false;
      }
      NextHeader(x, code, h, here, cur, bra, ket);
      here := here + Get(code, here + 1);
      if code[here] != OP_ALT {
        return true;
      }
      cur := cur.rest;
    }
  }

  /** Does the branch at scode start with an anchor? */
  method StartsAnchored(code: seq<byte>, scode: nat, ghost x: PlainLinks, ghost b: Branch) returns (anchored: bool)
    requires LayBranch(x, code, scode, b)
    requires var e := scode + BranchSize(b); e + 3 <= |code| && (code[e] == OP_ALT || IsKet(code[e]))
    ensures anchored <==> AnchoredBranch(b)
    decreases b, 0
  {
    hide LayAlts, AnchoredAlts;
    var op := code[scode];
    StartsLike(x, code, scode, b);
    if op == OP_BRA || op == OP_SBRA || op == OP_CBRA || op == OP_SCBRA {
      StartsWithGroup(x, code, scode, b);
      ghost var g := b.head;
      anchored := IsAnchored(code, scode, x, g.alts, scode, g.ket);
    } else if op == OP_TYPESTAR || op == OP_TYPESTAR + K_MINSTAR || op == OP_TYPESTAR + K_POSSTAR {
      StartsWithAny(x, code, scode, b);
      anchored := code[scode + 1] == OP_ALLANY;
    } else {
      anchored := op == OP_SOD || op == OP_CIRC;
    }
  }

  /** What the first byte of a branch says about its first item. */
  lemma StartsLike(x: PlainLinks, code: seq<byte>, a: nat, b: Branch)
    requires LayBranch(x, code, a, b)
    requires var e := a + BranchSize(b); e + 3 <= |code| && (code[e] == OP_ALT || IsKet(code[e]))
    ensures a < |code|
    ensures IsBra(code[a]) <==> b.Cons? && b.head.Group?
    ensures IsAnchor(code[a]) <==> b.Cons? && b.head.Anchor?
    ensures IsAnchor(code[a]) ==> b.head.op == code[a]
    ensures (code[a] == OP_TYPESTAR || code[a] == OP_TYPESTAR + K_MINSTAR || code[a] == OP_TYPESTAR + K_POSSTAR)
            <==> b.Cons? && b.head.Rep? && b.head.atom.Type?
                 && (b.head.k == K_STAR || b.head.k == K_MINSTAR || b.head.k == K_POSSTAR)
    ensures b.Nil? ==> code[a] == OP_ALT || IsKet(code[a])
  {
    hide LayAlts;
    if b.Cons? {
      OpenBranch(x, code, a, b.head, b.tail);
      if b.head.Rep? {
        LaidTypeByte(code, a, b.head.atom, b.head.k, b.head.lo, b.head.hi);
      }
    }
  }

  lemma LaidTypeByte(code: seq<byte>, a: nat, atom: Atom, k: nat, lo: nat, hi: nat)
    requires LayRep(code, a, atom, k, lo, hi)
    ensures if atom.Cls? then IsClass(code[a]) else IsRepeat(code[a]) && code[a] == RepBase(atom) + k && k <= K_POSUPTO
    ensures atom.Type? <==> OP_TYPESTAR <= code[a] <= OP_TYPEPOSUPTO
  {
  }

  lemma StartsWithGroup(x: PlainLinks, code: seq<byte>, a: nat, b: Branch)
    requires LayBranch(x, code, a, b) && a < |code| && IsBra(code[a]) && b.Cons? && b.head.Group?
    ensures IsKet(b.head.ket) && LayAlts(x, code, a, a + OpLength(code[a]), b.head.alts, a, b.head.ket)
  {
    hide LayItem, LayBranch, LayAlts, OpLength;
    OpenBranch(x, code, a, b.head, b.tail);
    BraAt(x, code, a, b.head);
    LayGroup(x, code, a, b.head);
    BraLength(code[a]);
  }

  lemma StartsWithAny(x: PlainLinks, code: seq<byte>, a: nat, b: Branch)
    requires LayBranch(x, code, a, b) && b.Cons? && b.head.Rep? && b.head.atom.Type? && !HasCount(b.head.k)
    ensures a + 1 < |code| && code[a + 1] == b.head.atom.op
  {
    OpenBranch(x, code, a, b.head, b.tail);
  }

  /** Is the pattern anchored? If so, a match at some start implies one at every
    * earlier start. */
  method PatternIsAnchored(code: seq<byte>, ghost x: PlainLinks, ghost root: Item) returns (anchored: bool)
    requires root.Group? && IsProgram(x, code, root)
    ensures anchored <==> AnchoredAlts(root.alts)
    ensures anchored ==> EarlierAlts(root, root.alts)
    ensures anchored ==> forall env: Env, p: nat, p': nat, q: nat ::
              env.Ok() && p < p' <= |env.s| && Matches(env, root, p', q) ==> Matches(env, root, p, q)
  {
    LayGroup(x, code, 0, root);
    assert code[0] == OP_BRA;
    anchored := IsAnchored(code, 0, x, root.alts, 0, root.ket);
    if anchored {
      LaidIsWellFormed(x, code, 0, BraSize(root.bra), root.alts, 0, root.ket);
      AnchoredIsEarlier(root, root.alts);
      AnchoredMatches(root);
    }
  }

  lemma AnchoredMatches(root: Item)
    requires root.Group? && EarlierAlts(root, root.alts)
    ensures forall env: Env, p: nat, p': nat, q: nat ::
              env.Ok() && p < p' <= |env.s| && Matches(env, root, p', q) ==> Matches(env, root, p, q)
  {
    forall env: Env, p: nat, p': nat, q: nat | env.Ok() && p < p' <= |env.s| && Matches(env, root, p', q)
      ensures Matches(env, root, p, q)
    {
      FactsAreOk(env, root);
      AltsBounds(env, Facts(env, root), root.alts, p', q);
    }
  }
}
