/** The order in which a pattern tries its matches: alternatives from left to right, a
  * greedy quantifier more passes first, a lazy one fewer first. The main result is that
  * backtracking over the compiled code finds the first match in this order, for patterns
  * that call no groups.
  */
module Ordering {
  import opened Opcodes
  import opened Tree
  import opened Meaning
  import opened Pattern
  import opened Machine
  import opened Decoding
  import opened Program
  import opened References
  import opened Backtrack
  import opened Finding
  import opened Expansion
  import opened Trying

  // ---------- the order of a pattern ----------

  /** The ends of the matches of a node from p, in the order in which they are tried. What is
    * repeated possessively has the first one only, and so has a call. */
  ghost function NodeTries(env: Env, answers: Answers, n: Node, p: nat): (rs: seq<nat>)
    requires NodeOk(n) && p <= |env.s|
    ensures Between(rs, p, |env.s|)
    decreases n, 0, |env.s| - p, 0, 0
  {
    match n
    case Assert(op) => if AnchorHolds(env, op, p) then [p] else []
    case Single(atom) => if HitAt(env, atom, p) then [p + 1] else []
    case Sub(_, c) => ChoiceTries(env, answers, c, p)
    case Recurse(num) =>
      var q := answers(num, p);
      if q.Some? && p <= q.value <= |env.s| then [q.value] else []
    case Repeat(body, min, max, greed) =>
      var rs := TimesTries(env, answers, body, min, max, greed, p);
      if greed == Possessive then Head(rs) else rs
  }

  /** Between min and max passes. A pass may be followed by another one, unless it was the
    * last one of a loop and has matched nothing; when enough have been made, a greedy
    * repeat stops last and a lazy one stops first. */
  ghost function TimesTries(env: Env, answers: Answers, body: Node, min: nat, max: int, greed: Greed,
                            p: nat): (rs: seq<nat>)
    requires NodeOk(body) && p <= |env.s| && (max == -1 || min <= max)
    ensures Between(rs, p, |env.s|)
    decreases body, 1, |env.s| - p, min + max + 1, 0
  {
    var more :=
      if max == 0 then []
      else MoreTries(env, answers, body, min, max, greed, p, NodeTries(env, answers, body, p));
    if min > 0 then more else if greed == Lazy then [p] + more else more + [p]
  }

  /** What is tried behind each of the passes that end at rs. */
  ghost function MoreTries(env: Env, answers: Answers, body: Node, min: nat, max: int, greed: Greed, p: nat,
                           rs: seq<nat>)
    : (all: seq<nat>)
    requires NodeOk(body) && p <= |env.s| && (max == -1 || min <= max) && max != 0 && Between(rs, p, |env.s|)
    ensures Between(all, p, |env.s|)
    decreases body, 1, |env.s| - p, min + max, 1 + |rs|
  {
    if rs == [] then []
    else
      var r := rs[0];
      (if max == -1 && min <= 1 && r == p then [r]
       else
         TimesTries(env, answers, body, if min == 0 then 0 else min - 1, if max == -1 then -1 else max - 1, greed, r))
      + MoreTries(env, answers, body, min, max, greed, p, rs[1..])
  }

  ghost function SequenceTries(env: Env, answers: Answers, s: Sequence, p: nat): (rs: seq<nat>)
    requires SequenceOk(s) && p <= |env.s|
    ensures Between(rs, p, |env.s|)
    decreases s, 1, |env.s| - p, 0, 0
  {
    if s.End? then [p] else RestTries(env, answers, s.rest, p, NodeTries(env, answers, s.first, p))
  }

  /** The ends of the sequence behind each of the positions. */
  ghost function RestTries(env: Env, answers: Answers, s: Sequence, p: nat, rs: seq<nat>): (all: seq<nat>)
    requires SequenceOk(s) && p <= |env.s| && Between(rs, p, |env.s|)
    ensures Between(all, p, |env.s|)
    decreases s, 2, |env.s| - p, 0, |rs|
  {
    if rs == [] then [] else SequenceTries(env, answers, s, rs[0]) + RestTries(env, answers, s, p, rs[1..])
  }

  ghost function ChoiceTries(env: Env, answers: Answers, c: Choice, p: nat): (rs: seq<nat>)
    requires ChoiceOk(c) && p <= |env.s|
    ensures Between(rs, p, |env.s|)
    decreases c, 1, |env.s| - p, 0, 0
  {
    SequenceTries(env, answers, c.seq0, p) + if c.Or? then ChoiceTries(env, answers, c.others, p) else []
  }

  // ---------- going on behind positions ----------

  lemma {:induction false} ThenFrom(env: Env, calls: Answers, b: Branch, p: nat, p': nat, rs: seq<nat>)
    requires p <= |env.s| && p' <= |env.s| && Between(rs, p, |env.s|) && Between(rs, p', |env.s|)
    ensures ThenTries(env, calls, b, p, rs) == ThenTries(env, calls, b, p', rs)
    decreases |rs|
  {
    hide BranchTries;
    if rs != [] {
      ThenFrom(env, calls, b, p, p', rs[1..]);
    }
  }

  lemma BetweenJoin(rs: seq<nat>, more: seq<nat>, p: nat, n: nat)
    requires Between(rs, p, n) && Between(more, p, n)
    ensures Between(rs + more, p, n) && (rs != [] ==> p <= rs[0] <= n && Between(rs[1..], p, n))
  {
  }

  lemma {:induction false} ThenConcat(env: Env, calls: Answers, b: Branch, p: nat, rs: seq<nat>, more: seq<nat>)
    requires p <= |env.s| && Between(rs, p, |env.s|) && Between(more, p, |env.s|)
    ensures Between(rs + more, p, |env.s|)
    ensures ThenTries(env, calls, b, p, rs + more)
            == ThenTries(env, calls, b, p, rs) + ThenTries(env, calls, b, p, more)
    decreases |rs|
  {
    hide BranchTries, Between;
    BetweenJoin(rs, more, p, |env.s|);
    if rs == [] {
      assert rs + more == more;
    } else {
      assert (rs + more)[0] == rs[0] && (rs + more)[1..] == rs[1..] + more;
      ThenConcat(env, calls, b, p, rs[1..], more);
    }
  }

  lemma {:induction false} ThenNil(env: Env, calls: Answers, p: nat, rs: seq<nat>)
    requires p <= |env.s| && Between(rs, p, |env.s|)
    ensures ThenTries(env, calls, Nil, p, rs) == rs
    decreases |rs|
  {
    if rs != [] {
      ThenNil(env, calls, p, rs[1..]);
      assert BranchTries(env, calls, Nil, rs[0]) == [rs[0]];
    }
  }

  lemma OneItem(env: Env, calls: Answers, it: Item, p: nat)
    requires p <= |env.s|
    ensures BranchTries(env, calls, Cons(it, Nil), p) == ItemTries(env, calls, it, p)
  {
    hide ItemTries, ThenTries;
    ThenNil(env, calls, p, ItemTries(env, calls, it, p));
  }

  lemma OneBehind(env: Env, calls: Answers, b: Branch, p: nat, r: nat)
    requires p <= r <= |env.s|
    ensures Between([r], p, |env.s|) && ThenTries(env, calls, b, p, [r]) == BranchTries(env, calls, b, r)
  {
    hide BranchTries;
    assert [r][1..] == [] && ThenTries(env, calls, b, p, [][..]) == [];
  }

  lemma {:induction false} AppendTries(env: Env, calls: Answers, b: Branch, c: Branch, p: nat)
    requires p <= |env.s|
    ensures BranchTries(env, calls, Append(b, c), p) == ThenTries(env, calls, c, p, BranchTries(env, calls, b, p))
    decreases b, 0
  {
    hide ItemTries, ThenTries;
    if b.Nil? {
      OneBehind(env, calls, c, p, p);
    } else {
      AppendThen(env, calls, b.tail, c, p, ItemTries(env, calls, b.head, p));
    }
  }

  lemma {:induction false} AppendThen(env: Env, calls: Answers, b: Branch, c: Branch, p: nat, rs: seq<nat>)
    requires p <= |env.s| && Between(rs, p, |env.s|)
    ensures ThenTries(env, calls, Append(b, c), p, rs) == ThenTries(env, calls, c, p, ThenTries(env, calls, b, p, rs))
    decreases b, 1, |rs|
  {
    hide BranchTries;
    if rs != [] {
      AppendTries(env, calls, b, c, rs[0]);
      AppendThen(env, calls, b, c, p, rs[1..]);
      ThenConcat(env, calls, c, p, BranchTries(env, calls, b, rs[0]), ThenTries(env, calls, b, p, rs[1..]));
      ThenFrom(env, calls, c, p, rs[0], BranchTries(env, calls, b, rs[0]));
    }
  }

  // ---------- groups ----------

  /** The group of the code tries what the group of the pattern tries. */
  ghost predicate SameTries(env: Env, calls: Answers, answers: Answers, g: Item, body: Node) {
    && g.Group? && g.ket == OP_KET && NodeOk(body)
    && forall p: nat :: p <= |env.s| ==> ItemTries(env, calls, g, p) == NodeTries(env, answers, body, p)
  }

  lemma SameAt(env: Env, calls: Answers, answers: Answers, g: Item, body: Node, p: nat)
    requires SameTries(env, calls, answers, g, body) && p <= |env.s|
    ensures g.Group? && g.ket == OP_KET && NodeOk(body)
    ensures ItemTries(env, calls, g, p) == NodeTries(env, answers, body, p)
    ensures PassTries(g.bra, AltsTries(env, calls, g.alts, p)) == NodeTries(env, answers, body, p)
  {
    hide AltsTries, NodeTries;
  }

  /** Whether the next pass of a loop is the first one makes no difference to those behind
    * it. */
  lemma {:induction false} FirstPass(env: Env, answers: Answers, body: Node, greed: Greed, p: nat, rs: seq<nat>)
    requires NodeOk(body) && p <= |env.s| && Between(rs, p, |env.s|)
    ensures MoreTries(env, answers, body, 0, -1, greed, p, rs) == MoreTries(env, answers, body, 1, -1, greed, p, rs)
    decreases |rs|
  {
    hide TimesTries;
    if rs != [] {
      FirstPass(env, answers, body, greed, p, rs[1..]);
    }
  }

  /** A loop that need not be entered. */
  lemma ZeroPasses(env: Env, answers: Answers, body: Node, greed: Greed, p: nat)
    requires NodeOk(body) && p <= |env.s|
    ensures var loop := TimesTries(env, answers, body, 1, -1, greed, p);
            TimesTries(env, answers, body, 0, -1, greed, p) == if greed == Lazy then [p] + loop else loop + [p]
  {
    hide MoreTries, NodeTries;
    FirstPass(env, answers, body, greed, p, NodeTries(env, answers, body, p));
  }

  lemma {:induction false} LoopInOrder(env: Env, calls: Answers, answers: Answers, g: Item, body: Node, greed: Greed,
                                       p: nat)
    requires SameTries(env, calls, answers, g, body) && p <= |env.s|
    ensures g.Group? && NodeOk(body)
    ensures var all := TimesTries(env, answers, body, 1, -1, greed, p);
            ItemTries(env, calls, LoopItem(g, greed), p) == if greed == Possessive then Head(all) else all
    decreases |env.s| - p, 1, 0
  {
    hide SameTries, LoopTries, PosTries, MoreTries, AltsTries, NodeTries, ItemTries, LoopItem;
    SameAt(env, calls, answers, g, body, p);
    LoopIs(env, calls, g, greed, p);
    hide PassTries;
    if greed == Possessive {
      PosMore(env, calls, answers, g, body, p, AltsTries(env, calls, g.alts, p));
    } else {
      LoopMore(env, calls, answers, g, body, greed, p, NodeTries(env, answers, body, p));
    }
  }

  /** How a loop of the code tries its passes. */
  lemma LoopIs(env: Env, calls: Answers, g: Item, greed: Greed, p: nat)
    requires g.Group? && p <= |env.s|
    ensures var rs := AltsTries(env, calls, g.alts, p);
            ItemTries(env, calls, LoopItem(g, greed), p)
            == if greed == Possessive then PosTries(env, calls, LoopItem(g, greed), p, rs)
               else LoopTries(env, calls, LoopItem(g, greed), p, PassTries(g.bra, rs))
  {
    hide LoopTries, PosTries, AltsTries;
  }

  lemma {:induction false} LoopMore(env: Env, calls: Answers, answers: Answers, g: Item, body: Node, greed: Greed,
                                    p: nat, rs: seq<nat>)
    requires SameTries(env, calls, answers, g, body) && greed != Possessive && p <= |env.s| && Between(rs, p, |env.s|)
    ensures g.Group? && NodeOk(body)
    ensures LoopTries(env, calls, LoopItem(g, greed), p, rs) == MoreTries(env, answers, body, 1, -1, greed, p, rs)
    decreases |env.s| - p, 0, |rs|
  {
    hide SameTries, ItemTries, TimesTries;
    SameAt(env, calls, answers, g, body, p);
    if rs != [] {
      LoopMore(env, calls, answers, g, body, greed, p, rs[1..]);
      if rs[0] != p {
        LoopInOrder(env, calls, answers, g, body, greed, rs[0]);
        ZeroPasses(env, answers, body, greed, rs[0]);
      }
    }
  }

  lemma {:induction false} PosMore(env: Env, calls: Answers, answers: Answers, g: Item, body: Node, p: nat,
                                   rs: seq<nat>)
    requires SameTries(env, calls, answers, g, body) && p <= |env.s| && Between(rs, p, |env.s|)
    ensures g.Group? && NodeOk(body)
    ensures forall rs': seq<nat> :: Head(rs') == Head(rs) && Between(rs', p, |env.s|) ==>
              PosTries(env, calls, LoopItem(g, Possessive), p, rs)
              == Head(MoreTries(env, answers, body, 1, -1, Possessive, p, rs'))
    decreases |env.s| - p, 0, 0
  {
    hide SameTries, ItemTries, TimesTries;
    SameAt(env, calls, answers, g, body, p);
    if rs != [] && rs[0] != p {
      LoopInOrder(env, calls, answers, g, body, Possessive, rs[0]);
      ZeroPasses(env, answers, body, Possessive, rs[0]);
    }
  }

  /** At most one pass. */
  lemma {:induction false} LastPass(env: Env, answers: Answers, body: Node, greed: Greed, p: nat, rs: seq<nat>)
    requires NodeOk(body) && p <= |env.s| && Between(rs, p, |env.s|)
    ensures MoreTries(env, answers, body, 0, 1, greed, p, rs) == rs
    decreases |rs|
  {
    if rs != [] {
      LastPass(env, answers, body, greed, p, rs[1..]);
      assert TimesTries(env, answers, body, 0, 0, greed, rs[0]) == [rs[0]];
    }
  }

  lemma ZeroTries(env: Env, calls: Answers, g: Item, greed: Greed, p: nat)
    requires p <= |env.s|
    ensures var rs := ItemTries(env, calls, g, p);
            ItemTries(env, calls, Zero(ZeroOp(greed), g), p) == if greed == Lazy then [p] + rs else rs + [p]
  {
    hide AltsTries, LoopTries;
  }

  lemma {:induction false} NestInOrder(env: Env, calls: Answers, answers: Answers, g: Item, body: Node, k: nat,
                                       greed: Greed, p: nat)
    requires SameTries(env, calls, answers, g, body) && k >= 1 && p <= |env.s|
    ensures ItemTries(env, calls, Nest(g, k, greed), p) == TimesTries(env, answers, body, 0, k, greed, p)
    decreases k, 1, 0
  {
    hide SameTries, MoreTries, AltsTries, NodeTries, ItemTries, ThenTries;
    SameAt(env, calls, answers, g, body, p);
    var rs := NodeTries(env, answers, body, p);
    if k == 1 {
      ZeroTries(env, calls, g, greed, p);
      LastPass(env, answers, body, greed, p, rs);
    } else {
      var inner := Group(OP_BRA, 0, Last(NestBody(g, k, greed)), OP_KET);
      ZeroTries(env, calls, inner, greed, p);
      PlainGroup(env, calls, NestBody(g, k, greed), p);
      NestMore(env, calls, answers, g, body, k, greed, p, rs);
      assert BranchTries(env, calls, NestBody(g, k, greed), p)
          == ThenTries(env, calls, Cons(Nest(g, k - 1, greed), Nil), p, rs);
    }
  }

  lemma PlainGroup(env: Env, calls: Answers, b: Branch, p: nat)
    requires p <= |env.s|
    ensures ItemTries(env, calls, Group(OP_BRA, 0, Last(b), OP_KET), p) == BranchTries(env, calls, b, p)
  {
    hide BranchTries;
    assert AltsTries(env, calls, Last(b), p) == BranchTries(env, calls, b, p) + [];
  }

  lemma {:induction false} NestMore(env: Env, calls: Answers, answers: Answers, g: Item, body: Node, k: nat,
                                    greed: Greed, p: nat, rs: seq<nat>)
    requires SameTries(env, calls, answers, g, body) && k >= 2 && p <= |env.s| && Between(rs, p, |env.s|)
    ensures NodeOk(body)
    ensures ThenTries(env, calls, Cons(Nest(g, k - 1, greed), Nil), p, rs)
            == MoreTries(env, answers, body, 0, k, greed, p, rs)
    decreases k, 0, |rs|
  {
    hide SameTries, TimesTries, BranchTries;
    SameAt(env, calls, answers, g, body, p);
    if rs != [] {
      NestMore(env, calls, answers, g, body, k, greed, p, rs[1..]);
      OneItem(env, calls, Nest(g, k - 1, greed), rs[0]);
      NestInOrder(env, calls, answers, g, body, k - 1, greed, rs[0]);
    }
  }

  /** The same ends in the same order; for a possessive repeat only the first one matters. */
  ghost predicate Alike(greed: Greed, rs: seq<nat>, rs': seq<nat>) {
    if greed == Possessive then Head(rs) == Head(rs') else rs == rs'
  }

  /** The branch goes on like that many more passes. */
  ghost predicate GoesOn(env: Env, calls: Answers, answers: Answers, tail: Branch, body: Node, min: nat, max: int,
                         greed: Greed) {
    && NodeOk(body) && (max == -1 || min <= max) && (max == -1 ==> min >= 1)
    && forall p: nat :: p <= |env.s| ==>
         Alike(greed, BranchTries(env, calls, tail, p), TimesTries(env, answers, body, min, max, greed, p))
  }

  lemma {:induction false} CopiesMore(env: Env, calls: Answers, answers: Answers, body: Node, tail: Branch, min: nat,
                                      max: int, greed: Greed, p: nat, rs: seq<nat>)
    requires GoesOn(env, calls, answers, tail, body, min, max, greed)
    requires p <= |env.s| && Between(rs, p, |env.s|)
    ensures NodeOk(body) && (max == -1 || min <= max)
    ensures Alike(greed, ThenTries(env, calls, tail, p, rs),
                  MoreTries(env, answers, body, min + 1, if max == -1 then -1 else max + 1, greed, p, rs))
    decreases |rs|
  {
    hide TimesTries, BranchTries, Alike;
    var max' := if max == -1 then -1 else max + 1;
    if rs == [] {
      AlikeSelf(greed, []);
    } else {
      CopiesMore(env, calls, answers, body, tail, min, max, greed, p, rs[1..]);
      var r := rs[0];
      assert Alike(greed, BranchTries(env, calls, tail, r), TimesTries(env, answers, body, min, max, greed, r));
      hide GoesOn;
      AlikeConcat(greed, BranchTries(env, calls, tail, r), TimesTries(env, answers, body, min, max, greed, r),
                  ThenTries(env, calls, tail, p, rs[1..]),
                  MoreTries(env, answers, body, min + 1, max', greed, p, rs[1..]));
    }
  }

  lemma AlikeSelf(greed: Greed, rs: seq<nat>)
    ensures Alike(greed, rs, rs)
  {
  }

  lemma AlikeConcat(greed: Greed, a: seq<nat>, a': seq<nat>, b: seq<nat>, b': seq<nat>)
    requires Alike(greed, a, a') && Alike(greed, b, b')
    ensures Alike(greed, a + b, a' + b')
  {
  }

  lemma OneCopyMore(env: Env, calls: Answers, answers: Answers, g: Item, body: Node, tail: Branch, min: nat, max: int,
                    greed: Greed)
    requires SameTries(env, calls, answers, g, body) && GoesOn(env, calls, answers, tail, body, min, max, greed)
    ensures GoesOn(env, calls, answers, Cons(g, tail), body, min + 1, if max == -1 then -1 else max + 1, greed)
  {
    forall p: nat | p <= |env.s|
      ensures Alike(greed, BranchTries(env, calls, Cons(g, tail), p),
                    TimesTries(env, answers, body, min + 1, if max == -1 then -1 else max + 1, greed, p))
    {
      hide SameTries, GoesOn, ItemTries, ThenTries, NodeTries, MoreTries, Alike;
      SameAt(env, calls, answers, g, body, p);
      CopiesMore(env, calls, answers, body, tail, min, max, greed, p, NodeTries(env, answers, body, p));
    }
  }

  lemma {:induction false} CopiesInOrder(env: Env, calls: Answers, answers: Answers, g: Item, k: nat, tail: Branch,
                                         body: Node, min: nat, max: int,
                                         greed: Greed)
    requires SameTries(env, calls, answers, g, body) && GoesOn(env, calls, answers, tail, body, min, max, greed)
    requires max >= -1
    ensures GoesOn(env, calls, answers, Copies(g, k, tail), body, min + k, if max == -1 then -1 else max + k, greed)
    decreases k
  {
    hide SameTries, GoesOn;
    if k > 0 {
      CopiesInOrder(env, calls, answers, g, k - 1, tail, body, min, max, greed);
      OneCopyMore(env, calls, answers, g, body, Copies(g, k - 1, tail), min + k - 1,
                  if max == -1 then -1 else max + k - 1, greed);
    }
  }

  /** Nothing, or the nest of the optional copies. */
  lemma RestInOrder(env: Env, calls: Answers, answers: Answers, g: Item, body: Node, k: nat, greed: Greed)
    requires SameTries(env, calls, answers, g, body)
    ensures GoesOn(env, calls, answers, if k == 0 then Nil else Cons(Nest(g, k, greed), Nil), body, 0, k, greed)
  {
    var tail := if k == 0 then Nil else Cons(Nest(g, k, greed), Nil);
    forall p: nat | p <= |env.s|
      ensures NodeOk(body) && BranchTries(env, calls, tail, p) == TimesTries(env, answers, body, 0, k, greed, p)
    {
      hide SameTries, ItemTries, MoreTries, NodeTries;
      SameAt(env, calls, answers, g, body, p);
      if k > 0 {
        hide TimesTries;
        OneItem(env, calls, Nest(g, k, greed), p);
        NestInOrder(env, calls, answers, g, body, k, greed, p);
      }
    }
  }

  lemma LoopGoesOn(env: Env, calls: Answers, answers: Answers, g: Item, body: Node, greed: Greed)
    requires SameTries(env, calls, answers, g, body)
    ensures g.Group? && GoesOn(env, calls, answers, Cons(LoopItem(g, greed), Nil), body, 1, -1, greed)
  {
    forall p: nat | p <= |env.s|
      ensures NodeOk(body) && g.Group?
              && Alike(greed, BranchTries(env, calls, Cons(LoopItem(g, greed), Nil), p),
                       TimesTries(env, answers, body, 1, -1, greed, p))
    {
      hide SameTries, ItemTries, TimesTries, BranchTries;
      SameAt(env, calls, answers, g, body, p);
      OneItem(env, calls, LoopItem(g, greed), p);
      LoopInOrder(env, calls, answers, g, body, greed, p);
    }
  }

  lemma GoesOnAt(env: Env, calls: Answers, answers: Answers, tail: Branch, body: Node, min: nat, max: int,
                 greed: Greed, p: nat)
    requires GoesOn(env, calls, answers, tail, body, min, max, greed) && p <= |env.s|
    ensures NodeOk(body) && (max == -1 || min <= max)
    ensures Alike(greed, BranchTries(env, calls, tail, p), TimesTries(env, answers, body, min, max, greed, p))
  {
  }

  /** The copies of a quantified group try what the quantifier says, in its order; for a
    * possessive one the first end is the same. */
  lemma CopiesAreAlike(env: Env, calls: Answers, answers: Answers, g: Item, body: Node, min: nat, max: int,
                       greed: Greed, p: nat)
    requires SameTries(env, calls, answers, g, body) && (max == -1 || min <= max) && p <= |env.s|
    ensures g.Group? && NodeOk(body)
    ensures Alike(greed, BranchTries(env, calls, GroupCopies(g, min, max, greed), p),
                  TimesTries(env, answers, body, min, max, greed, p))
  {
    hide SameTries, GoesOn, ItemTries, BranchTries, TimesTries, LoopItem, ZeroOp, KetOp, LoopZero;
    SameAt(env, calls, answers, g, body, p);
    if max == 0 {
      OneItem(env, calls, Zero(OP_SKIPZERO, g), p);
      Skipped(env, calls, answers, g, body, greed, p);
    } else if min == 0 && max == -1 {
      LoopOrNothing(env, calls, answers, g, body, greed, p);
    } else if max == -1 {
      LoopGoesOn(env, calls, answers, g, body, greed);
      CopiesInOrder(env, calls, answers, g, min - 1, Cons(LoopItem(g, greed), Nil), body, 1, -1, greed);
      GoesOnAt(env, calls, answers, GroupCopies(g, min, max, greed), body, min, max, greed, p);
    } else {
      RestInOrder(env, calls, answers, g, body, max - min, greed);
      CopiesInOrder(env, calls, answers, g, min, if max == min then Nil else Cons(Nest(g, max - min, greed), Nil), body,
                    0, max - min, greed);
      GoesOnAt(env, calls, answers, GroupCopies(g, min, max, greed), body, min, max, greed, p);
    }
  }

  /** The loop of a group that need not match at all. */
  lemma LoopOrNothing(env: Env, calls: Answers, answers: Answers, g: Item, body: Node, greed: Greed, p: nat)
    requires SameTries(env, calls, answers, g, body) && p <= |env.s|
    ensures g.Group? && NodeOk(body)
    ensures var all := TimesTries(env, answers, body, 0, -1, greed, p);
            BranchTries(env, calls, Cons(Zero(LoopZero(greed), LoopItem(g, greed)), Nil), p)
            == if greed == Possessive then Head(all) else all
  {
    hide SameTries, BranchTries, TimesTries, LoopItem;
    LoopInOrder(env, calls, answers, g, body, greed, p);
    OneItem(env, calls, Zero(LoopZero(greed), LoopItem(g, greed)), p);
    ZeroPasses(env, answers, body, greed, p);
    if greed == Possessive {
      PosZero(env, calls, LoopItem(g, greed), p);
    } else {
      hide ItemTries;
      ZeroTries(env, calls, LoopItem(g, greed), greed, p);
    }
  }

  lemma PosZero(env: Env, calls: Answers, g: Item, p: nat)
    requires p <= |env.s|
    ensures var rs := ItemTries(env, calls, g, p);
            ItemTries(env, calls, Zero(OP_BRAPOSZERO, g), p) == if rs == [] then [p] else Head(rs)
  {
    hide AltsTries, LoopTries, PosTries;
  }

  lemma AtomicGroup(env: Env, calls: Answers, b: Branch, p: nat)
    requires p <= |env.s|
    ensures BranchTries(env, calls, Cons(Once(b), Nil), p) == Head(BranchTries(env, calls, b, p))
  {
    OneItem(env, calls, Once(b), p);
    hide BranchTries;
    assert AltsTries(env, calls, Last(b), p) == BranchTries(env, calls, b, p) + [];
  }

  /** A quantified group tries what its quantifier says, in its order. */
  lemma GroupInOrder(env: Env, calls: Answers, answers: Answers, g: Item, body: Node, min: nat, max: int,
                     greed: Greed, p: nat)
    requires SameTries(env, calls, answers, g, body) && (max == -1 || min <= max) && p <= |env.s|
    ensures g.Group? && NodeOk(body)
    ensures var all := TimesTries(env, answers, body, min, max, greed, p);
            BranchTries(env, calls, ExpandGroup(g, min, max, greed), p)
            == if greed == Possessive then Head(all) else all
  {
    hide SameTries, BranchTries, TimesTries, LoopItem, ZeroOp, KetOp, LoopZero, ItemTries;
    CopiesAreAlike(env, calls, answers, g, body, min, max, greed, p);
    if WrapsGroup(min, max, greed) {
      AtomicGroup(env, calls, GroupCopies(g, min, max, greed), p);
    } else if greed == Possessive {
      if max == 0 {
        OneItem(env, calls, Zero(OP_SKIPZERO, g), p);
        Skipped(env, calls, answers, g, body, greed, p);
        SkippedIs(env, calls, g, p);
      } else if min == 0 {
        LoopOrNothing(env, calls, answers, g, body, greed, p);
      } else {
        OneItem(env, calls, LoopItem(g, greed), p);
        LoopInOrder(env, calls, answers, g, body, greed, p);
      }
    }
  }

  lemma SkippedIs(env: Env, calls: Answers, g: Item, p: nat)
    requires p <= |env.s|
    ensures ItemTries(env, calls, Zero(OP_SKIPZERO, g), p) == [p]
  {
  }

  lemma Skipped(env: Env, calls: Answers, answers: Answers, g: Item, body: Node, greed: Greed, p: nat)
    requires NodeOk(body) && p <= |env.s|
    ensures ItemTries(env, calls, Zero(OP_SKIPZERO, g), p) == TimesTries(env, answers, body, 0, 0, greed, p)
  {
  }

  // ---------- single characters ----------

  lemma {:induction false} DownMore(hi: int, lo: nat)
    requires hi >= lo
    ensures DownTo(hi, lo) == DownTo(hi, lo + 1) + [lo]
    decreases hi - lo
  {
    if hi > lo {
      DownMore(hi - 1, lo);
    }
  }

  /** The runs of a repeated character, by passes. */
  lemma {:induction false} RunsInOrder(env: Env, answers: Answers, atom: Atom, min: nat, max: int, greed: Greed, p: nat)
    requires AtomOk(atom) && (max == -1 || min <= max) && p <= |env.s|
    ensures TimesTries(env, answers, Single(atom), min, max, greed, p)
            == RepTries(env, atom, min, max, false, greed == Lazy, p)
    decreases |env.s| - p
  {
    hide MoreTries, NodeTries, RepTries;
    if max == 0 || !HitAt(env, atom, p) {
      NoPasses(env, answers, atom, min, max, greed, p);
    } else {
      var min', max' := if min == 0 then 0 else min - 1, if max == -1 then -1 else max - 1;
      OneMore(env, answers, Single(atom), min, max, greed, p);
      RunsInOrder(env, answers, atom, min', max', greed, p + 1);
      RunStep(env, atom, min, max, greed == Lazy, p);
    }
  }

  lemma NoPasses(env: Env, answers: Answers, atom: Atom, min: nat, max: int, greed: Greed, p: nat)
    requires AtomOk(atom) && (max == -1 || min <= max) && p <= |env.s| && (max == 0 || !HitAt(env, atom, p))
    ensures TimesTries(env, answers, Single(atom), min, max, greed, p)
            == RepTries(env, atom, min, max, false, greed == Lazy, p)
  {
    assert NodeOk(Single(atom));
    if max != 0 {
      assert NodeTries(env, answers, Single(atom), p) == [];
    }
    if min == 0 {
      assert UpTo(p, p) == [p] == DownTo(p, p);
    }
  }

  lemma RunLonger(env: Env, atom: Atom, max: int, p: nat)
    requires p < |env.s| && max >= -1 && max != 0 && HitAt(env, atom, p)
    ensures RunLength(env, atom, p, max) == 1 + RunLength(env, atom, p + 1, if max == -1 then -1 else max - 1)
  {
  }

  lemma UpMore(lo: nat, hi: int)
    requires hi >= lo
    ensures UpTo(lo, hi) == [lo] + UpTo(lo + 1, hi)
  {
  }

  /** The ends of the runs between two positions. */
  function Runs(lo: nat, hi: int, shortest: bool): seq<nat> {
    if shortest then UpTo(lo, hi) else DownTo(hi, lo)
  }

  lemma TriesAre(env: Env, atom: Atom, min: nat, max: int, shortest: bool, p: nat, n: nat)
    requires p <= |env.s| && max >= -1 && n == RunLength(env, atom, p, max)
    ensures RepTries(env, atom, min, max, false, shortest, p) == if n < min then [] else Runs(p + min, p + n, shortest)
  {
    hide UpTo, DownTo, RunLength;
  }

  lemma RunsMore(lo: nat, hi: int, shortest: bool)
    requires hi >= lo
    ensures Runs(lo, hi, shortest)
            == if shortest then [lo] + Runs(lo + 1, hi, shortest) else Runs(lo + 1, hi, shortest) + [lo]
  {
    UpMore(lo, hi);
    DownMore(hi, lo);
    hide UpTo, DownTo;
  }

  lemma RunStep(env: Env, atom: Atom, min: nat, max: int, shortest: bool, p: nat)
    requires AtomOk(atom) && (max == -1 || min <= max) && p < |env.s| && max != 0 && HitAt(env, atom, p)
    ensures var min', max' := if min == 0 then 0 else min - 1, if max == -1 then -1 else max - 1;
            var more := RepTries(env, atom, min', max', false, shortest, p + 1);
            RepTries(env, atom, min, max, false, shortest, p)
            == if min > 0 then more else if shortest then [p] + more else more + [p]
  {
    hide RunLength, Runs, RepTries;
    var min', max' := if min == 0 then 0 else min - 1, if max == -1 then -1 else max - 1;
    RunLonger(env, atom, max, p);
    var n := RunLength(env, atom, p + 1, max');
    TriesAre(env, atom, min, max, shortest, p, n + 1);
    TriesAre(env, atom, min', max', shortest, p + 1, n);
    assert p + (n + 1) == p + 1 + n;
    if min == 0 {
      RunsMore(p, p + 1 + n, shortest);
    } else {
      assert p + 1 + min' == p + min;
    }
  }

  lemma OneMore(env: Env, answers: Answers, body: Node, min: nat, max: int, greed: Greed, p: nat)
    requires body.Single? && NodeOk(body) && (max == -1 || min <= max) && max != 0 && p <= |env.s|
    requires HitAt(env, body.atom, p)
    ensures MoreTries(env, answers, body, min, max, greed, p, NodeTries(env, answers, body, p))
            == TimesTries(env, answers, body, if min == 0 then 0 else min - 1, if max == -1 then -1 else max - 1, greed,
                          p + 1)
  {
    hide TimesTries;
    assert NodeTries(env, answers, body, p) == [p + 1];
    assert MoreTries(env, answers, body, min, max, greed, p, [p + 1][1..]) == [];
  }

  /** A run can be taken in two steps. */
  lemma {:induction false} RunInTwo(env: Env, atom: Atom, n: nat, max: int, p: nat)
    requires p <= |env.s| && max >= -1 && (max == -1 || n <= max)
    ensures var m := RunLength(env, atom, p, n);
            && (m < n ==> RunLength(env, atom, p, max) == m)
            && (m == n ==>
                  RunLength(env, atom, p, max)
                  == n + RunLength(env, atom, p + n, if max == -1 then -1 else max - n))
    decreases |env.s| - p
  {
    if n == 0 {
      NoRun(env, atom, p);
    } else if p < |env.s| && HitAt(env, atom, p) {
      RunLonger(env, atom, n, p);
      RunLonger(env, atom, max, p);
      hide RunLength;
      RunInTwo(env, atom, n - 1, if max == -1 then -1 else max - 1, p + 1);
    }
  }

  /** A repeat that is spelt out as one item. */
  lemma OneRepInOrder(env: Env, calls: Answers, atom: Atom, min: nat, max: int, greed: Greed, p: nat)
    requires AtomOk(atom) && (max == -1 || min <= max) && max != 0 && p <= |env.s|
    requires atom.Cls? || min == 0 || (min == 1 && max == -1)
    ensures BranchTries(env, calls, ExpandSingle(atom, min, max, greed), p)
            == RepTries(env, atom, min, max, greed == Possessive, greed == Lazy, p)
  {
    hide RepTries, BranchTries;
    var it := ExpandSingle(atom, min, max, greed).head;
    OneItem(env, calls, it, p);
    assert it.Rep?;
    assert RepMin(atom, it.k, it.lo, it.hi) == min && RepMax(atom, it.k, it.lo, it.hi) == max;
    assert RepPoss(atom, it.k) <==> greed == Possessive;
    assert greed != Possessive ==> (TriesShortest(it.k) <==> greed == Lazy);
    RepByRun(env, atom, min, max, greed == Possessive, TriesShortest(it.k), greed == Lazy, p);
  }

  lemma RepByRun(env: Env, atom: Atom, min: nat, max: int, poss: bool, shortest: bool, shortest': bool, p: nat)
    requires p <= |env.s| && max >= -1 && (poss || shortest == shortest')
    ensures RepTries(env, atom, min, max, poss, shortest, p) == RepTries(env, atom, min, max, poss, shortest', p)
  {
  }

  /** A repeat that is spelt out as a fixed number of characters and the rest. */
  lemma FixedInOrder(env: Env, calls: Answers, atom: Atom, min: nat, max: int, greed: Greed, p: nat)
    requires AtomOk(atom) && (max == -1 || min <= max) && max != 0 && p <= |env.s|
    requires !atom.Cls? && min > 0 && !(min == 1 && max == -1)
    ensures BranchTries(env, calls, ExpandSingle(atom, min, max, greed), p)
            == RepTries(env, atom, min, max, greed == Possessive, greed == Lazy, p)
  {
    hide BranchTries, ThenTries, ExpandSingle, RunLength, UpTo, DownTo;
    var b := ExpandSingle(atom, min, max, greed);
    FixedPart(env, calls, atom, min, max, greed, p);
    RunInTwo(env, atom, min, max, p);
    if RunLength(env, atom, p, min) < min {
      ThenNone(env, calls, b.tail, p);
    } else {
      OneBehind(env, calls, b.tail, p, p + min);
      if max == min {
        NilTries(env, calls, p + min);
        NoRun(env, atom, p + min);
      } else {
        RestOfRun(env, calls, atom, min, max, greed, p + min);
      }
    }
  }

  lemma NoRun(env: Env, atom: Atom, p: nat)
    requires p <= |env.s|
    ensures RunLength(env, atom, p, 0) == 0
  {
  }

  lemma NilTries(env: Env, calls: Answers, p: nat)
    requires p <= |env.s|
    ensures BranchTries(env, calls, Nil, p) == [p] && UpTo(p, p) == [p] == DownTo(p, p)
  {
  }

  lemma ThenNone(env: Env, calls: Answers, b: Branch, p: nat)
    requires p <= |env.s|
    ensures ThenTries(env, calls, b, p, []) == []
  {
  }

  lemma RestOfRun(env: Env, calls: Answers, atom: Atom, min: nat, max: int, greed: Greed, p: nat)
    requires AtomOk(atom) && (max == -1 || min < max) && p <= |env.s|
    requires !atom.Cls? && min > 0 && !(min == 1 && max == -1)
    ensures ExpandSingle(atom, min, max, greed).Cons?
    ensures BranchTries(env, calls, ExpandSingle(atom, min, max, greed).tail, p)
            == RepTries(env, atom, 0, if max == -1 then -1 else max - min, greed == Possessive, greed == Lazy, p)
  {
    hide RepTries, BranchTries;
    var it := ExpandSingle(atom, min, max, greed).tail.head;
    OneItem(env, calls, it, p);
    assert it.Rep? && ExpandSingle(atom, min, max, greed).tail == Cons(it, Nil);
    var rest := if max == -1 then -1 else max - min;
    assert RepMin(atom, it.k, it.lo, it.hi) == 0 && RepMax(atom, it.k, it.lo, it.hi) == rest;
    assert RepPoss(atom, it.k) <==> greed == Possessive;
    assert greed != Possessive ==> (TriesShortest(it.k) <==> greed == Lazy);
    RepByRun(env, atom, 0, rest, greed == Possessive, TriesShortest(it.k), greed == Lazy, p);
  }

  /** The fixed part is taken whole or not at all. */
  lemma FixedPart(env: Env, calls: Answers, atom: Atom, min: nat, max: int, greed: Greed, p: nat)
    requires AtomOk(atom) && (max == -1 || min <= max) && max != 0 && p <= |env.s|
    requires !atom.Cls? && min > 0 && !(min == 1 && max == -1)
    ensures var b := ExpandSingle(atom, min, max, greed);
            && b.Cons? && (max == min ==> b.tail == Nil)
            && BranchTries(env, calls, b, p)
               == ThenTries(env, calls, b.tail, p, if RunLength(env, atom, p, min) < min then [] else [p + min])
  {
    hide ThenTries, RunLength;
    if min == 1 {
      OneLong(env, atom, p);
    } else {
      ExactTries(env, calls, atom, min, p);
      hide ItemTries;
    }
  }

  lemma ExactTries(env: Env, calls: Answers, atom: Atom, min: nat, p: nat)
    requires !atom.Cls? && p <= |env.s|
    ensures ItemTries(env, calls, Rep(atom, K_EXACT, 0, min), p)
            == if RunLength(env, atom, p, min) < min then [] else [p + min]
  {
    hide RunLength;
    if RunLength(env, atom, p, min) == min {
      assert DownTo(p + min, p + min) == [p + min];
    }
  }

  lemma OneLong(env: Env, atom: Atom, p: nat)
    requires p <= |env.s|
    ensures RunLength(env, atom, p, 1) == if HitAt(env, atom, p) then 1 else 0
  {
  }

  lemma SingleInOrder(env: Env, calls: Answers, answers: Answers, atom: Atom, min: nat, max: int, greed: Greed, p: nat)
    requires NodeOk(Repeat(Single(atom), min, max, greed)) && p <= |env.s|
    ensures BranchTries(env, calls, ExpandAtom(atom, min, max, greed), p)
            == NodeTries(env, answers, Repeat(Single(atom), min, max, greed), p)
  {
    hide TimesTries, BranchTries, ExpandSingle;
    RunsInOrder(env, answers, atom, min, max, greed, p);
    if WrapsSingle(atom, min, max, greed) {
      AtomicGroup(env, calls, ExpandSingle(atom, min, max, Greedy), p);
      PlainSingleInOrder(env, calls, atom, min, max, Greedy, p);
    } else {
      PlainSingleInOrder(env, calls, atom, min, max, greed, p);
    }
  }

  lemma PlainSingleInOrder(env: Env, calls: Answers, atom: Atom, min: nat, max: int, greed: Greed, p: nat)
    requires AtomOk(atom) && (max == -1 || min <= max) && p <= |env.s|
    ensures BranchTries(env, calls, ExpandSingle(atom, min, max, greed), p)
            == RepTries(env, atom, min, max, greed == Possessive, greed == Lazy, p)
  {
    hide BranchTries;
    if max == 0 {
      NilTries(env, calls, p);
    } else if atom.Cls? || min == 0 || (min == 1 && max == -1) {
      OneRepInOrder(env, calls, atom, min, max, greed, p);
    } else {
      FixedInOrder(env, calls, atom, min, max, greed, p);
    }
  }

  // ---------- whole patterns ----------

  /** Both ways to answer calls agree. */
  ghost predicate SameAnswers(env: Env, calls: Answers, answers: Answers) {
    forall num: nat, p: nat :: p <= |env.s| ==> calls(num, p) == answers(num, p)
  }

  /** The code tree of a node tries the ends in the order of the node. */
  lemma {:induction false} NodeInOrder(env: Env, calls: Answers, answers: Answers, n: Node, p: nat)
    requires NodeOk(n) && p <= |env.s| && SameAnswers(env, calls, answers)
    ensures BranchTries(env, calls, ExpandNode(n), p) == NodeTries(env, answers, n, p)
    decreases n, 1
  {
    hide BranchTries, SequenceTries, ChoiceTries, TimesTries, ExpandGroup, ExpandAtom, AltsTries;
    match n
    case Assert(op) => OneItem(env, calls, Anchor(op), p);
    case Single(atom) => OneItem(env, calls, One(atom), p);
    case Sub(num, c) =>
      OneItem(env, calls, GroupItem(num, ExpandChoice(c), OP_KET), p);
      ChoiceInOrder(env, calls, answers, c, p);
    case Recurse(num) => OneItem(env, calls, Call(num), p);
    case Repeat(body, min, max, greed) =>
      match body {
        case Single(atom) => SingleInOrder(env, calls, answers, atom, min, max, greed, p);
        case Sub(num, c) =>
          BodyInOrder(env, calls, answers, body);
          GroupInOrder(env, calls, answers, GroupItem(num, ExpandChoice(c), OP_KET), body, min, max, greed, p);
        case Recurse(num) =>
          CallInOrder(env, calls, answers, num);
          GroupInOrder(env, calls, answers, Once(Cons(Call(num), Nil)), body, min, max, greed, p);
        case _ =>
      }
  }

  lemma {:induction false} BodyInOrder(env: Env, calls: Answers, answers: Answers, body: Node)
    requires NodeOk(body) && body.Sub? && SameAnswers(env, calls, answers)
    ensures SameTries(env, calls, answers, GroupItem(body.num, ExpandChoice(body.choice), OP_KET), body)
    decreases body, 0
  {
    hide ChoiceTries, AltsTries, ExpandChoice;
    forall p: nat | p <= |env.s|
      ensures ItemTries(env, calls, GroupItem(body.num, ExpandChoice(body.choice), OP_KET), p)
              == NodeTries(env, answers, body, p)
    {
      ChoiceInOrder(env, calls, answers, body.choice, p);
    }
  }

  /** A repeated call stands in an atomic group. */
  lemma CallInOrder(env: Env, calls: Answers, answers: Answers, num: nat)
    requires SameAnswers(env, calls, answers)
    ensures SameTries(env, calls, answers, Once(Cons(Call(num), Nil)), Recurse(num))
  {
    forall p: nat | p <= |env.s|
      ensures ItemTries(env, calls, Once(Cons(Call(num), Nil)), p) == NodeTries(env, answers, Recurse(num), p)
    {
      var b := Cons(Call(num), Nil);
      OneItem(env, calls, Call(num), p);
      assert AltsTries(env, calls, Last(b), p) == BranchTries(env, calls, b, p) + [];
    }
  }

  lemma {:induction false} SequenceInOrder(env: Env, calls: Answers, answers: Answers, s: Sequence, p: nat)
    requires SequenceOk(s) && p <= |env.s| && SameAnswers(env, calls, answers)
    ensures BranchTries(env, calls, ExpandSequence(s), p) == SequenceTries(env, answers, s, p)
    decreases s, 1, 0
  {
    hide NodeTries, ThenTries, RestTries, ExpandNode;
    if s.Then? {
      hide BranchTries;
      AppendTries(env, calls, ExpandNode(s.first), ExpandSequence(s.rest), p);
      NodeInOrder(env, calls, answers, s.first, p);
      RestBehind(env, calls, answers, s.rest, p, NodeTries(env, answers, s.first, p));
    }
  }

  lemma {:induction false} RestBehind(env: Env, calls: Answers, answers: Answers, s: Sequence, p: nat, rs: seq<nat>)
    requires SequenceOk(s) && p <= |env.s| && Between(rs, p, |env.s|) && SameAnswers(env, calls, answers)
    ensures ThenTries(env, calls, ExpandSequence(s), p, rs) == RestTries(env, answers, s, p, rs)
    decreases s, 2, |rs|
  {
    hide BranchTries, SequenceTries, ExpandSequence;
    if rs != [] {
      SequenceInOrder(env, calls, answers, s, rs[0]);
      RestBehind(env, calls, answers, s, p, rs[1..]);
    }
  }

  lemma {:induction false} ChoiceInOrder(env: Env, calls: Answers, answers: Answers, c: Choice, p: nat)
    requires ChoiceOk(c) && p <= |env.s| && SameAnswers(env, calls, answers)
    ensures AltsTries(env, calls, ExpandChoice(c), p) == ChoiceTries(env, answers, c, p)
    decreases c, 1
  {
    hide BranchTries, SequenceTries, ExpandSequence;
    SequenceInOrder(env, calls, answers, c.seq0, p);
    if c.Or? {
      ChoiceInOrder(env, calls, answers, c.others, p);
    }
  }

  // ---------- calls ----------

  /** What calls nested less than d deep match: the first match of the called group. */
  ghost function CallTries(env: Env, pattern: Choice, d: nat): Answers
    requires ChoiceOk(pattern)
    decreases d
  {
    if d == 0 then (num: nat, p: nat) => None
    else
      var inner := CallTries(env, pattern, d - 1);
      (num: nat, p: nat) =>
        if p <= |env.s| && Called(pattern, num).Some? && ChoiceOk(Called(pattern, num).value)
        then FirstOf(ChoiceTries(env, inner, Called(pattern, num).value, p))
        else None
  }

  lemma {:induction false} CallsInOrder(env: Env, pattern: Choice, d: nat)
    requires ChoiceOk(pattern)
    ensures SameAnswers(env, TreeCalls(env, Expand(pattern), d), CallTries(env, pattern, d))
    decreases d
  {
    hide Expand, ChoiceTries, AltsTries, FirstOf, SameAnswers;
    var root := Expand(pattern);
    if d == 0 {
      NoAnswers(env);
    } else {
      CallsInOrder(env, pattern, d - 1);
      var calls, answers := TreeCalls(env, root, d - 1), CallTries(env, pattern, d - 1);
      forall num: nat, p: nat | p <= |env.s|
        ensures TreeCalls(env, root, d)(num, p) == CallTries(env, pattern, d)(num, p)
      {
        CalleeFound(pattern, num);
        if Called(pattern, num).Some? {
          ChoiceInOrder(env, calls, answers, Called(pattern, num).value, p);
        }
      }
      MakeSame(env, TreeCalls(env, root, d), CallTries(env, pattern, d));
    }
  }

  lemma NoAnswers(env: Env)
    ensures SameAnswers(env, (num: nat, p: nat) => None, (num: nat, p: nat) => None)
  {
  }

  lemma MakeSame(env: Env, calls: Answers, answers: Answers)
    requires forall num: nat, p: nat :: p <= |env.s| ==> calls(num, p) == answers(num, p)
    ensures SameAnswers(env, calls, answers)
  {
  }

  /** The ends of a whole pattern, in the order in which they are tried. */
  ghost function Preferred(env: Env, pattern: Choice, d: nat, p: nat): (rs: seq<nat>)
    requires ChoiceOk(pattern) && p <= |env.s|
    ensures Between(rs, p, |env.s|)
  {
    ChoiceTries(env, CallTries(env, pattern, d), pattern, p)
  }

  /** Backtracking over the code of a pattern finds the first of the ends asked for, in the
    * order in which the pattern tries them. */
  lemma FirstPreferred(x: PlainLinks, code: seq<byte>, pattern: Choice, env: Env, d: nat, ends: iset<nat>, p: nat)
    requires ChoiceOk(pattern) && IsProgram(x, code, Expand(pattern)) && p <= |env.s|
    ensures |code| > 0 && FirstEnd(code, env, d, ends, p) == FirstIn(Preferred(env, pattern, d, p), ends)
  {
    hide IsProgram, FirstEnd, FirstIn, ChoiceTries, AltsTries, ExpandChoice, TreeCalls, CallTries, SameAnswers;
    FirstTried(x, code, Expand(pattern), env, d, ends, p);
    CallsInOrder(env, pattern, d);
    ChoiceInOrder(env, TreeCalls(env, Expand(pattern), d), CallTries(env, pattern, d), pattern, p);
  }

  lemma {:induction false} FirstAmong(rs: seq<nat>, q: nat)
    ensures FirstIn(rs, iset{q}).Some? <==> q in rs
    decreases |rs|
  {
    if rs != [] {
      FirstAmong(rs[1..], q);
    }
  }

  /** Without calls the ends tried are those of the matches. */
  lemma PreferredIsMeant(x: PlainLinks, code: seq<byte>, pattern: Choice, env: Env, d: nat, p: nat, q: nat)
    requires ChoiceOk(pattern) && PlainChoice(pattern) && IsProgram(x, code, Expand(pattern))
    requires CallsIn(Expand(pattern)) == {} && p <= |env.s|
    ensures q in Preferred(env, pattern, d, p) <==> MeansChoice(env, Facts(env, Expand(pattern)), pattern, p, q)
  {
    hide IsProgram, FirstEnd, FirstIn, Preferred, ExpandChoice, Facts, CallsIn, MAlts;
    FirstPreferred(x, code, pattern, env, d, iset{q}, p);
    FirstAmong(Preferred(env, pattern, d, p), q);
    FindsMatches(x, code, Expand(pattern), env, d, iset{q}, p);
    FactsAreOk(env, Expand(pattern));
    ChoiceExpands(env, Facts(env, Expand(pattern)), pattern, p, q);
  }
}
