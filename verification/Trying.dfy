/** The order in which backtracking tries the ends of an item: alternatives from left to
  * right, more passes first or fewer first. The main result is that backtracking over the
  * code of a tree without calls goes on at these ends, one after the other.
  */
module Trying {
  import opened Opcodes
  import opened Tree
  import opened Meaning
  import opened Machine
  import opened Runs
  import opened Decoding
  import opened Program
  import opened CodeScan
  import opened References
  import opened Closure
  import opened Backtrack
  import opened Following
  import opened Finding

  /** What calls match, by the number of the group and the position. */
  type Answers = (nat, nat) -> Option<nat>

  /** All the ends lie between p and n. */
  ghost predicate Between(rs: seq<nat>, p: nat, n: nat) {
    forall i :: 0 <= i < |rs| ==> p <= rs[i] <= n
  }

  /** From hi down to lo. */
  function DownTo(hi: int, lo: nat): (rs: seq<nat>)
    ensures forall i :: 0 <= i < |rs| ==> lo <= rs[i] <= hi
    decreases hi - lo + 1
  {
    if hi < lo then [] else [hi] + DownTo(hi - 1, lo)
  }

  /** From lo up to hi. */
  function UpTo(lo: nat, hi: int): (rs: seq<nat>)
    ensures forall i :: 0 <= i < |rs| ==> lo <= rs[i] <= hi
    decreases hi - lo + 1
  {
    if hi < lo then [] else [lo] + UpTo(lo + 1, hi)
  }

  /** Does the repeat try the shortest run first? Greedy and lazy forms alternate. */
  predicate TriesShortest(k: nat) {
    k <= K_MINUPTO && k % 2 == 1
  }

  /** The ends of the runs of one repeat. */
  function RepTries(env: Env, atom: Atom, min: nat, max: int, poss: bool, shortest: bool, p: nat): (rs: seq<nat>)
    requires p <= |env.s| && max >= -1
    ensures Between(rs, p, |env.s|)
  {
    var n := RunLength(env, atom, p, max);
    if n < min then []
    else if poss then [p + n]
    else if shortest then UpTo(p + min, p + n)
    else DownTo(p + n, p + min)
  }

  /** The ends of the item when it starts at p, in the order in which they are tried. */
  ghost function ItemTries(env: Env, calls: Answers, it: Item, p: nat): (rs: seq<nat>)
    requires p <= |env.s|
    ensures Between(rs, p, |env.s|)
    decreases it, |env.s| - p, 1, 0
  {
    match it
    case Anchor(op) => if AnchorHolds(env, op, p) then [p] else []
    case One(atom) => if HitAt(env, atom, p) then [p + 1] else []
    case Rep(atom, k, lo, hi) =>
      RepTries(env, atom, RepMin(atom, k, lo, hi), RepMax(atom, k, lo, hi), RepPoss(atom, k), TriesShortest(k), p)
    case Group(bra, _, alts, ket) =>
      var rs := PassTries(bra, AltsTries(env, calls, alts, p));
      if ket == OP_KET then rs
      else if ket == OP_KETRPOS then PosTries(env, calls, it, p, rs)
      else LoopTries(env, calls, it, p, rs)
    case Zero(op, g) =>
      if op == OP_SKIPZERO then [p]
      else
        var rs := ItemTries(env, calls, g, p);
        if op == OP_BRAMINZERO then [p] + rs
        else if op == OP_BRAPOSZERO then (if rs == [] then [p] else Head(rs))
        else rs + [p]
    case Call(num) =>
      var q := calls(num, p);
      if q.Some? && p <= q.value <= |env.s| then [q.value] else []
  }

  /** The first one only. */
  function Head(rs: seq<nat>): seq<nat> {
    if rs == [] then [] else [rs[0]]
  }

  /** The ends of one pass: an atomic group has no more than one. */
  function PassTries(bra: byte, rs: seq<nat>): seq<nat> {
    if bra == OP_ONCE then Head(rs) else rs
  }

  /** A possessive loop takes the first end of every pass and goes round until a pass fails
    * or matches nothing. */
  ghost function PosTries(env: Env, calls: Answers, g: Item, p: nat, rs: seq<nat>): (all: seq<nat>)
    requires g.Group? && p <= |env.s| && Between(rs, p, |env.s|)
    ensures Between(all, p, |env.s|)
    decreases g, |env.s| - p, 0, |rs|
  {
    if rs == [] then []
    else if rs[0] == p then [p]
    else
      var more := ItemTries(env, calls, g, rs[0]);
      if more == [] then [rs[0]] else Head(more)
  }

  /** Behind each end of a pass the group is left or passed through again; after an empty
    * pass it is left. */
  ghost function LoopTries(env: Env, calls: Answers, g: Item, p: nat, rs: seq<nat>): (all: seq<nat>)
    requires g.Group? && p <= |env.s| && Between(rs, p, |env.s|)
    ensures Between(all, p, |env.s|)
    decreases g, |env.s| - p, 0, |rs|
  {
    if rs == [] then []
    else
      var r := rs[0];
      (if r == p then [r]
       else if g.ket == OP_KETRMIN then [r] + ItemTries(env, calls, g, r)
       else ItemTries(env, calls, g, r) + [r])
      + LoopTries(env, calls, g, p, rs[1..])
  }

  ghost function BranchTries(env: Env, calls: Answers, b: Branch, p: nat): (rs: seq<nat>)
    requires p <= |env.s|
    ensures Between(rs, p, |env.s|)
    decreases b, |env.s| - p, 1, 0
  {
    if b.Nil? then [p] else ThenTries(env, calls, b.tail, p, ItemTries(env, calls, b.head, p))
  }

  /** The ends of the branch behind each of the positions. */
  ghost function ThenTries(env: Env, calls: Answers, b: Branch, p: nat, rs: seq<nat>): (all: seq<nat>)
    requires p <= |env.s| && Between(rs, p, |env.s|)
    ensures Between(all, p, |env.s|)
    decreases b, |env.s| - p, 2, |rs|
  {
    if rs == [] then [] else BranchTries(env, calls, b, rs[0]) + ThenTries(env, calls, b, p, rs[1..])
  }

  ghost function AltsTries(env: Env, calls: Answers, alts: Alts, p: nat): (rs: seq<nat>)
    requires p <= |env.s|
    ensures Between(rs, p, |env.s|)
    decreases alts, |env.s| - p, 1, 0
  {
    BranchTries(env, calls, alts.b, p) + if alts.More? then AltsTries(env, calls, alts.rest, p) else []
  }

  // ---------- going on at one of the positions ----------

  /** Go on at the first of the positions from where the end can be reached. */
  ghost function Pick(code: seq<byte>, c: Ctx, next: nat, rs: seq<nat>, st: seq<nat>): Option<nat>
    requires Between(rs, 0, |c.env.s|)
  {
    if rs == [] then None else First(Bt(code, c, next, rs[0], st), Pick(code, c, next, rs[1..], st))
  }

  lemma {:induction false} PickAppend(code: seq<byte>, c: Ctx, next: nat, rs: seq<nat>, more: seq<nat>, st: seq<nat>)
    requires Between(rs, 0, |c.env.s|) && Between(more, 0, |c.env.s|)
    ensures Between(rs + more, 0, |c.env.s|)
    ensures Pick(code, c, next, rs + more, st) == First(Pick(code, c, next, rs, st), Pick(code, c, next, more, st))
    decreases |rs|
  {
    hide Bt;
    if rs == [] {
      assert rs + more == more;
    } else {
      PickAppend(code, c, next, rs[1..], more, st);
      assert (rs + more)[1..] == rs[1..] + more;
    }
  }

  lemma PickOne(code: seq<byte>, c: Ctx, next: nat, r: nat, st: seq<nat>)
    requires r <= |c.env.s|
    ensures Between([r], 0, |c.env.s|) && Pick(code, c, next, [r], st) == Bt(code, c, next, r, st)
  {
    hide Bt;
    assert Pick(code, c, next, [r][1..], st) == None;
  }

  lemma {:induction false} PickDown(code: seq<byte>, c: Ctx, next: nat, lo: nat, hi: nat, st: seq<nat>)
    requires lo <= hi <= |c.env.s|
    ensures Between(DownTo(hi, lo), 0, |c.env.s|)
    ensures Pick(code, c, next, DownTo(hi, lo), st) == BtDown(code, c, next, lo, hi, st)
    decreases hi - lo
  {
    hide Bt, BtDown;
    assert DownTo(hi, lo)[1..] == DownTo(hi - 1, lo);
    if lo < hi {
      PickDown(code, c, next, lo, hi - 1, st);
      DownStep(code, c, next, lo, hi, st);
    } else {
      OnlyOne(code, c, next, lo, st);
    }
  }

  lemma {:induction false} PickUp(code: seq<byte>, c: Ctx, next: nat, lo: nat, hi: nat, st: seq<nat>)
    requires lo <= hi <= |c.env.s|
    ensures Between(UpTo(lo, hi), 0, |c.env.s|)
    ensures Pick(code, c, next, UpTo(lo, hi), st) == BtUp(code, c, next, lo, hi, st)
    decreases hi - lo
  {
    hide Bt, BtUp;
    assert UpTo(lo, hi)[1..] == UpTo(lo + 1, hi);
    if lo < hi {
      PickUp(code, c, next, lo + 1, hi, st);
      UpStep(code, c, next, lo, hi, st);
    } else {
      OnlyOne(code, c, next, lo, st);
    }
  }

  /** Two offsets from which the same is reached. */
  lemma {:induction false} PickOnward(code: seq<byte>, c: Ctx, a: nat, b: nat, rs: seq<nat>, st: seq<nat>)
    requires Between(rs, 0, |c.env.s|)
    requires forall r: nat :: r in rs ==> r <= |c.env.s| && Bt(code, c, a, r, st) == Bt(code, c, b, r, st)
    ensures Pick(code, c, a, rs, st) == Pick(code, c, b, rs, st)
    decreases |rs|
  {
    hide Bt;
    if rs != [] {
      PickOnward(code, c, a, b, rs[1..], st);
    }
  }

  // ---------- the tree in the code ----------

  /** The bytes and the instructions at a are those of the item. */
  ghost predicate Stands(x: PlainLinks, code: seq<byte>, c: Ctx, a: nat, it: Item) {
    x.forward == {} && LayItem(x, code, a, it) && Coded(code, c, a, it)
  }

  ghost predicate StandsBranch(x: PlainLinks, code: seq<byte>, c: Ctx, a: nat, b: Branch) {
    x.forward == {} && LayBranch(x, code, a, b) && CodedBranch(code, c, a, b)
  }

  ghost predicate StandsAlts(x: PlainLinks, code: seq<byte>, c: Ctx, h: nat, st: nat, alts: Alts, bra: nat, ket: byte,
                             end: nat) {
    x.forward == {} && LayAlts(x, code, h, st, alts, bra, ket) && CodedAlts(code, c, st, alts, end)
  }

  lemma StandsCons(x: PlainLinks, code: seq<byte>, c: Ctx, a: nat, b: Branch)
    requires StandsBranch(x, code, c, a, b) && b.Cons?
    ensures Stands(x, code, c, a, b.head) && StandsBranch(x, code, c, a + Size(b.head), b.tail)
    ensures BranchSize(b) == Size(b.head) + BranchSize(b.tail)
  {
    hide LayItem, Coded, CodedBranch;
    CodedCons(code, c, a, b);
    OpenBranch(x, code, a, b.head, b.tail);
  }

  lemma StandsAlt(x: PlainLinks, code: seq<byte>, c: Ctx, h: nat, st: nat, alts: Alts, bra: nat, ket: byte, end: nat)
    requires StandsAlts(x, code, c, h, st, alts, bra, ket, end)
    ensures var e := st + BranchSize(alts.b);
            && StandsBranch(x, code, c, st, alts.b)
            && if alts.Last? then e == end
               else && e < |code| && e != c.endc && Decode(code, e) == IAlt(end)
                    && StandsAlts(x, code, c, e, e + 3, alts.rest, bra, ket, end)
  {
    hide LayAlts, LayBranch, CodedBranch, CodedAlts, Decode;
    CodedAlt(code, c, st, alts, end);
    LayFirst(x, code, h, st, alts, bra, ket);
  }

  lemma StandsGroup(x: PlainLinks, code: seq<byte>, c: Ctx, a: nat, g: Item)
    requires Stands(x, code, c, a, g) && g.Group?
    ensures var k := KetOffset(a, g);
            && a < k < |code| && a != c.endc && k != c.endc && k + 3 == a + Size(g) && code[k] == g.ket
            && IsKet(g.ket) && g.bra != OP_ONCE
            && Decode(code, a) == IOpen(Starts(g.alts, a + BraSize(g.bra)))
            && Decode(code, k) == IKet(k + 3, if g.ket == OP_KET then None else Some(a))
            && StandsAlts(x, code, c, a, a + BraSize(g.bra), g.alts, a, g.ket, k)
  {
    hide LayItem, Coded, CodedAlts, Decode, Starts, ChainOk, EndOf, AltStarts, LayAlts;
    CodedGroup(code, c, a, g);
    GroupLinks(x, code, a, g);
    LayGroup(x, code, a, g);
    PlainBracket(x, code, a, g);
  }

  lemma PlainBracket(x: PlainLinks, code: seq<byte>, a: nat, g: Item)
    requires g.Group? && LayItem(x, code, a, g)
    ensures g.bra != OP_ONCE
  {
    hide LayAlts;
  }

  lemma StandsZero(x: PlainLinks, code: seq<byte>, c: Ctx, a: nat, it: Item)
    requires Stands(x, code, c, a, it) && it.Zero?
    ensures a < |code| && a != c.endc && code[a] == it.op && a + Size(it) == a + 1 + Size(it.group)
    ensures it.op != OP_BRAPOSZERO
    ensures Decode(code, a) == IZero(if it.op == OP_SKIPZERO then None else Some(a + 1), a + Size(it))
    ensures Stands(x, code, c, a + 1, it.group)
  {
    hide LayItem, Coded, Decode;
    CodedZero(code, c, a, it);
    LayZero(x, code, a, it);
  }

  lemma LaidLazy(x: PlainLinks, code: seq<byte>, a: nat, it: Item)
    requires LayItem(x, code, a, it) && it.Rep?
    ensures a < |code| && (Lazy(code, a) <==> TriesShortest(it.k))
  {
    LaidRepByte(code, a, it.atom, it.k, it.lo, it.hi);
  }

  // ---------- backtracking tries the ends in order ----------

  lemma RepPicks(x: PlainLinks, code: seq<byte>, c: Ctx, calls: Answers, a: nat, it: Item, p: nat, st: seq<nat>)
    requires Stands(x, code, c, a, it) && Answering(x, c, calls) && it.Rep? && p <= |c.env.s|
    ensures Between(ItemTries(c.env, calls, it, p), 0, |c.env.s|)
    ensures Bt(code, c, a, p, st) == Pick(code, c, a + Size(it), ItemTries(c.env, calls, it, p), st)
  {
    hide LayItem, Coded, Decode, Bt, BtUp, BtDown, Pick, DownTo, UpTo, Lazy, TriesShortest;
    CodedHere(code, c, a, it);
    LaidLazy(x, code, a, it);
    BtRep(code, c, a, p, st, Decode(code, a));
    var i := Decode(code, a);
    var n := RunLength(c.env, i.atom, p, i.max);
    if n < i.min {
      PickNone(code, c, i.next, st);
    } else if i.poss {
      PickOne(code, c, i.next, p + n, st);
    } else {
      PickDown(code, c, i.next, p + i.min, p + n, st);
      PickUp(code, c, i.next, p + i.min, p + n, st);
    }
  }

  lemma PickNone(code: seq<byte>, c: Ctx, next: nat, st: seq<nat>)
    ensures Pick(code, c, next, [], st) == None
  {
  }

  lemma {:induction false} ItemPicks(x: PlainLinks, code: seq<byte>, c: Ctx, calls: Answers, it: Item, a: nat, p: nat,
                                     st: seq<nat>)
    requires Stands(x, code, c, a, it) && Answering(x, c, calls) && p <= |c.env.s|
    ensures Between(ItemTries(c.env, calls, it, p), 0, |c.env.s|)
    ensures Bt(code, c, a, p, st) == Pick(code, c, a + Size(it), ItemTries(c.env, calls, it, p), st)
    decreases it, |c.env.s| - p, 1, 0
  {
    hide LayItem, Coded, Decode, Bt, BtAlts, Pick, Stands, AltsTries, LoopTries, RepTries;
    PickNone(code, c, a + Size(it), st);
    PickOne(code, c, a + Size(it), p, st);
    match it
    case Anchor(op) => StandsPlain(x, code, c, a, it); BtAnchor(code, c, a, p, st, op, a + Size(it));
    case One(atom) =>
      StandsPlain(x, code, c, a, it);
      BtOne(code, c, a, p, st, atom, a + Size(it));
      if HitAt(c.env, atom, p) {
        PickOne(code, c, a + Size(it), p + 1, st);
      }
    case Rep(_, _, _, _) => RepPicks(x, code, c, calls, a, it, p, st);
    case Group(_, _, _, _) => GroupPicks(x, code, c, calls, it, a, p, st);
    case Zero(op, g) =>
      StandsZero(x, code, c, a, it);
      BtZero(code, c, a, p, st, if op == OP_SKIPZERO then None else Some(a + 1), a + Size(it));
      if op != OP_SKIPZERO {
        ItemPicks(x, code, c, calls, g, a + 1, p, st);
        PickAppend(code, c, a + Size(it), [p], ItemTries(c.env, calls, g, p), st);
        PickAppend(code, c, a + Size(it), ItemTries(c.env, calls, g, p), [p], st);
      }
    case Call(num) =>
      StandsPlain(x, code, c, a, it);
      CallPicks(x, code, c, calls, a, it, p, st);
  }

  lemma CallPicks(x: PlainLinks, code: seq<byte>, c: Ctx, calls: Answers, a: nat, it: Item, p: nat, st: seq<nat>)
    requires Stands(x, code, c, a, it) && Answering(x, c, calls) && it.Call? && p <= |c.env.s|
    ensures Bt(code, c, a, p, st) == Pick(code, c, a + Size(it), ItemTries(c.env, calls, it, p), st)
  {
    hide Stands, Decode, Bt, Pick;
    StandsPlain(x, code, c, a, it);
    BtCall(code, c, a, p, st, Decode(code, a).num, x.target[it.num], a + Size(it));
    var q := calls(it.num, p);
    if q.Some? && p <= q.value <= |c.env.s| {
      PickOne(code, c, a + Size(it), q.value, st);
    } else {
      PickNone(code, c, a + Size(it), st);
    }
  }

  lemma StandsPlain(x: PlainLinks, code: seq<byte>, c: Ctx, a: nat, it: Item)
    requires Stands(x, code, c, a, it)
    ensures a < |code| && a != c.endc
    ensures it.Anchor? ==> Decode(code, a) == IAnchor(it.op, a + Size(it))
    ensures it.One? ==> Decode(code, a) == IOne(it.atom, a + Size(it))
    ensures it.Call? ==>
              && it.num in x.target && Decode(code, a).ICall? && Decode(code, a).target == x.target[it.num]
              && Decode(code, a).next == a + Size(it)
  {
    hide LayItem, Coded, Decode;
    CodedHere(code, c, a, it);
    if it.Call? {
      CallTarget(x, code, a, it);
    }
  }

  lemma CallTarget(x: PlainLinks, code: seq<byte>, a: nat, it: Item)
    requires x.forward == {} && LayItem(x, code, a, it) && it.Call? && a < |code| && Decode(code, a).ICall?
    ensures it.num in x.target && Decode(code, a).target == x.target[it.num]
  {
  }

  /** The calls of the run are answered like those of the tree. */
  ghost predicate Answering(x: PlainLinks, c: Ctx, calls: Answers) {
    forall num: nat, p: nat :: num in x.target && p <= |c.env.s| ==> c.calls(x.target[num], p) == calls(num, p)
  }

  lemma {:induction false} GroupPicks(x: PlainLinks, code: seq<byte>, c: Ctx, calls: Answers, g: Item, a: nat, p: nat,
                                      st: seq<nat>)
    requires Stands(x, code, c, a, g) && Answering(x, c, calls) && g.Group? && p <= |c.env.s|
    ensures Between(ItemTries(c.env, calls, g, p), 0, |c.env.s|)
    ensures Bt(code, c, a, p, st) == Pick(code, c, a + Size(g), ItemTries(c.env, calls, g, p), st)
    decreases g, |c.env.s| - p, 0, 1
  {
    hide LayItem, Coded, Decode, Bt, BtAlts, Pick, Stands, StandsAlts, AltsTries, LoopTries, Starts;
    StandsGroup(x, code, c, a, g);
    var k, starts := KetOffset(a, g), Starts(g.alts, a + BraSize(g.bra));
    BtOpen(code, c, a, p, st, starts);
    AltsPick(x, code, c, calls, g.alts, a, a + BraSize(g.bra), a, g.ket, k, a + 1, p, [p] + st);
    var rs := AltsTries(c.env, calls, g.alts, p);
    if g.ket == OP_KET {
      forall r: nat | r in rs ensures r <= |c.env.s| && Bt(code, c, k, r, [p] + st) == Bt(code, c, k + 3, r, st) {
        BtKet(code, c, k, r, [p] + st, k + 3, None);
        assert ([p] + st)[1..] == st;
      }
      PickLeaves(code, c, k, k + 3, rs, [p] + st, st);
    } else {
      LoopPicks(x, code, c, calls, g, a, p, rs, st);
    }
  }

  /** Two offsets from which the same is reached, with different open groups. */
  lemma {:induction false} PickLeaves(code: seq<byte>, c: Ctx, a: nat, b: nat, rs: seq<nat>, st: seq<nat>,
                                      st': seq<nat>)
    requires Between(rs, 0, |c.env.s|)
    requires forall r: nat :: r in rs ==> r <= |c.env.s| && Bt(code, c, a, r, st) == Bt(code, c, b, r, st')
    ensures Pick(code, c, a, rs, st) == Pick(code, c, b, rs, st')
    decreases |rs|
  {
    hide Bt;
    if rs != [] {
      PickLeaves(code, c, a, b, rs[1..], st, st');
    }
  }

  /** At the ket of a loop: leave, or go round again. */
  lemma {:induction false} LoopPicks(x: PlainLinks, code: seq<byte>, c: Ctx, calls: Answers, g: Item, a: nat, p: nat,
                                     rs: seq<nat>,
                                     st: seq<nat>)
    requires Stands(x, code, c, a, g) && Answering(x, c, calls) && g.Group? && g.ket != OP_KET && p <= |c.env.s|
    requires Between(rs, p, |c.env.s|)
    ensures Between(LoopTries(c.env, calls, g, p, rs), 0, |c.env.s|)
    ensures Pick(code, c, KetOffset(a, g), rs, [p] + st)
            == Pick(code, c, a + Size(g), LoopTries(c.env, calls, g, p, rs), st)
    decreases g, |c.env.s| - p, 0, 0, |rs|
  {
    hide LayItem, Coded, Decode, Bt, BtAlts, Stands, StandsAlts, AltsTries, Starts, ItemTries;
    StandsGroup(x, code, c, a, g);
    if rs != [] {
      var k, r := KetOffset(a, g), rs[0];
      BtKet(code, c, k, r, [p] + st, k + 3, Some(a));
      assert ([p] + st)[1..] == st;
      LoopPicks(x, code, c, calls, g, a, p, rs[1..], st);
      PickOne(code, c, k + 3, r, st);
      var here := [r];
      if p < r {
        GroupPicks(x, code, c, calls, g, a, r, st);
        var again := ItemTries(c.env, calls, g, r);
        PickAppend(code, c, k + 3, [r], again, st);
        PickAppend(code, c, k + 3, again, [r], st);
        here := if g.ket == OP_KETRMIN then [r] + again else again + [r];
      }
      PickAppend(code, c, k + 3, here, LoopTries(c.env, calls, g, p, rs[1..]), st);
    }
  }

  lemma {:induction false} BranchPicks(x: PlainLinks, code: seq<byte>, c: Ctx, calls: Answers, b: Branch, a: nat,
                                       p: nat, st: seq<nat>)
    requires StandsBranch(x, code, c, a, b) && Answering(x, c, calls) && p <= |c.env.s|
    ensures Between(BranchTries(c.env, calls, b, p), 0, |c.env.s|)
    ensures Bt(code, c, a, p, st) == Pick(code, c, a + BranchSize(b), BranchTries(c.env, calls, b, p), st)
    decreases b, |c.env.s| - p, 1, 0
  {
    hide StandsBranch, Stands, Bt, Pick, ItemTries, ThenTries;
    if b.Nil? {
      PickOne(code, c, a, p, st);
    } else {
      StandsCons(x, code, c, a, b);
      ItemPicks(x, code, c, calls, b.head, a, p, st);
      ThenPicks(x, code, c, calls, b.tail, a + Size(b.head), p, ItemTries(c.env, calls, b.head, p), st);
    }
  }

  lemma {:induction false} ThenPicks(x: PlainLinks, code: seq<byte>, c: Ctx, calls: Answers, b: Branch, a: nat, p: nat,
                                     rs: seq<nat>,
                                     st: seq<nat>)
    requires StandsBranch(x, code, c, a, b) && Answering(x, c, calls) && p <= |c.env.s| && Between(rs, p, |c.env.s|)
    ensures Between(ThenTries(c.env, calls, b, p, rs), 0, |c.env.s|)
    ensures Pick(code, c, a, rs, st) == Pick(code, c, a + BranchSize(b), ThenTries(c.env, calls, b, p, rs), st)
    decreases b, |c.env.s| - p, 2, |rs|
  {
    hide StandsBranch, Bt, BranchTries;
    if rs != [] {
      BranchPicks(x, code, c, calls, b, a, rs[0], st);
      ThenPicks(x, code, c, calls, b, a, p, rs[1..], st);
      PickAppend(code, c, a + BranchSize(b), BranchTries(c.env, calls, b, rs[0]),
                 ThenTries(c.env, calls, b, p, rs[1..]), st);
    }
  }

  lemma {:induction false} AltsPick(x: PlainLinks, code: seq<byte>, c: Ctx, calls: Answers, alts: Alts, h: nat,
                                    start: nat, bra: nat,
                                    ket: byte, end: nat, from: nat, p: nat, st: seq<nat>)
    requires StandsAlts(x, code, c, h, start, alts, bra, ket, end) && Answering(x, c, calls) && p <= |c.env.s|
    requires from <= |code|
    requires forall j :: 0 <= j < |Starts(alts, start)| ==> Starts(alts, start)[j] >= from
    ensures Between(AltsTries(c.env, calls, alts, p), 0, |c.env.s|)
    ensures BtAlts(code, c, from, Starts(alts, start), p, st)
            == Pick(code, c, end, AltsTries(c.env, calls, alts, p), st)
    decreases alts, |c.env.s| - p, 1, 0
  {
    hide StandsBranch, StandsAlts, Bt, Pick, BranchTries, Decode;
    StandsAlt(x, code, c, h, start, alts, bra, ket, end);
    BranchPicks(x, code, c, calls, alts.b, start, p, st);
    var e, rs := start + BranchSize(alts.b), BranchTries(c.env, calls, alts.b, p);
    if alts.Last? {
      assert Starts(alts, start)[1..] == [] && rs + [] == rs;
    } else {
      var more := Starts(alts.rest, e + 3);
      assert Starts(alts, start) == [start] + more && Starts(alts, start)[1..] == more;
      assert forall j :: 0 <= j < |more| ==> more[j] == Starts(alts, start)[j + 1];
      AltsPick(x, code, c, calls, alts.rest, e, e + 3, bra, ket, end, from, p, st);
      forall r: nat | r in rs ensures r <= |c.env.s| && Bt(code, c, e, r, st) == Bt(code, c, end, r, st) {
        BtAlt(code, c, e, r, st, end);
      }
      PickOnward(code, c, e, end, rs, st);
      PickAppend(code, c, end, rs, AltsTries(c.env, calls, alts.rest, p), st);
    }
  }

  // ---------- whole programs ----------

  /** The first of the positions that is among the ends. */
  ghost function FirstIn(rs: seq<nat>, ends: iset<nat>): Option<nat> {
    if rs == [] then None else if rs[0] in ends then Some(rs[0]) else FirstIn(rs[1..], ends)
  }

  lemma {:induction false} PickAtEnd(code: seq<byte>, c: Ctx, rs: seq<nat>, st: seq<nat>)
    requires Between(rs, 0, |c.env.s|)
    ensures Pick(code, c, c.endc, rs, st) == FirstIn(rs, c.ends)
    decreases |rs|
  {
    hide Bt;
    if rs != [] {
      BtStop(code, c, c.endc, rs[0], st);
      PickAtEnd(code, c, rs[1..], st);
    }
  }

  /** The first one, if there is one. */
  function FirstOf(rs: seq<nat>): Option<nat> {
    if rs == [] then None else Some(rs[0])
  }

  /** What calls nested less than d deep match: the first end of the called group. */
  ghost function TreeCalls(env: Env, root: Item, d: nat): Answers
    requires root.Group?
    decreases d
  {
    if d == 0 then (num: nat, p: nat) => None
    else
      var inner := TreeCalls(env, root, d - 1);
      (num: nat, p: nat) =>
        if p <= |env.s| && Callee(root, num).Some?
        then FirstOf(AltsTries(env, inner, Callee(root, num).value.alts, p))
        else None
  }

  lemma AnyFirst(rs: seq<nat>)
    ensures FirstIn(rs, ANYWHERE) == FirstOf(rs)
  {
  }

  /** One run of a group up to its ket. */
  lemma GroupRun(x: PlainLinks, code: seq<byte>, root: Item, num: nat, env: Env, inner: (nat, nat) -> Option<nat>,
                 calls: Answers, p: nat)
    requires root.Group? && IsProgram(x, code, root) && num in x.target && p <= |env.s|
    requires forall n: nat, q: nat :: n in x.target && q <= |env.s| ==> inner(x.target[n], q) == calls(n, q)
    ensures Callee(root, num).Some?
    ensures var t := x.target[num];
            && t < |code| && IsBra(code[t]) && ChainOk(code, t)
            && Bt(code, Ctx(env, inner, EndOf(code, t), ANYWHERE), t, p, [])
               == FirstOf(AltsTries(env, calls, Callee(root, num).value.alts, p))
  {
    hide IsProgram, LayItem, CodeItem, Decode, Bt, BtAlts, AltsTries, ChainOk, EndOf, FindGroup, LayAlts, Starts,
      CodeAlts, Pick, FirstIn, FirstOf;
    CalleeIsLaid(x, code, root, num);
    var t, g := x.target[num], Callee(root, num).value;
    var k := KetOffset(t, g);
    var c := Ctx(env, inner, k, ANYWHERE);
    CalleeStands(x, code, root, num, c);
    BtOpen(code, c, t, p, [], Starts(g.alts, t + BraSize(g.bra)));
    AltsPick(x, code, c, calls, g.alts, t, t + BraSize(g.bra), t, g.ket, k, t + 1, p, [p] + []);
    PickAtEnd(code, c, AltsTries(env, calls, g.alts, p), [p] + []);
    AnyFirst(AltsTries(env, calls, g.alts, p));
  }

  lemma CalleeStands(x: PlainLinks, code: seq<byte>, root: Item, num: nat, c: Ctx)
    requires root.Group? && IsProgram(x, code, root) && num in x.target && Callee(root, num).Some?
    requires c.endc == KetOffset(x.target[num], Callee(root, num).value)
    ensures var t, g := x.target[num], Callee(root, num).value; var k := KetOffset(t, g);
            && t < k < |code| && IsBra(code[t]) && ChainOk(code, t) && EndOf(code, t) == k
            && Decode(code, t) == IOpen(Starts(g.alts, t + BraSize(g.bra)))
            && StandsAlts(x, code, c, t, t + BraSize(g.bra), g.alts, t, g.ket, k)
  {
    hide IsProgram, LayItem, CodeItem, Decode, ChainOk, EndOf, FindGroup, LayAlts, Starts, CodeAlts, AltStarts;
    ProgramTargets(x, code, root);
    CalleeIsLaid(x, code, root, num);
    var t, g := x.target[num], Callee(root, num).value;
    GroupLinks(x, code, t, g);
    LayGroup(x, code, t, g);
    ItemDecodes(x, code, t, g);
    GroupDecodes(x, code, t, g);
    InstrIs(code, t);
    CodedInside(Decoded(code), t, g);
  }

  lemma CodedInside(ins: seq<Instr>, t: nat, g: Item)
    requires CodeItem(ins, t, g) && g.Group?
    ensures CodeAlts(ins, t + BraSize(g.bra), g.alts, KetOffset(t, g))
  {
  }

  /** The run of a called group answers like the tree. */
  lemma {:induction false} CallsAnswer(x: PlainLinks, code: seq<byte>, root: Item, env: Env, d: nat)
    requires root.Group? && IsProgram(x, code, root)
    ensures forall num: nat, p: nat :: num in x.target && p <= |env.s| ==>
              CallsAt(code, env, d)(x.target[num], p) == TreeCalls(env, root, d)(num, p)
    decreases d
  {
    hide LayItem, FindOffset, Bt, AltsTries, ChainOk, EndOf, FindGroup, FirstOf;
    if d > 0 {
      CallsAnswer(x, code, root, env, d - 1);
      forall num: nat, p: nat | num in x.target && p <= |env.s|
        ensures CallsAt(code, env, d)(x.target[num], p) == TreeCalls(env, root, d)(num, p)
      {
        GroupRun(x, code, root, num, env, CallsAt(code, env, d - 1), TreeCalls(env, root, d - 1), p);
      }
    }
  }

  /** Backtracking over a program finds the first end in the order of its tree that is
    * among those asked for. */
  lemma FirstTried(x: PlainLinks, code: seq<byte>, root: Item, env: Env, d: nat, ends: iset<nat>, p: nat)
    requires IsProgram(x, code, root) && p <= |env.s|
    ensures |code| > 0 && root.Group?
    ensures FirstEnd(code, env, d, ends, p) == FirstIn(ItemTries(env, TreeCalls(env, root, d), root, p), ends)
  {
    hide LayItem, FindOffset, Coded, Bt, CallsAt, ItemTries, FirstIn, Pick, TreeCalls;
    ProgramSizes(x, code, root);
    var c := Ctx(env, CallsAt(code, env, d), |code| - 1, ends);
    ProgramIsCoded(x, code, root, c);
    CallsAnswer(x, code, root, env, d);
    var calls: Answers := TreeCalls(env, root, d);
    ItemPicks(x, code, c, calls, root, 0, p, []);
    PickAtEnd(code, c, ItemTries(env, calls, root, p), []);
  }
}
