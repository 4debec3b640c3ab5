/** Applying a quantifier to an emitted group: putting something in front of it,
  * copying it, nesting the optional copies, and making the last one loop.
  */
module GroupRepeats {
  import opened Opcodes
  import opened Tree
  import opened Meaning
  import opened Pattern
  import opened Expansion
  import opened Sizing
  import opened Program
  import opened Walk
  import opened Relocation
  import opened Emission
  import opened CodeBuffer
  import opened Items
  import opened Moving
  import opened Copying
  import opened Wrapping

  /** The groups that quantifiers are applied to. */
  predicate Repeatable(g: Item) {
    g.Group? && g.ket == OP_KET && (g.bra == OP_BRA || g.bra == OP_CBRA || g.bra == OP_ONCE)
  }

  // ---------- an optional group ----------

  lemma ZeroWrap(s: State, t: State, op: byte, g: Item)
    requires Emitted(WithHeader(s, [op]), t, Cons(g, Nil)) && Good(s) && IsAnyZero(op) && g.Group?
    ensures Emitted(s, t, Cons(Zero(op, g), Nil))
  {
    var a, it, t0 := |s.code|, Zero(op, g), WithHeader(s, [op]);
    EmittedItem(t0, t, g);
    GoodParts(t);
    AtomicKind(t);
    hide LayItem, Size, Good, Emitted, ListOk;
    assert t.code[a] == t0.code[a] == op;
    MakeZero(t.x, t.code, a, op, g);
    ZeroSize(op, g);
    assert Grown(s, t);
    forall num: nat | num > 0 ensures Target(t.x, num) == Either(Target(s.x, num), FindOffset(it, a, num)) {
      assert Target(t.x, num) == Either(Target(t0.x, num), FindOffset(g, a + 1, num));
    }
    ZeroOperands(s, t, op, g);
    MakeEmitted(s, t, it);
  }

  lemma ZeroOperands(s: State, t: State, op: byte, g: Item)
    requires ListOk(s) && ListOk(t) && Grown(WithHeader(s, [op]), t)
    requires forall o: nat :: o in t.x.forward && o >= |s.code| + 1 ==> o in Operands(g, |s.code| + 1)
    ensures forall o: nat :: o in t.x.forward && o >= |s.code| ==> o in Operands(Zero(op, g), |s.code|)
  {
    forall o: nat | o in t.x.forward && o >= |s.code| ensures o in Operands(Zero(op, g), |s.code|) {
      HeaderFree(s, t, [op], o);
    }
  }

  /** Bytes of the item emitted last are exchanged so that they spell another item
    * with the same brackets and calls. */
  lemma Exchanged(s: State, t: State, t': State, it: Item, it': Item)
    requires Emitted(s, t, Cons(it, Nil)) && t'.hwm == t.hwm && t'.x == t.x && |t'.code| == |t.code|
    requires forall j :: 0 <= j < |s.code| ==> t'.code[j] == t.code[j]
    requires LayItem(t'.x, t'.code, |s.code|, it') && Size(it') == Size(it)
    requires Operands(it', |s.code|) == Operands(it, |s.code|)
    requires forall num: nat :: FindOffset(it', |s.code|, num) == FindOffset(it, |s.code|, num)
    ensures Emitted(s, t', Cons(it', Nil))
  {
    hide LayItem, Size, Good, Emitted, Operands, FindOffset, Grown, ListOk;
    EmittedItem(s, t, it);
    GoodParts(t);
    SameGrowth(s, t, t');
    forall num: nat | num > 0 ensures Target(t'.x, num) == Either(Target(s.x, num), FindOffset(it', |s.code|, num)) {
      assert Target(t.x, num) == Either(Target(s.x, num), FindOffset(it, |s.code|, num));
    }
    MakeEmitted(s, t', it');
  }

  lemma SameGrowth(s: State, t: State, t': State)
    requires Grown(s, t) && ListOk(t) && t'.hwm == t.hwm && t'.x == t.x && |t'.code| == |t.code|
    requires forall j :: 0 <= j < |s.code| ==> t'.code[j] == t.code[j]
    ensures Grown(s, t') && ListOk(t')
  {
  }

  lemma SameFinds(it: Item, it': Item, a: nat)
    requires (it.Zero? && it'.Zero? && it'.group == it.group)
          || (it.Group? && it'.Group? && it'.num == it.num && it'.alts == it.alts
              && BraSize(it'.bra) == BraSize(it.bra))
    ensures Size(it') == Size(it) && Operands(it', a) == Operands(it, a)
    ensures forall num: nat :: FindOffset(it', a, num) == FindOffset(it, a, num)
  {
    forall num: nat ensures FindOffset(it', a, num) == FindOffset(it, a, num) {
    }
  }

  lemma ZeroOpLaid(x: Links, code: seq<byte>, code': seq<byte>, a: nat, op: byte, op': byte, g: Item)
    requires LayItem(x, code, a, Zero(op, g)) && ZeroOk(x, op') && a < |code| && code' == code[a := op']
    ensures LayItem(x, code', a, Zero(op', g))
  {
    hide LayItem, Size, ZeroOk;
    OpenZero(x, code, a, op, g);
    assert Moved(x, code, x, code', a + 1, a + 1 + Size(g), 0);
    RelocateItem(x, code, x, code', a + 1, a + 1 + Size(g), 0, g);
    MakeZero(x, code', a, op', g);
  }

  /** Exchanging the opcode in front of an optional group. */
  lemma ZeroReplaced(s: State, t: State, t': State, op: byte, op': byte, g: Item)
    requires Emitted(s, t, Cons(Zero(op, g), Nil)) && IsAnyZero(op') && |s.code| < |t.code|
    requires t' == State(t.code[|s.code| := op'], t.hwm, t.x)
    ensures Emitted(s, t', Cons(Zero(op', g), Nil))
  {
    hide LayItem, Size, Good, Emitted, Operands, FindOffset, Grown;
    EmittedItem(s, t, Zero(op, g));
    AtomicKind(t);
    ZeroOpLaid(t.x, t.code, t'.code, |s.code|, op, op', g);
    SameFinds(Zero(op, g), Zero(op', g), |s.code|);
    Exchanged(s, t, t', Zero(op, g), Zero(op', g));
  }

  // ---------- a looping group ----------

  /** Exchanging the ket of a group that is laid out. */
  lemma {:induction false} KetReplaced(x: Links, code: seq<byte>, code': seq<byte>, h: nat, st: nat, alts: Alts,
                                       bra: nat, ket: byte, ket': byte)
    requires LayAlts(x, code, h, st, alts, bra, ket) && |code'| == |code|
    requires forall j :: h < j < st + AltsSize(alts) + 3 && j != st + AltsSize(alts) ==> code'[j] == code[j]
    requires code'[st + AltsSize(alts)] == ket'
    ensures LayAlts(x, code', h, st, alts, bra, ket')
    decreases alts
  {
    hide LayAlts, LayBranch, LayItem, AltsSize, BranchSize;
    var m := st + BranchSize(alts.b);
    match alts
    case Last(b) =>
      OpenLast(x, code, h, st, b, m, bra, ket);
      assert Moved(x, code, x, code', st, m, 0);
      RelocateBranch(x, code, x, code', st, m, 0, b);
      MakeLast(x, code', h, st, b, m, bra, ket');
    case More(b, rest) =>
      OpenMore(x, code, h, st, b, m, rest, bra, ket);
      assert Moved(x, code, x, code', st, m, 0);
      RelocateBranch(x, code, x, code', st, m, 0, b);
      KetReplaced(x, code, code', m, m + 3, rest, bra, ket, ket');
      MakeMore(x, code', h, st, b, m, rest, bra, ket');
  }

  lemma LoopLaid(x: Links, code: seq<byte>, code': seq<byte>, a: nat, g: Item, greed: Greed)
    requires Repeatable(g) && x.atomic && LayItem(x, code, a, g) && |code'| == |code|
    requires Looped(code, code', a, g, greed)
    ensures LayItem(x, code', a, LoopItem(g, greed))
  {
    hide LayItem, LayAlts, AltsSize;
    var g' := LoopItem(g, greed);
    OpenGroup(x, code, a, g.bra, g.num, g.alts, OP_KET);
    KetReplaced(x, code, code', a, a + BraSize(g.bra), g.alts, a, OP_KET, g'.ket);
    MakeGroup(x, code', a, g'.bra, g'.num, g.alts, g'.ket);
  }

  /** The offset of the ket of a group at a. */
  function KetAt(a: nat, g: Item): nat
    requires g.Group?
  {
    a + BraSize(g.bra) + AltsSize(g.alts)
  }

  /** Only the ket of the group at a and possibly its bracket are changed, so that it
    * loops; the bracket may be in the S form unless the group is atomic. */
  ghost predicate Looped(code: seq<byte>, code': seq<byte>, a: nat, g: Item, greed: Greed)
    requires g.Group?
  {
    var k, bra := KetAt(a, g), LoopBra(g.bra, greed);
    && |code'| == |code| && a < k < |code|
    && (forall j :: 0 <= j < |code| && j != a && j != k ==> code'[j] == code[j])
    && code'[k] == KetOp(greed)
    && (code'[a] == bra || (bra != OP_ONCE && code'[a] == bra + (OP_SBRA - OP_BRA)))
  }

  lemma LoopEmitted(s: State, t: State, t': State, g: Item, greed: Greed)
    requires Repeatable(g) && Emitted(s, t, Cons(g, Nil))
    requires t'.hwm == t.hwm && t'.x == t.x && Looped(t.code, t'.code, |s.code|, g, greed)
    ensures Emitted(s, t', Cons(LoopItem(g, greed), Nil))
  {
    hide LayItem, Size, Good, Emitted, Operands, FindOffset, Grown;
    EmittedItem(s, t, g);
    AtomicKind(t);
    LoopLaid(t.x, t.code, t'.code, |s.code|, g, greed);
    SameFinds(g, LoopItem(g, greed), |s.code|);
    Exchanged(s, t, t', g, LoopItem(g, greed));
  }

  /** The bracket of the group that is to loop, and its ket. */
  method SetLoopBytes(cd: Compiler, greed: Greed, bracode: nat, ketcode: nat, ghost bra: byte)
    requires cd.Valid() && bracode < ketcode < cd.end && cd.code[bracode] == bra
    requires bra == OP_BRA || bra == OP_CBRA || bra == OP_ONCE
    modifies cd`code, cd.buf
    ensures cd.Valid() && cd.end == old(cd.end) && |cd.code| == |old(cd.code)|
    ensures forall j :: 0 <= j < |cd.code| && j != bracode && j != ketcode ==> cd.code[j] == old(cd.code)[j]
    ensures cd.code[ketcode] == KetOp(greed)
    ensures var now := LoopBra(bra, greed);
            cd.code[bracode] == now || (now != OP_ONCE && cd.code[bracode] == now + (OP_SBRA - OP_BRA))
  {
    assert cd.buf[bracode] == cd.buf[..cd.end][bracode] == bra;
    var op := cd.buf[bracode];
    if op == OP_ONCE && greed == Possessive {
      op := OP_BRA;
    }
    if op != OP_ONCE {
      var couldBeEmpty: bool := *;
      if couldBeEmpty {
        op := op + (OP_SBRA - OP_BRA);
      }
      if greed == Possessive {
        op := op + 1;
      }
    }
    cd.SetByte(bracode, op);
    cd.SetByte(ketcode, KetOp(greed));
  }

  /** Make the group that ends the code loop. Whether its bracket takes the form
    * for groups that could match nothing is left open here. */
  method SetLoop(cd: Compiler, greed: Greed, ghost s: State, ghost g: Item)
    requires cd.Valid() && Repeatable(g) && Emitted(s, Now(cd), Cons(g, Nil))
    modifies cd`code, cd.buf
    ensures cd.Valid() && Emitted(s, Now(cd), Cons(LoopItem(g, greed), Nil)) && cd.end == old(cd.end)
  {
    ghost var t := Now(cd);
    GroupEnds(s, t, g);
    hide Emitted, KetAt;
    var ketcode := cd.end - 3;
    var link := cd.LinkAt(ketcode + 1);
    SetLoopBytes(cd, greed, ketcode - link, ketcode, g.bra);
    LoopEmitted(s, t, Now(cd), g, greed);
  }

  /** Finding the bracket of a group from the end of its code. */
  lemma GroupEnds(s: State, t: State, g: Item)
    requires Repeatable(g) && Emitted(s, t, Cons(g, Nil))
    ensures var k := KetAt(|s.code|, g);
            k + 3 == |t.code| && |s.code| < k && Get(t.code, k + 1) == k - |s.code| && t.code[|s.code|] == g.bra
    ensures forall j :: 0 <= j < |s.code| ==> t.code[j] == s.code[j]
  {
    hide Good, Emitted, LayAlts, LayItem, Size, Get;
    EmittedItem(s, t, g);
    OpenGroup(t.x, t.code, |s.code|, g.bra, g.num, g.alts, OP_KET);
    KetLink(t.x, t.code, |s.code|, |s.code| + BraSize(g.bra), g.alts, |s.code|, OP_KET);
  }

  lemma AltEnd(x: Links, code: seq<byte>, h: nat, st: nat, b: Branch, e: nat, end: byte)
    requires LayAlt(x, code, h, st, b, e, end)
    ensures h + 3 <= st <= e && e + 3 <= |code| && code[e] == end
  {
  }

  lemma {:induction false} KetLink(x: Links, code: seq<byte>, h: nat, st: nat, alts: Alts, bra: nat, ket: byte)
    requires LayAlts(x, code, h, st, alts, bra, ket)
    ensures var k := st + AltsSize(alts);
            bra <= k && k + 3 <= |code| && code[k] == ket && Get(code, k + 1) == k - bra
    decreases alts
  {
    hide LayAlts, LayAlt, LayBranch, AltsSize, BranchSize, Get;
    var m := st + BranchSize(alts.b);
    match alts
    case Last(b) =>
      OpenLast(x, code, h, st, b, m, bra, ket);
      AltEnd(x, code, h, st, b, m, ket);
    case More(b, rest) =>
      OpenMore(x, code, h, st, b, m, rest, bra, ket);
      AltEnd(x, code, h, st, b, m, OP_ALT);
      KetLink(x, code, m, m + 3, rest, bra, ket);
  }

  // ---------- nested optional copies ----------

  /** The header of an optional copy that holds the next one. Its link is zero,
    * or leads back to the header before it, until the copy is closed. */
  function NestHeader(op: byte, link: nat): (r: seq<byte>)
    ensures |r| == 4
  {
    [op, OP_BRA, link / 256 % 256, link % 256]
  }

  /** The brackets that are still open: the states before their headers. */
  function LinkBack(open: seq<State>, j: nat): nat
    requires j < |open|
  {
    if j == 0 || |open[j].code| < |open[j - 1].code| then 0 else |open[j].code| - |open[j - 1].code|
  }

  /** Behind the header of the j-th open bracket there is one copy of the group;
    * the copy of the innermost one ends at the given state. */
  ghost predicate ChainAt(open: seq<State>, now: State, op: byte, g: Item, j: nat)
    requires j < |open|
  {
    && Good(open[j])
    && Emitted(WithHeader(open[j], NestHeader(op, LinkBack(open, j))),
               if j + 1 < |open| then open[j + 1] else now, Cons(g, Nil))
  }

  ghost predicate Chain(open: seq<State>, now: State, op: byte, g: Item) {
    forall j: nat :: j < |open| ==> ChainAt(open, now, op, g, j)
  }

  /** The pending chain as the compiler holds it: the offset of the innermost
    * bracket's link. */
  predicate BraLink(open: seq<State>, bralink: int) {
    if open == [] then bralink == -1 else bralink == |open[|open| - 1].code| + 2
  }

  lemma ChainPush(open: seq<State>, s: State, t: State, op: byte, g: Item)
    requires Chain(open, s, op, g) && Good(s)
    requires Emitted(WithHeader(s, NestHeader(op, LinkBack(open + [s], |open|))), t, Cons(g, Nil))
    ensures Chain(open + [s], t, op, g)
  {
    hide Good, Emitted;
    var more := open + [s];
    forall j: nat | j < |more| ensures ChainAt(more, t, op, g, j) {
      if j < |open| {
        assert ChainAt(open, s, op, g, j);
        assert more[j] == open[j] && LinkBack(more, j) == LinkBack(open, j);
      }
    }
  }

  lemma ChainPop(open: seq<State>, now: State, op: byte, g: Item)
    requires Chain(open, now, op, g) && |open| > 0
    ensures var n := |open| - 1;
            && Good(open[n]) && Emitted(WithHeader(open[n], NestHeader(op, LinkBack(open, n))), now, Cons(g, Nil))
            && Chain(open[..n], open[n], op, g)
            && (n > 0 ==> |open[n].code| > |open[n - 1].code|)
  {
    hide Good, Emitted;
    var n := |open| - 1;
    var less := open[..n];
    assert ChainAt(open, now, op, g, n);
    forall j: nat | j < n ensures ChainAt(less, open[n], op, g, j) {
      assert ChainAt(open, now, op, g, j);
      assert less[j] == open[j] && LinkBack(less, j) == LinkBack(open, j);
    }
    if n > 0 {
      assert ChainAt(open, now, op, g, n - 1);
      EmittedLaid(WithHeader(open[n - 1], NestHeader(op, LinkBack(open, n - 1))), open[n], Cons(g, Nil));
    }
  }

  /** The state after a nest was closed: a ket, and the length in both links. */
  ghost predicate Closed(s: State, u: State, u': State) {
    && |s.code| + 4 <= |u.code|
    && u'.hwm == u.hwm && u'.x == u.x
    && var off := |u.code| - |s.code| - 1;
       u'.code == Put(u.code + [OP_KET, off / 256 % 256, off % 256], |s.code| + 2, off)
  }

  /** Closing an open bracket turns what it holds into one optional item. */
  lemma CloseNest(s: State, t: State, u: State, u': State, op: byte, link: nat, body: Branch)
    requires Good(s) && t == WithHeader(s, NestHeader(op, link)) && IsZero(op)
    requires Emitted(t, u, body) && Closed(s, u, u') && |u'.code| <= 65536
    ensures Emitted(s, u', Cons(Zero(op, Group(OP_BRA, 0, Last(body), OP_KET)), Nil))
  {
    hide Good, Emitted, LayBranch, LayItem, BranchSize, Size, Put, Get, OperandsInBranch, FindOffset, Operands, ListOk,
      Closed;
    GoodParts(s);
    EmittedLaid(t, u, body);
    NestOperands(s, t, u, NestHeader(op, link), body);
    EmittedLists(t, u, body);
    NestTargets(s, t, u, u', op, body);
    ClosedLinks(s, u, u');
    NestHead(s, t, u, u', op, link, body);
    NestLaid(u.x, u.code, u'.code, |s.code|, op, body);
    NestItemSize(op, body);
    NestGrown(s, t, u, u', op, link, body);
    TargetZero(t, u, body);
    MakeEmitted(s, u', Zero(op, Group(OP_BRA, 0, Last(body), OP_KET)));
  }

  lemma NestHead(s: State, t: State, u: State, u': State, op: byte, link: nat, body: Branch)
    requires t == WithHeader(s, NestHeader(op, link)) && |t.code| <= |u.code| && |u'.code| == |u.code| + 3
    requires forall j :: 0 <= j < |t.code| ==> u.code[j] == t.code[j]
    requires forall j :: 0 <= j < |u.code| && j != |s.code| + 2 && j != |s.code| + 3 ==> u'.code[j] == u.code[j]
    ensures u'.code[|s.code|] == op && u'.code[|s.code| + 1] == OP_BRA
  {
    var a := |s.code|;
    assert u'.code[a] == u.code[a] == t.code[a] == op && u'.code[a + 1] == u.code[a + 1] == t.code[a + 1] == OP_BRA;
  }

  lemma NestGrown(s: State, t: State, u: State, u': State, op: byte, link: nat, body: Branch)
    requires t == WithHeader(s, NestHeader(op, link)) && Emitted(t, u, body) && ListOk(s)
    requires u'.x == u.x && u'.hwm == u.hwm && |u'.code| == |u.code| + 3
    requires forall j :: 0 <= j < |u.code| && j != |s.code| + 2 && j != |s.code| + 3 ==> u'.code[j] == u.code[j]
    ensures Grown(s, u') && ListOk(u')
  {
    assert ListOk(u) && Grown(t, u);
    hide Good, LayBranch, BranchSize, OperandsInBranch;
  }

  lemma TargetZero(s: State, t: State, b: Branch)
    requires Emitted(s, t, b)
    ensures Target(t.x, 0) == Some(0)
  {
  }

  lemma NestItemSize(op: byte, body: Branch)
    ensures Size(Zero(op, Group(OP_BRA, 0, Last(body), OP_KET))) == 1 + 3 + BranchSize(body) + 3
  {
    assert AltsSize(Last(body)) == BranchSize(body);
    assert Size(Group(OP_BRA, 0, Last(body), OP_KET)) == 3 + BranchSize(body) + 3;
  }

  lemma ClosedLinks(s: State, u: State, u': State)
    requires Closed(s, u, u') && |u'.code| <= 65536
    ensures u'.x == u.x && u'.hwm == u.hwm
    ensures var a, e := |s.code|, |u.code|;
            && |u'.code| == e + 3 && u'.code[e] == OP_KET
            && Get(u'.code, a + 2) == e - (a + 1) && Get(u'.code, e + 1) == e - (a + 1)
            && (forall j :: 0 <= j < e && j != a + 2 && j != a + 3 ==> u'.code[j] == u.code[j])
  {
  }

  lemma NestLaid(x: Links, code: seq<byte>, code': seq<byte>, a: nat, op: byte, body: Branch)
    requires IsZero(op) && LayBranch(x, code, a + 4, body) && |code| == a + 4 + BranchSize(body)
    requires |code'| == |code| + 3
    requires code'[a] == op && code'[a + 1] == OP_BRA && code'[|code|] == OP_KET
    requires Get(code', a + 2) == |code| - (a + 1) && Get(code', |code| + 1) == |code| - (a + 1)
    requires forall j :: a + 4 <= j < |code| ==> code'[j] == code[j]
    ensures LayItem(x, code', a, Zero(op, Group(OP_BRA, 0, Last(body), OP_KET)))
  {
    hide LayBranch, LayItem, LayAlts, BranchSize, Get;
    assert Moved(x, code, x, code', a + 4, |code|, 0);
    RelocateBranch(x, code, x, code', a + 4, |code|, 0, body);
    MakeLast(x, code', a + 1, a + 4, body, |code|, a + 1, OP_KET);
    MakeGroup(x, code', a + 1, OP_BRA, 0, Last(body), OP_KET);
    MakeZero(x, code', a, op, Group(OP_BRA, 0, Last(body), OP_KET));
  }

  lemma NestOperands(s: State, t: State, u: State, header: seq<byte>, body: Branch)
    requires Good(s) && t == WithHeader(s, header) && |header| == 4 && Emitted(t, u, body)
    ensures forall op, o: nat :: o in u.x.forward && o >= |s.code|
              ==> o in Operands(Zero(op, Group(OP_BRA, 0, Last(body), OP_KET)), |s.code|)
  {
    forall op, o: nat | o in u.x.forward && o >= |s.code|
      ensures o in Operands(Zero(op, Group(OP_BRA, 0, Last(body), OP_KET)), |s.code|)
    {
      HeaderFree(s, u, header, o);
      assert o in OperandsInBranch(body, |s.code| + 4);
      assert Operands(Group(OP_BRA, 0, Last(body), OP_KET), |s.code| + 1) == OperandsInAlts(Last(body), |s.code| + 4);
    }
  }

  lemma NestTargets(s: State, t: State, u: State, u': State, op: byte, body: Branch)
    requires t.x == s.x && |t.code| == |s.code| + 4 && Emitted(t, u, body) && Closed(s, u, u')
    ensures forall num: nat | num > 0 ::
      Target(u'.x, num)
      == Either(Target(s.x, num), FindOffset(Zero(op, Group(OP_BRA, 0, Last(body), OP_KET)), |s.code|, num))
  {
    forall num: nat | num > 0
      ensures Target(u'.x, num)
              == Either(Target(s.x, num), FindOffset(Zero(op, Group(OP_BRA, 0, Last(body), OP_KET)), |s.code|, num))
    {
      TargetsAfter(t, u, body, num);
      assert FindOffset(Group(OP_BRA, 0, Last(body), OP_KET), |s.code| + 1, num)
          == FindOffsetInAlts(Last(body), |s.code| + 4, num);
    }
  }

  /** Where the next copy comes from, and that the latest one ends the code. */
  ghost predicate Ready(s: State, p: nat, q: nat, len: nat, base: nat, g: Item) {
    Source(s, p, q, base, g) && len == Size(g) && |s.code| == q + len
  }

  /** One more optional copy; unless it is the last, a bracket is left open in
    * front of it. */
  method EmitOptional(cd: Compiler, p: nat, len: nat, base: nat, more: bool, greed: Greed, bralink: int,
                      ghost q: nat, ghost open: seq<State>, ghost g: Item)
    returns (newBase: nat, newLink: int)
    requires cd.Valid() && Good(Now(cd)) && Ready(Now(cd), p, q, len, base, g) && g.Group?
    requires Chain(open, Now(cd), ZeroOp(greed), g) && BraLink(open, bralink)
    requires open != [] ==> |open[|open| - 1].code| < cd.end
    requires cd.end + len + (if more then 4 else 1) <= cd.buf.Length
    modifies cd, cd.buf
    ensures cd.Valid() && Good(Now(cd)) && cd.end == old(cd.end) + len + (if more then 4 else 1)
    ensures if more then
              && Chain(open + [old(Now(cd))], Now(cd), ZeroOp(greed), g) && BraLink(open + [old(Now(cd))], newLink)
              && Ready(Now(cd), p, old(cd.end) + 4, len, newBase, g)
            else
              && newLink == bralink && Emitted(old(Now(cd)), Now(cd), Cons(Zero(ZeroOp(greed), g), Nil))
  {
    hide Compiler.Valid, Good, Emitted, Chain, Source, Size, LayItem;
    ghost var s := Now(cd);
    ghost var op := ZeroOp(greed);
    newLink := bralink;
    cd.Bounds();
    cd.Emit(ZeroOp(greed));
    cd.Bounds();
    if more {
      cd.Emit(OP_BRA);
      cd.Bounds();
      var offset := if bralink == -1 then 0 else cd.end - bralink;
      newLink := cd.end;
      cd.EmitLink(offset);
      assert cd.code == s.code + NestHeader(op, offset);
      assert offset == LinkBack(open + [s], |open|);
    } else {
      assert cd.code == s.code + [op];
    }
    cd.Bounds();
    ghost var t := Now(cd);
    ghost var header := if more then NestHeader(op, LinkBack(open + [s], |open|)) else [op];
    assert t == WithHeader(s, header);
    HeaderGood(s, header);
    SourceGrows(s, t, p, q, base, g);
    newBase := CopyGroup(cd, p, len, base, len + if more then 4 else 1, q, g);
    EmittedGoods(t, Now(cd), g);
    cd.Bounds();
    if more {
      ChainPush(open, s, Now(cd), op, g);
    } else {
      ZeroWrap(s, Now(cd), op, g);
    }
  }

  /** What an open bracket holds once the rest of the nest stands behind it. */
  function Body(g: Item, nest: Item): Branch {
    Cons(g, Cons(nest, Nil))
  }

  lemma InnerEmitted(open: seq<State>, cur: State, u: State, op: byte, g: Item, nest: Item, bralink: int)
    requires BraLink(open, bralink)
    requires |open| > 0 && Chain(open, cur, op, g) && Emitted(cur, u, Cons(nest, Nil)) && |u.code| < 65536
    ensures var n := |open| - 1; var link := LinkBack(open, n); var t := WithHeader(open[n], NestHeader(op, link));
            && Good(open[n]) && Chain(open[..n], open[n], op, g)
            && Emitted(t, u, Body(g, nest))
            && |t.code| <= |u.code| && Get(u.code, |open[n].code| + 2) == link
            && bralink == |open[n].code| + 2 && |open[n].code| + 4 <= |u.code|
            && BraLink(open[..n], if link == 0 then -1 else bralink - link)
  {
    hide Good, Emitted, Chain, Get;
    var n := |open| - 1;
    var t := WithHeader(open[n], NestHeader(op, LinkBack(open, n)));
    ChainPop(open, cur, op, g);
    EmittedTwice(t, cur, u, Cons(g, Nil), Cons(nest, Nil));
    assert Append(Cons(g, Nil), Cons(nest, Nil)) == Body(g, nest);
    EmittedLaid(t, u, Body(g, nest));
    LinkRead(t, u, open[n], op, LinkBack(open, n));
  }

  /** Close the innermost open bracket. */
  method CloseOne(cd: Compiler, bralink: int, ghost open: seq<State>, ghost cur: State, ghost op: byte, ghost g: Item,
                  ghost nest: Item)
    returns (newLink: int)
    requires cd.Valid() && |open| > 0 && IsZero(op) && Chain(open, cur, op, g) && BraLink(open, bralink)
    requires Emitted(cur, Now(cd), Cons(nest, Nil)) && cd.end + 3 <= cd.buf.Length
    modifies cd`end, cd`code, cd.buf
    ensures cd.Valid() && cd.end == old(cd.end) + 3
    ensures var n := |open| - 1;
            && Chain(open[..n], open[n], op, g) && BraLink(open[..n], newLink)
            && Emitted(open[n], Now(cd), Cons(Zero(op, Group(OP_BRA, 0, Last(Body(g, nest)), OP_KET)), Nil))
  {
    hide Compiler.Valid, Good, Emitted, Chain, Put, Get, BraLink, LinkBack, NestHeader;
    ghost var n, u := |open| - 1, Now(cd);
    ghost var top := open[n];
    cd.Bounds();
    InnerEmitted(open, cur, u, op, g, nest, bralink);
    var offset := cd.end - bralink + 1;
    var bra := cd.end - offset;
    var oldlinkoffset := cd.LinkAt(bra + 1);
    newLink := if oldlinkoffset == 0 then -1 else bralink - oldlinkoffset;
    cd.Emit(OP_KET);
    cd.Bounds();
    cd.EmitLink(offset);
    cd.Bounds();
    assert cd.code == u.code + [OP_KET, offset / 256 % 256, offset % 256];
    cd.SetLink(bra + 1, offset);
    cd.Bounds();
    CloseNest(top, WithHeader(top, NestHeader(op, LinkBack(open, n))), u, Now(cd), op, LinkBack(open, n),
              Body(g, nest));
  }

  /** Close the brackets that are still open, the innermost first. */
  method CloseNests(cd: Compiler, bralink0: int, greed: Greed, ghost open0: seq<State>, ghost last: State,
                    ghost g: Item, ghost k0: nat)
    requires cd.Valid() && g.Group? && k0 >= 1
    requires Chain(open0, last, ZeroOp(greed), g) && BraLink(open0, bralink0)
    requires Emitted(last, Now(cd), Cons(Nest(g, k0, greed), Nil))
    requires cd.end + 3 * |open0| <= cd.buf.Length
    modifies cd`end, cd`code, cd.buf
    ensures cd.Valid()
    ensures Emitted(if open0 == [] then last else open0[0], Now(cd), Cons(Nest(g, k0 + |open0|, greed), Nil))
  {
    var bralink := bralink0;
    ghost var open, cur, op := open0, last, ZeroOp(greed);
    ghost var k := k0;
    hide Emitted, Chain, Nest;
    while bralink != -1
      invariant cd.Valid() && |open| <= |open0| && cd.end + 3 * |open| <= cd.buf.Length
      invariant Chain(open, cur, op, g) && BraLink(open, bralink)
      invariant k == k0 + |open0| - |open| && Emitted(cur, Now(cd), Cons(Nest(g, k, greed), Nil))
      invariant if open == [] then cur == (if open0 == [] then last else open0[0]) else open[0] == open0[0]
      decreases |open|
    {
      bralink := CloseOne(cd, bralink, open, cur, op, g, Nest(g, k, greed));
      NestStep(g, k, greed);
      cur, open, k := open[|open| - 1], open[..|open| - 1], k + 1;
    }
  }

  lemma NestStep(g: Item, k: nat, greed: Greed)
    requires k >= 1
    ensures Nest(g, k + 1, greed)
         == Zero(ZeroOp(greed), Group(OP_BRA, 0, Last(Body(g, Nest(g, k, greed))), OP_KET))
  {
  }

  /** The link of an open bracket is still what was written there. */
  lemma LinkRead(t: State, u: State, s: State, op: byte, link: nat)
    requires t == WithHeader(s, NestHeader(op, link)) && |t.code| <= |u.code| && link < 65536
    requires forall j :: 0 <= j < |t.code| ==> u.code[j] == t.code[j]
    ensures Get(u.code, |s.code| + 2) == link
  {
  }

  /** What the loop over the optional copies has achieved with i of them left to
    * do after the current one; start is where the nest begins. */
  ghost predicate Progress(now: State, open: seq<State>, last: State, start: State, i: int, op: byte, g: Item) {
    && (if i >= 0 then Chain(open, now, op, g) && (open == [] ==> now == start)
        else Chain(open, last, op, g) && Emitted(last, now, Cons(Zero(op, g), Nil)) && (open == [] ==> last == start))
    && (open != [] ==> open[0] == start && (i >= 0 ==> |open[|open| - 1].code| < |now.code|))
  }

  lemma ProgressMore(s: State, t: State, open: seq<State>, last: State, start: State, i: int, op: byte, g: Item)
    requires Progress(s, open, last, start, i, op, g) && i > 0
    requires Chain(open + [s], t, op, g) && |s.code| < |t.code|
    ensures Progress(t, open + [s], last, start, i - 1, op, g)
  {
    hide Chain;
    assert (open + [s])[|open|] == s;
  }

  lemma ProgressLast(s: State, t: State, open: seq<State>, last: State, start: State, op: byte, g: Item)
    requires Progress(s, open, last, start, 0, op, g) && Emitted(s, t, Cons(Zero(op, g), Nil))
    ensures Progress(t, open, s, start, -1, op, g)
  {
    hide Chain, Emitted;
  }

  /** One optional copy, as a step of the loop below. */
  method EmitStep(cd: Compiler, p: nat, len: nat, base: nat, i: nat, greed: Greed, bralink: int,
                  ghost q: nat, ghost open: seq<State>, ghost last: State, ghost start: State, ghost g: Item)
    returns (newBase: nat, newLink: int, ghost newQ: nat, ghost newOpen: seq<State>, ghost newLast: State)
    requires cd.Valid() && Good(Now(cd)) && g.Group? && Ready(Now(cd), p, q, len, base, g)
    requires BraLink(open, bralink) && Progress(Now(cd), open, last, start, i, ZeroOp(greed), g)
    requires cd.end + len + (if i != 0 then 4 else 1) <= cd.buf.Length
    modifies cd, cd.buf
    ensures cd.Valid() && cd.end == old(cd.end) + len + (if i != 0 then 4 else 1)
    ensures BraLink(newOpen, newLink) && Progress(Now(cd), newOpen, newLast, start, i - 1, ZeroOp(greed), g)
    ensures |newOpen| == |open| + (if i != 0 then 1 else 0)
    ensures i != 0 ==> Good(Now(cd)) && Ready(Now(cd), p, newQ, len, newBase, g)
  {
    ghost var s, op := Now(cd), ZeroOp(greed);
    newOpen, newLast, newQ := open, last, cd.end + 4;
    hide Good, Emitted, Chain, Ready;
    newBase, newLink := EmitOptional(cd, p, len, base, i != 0, greed, bralink, q, open, g);
    if i != 0 {
      ProgressMore(s, Now(cd), open, last, start, i, op, g);
      newOpen := open + [s];
    } else {
      ProgressLast(s, Now(cd), open, last, start, op, g);
      newLast := s;
    }
  }

  /** Emit count further optional copies and close all brackets. An open bracket
    * may already have been put in front of the latest copy. */
  method EmitNest(cd: Compiler, p: nat, len: nat, base0: nat, count: nat, greed: Greed, bralink0: int,
                  ghost q0: nat, ghost open0: seq<State>, ghost g: Item)
    requires cd.Valid() && Good(Now(cd)) && g.Group? && count >= 1
    requires Ready(Now(cd), p, q0, len, base0, g)
    requires Chain(open0, Now(cd), ZeroOp(greed), g) && BraLink(open0, bralink0)
    requires open0 != [] ==> |open0| == 1 && |open0[0].code| < cd.end
    requires cd.end + NestLength(len, count) + 3 * |open0| <= cd.buf.Length
    modifies cd, cd.buf
    ensures cd.Valid()
    ensures Emitted(if open0 == [] then old(Now(cd)) else open0[0], Now(cd), Cons(Nest(g, count + |open0|, greed), Nil))
  {
    hide Compiler.Valid, Good, Emitted, Chain, Ready, Progress, BraLink;
    cd.Bounds();
    ghost var start := if open0 == [] then Now(cd) else open0[0];
    ghost var open, last, q, op := open0, Now(cd), q0, ZeroOp(greed);
    var i, base, bralink := count - 1, base0, bralink0;
    ProgressStart(Now(cd), open, start, i, op, g);
    while i >= 0
      invariant -1 <= i < count && cd.Valid() && |open| == |open0| + count - 1 - (if i >= 0 then i else 0)
      invariant BraLink(open, bralink) && Progress(Now(cd), open, last, start, i, op, g)
      invariant i >= 0 ==> Good(Now(cd)) && Ready(Now(cd), p, q, len, base, g)
      invariant cd.end + NestLength(len, i + 1) + 3 * |open| <= cd.buf.Length
    {
      base, bralink, q, open, last := EmitStep(cd, p, len, base, i, greed, bralink, q, open, last, start, g);
      i := i - 1;
    }
    ProgressDone(Now(cd), open, last, start, op, g);
    NestOfOne(g, greed);
    CloseNests(cd, bralink, greed, open, last, g, 1);
  }

  lemma ProgressStart(now: State, open: seq<State>, start: State, i: nat, op: byte, g: Item)
    requires Chain(open, now, op, g) && start == (if open == [] then now else open[0])
    requires open != [] ==> |open[|open| - 1].code| < |now.code|
    ensures Progress(now, open, now, start, i, op, g)
  {
  }

  lemma ProgressDone(now: State, open: seq<State>, last: State, start: State, op: byte, g: Item)
    requires Progress(now, open, last, start, -1, op, g)
    ensures Chain(open, last, op, g) && Emitted(last, now, Cons(Zero(op, g), Nil))
    ensures (if open == [] then last else open[0]) == start
  {
  }

  /** The quantifier of the group at previous. */
  method RepeatGroup(cd: Compiler, previous: nat, base: nat, min: nat, max: int, greed: Greed,
                     ghost s: State, ghost g: Item)
    requires cd.Valid() && Repeatable(g) && Emitted(s, Now(cd), Cons(g, Nil))
    requires previous == |s.code| > 0 && base == |s.hwm| && (max == -1 || min <= max)
    requires previous + GroupLength(cd.end - previous, min, max, greed) < cd.buf.Length
    modifies cd, cd.buf
    ensures cd.Valid() && Emitted(s, Now(cd), ExpandGroup(g, min, max, greed))
  {
    hide Compiler.Valid, Emitted, GroupCopies;
    cd.Bounds();
    EmittedGoods(s, Now(cd), g);
    GroupSize(g, min, max, greed);
    OnceSize(GroupCopies(g, min, max, greed));
    if min == 0 {
      RepeatOptional(cd, previous, base, max, greed, s, g);
    } else {
      RepeatMandatory(cd, previous, base, min, max, greed, s, g);
    }
    cd.Bounds();
    EmittedGood(s, Now(cd), GroupCopies(g, min, max, greed));
    var possessive := greed == Possessive && max != 0;
    if max == -1 && min < 2 {
      possessive := false;
    }
    if possessive {
      Wrap(cd, previous, base, s, GroupCopies(g, min, max, greed));
    }
  }

  /** A minimum of zero. */
  method RepeatOptional(cd: Compiler, previous: nat, base: nat, max: int, greed: Greed, ghost s: State, ghost g: Item)
    requires cd.Valid() && Repeatable(g) && Emitted(s, Now(cd), Cons(g, Nil))
    requires previous == |s.code| > 0 && base == |s.hwm| && max >= -1
    requires previous + GroupLength(cd.end - previous, 0, max, greed) < cd.buf.Length
    modifies cd, cd.buf
    ensures cd.Valid() && Emitted(s, Now(cd), GroupCopies(g, 0, max, greed))
  {
    ghost var t := Now(cd);
    var len := cd.end - previous;
    EmittedGoods(s, t, g);
    NestOfOne(g, greed);
    hide Good, Emitted, Chain, Source, Size, Nest;
    if max <= 1 {
      var op := if max == 0 then OP_SKIPZERO else ZeroOp(greed);
      InsertBefore(cd, previous, [op], base, s, Cons(g, Nil));
      if max == -1 {
        SetLoop(cd, greed, WithHeader(s, [op]), g);
        ZeroWrap(s, Now(cd), op, LoopItem(g, greed));
        if greed == Possessive {
          t := Now(cd);
          cd.SetByte(previous, OP_BRAPOSZERO);
          ZeroReplaced(s, t, Now(cd), op, OP_BRAPOSZERO, LoopItem(g, greed));
        }
      } else {
        ZeroWrap(s, Now(cd), op, g);
      }
    } else {
      RepeatBounded(cd, previous, base, max, greed, s, g);
    }
  }

  /** A minimum of zero and a maximum of more than one. */
  method RepeatBounded(cd: Compiler, previous: nat, base: nat, max: nat, greed: Greed, ghost s: State, ghost g: Item)
    requires cd.Valid() && Emitted(s, Now(cd), Cons(g, Nil)) && g.Group?
    requires previous == |s.code| > 0 && base == |s.hwm| && max >= 2
    requires previous + NestLength(cd.end - previous, max) < cd.buf.Length
    modifies cd, cd.buf
    ensures cd.Valid() && Emitted(s, Now(cd), Cons(Nest(g, max, greed), Nil))
  {
    var len := cd.end - previous;
    ghost var h := WithHeader(s, NestHeader(ZeroOp(greed), 0));
    hide Compiler.Valid, Good, Emitted, Chain, Ready, Size, Nest, NestLength, NestHeader;
    cd.Bounds();
    EmittedGoods(s, Now(cd), g);
    NestGrows(len, max);
    HeaderPassive(ZeroOp(greed), 0);
    InsertBefore(cd, previous, NestHeader(ZeroOp(greed), 0), base, s, Cons(g, Nil));
    cd.Bounds();
    EmittedGoods(h, Now(cd), g);
    ChainOne(s, Now(cd), ZeroOp(greed), g);
    ReadyNew(h, Now(cd), len, g);
    EmitNest(cd, previous + 4, len, base, max - 1, greed, previous + 2, previous + 4, [s], g);
  }

  lemma NestGrows(len: nat, k: nat)
    requires k >= 2
    ensures NestLength(len, k) == 1 + 3 + len + NestLength(len, k - 1) + 3
  {
  }

  lemma NestOfOne(g: Item, greed: Greed)
    ensures Nest(g, 1, greed) == Zero(ZeroOp(greed), g)
  {
  }

  lemma EmittedGoods(s: State, t: State, g: Item)
    requires Emitted(s, t, Cons(g, Nil))
    ensures Good(s) && Good(t) && |t.code| == |s.code| + Size(g)
  {
    assert BranchSize(Nil) == 0;
  }

  lemma HeaderPassive(op: byte, link: nat)
    requires IsZero(op)
    ensures Passive(NestHeader(op, link))
  {
  }

  lemma ChainOne(s: State, t: State, op: byte, g: Item)
    requires Good(s) && Emitted(WithHeader(s, NestHeader(op, 0)), t, Cons(g, Nil))
    ensures Chain([s], t, op, g)
  {
    hide Good, Emitted;
    forall j: nat | j < 1 ensures ChainAt([s], t, op, g, j) {
      assert LinkBack([s], 0) == 0;
    }
  }

  /** A minimum of one or more: copies in a row, and then a loop or a nest. */
  method RepeatMandatory(cd: Compiler, previous: nat, base0: nat, min: nat, max: int, greed: Greed,
                         ghost s: State, ghost g: Item)
    requires cd.Valid() && Repeatable(g) && Emitted(s, Now(cd), Cons(g, Nil))
    requires previous == |s.code| > 0 && base0 == |s.hwm| && min >= 1 && (max == -1 || min <= max)
    requires previous + GroupLength(cd.end - previous, min, max, greed) < cd.buf.Length
    modifies cd, cd.buf
    ensures cd.Valid() && Emitted(s, Now(cd), GroupCopies(g, min, max, greed))
  {
    hide Compiler.Valid, Good, Emitted, Source, Ready, Size, Copies, GroupCopies, GroupLength, NestLength, Nest;
    cd.Bounds();
    EmittedGoods(s, Now(cd), g);
    var len := cd.end - previous;
    MandatoryRoom(len, min, max, greed);
    MandatoryShape(g, min, max, greed);
    var base, latest := CopyMandatory(cd, previous, len, base0, min, s, g);
    if max == -1 {
      SetLoop(cd, greed, latest, g);
      CopiesTail(s, latest, Now(cd), g, min - 1, Cons(LoopItem(g, greed), Nil));
    } else {
      CopiesMore(s, latest, Now(cd), g, min - 1);
      if max > min {
        OptionalTail(cd, previous, len, base, min, max, greed, s, g, cd.end - len);
      }
    }
  }

  lemma MandatoryRoom(len: nat, min: nat, max: int, greed: Greed)
    requires min >= 1 && (max == -1 || min <= max)
    ensures min * len <= GroupLength(len, min, max, greed)
    ensures max > min ==> min * len + NestLength(len, max - min) <= GroupLength(len, min, max, greed)
  {
  }

  lemma MandatoryShape(g: Item, min: nat, max: int, greed: Greed)
    requires g.Group? && min >= 1 && (max == -1 || min <= max)
    ensures GroupCopies(g, min, max, greed)
            == if max == -1 then Copies(g, min - 1, Cons(LoopItem(g, greed), Nil))
               else Copies(g, min, if max == min then Nil else Cons(Nest(g, max - min, greed), Nil))
  {
  }

  /** The mandatory copies; latest is the state before the last of them. */
  method CopyMandatory(cd: Compiler, previous: nat, len: nat, base0: nat, min: nat, ghost s: State, ghost g: Item)
    returns (base: nat, ghost latest: State)
    requires cd.Valid() && Emitted(s, Now(cd), Cons(g, Nil)) && g.Group? && len == Size(g)
    requires previous == |s.code| && base0 == |s.hwm| && min >= 1 && previous + min * len <= cd.buf.Length
    modifies cd, cd.buf
    ensures cd.Valid() && cd.end == previous + min * len
    ensures Emitted(s, latest, Copies(g, min - 1, Nil)) && Emitted(latest, Now(cd), Cons(g, Nil))
    ensures cd.end >= len && Ready(Now(cd), previous, cd.end - len, len, base, g)
  {
    ghost var q: nat := previous;
    latest := s;
    base := base0;
    var i := 1;
    hide Compiler.Valid, Good, Emitted, Source, Ready, Size, Copies;
    cd.Bounds();
    EmittedGoods(s, Now(cd), g);
    ReadyNew(s, Now(cd), len, g);
    CopiesOne(s, g);
    while i < min
      invariant 1 <= i <= min && cd.Valid() && cd.end == previous + i * len
      invariant Good(Now(cd)) && Ready(Now(cd), previous, q, len, base, g)
      invariant Emitted(s, latest, Copies(g, i - 1, Nil)) && Emitted(latest, Now(cd), Cons(g, Nil))
    {
      CopiesMore(s, latest, Now(cd), g, i - 1);
      RoomForOne(i, min, len);
      cd.Bounds();
      latest := Now(cd);
      base := CopyNext(cd, previous, len, base, q, g);
      q := |latest.code|;
      i := i + 1;
    }
    ReadyEnds(Now(cd), previous, q, len, base, g);
    cd.Bounds();
  }

  lemma ReadyNew(s: State, t: State, len: nat, g: Item)
    requires Emitted(s, t, Cons(g, Nil)) && len == Size(g)
    ensures Ready(t, |s.code|, |s.code|, len, |s.hwm|, g)
  {
    SourceNew(s, t, g);
    EmittedGoods(s, t, g);
  }

  lemma ReadyEnds(s: State, p: nat, q: nat, len: nat, base: nat, g: Item)
    requires Ready(s, p, q, len, base, g)
    ensures q + len == |s.code|
  {
  }

  lemma RoomForOne(i: nat, min: nat, len: nat)
    requires i < min
    ensures (i + 1) * len == i * len + len <= min * len
  {
    TimesMono(i + 1, min, len);
  }

  /** A copy right behind the latest one. */
  method CopyNext(cd: Compiler, previous: nat, len: nat, base: nat, ghost q: nat, ghost g: Item) returns (newBase: nat)
    requires cd.Valid() && Good(Now(cd)) && Ready(Now(cd), previous, q, len, base, g) && cd.end + len <= cd.buf.Length
    modifies cd, cd.buf
    ensures cd.Valid() && cd.end == old(cd.end) + len && Good(Now(cd))
    ensures Emitted(old(Now(cd)), Now(cd), Cons(g, Nil)) && Ready(Now(cd), previous, old(cd.end), len, newBase, g)
  {
    ghost var t := Now(cd);
    hide Good, Emitted, Source, Size;
    newBase := CopyGroup(cd, previous, len, base, len, q, g);
    EmittedGoods(t, Now(cd), g);
  }

  /** The optional copies behind the mandatory ones. */
  method OptionalTail(cd: Compiler, previous: nat, len: nat, base: nat, min: nat, max: nat, greed: Greed,
                      ghost s: State, ghost g: Item, ghost q: nat)
    requires cd.Valid() && min < max && g.Group? && cd.end == q + len
    requires Emitted(s, Now(cd), Copies(g, min, Nil)) && Ready(Now(cd), previous, q, len, base, g)
    requires cd.end + NestLength(len, max - min) <= cd.buf.Length
    modifies cd, cd.buf
    ensures cd.Valid() && Emitted(s, Now(cd), Copies(g, min, Cons(Nest(g, max - min, greed), Nil)))
  {
    ghost var t := Now(cd);
    EmittedGood(s, t, Copies(g, min, Nil));
    EmptyChain(t, ZeroOp(greed), g);
    hide Good, Emitted, Ready, Chain, Copies, Nest;
    EmitNest(cd, previous, len, base, max - min, greed, -1, q, [], g);
    CopiesTail(s, t, Now(cd), g, min, Cons(Nest(g, max - min, greed), Nil));
  }

  lemma EmptyChain(now: State, op: byte, g: Item)
    ensures Chain([], now, op, g)
  {
  }

  lemma CopiesOne(s: State, g: Item)
    requires Good(s)
    ensures Emitted(s, s, Copies(g, 0, Nil))
  {
    EmittedNothing(s);
  }

  lemma {:induction false} CopiesAppend(g: Item, k: nat, tail: Branch)
    ensures Append(Copies(g, k, Nil), tail) == Copies(g, k, tail)
    decreases k
  {
    if k > 0 {
      CopiesAppend(g, k - 1, tail);
    }
  }

  lemma CopiesTail(s: State, t: State, u: State, g: Item, k: nat, tail: Branch)
    requires Emitted(s, t, Copies(g, k, Nil)) && Emitted(t, u, tail)
    ensures Emitted(s, u, Copies(g, k, tail))
  {
    hide Emitted;
    EmittedTwice(s, t, u, Copies(g, k, Nil), tail);
    CopiesAppend(g, k, tail);
  }

  lemma CopiesMore(s: State, t: State, u: State, g: Item, k: nat)
    requires Emitted(s, t, Copies(g, k, Nil)) && Emitted(t, u, Cons(g, Nil))
    ensures Emitted(s, u, Copies(g, k + 1, Nil))
  {
    hide Emitted;
    CopiesTail(s, t, u, g, k, Cons(g, Nil));
    CopiesShift(g, k);
  }

  lemma {:induction false} CopiesShift(g: Item, k: nat)
    ensures Copies(g, k, Cons(g, Nil)) == Copies(g, k + 1, Nil)
    decreases k
  {
    if k > 0 {
      CopiesShift(g, k - 1);
    }
  }
}
