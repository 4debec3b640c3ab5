/** Closing a group. While it is open its alternatives are chained backwards and
  * its bracket holds zero; closing reverses the chain in place, so that every
  * link leads to the next alternative and the last one to the ket.
  */
module Groups {
  import opened Opcodes
  import opened Tree
  import opened Meaning
  import opened Pattern
  import opened Expansion
  import opened Sizing
  import opened Program
  import opened Walk
  import opened Relocation
  import opened Emission
  import opened CodeBuffer
  import opened Items
  import opened Moving
  import opened Copying

  /** One alternative of an open group: its header (the bracket or an OP_ALT), the
    * start and the end of its branch, and the branch. */
  datatype Alt = Alt(h: nat, st: nat, e: nat, b: Branch)

  /** The alternatives follow each other: the first header is the bracket at bra,
    * and each branch ends where the next header is. */
  ghost predicate InOrder(alts: seq<Alt>, bra: nat, size: nat) {
    && (forall i :: 0 <= i < |alts| ==> alts[i].e == alts[i].st + BranchSize(alts[i].b))
    && (forall i :: 0 <= i < |alts| ==> alts[i].st == alts[i].h + (if i == 0 then size else 3))
    && (forall i, j :: 0 <= i < j < |alts| ==> alts[i].e <= alts[j].h)
    && (forall i :: 0 < i < |alts| ==> alts[i].h == alts[i - 1].e)
    && (|alts| > 0 ==> alts[0].h == bra) && size >= 3
  }

  /** The branches are laid out, each behind its header. */
  ghost predicate Branches(x: Links, code: seq<byte>, alts: seq<Alt>) {
    forall i :: 0 <= i < |alts| ==>
      && alts[i].e <= |code| && LayBranch(x, code, alts[i].st, alts[i].b)
      && (i > 0 ==> alts[i].h < |code| && code[alts[i].h] == OP_ALT)
  }

  /** The link at a header while the group is open, and after it is closed. */
  function BackLink(alts: seq<Alt>, i: nat): int
    requires i < |alts|
  {
    if i == 0 then 0 else alts[i].h - alts[i - 1].h
  }

  ghost predicate LinksBack(code: seq<byte>, alts: seq<Alt>, n: nat) {
    forall i :: 0 <= i < n && i < |alts| ==> alts[i].h + 3 <= |code| && Get(code, alts[i].h + 1) == BackLink(alts, i)
  }

  ghost predicate LinksForward(code: seq<byte>, alts: seq<Alt>, n: int) {
    forall i :: 0 <= i < |alts| && n <= i ==>
                  alts[i].h + 3 <= |code| && Get(code, alts[i].h + 1) == alts[i].e - alts[i].h
  }

  // ---------- reversing the chain ----------

  /** The bytes that the reversal may change. */
  ghost predicate OnlyLinks(code: seq<byte>, code': seq<byte>, alts: seq<Alt>) {
    && |code'| == |code|
    && (forall i, j :: 0 <= i < |alts| && alts[i].st <= j < alts[i].e && j < |code| ==> code'[j] == code[j])
    && (forall i :: 0 <= i < |alts| && alts[i].h < |code| ==> code'[alts[i].h] == code[alts[i].h])
  }

  lemma PutLinkKeeps(code: seq<byte>, code': seq<byte>, alts: seq<Alt>, bra: nat, size: nat, k: nat, v: nat)
    requires InOrder(alts, bra, size) && k < |alts| && alts[k].h + 3 <= |code'|
    requires OnlyLinks(code, code', alts)
    ensures OnlyLinks(code, Put(code', alts[k].h + 1, v), alts)
  {
    var c := Put(code', alts[k].h + 1, v);
    hide BranchSize, Put;
    PutOutside(code', alts[k].h + 1, v);
    forall i, j | 0 <= i < |alts| && alts[i].st <= j < alts[i].e && j < |code| ensures c[j] == code[j] {
      Apart(alts, bra, size, i, k);
      assert code'[j] == code[j];
    }
    forall i | 0 <= i < |alts| && alts[i].h < |code| ensures c[alts[i].h] == code[alts[i].h] {
      Apart(alts, bra, size, i, k);
    }
  }

  lemma PutOutside(code: seq<byte>, p: nat, v: nat)
    requires p + 1 < |code|
    ensures |Put(code, p, v)| == |code|
    ensures forall j :: 0 <= j < |code| && j != p && j != p + 1 ==> Put(code, p, v)[j] == code[j]
  {
  }

  /** Headers and branches of an open group do not overlap. */
  lemma Apart(alts: seq<Alt>, bra: nat, size: nat, i: nat, k: nat)
    requires InOrder(alts, bra, size) && i < |alts| && k < |alts|
    ensures alts[i].e <= alts[k].h || alts[k].h + 3 <= alts[i].st
    ensures alts[i].h != alts[k].h + 1 && alts[i].h != alts[k].h + 2
    ensures i < k ==> alts[i].h + 3 <= alts[k].h
  {
    hide BranchSize;
  }

  /** Another header keeps its link. */
  lemma OtherLink(code: seq<byte>, code': seq<byte>, alts: seq<Alt>, bra: nat, size: nat, k: nat, v: nat, i: nat)
    requires InOrder(alts, bra, size) && k < |alts| && i < |alts| && i != k
    requires alts[k].h + 3 <= |code| && alts[i].h + 3 <= |code| && code' == Put(code, alts[k].h + 1, v)
    ensures |code'| == |code| && Get(code', alts[i].h + 1) == Get(code, alts[i].h + 1)
  {
    hide InOrder, Put, Get;
    PutOutside(code, alts[k].h + 1, v);
    Apart(alts, bra, size, if i < k then i else k, if i < k then k else i);
    SameGet(code, code', alts[i].h + 1);
  }

  lemma PutLinks(code: seq<byte>, code': seq<byte>, alts: seq<Alt>, bra: nat, size: nat, k: nat, v: nat)
    requires InOrder(alts, bra, size) && k < |alts| && alts[k].h + 3 <= |code|
    requires code' == Put(code, alts[k].h + 1, v) && v == alts[k].e - alts[k].h < 65536
    requires LinksBack(code, alts, k + 1) && LinksForward(code, alts, k + 1)
    ensures LinksBack(code', alts, k) && LinksForward(code', alts, k)
  {
    hide InOrder, Put, Get, BackLink;
    PutOutside(code, alts[k].h + 1, v);
    PutGet(code, alts[k].h + 1, v);
    forall i | 0 <= i < k ensures alts[i].h + 3 <= |code'| && Get(code', alts[i].h + 1) == BackLink(alts, i) {
      OtherLink(code, code', alts, bra, size, k, v, i);
    }
    forall i | k < i < |alts| ensures alts[i].h + 3 <= |code'| && Get(code', alts[i].h + 1) == alts[i].e - alts[i].h {
      OtherLink(code, code', alts, bra, size, k, v, i);
    }
  }

  lemma SameGet(code: seq<byte>, code': seq<byte>, p: nat)
    requires |code'| == |code| && p + 1 < |code| && code'[p] == code[p] && code'[p + 1] == code[p + 1]
    ensures Get(code', p) == Get(code, p)
  {
  }

  lemma PutGet(code: seq<byte>, p: nat, v: nat)
    requires p + 1 < |code| && v < 65536
    ensures Get(Put(code, p, v), p) == v
  {
  }

  /** The link back at the k-th header leads to the one before it. */
  lemma StepBack(code: seq<byte>, alts: seq<Alt>, bra: nat, size: nat, k: nat)
    requires InOrder(alts, bra, size) && k < |alts| && LinksBack(code, alts, k + 1)
    ensures alts[k].h + 3 <= |code| && bra <= alts[k].h && alts[k].h + 3 <= alts[k].e
    ensures if k == 0 then alts[k].h == bra && Get(code, alts[k].h + 1) == 0
            else bra + size <= alts[k].h && Get(code, alts[k].h + 1) == alts[k - 1].e - alts[k - 1].h > 0
                 && alts[k].h - Get(code, alts[k].h + 1) == alts[k - 1].h
  {
    hide BranchSize, Get;
    assert alts[k].e >= alts[k].st;
    if k > 0 {
      assert alts[0].e <= alts[k].h;
    }
  }

  /** How far the reversal has come: the links from the k-th header on are done. */
  ghost predicate Reversed(code0: seq<byte>, code: seq<byte>, alts: seq<Alt>, bra: nat, size: nat, k: nat) {
    && OnlyLinks(code0, code, alts) && LinksBack(code, alts, k) && LinksForward(code, alts, k)
    && (forall j :: 0 <= j < |code0| && (j < bra || (bra + 3 <= j < bra + size)) ==> code[j] == code0[j])
  }

  lemma ReverseOne(code0: seq<byte>, code: seq<byte>, code': seq<byte>, alts: seq<Alt>, bra: nat, size: nat, k: nat,
                   v: nat)
    requires |code| == |code0|
    requires InOrder(alts, bra, size) && k < |alts| && alts[k].h + 3 <= |code|
    requires Reversed(code0, code, alts, bra, size, k + 1)
    requires code' == Put(code, alts[k].h + 1, v) && v == alts[k].e - alts[k].h < 65536
    ensures Reversed(code0, code', alts, bra, size, k)
  {
    hide OnlyLinks, LinksBack, LinksForward, Put, InOrder;
    PutOutside(code, alts[k].h + 1, v);
    PutLinkKeeps(code0, code, alts, bra, size, k, v);
    PutLinks(code, code', alts, bra, size, k, v);
    HeaderAt(alts, bra, size, k);
  }

  lemma HeaderAt(alts: seq<Alt>, bra: nat, size: nat, k: nat)
    requires InOrder(alts, bra, size) && k < |alts|
    ensures if k == 0 then alts[k].h == bra else bra + size <= alts[k].h
  {
    hide BranchSize;
    assert k > 0 ==> alts[0].e <= alts[k].h;
  }

  lemma NotReversed(code: seq<byte>, alts: seq<Alt>, bra: nat, size: nat)
    requires LinksBack(code, alts, |alts|)
    ensures Reversed(code, code, alts, bra, size, |alts|)
  {
  }

  lemma ReversedParts(code0: seq<byte>, code: seq<byte>, alts: seq<Alt>, bra: nat, size: nat, k: nat)
    requires Reversed(code0, code, alts, bra, size, k)
    ensures |code| == |code0| && LinksBack(code, alts, k)
  {
  }

  lemma EndsBefore(alts: seq<Alt>, bra: nat, size: nat, k: nat)
    requires InOrder(alts, bra, size) && k < |alts|
    ensures alts[k].e <= alts[|alts| - 1].e
  {
    hide BranchSize;
    var n := |alts| - 1;
    assert alts[n].h <= alts[n].st <= alts[n].e;
  }

  /** The length of the alternative before the k-th, 0 for the first. */
  function PrevLength(alts: seq<Alt>, k: nat): int
    requires k < |alts|
  {
    if k == 0 then 0 else alts[k - 1].e - alts[k - 1].h
  }

  lemma ReverseReady(code0: seq<byte>, code: seq<byte>, alts: seq<Alt>, bra: nat, size: nat, k: nat)
    requires InOrder(alts, bra, size) && k < |alts| && alts[|alts| - 1].e < 65536
    requires Reversed(code0, code, alts, bra, size, k + 1)
    ensures alts[k].h + 3 <= |code| && 0 < alts[k].e - alts[k].h < 65536
    ensures Get(code, alts[k].h + 1) == PrevLength(alts, k)
  {
    hide InOrder, Reversed, LinksBack, Get;
    ReversedParts(code0, code, alts, bra, size, k + 1);
    StepBack(code, alts, bra, size, k);
    EndsBefore(alts, bra, size, k);
  }

  /** Stepping back by the previous length leads to the previous header. */
  lemma PrevHeader(alts: seq<Alt>, bra: nat, size: nat, k: nat)
    requires InOrder(alts, bra, size) && k < |alts|
    ensures k > 0 ==> PrevLength(alts, k) > 0 && alts[k].h - PrevLength(alts, k) == alts[k - 1].h
  {
    hide BranchSize;
    if k > 0 {
      assert alts[k].h == alts[k - 1].e && alts[k - 1].h < alts[k - 1].st <= alts[k - 1].e;
    }
  }

  method SwapLink(cd: Compiler, p: nat, v: nat) returns (prev: nat)
    requires cd.Valid() && p + 1 < cd.end
    modifies cd`code, cd.buf
    ensures cd.Valid() && cd.code == Put(old(cd.code), p, v) && prev == Get(old(cd.code), p)
  {
    prev := cd.LinkAt(p);
    cd.SetLink(p, v);
  }

  /** Replace the link at the k-th header, and return what it was. */
  method ReverseStep(cd: Compiler, lastBranch: nat, branchLength: nat,
                     ghost code0: seq<byte>, ghost alts: seq<Alt>, ghost bra: nat, ghost size: nat, ghost k: nat)
    returns (prevLength: nat)
    requires cd.Valid() && InOrder(alts, bra, size) && k < |alts| && cd.end == |cd.code| == |code0|
    requires lastBranch == alts[k].h && branchLength == alts[k].e - alts[k].h
    requires alts[|alts| - 1].e < 65536 && Reversed(code0, cd.code, alts, bra, size, k + 1)
    modifies cd`code, cd.buf
    ensures cd.Valid() && |cd.code| == |code0| && Reversed(code0, cd.code, alts, bra, size, k)
    ensures prevLength == PrevLength(alts, k)
  {
    hide Compiler.Valid, InOrder, Reversed, Get, Put, PrevLength;
    ghost var before := cd.code;
    ReverseReady(code0, before, alts, bra, size, k);
    prevLength := SwapLink(cd, lastBranch + 1, branchLength);
    ReverseOne(code0, before, cd.code, alts, bra, size, k, branchLength);
  }

  /** Close the group: from the last header back to the bracket, replace each link
    * back by the length of the alternative. */
  method ReverseChain(cd: Compiler, lastBranch0: nat, ghost alts: seq<Alt>, ghost bra: nat, ghost size: nat)
    requires cd.Valid() && InOrder(alts, bra, size) && |alts| > 0 && lastBranch0 == alts[|alts| - 1].h
    requires alts[|alts| - 1].e == cd.end < 65536 && LinksBack(cd.code, alts, |alts|)
    modifies cd`code, cd.buf
    ensures cd.Valid() && |cd.code| == |old(cd.code)| && Reversed(old(cd.code), cd.code, alts, bra, size, 0)
  {
    var lastBranch := lastBranch0;
    var branchLength := cd.end - lastBranch;
    ghost var k := |alts| - 1;
    ghost var code0 := cd.code;
    NotReversed(code0, alts, bra, size);
    hide InOrder, Reversed, LinksBack;
    while true
      invariant 0 <= k < |alts| && lastBranch == alts[k].h && branchLength == alts[k].e - alts[k].h
      invariant cd.Valid() && |cd.code| == |code0| && Reversed(code0, cd.code, alts, bra, size, k + 1)
      decreases k
    {
      PrevHeader(alts, bra, size, k);
      branchLength := ReverseStep(cd, lastBranch, branchLength, code0, alts, bra, size, k);
      lastBranch := lastBranch - branchLength;
      if branchLength == 0 {
        break;
      }
      k := k - 1;
    }
  }

  // ---------- an open group ----------

  /** The bracket a header of group num at a adds. */
  function Own(num: nat, a: nat, n: nat): Option<nat> {
    if n == num then Some(a) else None
  }

  /** The first bracket numbered n in the first k alternatives. */
  function Collected(alts: seq<Alt>, k: nat, n: nat): Option<nat>
    requires k <= |alts|
  {
    if k == 0 then None
    else Either(Collected(alts, k - 1, n), FindOffsetInBranch(alts[k - 1].b, alts[k - 1].st, n))
  }

  ghost predicate OperandIn(alts: seq<Alt>, o: nat) {
    exists i :: 0 <= i < |alts| && o in OperandsInBranch(alts[i].b, alts[i].st)
  }

  ghost predicate TargetsCollected(s: State, t: State, num: nat, alts: seq<Alt>) {
    forall n: nat | n > 0 ::
      Target(t.x, n) == Either(Target(s.x, n), Either(Own(num, |s.code|, n), Collected(alts, |alts|, n)))
  }

  ghost predicate OperandsCollected(s: State, t: State, alts: seq<Alt>) {
    forall o: nat :: o in t.x.forward && o >= |s.code| ==> OperandIn(alts, o)
  }

  /** A group was opened after s, and its first alternatives are complete. */
  ghost predicate Opened(s: State, t: State, num: nat, alts: seq<Alt>) {
    && Good(s) && Good(t) && Grown(s, t)
    && InOrder(alts, |s.code|, HeaderLength(num)) && Branches(t.x, t.code, alts) && LinksBack(t.code, alts, |alts|)
    && LayBra(t.x, t.code, |s.code|, GroupItem(num, Last(Nil), OP_KET).bra, num, OP_KET)
    && TargetsCollected(s, t, num, alts) && OperandsCollected(s, t, alts)
  }

  /** The header of the next alternative ends the code; its link leads back. */
  ghost predicate Pending(s: State, t: State, num: nat, alts: seq<Alt>, h: nat) {
    && h + (if alts == [] then HeaderLength(num) else 3) == |t.code|
    && h == (if alts == [] then |s.code| else alts[|alts| - 1].e)
    && h + 3 <= |t.code| && Get(t.code, h + 1) == (if alts == [] then 0 else h - alts[|alts| - 1].h)
    && (alts != [] ==> t.code[h] == OP_ALT)
  }

  // ---------- opening it ----------

  function HeaderBytes(num: nat): (r: seq<byte>)
    ensures |r| == HeaderLength(num)
  {
    if num == 0 then [OP_BRA, 0, 0] else [OP_CBRA, 0, 0, num / 256 % 256, num % 256]
  }

  /** The links once a bracket numbered num was put at a. */
  ghost function Noted(x: Links, num: nat, a: nat): Links {
    if num in x.target then x else x.(target := x.target[num := a])
  }

  lemma HeaderLaid(x: Links, code: seq<byte>, code': seq<byte>, num: nat)
    requires num < 65536 && code' == code + HeaderBytes(num)
    ensures var a := |code|;
            && LayBra(x, code', a, GroupItem(num, Last(Nil), OP_KET).bra, num, OP_KET)
            && Get(code', a + 1) == 0
            && Meets(code', a, |code'|, n => Own(num, a, n))
  {
    var a := |code|;
    assert code'[a] == HeaderBytes(num)[0] && code'[a + 1] == 0 && code'[a + 2] == 0;
    if num > 0 {
      assert code'[a + 3] == HeaderBytes(num)[3] && code'[a + 4] == HeaderBytes(num)[4];
    }
    WalkOne(code', a, |code'|);
  }

  lemma HeaderOpens(s: State, t: State, num: nat)
    requires Good(s) && num < 65536 && t == State(s.code + HeaderBytes(num), s.hwm, Noted(s.x, num, |s.code|))
    ensures Opened(s, t, num, []) && Pending(s, t, num, [], |s.code|)
  {
    hide Meets, HeaderBytes, LayBra, Get;
    var a := |s.code|;
    HeaderLaid(t.x, s.code, t.code, num);
    HeaderTargets(s, t, num);
    GoodAfter(s, t, n => Own(num, a, n));
    assert forall o: nat :: o in t.x.forward ==> o in s.hwm && o < a;
  }

  lemma HeaderTargets(s: State, t: State, num: nat)
    requires t.x == Noted(s.x, num, |s.code|)
    ensures forall n: nat | n > 0 :: Target(t.x, n) == Either(Target(s.x, n), Own(num, |s.code|, n))
    ensures TargetsCollected(s, t, num, [])
  {
  }

  // ---------- completing an alternative ----------

  lemma {:induction false} CollectedKeeps(alts: seq<Alt>, alt: Alt, k: nat, n: nat)
    requires k <= |alts|
    ensures Collected(alts + [alt], k, n) == Collected(alts, k, n)
  {
    if k > 0 {
      CollectedKeeps(alts, alt, k - 1, n);
    }
  }

  lemma OrderGrows(alts: seq<Alt>, alt: Alt, bra: nat, size: nat)
    requires InOrder(alts, bra, size) && alt.e == alt.st + BranchSize(alt.b)
    requires alt.st == alt.h + (if alts == [] then size else 3)
    requires alt.h == (if alts == [] then bra else alts[|alts| - 1].e)
    ensures InOrder(alts + [alt], bra, size)
  {
    hide BranchSize;
    var more := alts + [alt];
    if alts != [] {
      var last := alts[|alts| - 1];
      assert last.h <= last.st <= last.e;
      forall i | 0 <= i < |alts| ensures alts[i].e <= last.e {
      }
    }
    assert forall i :: 0 <= i < |alts| ==> more[i] == alts[i];
  }

  lemma BranchesGrow(t: State, t': State, alts: seq<Alt>, alt: Alt)
    requires Branches(t.x, t.code, alts) && ListOk(t) && ListOk(t') && Grown(t, t')
    requires LayBranch(t'.x, t'.code, alt.st, alt.b) && alt.e <= |t'.code|
    requires forall i :: 0 <= i < |alts| ==> alts[i].e == alts[i].st + BranchSize(alts[i].b)
    requires alts != [] ==> alt.h < |t.code| && t.code[alt.h] == OP_ALT
    ensures Branches(t'.x, t'.code, alts + [alt])
  {
    hide LayBranch, BranchSize;
    var more := alts + [alt];
    forall i | 0 <= i < |more|
      ensures more[i].e <= |t'.code| && LayBranch(t'.x, t'.code, more[i].st, more[i].b)
           && (i > 0 ==> more[i].h < |t'.code| && t'.code[more[i].h] == OP_ALT)
    {
      if i < |alts| {
        assert alts[i].e <= |t.code|;
        GrownBranch(t, t', alts[i].st, alts[i].b);
      }
    }
  }

  lemma LinksGrow(t: State, t': State, alts: seq<Alt>, alt: Alt)
    requires LinksBack(t.code, alts, |alts|) && Grown(t, t')
    requires alt.h + 3 <= |t.code| && Get(t.code, alt.h + 1) == BackLink(alts + [alt], |alts|)
    ensures LinksBack(t'.code, alts + [alt], |alts| + 1)
  {
    hide Get;
    var more := alts + [alt];
    forall i | 0 <= i < |more| ensures more[i].h + 3 <= |t'.code| && Get(t'.code, more[i].h + 1) == BackLink(more, i) {
      PrefixGet(t.code, t'.code, more[i].h + 1);
      assert i < |alts| ==> BackLink(more, i) == BackLink(alts, i);
    }
  }

  lemma PrefixGet(code: seq<byte>, code': seq<byte>, p: nat)
    requires |code| <= |code'| && (forall j :: 0 <= j < |code| ==> code'[j] == code[j]) && p + 1 < |code|
    ensures Get(code', p) == Get(code, p)
  {
  }

  lemma CollectedGrows(s: State, t: State, t': State, num: nat, alts: seq<Alt>, alt: Alt)
    requires TargetsCollected(s, t, num, alts) && OperandsCollected(s, t, alts) && Emitted(t, t', alt.b) && Grown(s, t)
    requires alt.st == |t.code|
    ensures TargetsCollected(s, t', num, alts + [alt]) && OperandsCollected(s, t', alts + [alt])
  {
    var more := alts + [alt];
    forall n: nat | n > 0
      ensures Target(t'.x, n) == Either(Target(s.x, n), Either(Own(num, |s.code|, n), Collected(more, |more|, n)))
    {
      TargetsAfter(t, t', alt.b, n);
      CollectedKeeps(alts, alt, |alts|, n);
      assert Target(t.x, n) == Either(Target(s.x, n), Either(Own(num, |s.code|, n), Collected(alts, |alts|, n)));
    }
    EmittedLists(t, t', alt.b);
    hide Good, LayBranch, BranchSize, OperandsInBranch;
    forall o: nat | o in t'.x.forward && o >= |s.code| ensures OperandIn(more, o) {
      if o < |t.code| {
        GrownForward(t, t', o);
        var i :| 0 <= i < |alts| && o in OperandsInBranch(alts[i].b, alts[i].st);
        assert more[i] == alts[i];
      } else {
        assert more[|alts|] == alt;
      }
    }
  }

  lemma BranchCompletes(s: State, t: State, t': State, num: nat, alts: seq<Alt>, h: nat, b: Branch)
    requires Opened(s, t, num, alts) && Pending(s, t, num, alts, h) && Emitted(t, t', b)
    ensures Opened(s, t', num, alts + [Alt(h, |t.code|, |t'.code|, b)]) && |t.code| <= |t'.code|
  {
    hide Good, LayBranch, BranchSize, InOrder, Branches, LinksBack, TargetsCollected, OperandsCollected, LayBra, Get,
      ListOk;
    var alt := Alt(h, |t.code|, |t'.code|, b);
    EmittedParts(t, t', b);
    OrderGrows(alts, alt, |s.code|, HeaderLength(num));
    OrderSizes(alts, |s.code|, HeaderLength(num));
    BranchesGrow(t, t', alts, alt);
    LinksGrow(t, t', alts, alt);
    CollectedGrows(s, t, t', num, alts, alt);
    GrownTwice(s, t, t');
    BraKept(t.x, t'.x, t.code, t'.code, |s.code|, num);
  }

  lemma OrderSizes(alts: seq<Alt>, bra: nat, size: nat)
    requires InOrder(alts, bra, size)
    ensures forall i :: 0 <= i < |alts| ==> alts[i].e == alts[i].st + BranchSize(alts[i].b)
  {
  }

  lemma BraKept(x: Links, y: Links, code: seq<byte>, code': seq<byte>, a: nat, num: nat)
    requires LayBra(x, code, a, GroupItem(num, Last(Nil), OP_KET).bra, num, OP_KET)
    requires |code| <= |code'| && (forall j :: a <= j < |code| && j != a + 1 && j != a + 2 ==> code'[j] == code[j])
    ensures LayBra(y, code', a, GroupItem(num, Last(Nil), OP_KET).bra, num, OP_KET)
  {
  }

  lemma EmittedParts(s: State, t: State, b: Branch)
    requires Emitted(s, t, b)
    ensures Good(s) && Good(t) && ListOk(s) && ListOk(t) && Grown(s, t)
    ensures LayBranch(t.x, t.code, |s.code|, b) && |t.code| == |s.code| + BranchSize(b)
  {
  }

  // ---------- starting the next alternative ----------

  lemma AltStarts(s: State, t: State, t': State, num: nat, alts: seq<Alt>, v: nat)
    requires alts != [] && alts[|alts| - 1].e == |t.code| == alts[|alts| - 1].h + v && v < 65536
    requires Opened(s, t, num, alts)
    requires t' == State(t.code + [OP_ALT, v / 256 % 256, v % 256], t.hwm, t.x)
    ensures Opened(s, t', num, alts) && Pending(s, t', num, alts, |t.code|)
  {
    hide Good, LayBranch, BranchSize, InOrder, LinksBack, Branches, TargetsCollected, OperandsCollected, LayBra, Get,
      ListOk;
    AltGood(t, t', v);
    GrownTwice(s, t, t');
    BraKept(t.x, t'.x, t.code, t'.code, |s.code|, num);
    OrderSizes(alts, |s.code|, HeaderLength(num));
    SameBranches(t, t', alts);
    SameLinks(t, t', alts);
    SameCollected(s, t, t', num, alts);
  }

  lemma AltGood(t: State, t': State, v: nat)
    requires Good(t) && t' == State(t.code + [OP_ALT, v / 256 % 256, v % 256], t.hwm, t.x) && v < 65536
    ensures Good(t') && ListOk(t) && ListOk(t') && Grown(t, t')
    ensures t'.code[|t.code|] == OP_ALT && Get(t'.code, |t.code| + 1) == v
  {
    var a := |t.code|;
    assert t'.code[a] == OP_ALT && t'.code[a + 1] == v / 256 % 256 && t'.code[a + 2] == v % 256;
    MeetsNone(t'.code, a, a + 3);
    hide Meets;
    GoodAfter(t, t', _ => None);
  }

  lemma SameBranches(t: State, t': State, alts: seq<Alt>)
    requires Branches(t.x, t.code, alts) && ListOk(t) && ListOk(t') && Grown(t, t')
    requires forall i :: 0 <= i < |alts| ==> alts[i].e == alts[i].st + BranchSize(alts[i].b)
    ensures Branches(t'.x, t'.code, alts)
  {
    hide LayBranch, BranchSize;
    forall i | 0 <= i < |alts| ensures LayBranch(t'.x, t'.code, alts[i].st, alts[i].b) {
      GrownBranch(t, t', alts[i].st, alts[i].b);
    }
  }

  lemma SameLinks(t: State, t': State, alts: seq<Alt>)
    requires LinksBack(t.code, alts, |alts|) && Grown(t, t')
    ensures LinksBack(t'.code, alts, |alts|)
  {
    hide Get;
    forall i | 0 <= i < |alts| ensures alts[i].h + 3 <= |t'.code| && Get(t'.code, alts[i].h + 1) == BackLink(alts, i) {
      PrefixGet(t.code, t'.code, alts[i].h + 1);
    }
  }

  lemma SameCollected(s: State, t: State, t': State, num: nat, alts: seq<Alt>)
    requires TargetsCollected(s, t, num, alts) && OperandsCollected(s, t, alts) && t'.x == t.x
    ensures TargetsCollected(s, t', num, alts) && OperandsCollected(s, t', alts)
  {
  }

  // ---------- closing it ----------

  /** The alternatives are those of a choice, in order; the i-th of cs is what is
    * left of the choice from the i-th alternative on. */
  ghost predicate Chosen(alts: seq<Alt>, cs: seq<Choice>, n: nat) {
    && |alts| == n <= |cs|
    && (forall i :: 0 <= i < |cs| ==> ChoiceOk(cs[i]))
    && (forall i :: 0 <= i < n ==> alts[i].b == ExpandSequence(cs[i].seq0))
    && (forall i :: 0 <= i && i + 1 < |cs| ==> cs[i].Or? && cs[i + 1] == cs[i].others)
  }

  /** All alternatives are there. */
  ghost predicate Complete(alts: seq<Alt>, cs: seq<Choice>) {
    Chosen(alts, cs, |alts|) && |alts| == |cs| > 0 && cs[|cs| - 1].Only?
  }

  lemma {:induction false} SizeOfRest(alts: seq<Alt>, cs: seq<Choice>, bra: nat, size: nat, i: nat)
    requires Complete(alts, cs) && InOrder(alts, bra, size) && i < |alts|
    ensures alts[i].st + AltsSize(ExpandChoice(cs[i])) == alts[|alts| - 1].e
    decreases |alts| - i
  {
    hide BranchSize;
    if i + 1 < |alts| {
      SizeOfRest(alts, cs, bra, size, i + 1);
    }
  }

  lemma {:induction false} FindInRest(alts: seq<Alt>, cs: seq<Choice>, bra: nat, size: nat, i: nat, n: nat)
    requires Complete(alts, cs) && InOrder(alts, bra, size) && i < |alts|
    ensures Either(Collected(alts, i, n), FindOffsetInAlts(ExpandChoice(cs[i]), alts[i].st, n))
            == Collected(alts, |alts|, n)
    decreases |alts| - i
  {
    hide BranchSize;
    if i + 1 < |alts| {
      FindInRest(alts, cs, bra, size, i + 1, n);
    }
  }

  lemma {:induction false} OperandsOfRest(alts: seq<Alt>, cs: seq<Choice>, bra: nat, size: nat, i: nat, k: nat, o: nat)
    requires Complete(alts, cs) && InOrder(alts, bra, size) && i <= k < |alts|
    requires o in OperandsInBranch(alts[k].b, alts[k].st)
    ensures o in OperandsInAlts(ExpandChoice(cs[i]), alts[i].st)
    decreases |alts| - i
  {
    hide BranchSize;
    if i < k {
      OperandsOfRest(alts, cs, bra, size, i + 1, k, o);
    }
  }

  /** The code after the reversal, with the ket. */
  ghost predicate KetAdded(t: State, u: State, code1: seq<byte>, a: nat, v: nat) {
    && |t.code| == |code1| == a + v && v < 65536
    && u == State(code1 + [OP_KET, v / 256 % 256, v % 256], t.hwm, t.x)
  }

  lemma KetBytes(t: State, u: State, code1: seq<byte>, a: nat, v: nat)
    requires KetAdded(t, u, code1, a, v)
    ensures |u.code| == |t.code| + 3 && u.code[|t.code|] == OP_KET && Get(u.code, |t.code| + 1) == v
    ensures forall j :: 0 <= j < |code1| ==> u.code[j] == code1[j]
  {
  }

  /** The i-th alternative before the reversal. */
  lemma AltBefore(s: State, t: State, num: nat, alts: seq<Alt>, i: nat)
    requires Opened(s, t, num, alts) && i < |alts|
    ensures alts[i].e <= |t.code| && LayBranch(t.x, t.code, alts[i].st, alts[i].b)
    ensures alts[i].e == alts[i].st + BranchSize(alts[i].b) && |s.code| <= alts[i].h && alts[i].h + 3 <= alts[i].st
    ensures i + 1 < |alts| ==> alts[i].e < |t.code| && t.code[alts[i].e] == OP_ALT && alts[i + 1].h == alts[i].e
  {
    hide Good, LayBranch, BranchSize, LayBra, LinksBack, TargetsCollected, OperandsCollected, Get;
    HeaderAt(alts, |s.code|, HeaderLength(num), i);
    if i + 1 < |alts| {
      assert alts[i + 1].h == alts[i].e && t.code[alts[i + 1].h] == OP_ALT;
    }
  }

  /** The i-th alternative after it. */
  lemma AltAfter(code: seq<byte>, code1: seq<byte>, alts: seq<Alt>, bra: nat, size: nat, i: nat)
    requires Reversed(code, code1, alts, bra, size, 0) && i < |alts| && alts[i].e <= |code|
    ensures |code1| == |code| && alts[i].h + 3 <= |code1| && Get(code1, alts[i].h + 1) == alts[i].e - alts[i].h
    ensures forall j :: alts[i].st <= j < alts[i].e ==> code1[j] == code[j]
    ensures i + 1 < |alts| && alts[i + 1].h < |code| ==> code1[alts[i + 1].h] == code[alts[i + 1].h]
  {
    hide LinksBack, Get;
  }

  lemma AltLaid(s: State, t: State, u: State, code1: seq<byte>, num: nat, alts: seq<Alt>, i: nat, v: nat)
    requires Opened(s, t, num, alts) && i < |alts| && alts[|alts| - 1].e == |t.code|
    requires Reversed(t.code, code1, alts, |s.code|, HeaderLength(num), 0) && KetAdded(t, u, code1, |s.code|, v)
    ensures LayAlt(u.x, u.code, alts[i].h, alts[i].st, alts[i].b, alts[i].e, if i + 1 < |alts| then OP_ALT else OP_KET)
    ensures |s.code| <= alts[i].h
  {
    hide Opened, Reversed, LayBranch, BranchSize, Get;
    var alt := alts[i];
    KetBytes(t, u, code1, |s.code|, v);
    AltBefore(s, t, num, alts, i);
    AltAfter(t.code, code1, alts, |s.code|, HeaderLength(num), i);
    PrefixGet(code1, u.code, alt.h + 1);
    assert Moved(t.x, t.code, u.x, u.code, alt.st, alt.e, 0);
    RelocateBranch(t.x, t.code, u.x, u.code, alt.st, alt.e, 0, alt.b);
  }

  lemma {:induction false} RestLaid(s: State, t: State, u: State, code1: seq<byte>, num: nat, alts: seq<Alt>,
                                    cs: seq<Choice>, i: nat, v: nat)
    requires Opened(s, t, num, alts) && Complete(alts, cs) && i < |alts| && alts[|alts| - 1].e == |t.code|
    requires Reversed(t.code, code1, alts, |s.code|, HeaderLength(num), 0) && KetAdded(t, u, code1, |s.code|, v)
    ensures LayAlts(u.x, u.code, alts[i].h, alts[i].st, ExpandChoice(cs[i]), |s.code|, OP_KET)
    decreases |alts| - i
  {
    hide Opened, Reversed, LayAlts, LayAlt, Get;
    AltLaid(s, t, u, code1, num, alts, i, v);
    KetBytes(t, u, code1, |s.code|, v);
    if i + 1 < |alts| {
      RestLaid(s, t, u, code1, num, alts, cs, i + 1, v);
      NextAlt(s, t, num, alts, i);
      MakeMore(u.x, u.code, alts[i].h, alts[i].st, alts[i].b, alts[i].e, ExpandChoice(cs[i + 1]), |s.code|, OP_KET);
    } else {
      MakeLast(u.x, u.code, alts[i].h, alts[i].st, alts[i].b, alts[i].e, |s.code|, OP_KET);
    }
  }

  lemma NextAlt(s: State, t: State, num: nat, alts: seq<Alt>, i: nat)
    requires Opened(s, t, num, alts) && i + 1 < |alts|
    ensures alts[i + 1].h == alts[i].e && alts[i + 1].st == alts[i].e + 3
  {
  }

  /** Closing the open group turns it into a group that is laid out. */
  lemma GroupCloses(s: State, t: State, u: State, code1: seq<byte>, num: nat, alts: seq<Alt>, cs: seq<Choice>, v: nat)
    requires Opened(s, t, num, alts) && Complete(alts, cs) && alts[|alts| - 1].e == |t.code|
    requires Reversed(t.code, code1, alts, |s.code|, HeaderLength(num), 0) && KetAdded(t, u, code1, |s.code|, v)
    ensures Emitted(s, u, Cons(GroupItem(num, ExpandChoice(cs[0]), OP_KET), Nil))
  {
    hide Opened, Reversed, Good, LayAlts, LayItem, LayBra, Size, TargetsCollected, OperandsCollected, InOrder, Complete,
      KetAdded, ListOk;
    hide Operands, FindOffset, Grown;
    CompleteParts(alts, cs);
    OpenedParts(s, t, num, alts);
    KetParts(t, u, code1, |s.code|, v);
    ClosedSize(s, t, num, alts, cs);
    ClosedOperands(s, t, num, alts, cs);
    ClosedTargets(s, t, num, alts, cs);
    ClosedLaid(s, t, u, code1, num, alts, cs, v);
    ClosedGrown(s, t, u);
    MakeEmitted(s, u, GroupItem(num, ExpandChoice(cs[0]), OP_KET));
  }

  lemma ClosedLaid(s: State, t: State, u: State, code1: seq<byte>, num: nat, alts: seq<Alt>, cs: seq<Choice>, v: nat)
    requires Opened(s, t, num, alts) && Complete(alts, cs) && alts[|alts| - 1].e == |t.code|
    requires Reversed(t.code, code1, alts, |s.code|, HeaderLength(num), 0) && KetAdded(t, u, code1, |s.code|, v)
    ensures |cs| > 0 && ChoiceOk(cs[0]) && LayItem(u.x, u.code, |s.code|, GroupItem(num, ExpandChoice(cs[0]), OP_KET))
    ensures |s.code| <= |u.code| && forall j :: 0 <= j < |s.code| ==> u.code[j] == s.code[j]
  {
    hide Opened, Reversed, Good, LayAlts, LayItem, LayBra, TargetsCollected, OperandsCollected, InOrder, Complete,
      KetAdded, ListOk, Get;
    CompleteParts(alts, cs);
    OpenedParts(s, t, num, alts);
    KetBytes(t, u, code1, |s.code|, v);
    KetParts(t, u, code1, |s.code|, v);
    ReversedPrefix(s, t, code1, num, alts);
    RestLaid(s, t, u, code1, num, alts, cs, 0, v);
    BraTail(t.x, u.x, t.code, code1, u.code, |s.code|, num);
    MakeGroup(u.x, u.code, |s.code|, GroupItem(num, Last(Nil), OP_KET).bra, num, ExpandChoice(cs[0]), OP_KET);
  }

  lemma BraTail(x: Links, y: Links, code: seq<byte>, code1: seq<byte>, code': seq<byte>, a: nat, num: nat)
    requires LayBra(x, code, a, GroupItem(num, Last(Nil), OP_KET).bra, num, OP_KET)
    requires |code| == |code1| <= |code'| && (forall j :: 0 <= j < |code1| ==> code'[j] == code1[j])
    requires forall j ::
              a <= j < a + HeaderLength(num) && j != a + 1 && j != a + 2 ==> j < |code1| && code1[j] == code[j]
    ensures LayBra(y, code', a, GroupItem(num, Last(Nil), OP_KET).bra, num, OP_KET)
  {
    assert code'[a] == code1[a] == code[a];
  }

  lemma CompleteParts(alts: seq<Alt>, cs: seq<Choice>)
    requires Complete(alts, cs)
    ensures |cs| == |alts| > 0 && ChoiceOk(cs[0])
  {
  }

  lemma KetParts(t: State, u: State, code1: seq<byte>, a: nat, v: nat)
    requires KetAdded(t, u, code1, a, v)
    ensures u.x == t.x && u.hwm == t.hwm && |u.code| == |t.code| + 3 == |code1| + 3
  {
  }

  lemma ClosedGrown(s: State, t: State, u: State)
    requires Grown(s, t) && ListOk(t) && u.x == t.x && u.hwm == t.hwm && |u.code| >= |t.code|
    requires forall j :: 0 <= j < |s.code| ==> u.code[j] == s.code[j]
    ensures Grown(s, u) && ListOk(u)
  {
  }

  lemma OpenedParts(s: State, t: State, num: nat, alts: seq<Alt>)
    requires Opened(s, t, num, alts)
    ensures Good(s) && Grown(s, t) && ListOk(s) && ListOk(t) && Target(t.x, 0) == Some(0)
    ensures InOrder(alts, |s.code|, HeaderLength(num)) && TargetsCollected(s, t, num, alts)
    ensures OperandsCollected(s, t, alts)
    ensures LayBra(t.x, t.code, |s.code|, GroupItem(num, Last(Nil), OP_KET).bra, num, OP_KET)
    ensures |alts| > 0 ==> alts[0].h == |s.code| && alts[0].st == |s.code| + HeaderLength(num)
  {
  }

  lemma ReversedPrefix(s: State, t: State, code1: seq<byte>, num: nat, alts: seq<Alt>)
    requires |alts| > 0 && Opened(s, t, num, alts) && Reversed(t.code, code1, alts, |s.code|, HeaderLength(num), 0)
    ensures |code1| == |t.code|
    ensures forall j :: 0 <= j < |s.code| ==> code1[j] == s.code[j]
    ensures forall j :: |s.code| <= j < |s.code| + HeaderLength(num) && j != |s.code| + 1 && j != |s.code| + 2 ==>
              j < |code1| && code1[j] == t.code[j]
  {
    assert alts[0].h == |s.code|;
    hide Good, LinksBack, LinksForward, Branches, TargetsCollected, OperandsCollected, Get;
  }

  lemma ClosedSize(s: State, t: State, num: nat, alts: seq<Alt>, cs: seq<Choice>)
    requires Opened(s, t, num, alts) && Complete(alts, cs) && alts[|alts| - 1].e == |t.code|
    ensures |t.code| + 3 == |s.code| + Size(GroupItem(num, ExpandChoice(cs[0]), OP_KET))
  {
    CompleteParts(alts, cs);
    hide Opened, Complete, InOrder, AltsSize;
    OpenedParts(s, t, num, alts);
    SizeOfRest(alts, cs, |s.code|, HeaderLength(num), 0);
  }

  lemma ClosedOperands(s: State, t: State, num: nat, alts: seq<Alt>, cs: seq<Choice>)
    requires Opened(s, t, num, alts) && Complete(alts, cs)
    ensures forall o: nat ::
              o in t.x.forward && o >= |s.code| ==> o in Operands(GroupItem(num, ExpandChoice(cs[0]), OP_KET), |s.code|)
  {
    hide Opened, Complete, InOrder, OperandsInBranch, OperandsInAlts, TargetsCollected, OperandIn, LayBra, Good, Grown,
      ListOk;
    CompleteParts(alts, cs);
    OpenedParts(s, t, num, alts);
    forall o: nat | o in t.x.forward && o >= |s.code|
      ensures o in Operands(GroupItem(num, ExpandChoice(cs[0]), OP_KET), |s.code|)
    {
      OperandClosed(alts, cs, |s.code|, HeaderLength(num), o);
      GroupOperands(num, ExpandChoice(cs[0]), |s.code|);
    }
  }

  lemma OperandClosed(alts: seq<Alt>, cs: seq<Choice>, bra: nat, size: nat, o: nat)
    requires Complete(alts, cs) && InOrder(alts, bra, size) && OperandIn(alts, o) && |alts| > 0
    ensures ChoiceOk(cs[0]) && o in OperandsInAlts(ExpandChoice(cs[0]), alts[0].st)
  {
    hide InOrder;
    var k :| 0 <= k < |alts| && o in OperandsInBranch(alts[k].b, alts[k].st);
    OperandsOfRest(alts, cs, bra, size, 0, k, o);
  }

  lemma GroupOperands(num: nat, alts: Alts, a: nat)
    ensures Operands(GroupItem(num, alts, OP_KET), a) == OperandsInAlts(alts, a + HeaderLength(num))
  {
  }

  lemma ClosedTargets(s: State, t: State, num: nat, alts: seq<Alt>, cs: seq<Choice>)
    requires Opened(s, t, num, alts) && Complete(alts, cs)
    ensures forall n: nat | n > 0 ::
      Target(t.x, n) == Either(Target(s.x, n), FindOffset(GroupItem(num, ExpandChoice(cs[0]), OP_KET), |s.code|, n))
  {
    hide Opened, Complete, InOrder, OperandsCollected, Collected, FindOffsetInAlts, FindOffset, LayBra, Good, Grown,
      ListOk;
    CompleteParts(alts, cs);
    OpenedParts(s, t, num, alts);
    forall n: nat | n > 0
      ensures Target(t.x, n)
              == Either(Target(s.x, n), FindOffset(GroupItem(num, ExpandChoice(cs[0]), OP_KET), |s.code|, n))
    {
      FindInRest(alts, cs, |s.code|, HeaderLength(num), 0, n);
      NoneCollected(alts, n);
      GroupFinds(num, ExpandChoice(cs[0]), |s.code|, n);
    }
  }

  lemma GroupFinds(num: nat, alts: Alts, a: nat, n: nat)
    requires n > 0
    ensures FindOffset(GroupItem(num, alts, OP_KET), a, n)
            == Either(Own(num, a, n), FindOffsetInAlts(alts, a + HeaderLength(num), n))
  {
  }

  lemma NoneCollected(alts: seq<Alt>, n: nat)
    ensures Collected(alts, 0, n).None?
  {
  }
}
