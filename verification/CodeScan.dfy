/** What the scans over finished code share: the chain of subroutine calls that are
  * being followed, and what the bytes at an offset say about the item there.
  */
module CodeScan {
  import opened Sets
  import opened Opcodes
  import opened Tree
  import opened Meaning
  import opened Machine
  import opened Decoding
  import opened Program

  // ---------- the chain of called groups ----------

  /** The groups whose calls are being followed, the innermost first. */
  datatype RecurseCheck = NoCheck | RecurseCheck(group: nat, prev: RecurseCheck)

  ghost function Followed(r: RecurseCheck): set<nat> {
    if r.NoCheck? then {} else {r.group} + Followed(r.prev)
  }

  ghost function Below(n: nat): (r: set<nat>)
    ensures forall o: nat :: o in r <==> o < n
  {
    if n == 0 then {} else Below(n - 1) + {n - 1}
  }

  /** How many more groups can be put on the chain. */
  ghost function ChecksLeft(r: RecurseCheck, n: nat): int {
    |Below(n)| - |Followed(r)|
  }

  lemma FollowOne(r: RecurseCheck, group: nat, n: nat)
    requires group < n && group !in Followed(r) && Followed(r) <= Below(n)
    ensures Followed(RecurseCheck(group, r)) <= Below(n)
    ensures 0 <= ChecksLeft(RecurseCheck(group, r), n) < ChecksLeft(r, n)
  {
    SubsetSize(Followed(RecurseCheck(group, r)), Below(n));
  }

  method OnChain(recurses: RecurseCheck, group: nat) returns (found: bool)
    ensures found <==> group in Followed(recurses)
  {
    var r := recurses;
    while r.RecurseCheck?
      invariant group in Followed(recurses) <==> group in Followed(r)
      decreases r
    {
      if r.group == group {
        return true;
      }
      r := r.prev;
    }
    return false;
  }

  // ---------- the item at an offset ----------

  /** No item starts like the end of a branch. */
  lemma ItemByte(x: PlainLinks, code: seq<byte>, a: nat, it: Item)
    requires LayItem(x, code, a, it)
    ensures a < |code| && code[a] != OP_ALT && !IsKet(code[a]) && code[a] != OP_END
  {
    if it.Rep? && !it.atom.Cls? {
      assert RepBase(it.atom) + it.k < OP_CRSTAR;
    }
  }

  lemma GroupAt(x: PlainLinks, code: seq<byte>, a: nat, it: Item)
    requires LayItem(x, code, a, it) && (code[a] == OP_BRA || code[a] == OP_CBRA)
    ensures it.Group? && IsKet(it.ket) && LayAlts(x, code, a, a + BraSize(code[a]), it.alts, a, it.ket)
    ensures BraSize(code[a]) == BraSize(it.bra)
    ensures ChainOk(code, a) && EndOf(code, a) + 3 == a + Size(it)
  {
    GroupLinks(x, code, a, it);
    LayGroup(x, code, a, it);
  }

  lemma BraAt(x: PlainLinks, code: seq<byte>, a: nat, it: Item)
    requires LayItem(x, code, a, it) && IsBra(code[a])
    ensures it.Group? && ChainOk(code, a) && EndOf(code, a) + 3 == a + Size(it)
  {
    GroupLinks(x, code, a, it);
  }

  lemma BraLength(op: byte)
    requires IsBra(op)
    ensures OpLength(op) == BraSize(op)
  {
  }

  lemma RepAt(x: PlainLinks, code: seq<byte>, a: nat, it: Item)
    requires LayItem(x, code, a, it) && IsRepeat(code[a])
    ensures it.Rep? && !it.atom.Cls? && RepOk(it.atom, it.k, it.lo, it.hi) && it.k == (code[a] - OP_STAR) % 13
    ensures HasCount(it.k) ==> a + 4 <= |code| && Get(code, a + 1) == it.hi && Size(it) == 4
  {
    if it.Rep? {
      DecodeRep(code, a, it.atom, it.k, it.lo, it.hi);
    }
  }

  lemma ClassAt(x: PlainLinks, code: seq<byte>, a: nat, it: Item)
    requires LayItem(x, code, a, it) && IsClass(code[a]) && Plain(code, a + Size(it))
    ensures var e := a + 1 + BITMAP_SIZE;
            && e < |code|
            && if IsClassRepeat(code[e]) then
                 && it.Rep? && it.atom.Cls? && RepOk(it.atom, it.k, it.lo, it.hi) && it.k == code[e] - OP_CRSTAR
                 && (HasRange(it.k) ==>
                       e + 5 <= |code| && Get(code, e + 1) == it.lo && Get(code, e + 3) == it.hi && Size(it) == 38)
               else it.One? && Size(it) == 33
  {
  }

  /** The kind of an item can be read off its first byte. */
  lemma ItemKinds(x: PlainLinks, code: seq<byte>, cc: nat, it: Item)
    requires LayItem(x, code, cc, it)
    ensures cc < |code|
    ensures code[cc] == OP_SBRA || code[cc] == OP_SCBRA ==> it.Group? && it.ket != OP_KET
    ensures IsZero(code[cc]) <==> it.Zero?
    ensures IsBra(code[cc]) <==> it.Group?
    ensures code[cc] == OP_RECURSE <==> it.Call?
    ensures IsAnchor(code[cc]) <==> it.Anchor?
    ensures IsSingleChar(code[cc]) || IsType(code[cc]) ==> it.One?
    ensures it.One? ==> IsSingleChar(code[cc]) || IsType(code[cc]) || IsClass(code[cc])
    ensures IsRepeat(code[cc]) ==> it.Rep? && !it.atom.Cls? && it.k == (code[cc] - OP_STAR) % 13
    ensures it.Rep? ==> IsRepeat(code[cc]) || IsClass(code[cc])
  {
    hide LayAlts;
    if it.Rep? {
      LaidRepByte(code, cc, it.atom, it.k, it.lo, it.hi);
    }
  }

  lemma LaidRepByte(code: seq<byte>, a: nat, atom: Atom, k: nat, lo: nat, hi: nat)
    requires LayRep(code, a, atom, k, lo, hi)
    ensures if atom.Cls? then IsClass(code[a]) else IsRepeat(code[a]) && (code[a] - OP_STAR) % 13 == k
  {
    if !atom.Cls? {
      DecodeRep(code, a, atom, k, lo, hi);
      var run := if atom.Chr? then atom.op - OP_CHAR else 4;
      assert code[a] - OP_STAR == 13 * run + k;
    }
  }

  /** The operand of a call in finished code. */
  lemma CallOperand(x: PlainLinks, code: seq<byte>, root: Item, a: nat, it: Item)
    requires IsProgram(x, code, root) && LayItem(x, code, a, it) && it.Call?
    ensures it.num in x.target && a + 3 <= |code| && Get(code, a + 1) == x.target[it.num]
  {
  }

  /** The group a linked call leads to. The whole pattern surrounds every call. */
  lemma CalledGroup(x: PlainLinks, code: seq<byte>, root: Item, num: nat) returns (g: Item)
    requires IsProgram(x, code, root) && num in x.target
    ensures Callee(root, num) == Some(g) && g.Group?
    ensures var cs := x.target[num];
            && cs < |code| && ChainOk(code, cs) && IsKet(g.ket)
            && LayAlts(x, code, cs, cs + BraSize(g.bra), g.alts, cs, g.ket)
            && (if num == 0 then cs == 0 && EndOf(code, cs) + 4 == |code| else BraSize(g.bra) == 5)
  {
    CalleeIsLaid(x, code, root, num);
    g := Callee(root, num).value;
    GroupLinks(x, code, x.target[num], g);
    LayGroup(x, code, x.target[num], g);
    if num != 0 {
      NumberedBra(x, code, x.target[num], g);
    }
  }

  lemma NumberedBra(x: PlainLinks, code: seq<byte>, a: nat, g: Item)
    requires g.Group? && LayItem(x, code, a, g) && g.num != 0
    ensures BraSize(g.bra) == 5
  {
  }

  // ---------- going from alternative to alternative ----------

  /** At the header of the alternatives cur, on the way from the header at h. */
  ghost predicate Headed(x: PlainLinks, code: seq<byte>, h: nat, end: nat, cur: Alts, bra: nat, ket: byte) {
    && end < |code|
    && IsKet(ket)
    && OpLength(code[end]) > 0
    && LayAlts(x, code, end, end + OpLength(code[end]), cur, bra, ket)
    && ChainOk(code, h) && ChainOk(code, end) && EndOf(code, h) == EndOf(code, end)
  }

  lemma FirstHeader(x: PlainLinks, code: seq<byte>, h: nat, alts: Alts, bra: nat, ket: byte)
    requires h < |code| && IsKet(ket) && LayAlts(x, code, h, h + OpLength(code[h]), alts, bra, ket)
    ensures Headed(x, code, h, h, alts, bra, ket)
  {
    hide LayBranch, BranchSize, ChainOk, EndOf, OpLength;
    FollowLinks(x, code, h, h + OpLength(code[h]), alts, bra, ket);
    LayFirst(x, code, h, h + OpLength(code[h]), alts, bra, ket);
  }

  lemma AtHeader(x: PlainLinks, code: seq<byte>, h: nat, end: nat, cur: Alts, bra: nat, ket: byte)
    requires Headed(x, code, h, end, cur, bra, ket)
    ensures end + 3 <= |code| && OpLength(code[end]) > 0 && LayBranch(x, code, end + OpLength(code[end]), cur.b)
    ensures var e := end + OpLength(code[end]) + BranchSize(cur.b);
            e + 3 <= |code| && (code[e] == OP_ALT || IsKet(code[e]))
  {
    hide LayBranch, BranchSize, ChainOk, EndOf, OpLength;
    LayFirst(x, code, end, end + OpLength(code[end]), cur, bra, ket);
  }

  lemma NextHeader(x: PlainLinks, code: seq<byte>, h: nat, end: nat, cur: Alts, bra: nat, ket: byte)
    requires Headed(x, code, h, end, cur, bra, ket) && end + 3 <= |code|
    ensures var n := end + Get(code, end + 1);
            && n < |code| && ChainOk(code, h)
            && if code[n] == OP_ALT then cur.More? && Headed(x, code, h, n, cur.rest, bra, ket)
               else n == EndOf(code, h) && cur.Last?
  {
    hide LayBranch, LayAlts, BranchSize, AltsSize, ChainOk, EndOf;
    LayFirst(x, code, end, end + OpLength(code[end]), cur, bra, ket);
    ChainNext(code, end);
  }

  lemma ChainNext(code: seq<byte>, h: nat)
    requires ChainOk(code, h)
    ensures h + 3 <= |code|
    ensures var n := h + Get(code, h + 1);
            && h < n < |code|
            && if code[n] == OP_ALT then ChainOk(code, n) && EndOf(code, h) == EndOf(code, n) else EndOf(code, h) == n
  {
  }
}
