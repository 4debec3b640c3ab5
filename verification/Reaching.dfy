/** From behind which repeats the walk of auto-possessification passes the ket of a group:
  * only from behind those that can be the last thing of the group to take a character.
  */
module Reaching {
  import opened Opcodes
  import opened Tree
  import opened Meaning
  import opened Machine
  import opened Runs
  import opened Decoding
  import opened Program
  import opened CodeScan
  import opened Closure
  import opened Backtrack
  import opened Settling
  import opened Comparing
  import opened Hardening
  import opened Rewriting
  import opened Finding
  import opened Passing
  import opened Trailing
  import opened Ends
  import PropertyLists

  // ---------- the instructions of the tree, one at a time ----------

  lemma ItemIs(code: seq<byte>, a: nat, it: Item)
    requires CodeItem(Decoded(code), a, it)
    ensures a < a + Size(it) <= |code|
    ensures it.Anchor? || it.One? || it.Call? ==>
              Decode(code, a).IAnchor? || Decode(code, a).IOne? || Decode(code, a).ICall?
    ensures it.Rep? ==>
              Decode(code, a) == IRep(it.atom, RepMin(it.atom, it.k, it.lo, it.hi), RepMax(it.atom, it.k, it.lo, it.hi),
                                      RepPoss(it.atom, it.k), a + Size(it))
  {
    hide Decode, CodeAlts, DecodedTo;
    ItemInside(Decoded(code), a, it);
    InstrIs(code, a);
  }

  lemma GroupIs(code: seq<byte>, a: nat, g: Item)
    requires CodeItem(Decoded(code), a, g) && g.Group?
    ensures var k := KetOffset(a, g);
            && a < k < |code| && k + 3 == a + Size(g)
            && Decode(code, a) == IOpen(Starts(g.alts, a + BraSize(g.bra)))
            && Decode(code, k) == IKet(k + 3, if g.ket == OP_KET then None else Some(a))
            && CodeAlts(Decoded(code), a + BraSize(g.bra), g.alts, k)
  {
    hide Decode, CodeAlts, DecodedTo;
    InstrIs(code, a);
    InstrIs(code, KetOffset(a, g));
  }

  lemma ZeroIs(code: seq<byte>, a: nat, it: Item)
    requires CodeItem(Decoded(code), a, it) && it.Zero?
    ensures a < |code| && it.group.Group? && a + Size(it) == a + 1 + Size(it.group)
    ensures Decode(code, a) == IZero(if it.op == OP_SKIPZERO then None else Some(a + 1), a + Size(it))
    ensures CodeItem(Decoded(code), a + 1, it.group)
  {
    hide Decode, CodeAlts, DecodedTo;
    ItemInside(Decoded(code), a, it);
    InstrIs(code, a);
  }

  lemma AltIs(code: seq<byte>, st: nat, alts: Alts, end: nat)
    requires CodeAlts(Decoded(code), st, alts, end)
    ensures var e := st + BranchSize(alts.b);
            && CodeBranch(Decoded(code), st, alts.b) && e <= end < |code|
            && if alts.Last? then e == end
               else e < end && Decode(code, e) == IAlt(end) && CodeAlts(Decoded(code), e + 3, alts.rest, end)
  {
    hide Decode, CodeBranch, DecodedTo;
    if alts.More? {
      InstrIs(code, st + BranchSize(alts.b));
    }
  }

  // ---------- past an item without a character ----------

  /** A ket that is passed behind the bracket or the start of a group lies behind it. */
  lemma {:induction false} ItemPassed(code: seq<byte>, a: nat, it: Item, k: nat)
    requires CodeItem(Decoded(code), a, it) && k in Passed(code, a) && Outside(k, a, a + Size(it))
    ensures SkipsItem(it) && k in Passed(code, a + Size(it))
    decreases it, 1
  {
    hide Decode, Passed, CodeItem, CodeAlts, DecodedTo;
    ItemIs(code, a, it);
    match it
    case Rep(_, _, _, _) => PassedItem(code, a);
    case Group(_, _, alts, ket) => GroupPassed(code, a, it, k);
    case Zero(_, g) =>
      ZeroIs(code, a, it);
      PassedZero(code, a);
      if k !in Passed(code, a + Size(it)) {
        ItemPassed(code, a + 1, g, k);
      }
    case _ => PassedItem(code, a);
  }

  lemma {:induction false} GroupPassed(code: seq<byte>, a: nat, g: Item, k: nat)
    requires g.Group? && CodeItem(Decoded(code), a, g) && k in Passed(code, a) && Outside(k, a, a + Size(g))
    ensures SkipsItem(g) && k in Passed(code, a + Size(g))
    decreases g, 0
  {
    hide Decode, Passed, PassedAny, CodeItem, CodeAlts, DecodedTo;
    GroupIs(code, a, g);
    PassedOpen(code, a);
    var starts := Starts(g.alts, a + BraSize(g.bra));
    var j := PassedSome(code, a + 1, starts, k);
    AltsPassed(code, a + BraSize(g.bra), g.alts, KetOffset(a, g), starts[j], k);
    PassedKet(code, KetOffset(a, g));
  }

  lemma {:induction false} BranchPassed(code: seq<byte>, a: nat, b: Branch, k: nat)
    requires CodeBranch(Decoded(code), a, b) && k in Passed(code, a) && Outside(k, a, a + BranchSize(b))
    ensures SkipsBranch(b) && k in Passed(code, a + BranchSize(b))
    decreases b
  {
    hide Passed, CodeItem, DecodedTo, SkipsItem;
    if b.Cons? {
      ItemPassed(code, a, b.head, k);
      BranchPassed(code, a + Size(b.head), b.tail, k);
    }
  }

  lemma {:induction false} AltsPassed(code: seq<byte>, st: nat, alts: Alts, end: nat, o: nat, k: nat)
    requires CodeAlts(Decoded(code), st, alts, end) && o in Starts(alts, st) && k in Passed(code, o)
    requires Outside(k, st, end)
    ensures SkipsAlts(alts) && k in Passed(code, end)
    decreases alts
  {
    hide Decode, Passed, CodeBranch, CodeAlts, DecodedTo, SkipsBranch;
    AltIs(code, st, alts, end);
    var e := st + BranchSize(alts.b);
    if o == st {
      BranchPassed(code, st, alts.b, k);
      if alts.More? {
        PassedAlt(code, e);
      }
    } else {
      AltsPassed(code, e + 3, alts.rest, end, o, k);
    }
  }

  // ---------- past an item from behind a repeat in it ----------

  /** At o is a greedy repeat with some slack, and the walk behind it passes the ket k. */
  ghost predicate Reached(code: seq<byte>, o: nat, k: nat) {
    && Softens(code, o) && !Lazy(code, o) && Slack(Decode(code, o)) && k in Passed(code, Decode(code, o).next)
  }

  lemma EagerAt(x: PlainLinks, code: seq<byte>, o: nat, it: Item)
    requires LayItem(x, code, o, it) && Plain(code, o + Size(it)) && Softens(code, o) && !Lazy(code, o)
    ensures it.Rep? && Eager(it.k)
  {
    if IsClass(code[o]) {
      ClassAt(x, code, o, it);
    } else {
      RepAt(x, code, o, it);
    }
  }

  lemma {:induction false} ItemReached(x: PlainLinks, code: seq<byte>, a: nat, it: Item, o: nat, k: nat)
    requires LayItem(x, code, a, it) && TargetsOk(x, code) && Plain(code, a + Size(it))
    requires CodeItem(Decoded(code), a, it)
    requires o in Offsets(it, a) && Reached(code, o, k) && Outside(k, a, a + Size(it))
    ensures Decode(code, o).atom in TrailItem(it) && k in Passed(code, a + Size(it))
    decreases it
  {
    hide Decode, Passed, LayItem, LayAlts, CodeItem, CodeAlts, DecodedTo, TargetsOk, Softens, Lazy, Offsets,
      AltsOffsets;
    ItemIs(code, a, it);
    match it
    case Group(bra, num, alts, ket) =>
      GroupIs(code, a, it);
      OpenGroup(x, code, a, bra, num, alts, ket);
      NotABracket(x, code, a, it, o);
      AltsReached(x, code, a, a + BraSize(bra), alts, a, ket, KetOffset(a, it), o, k);
      PassedKet(code, KetOffset(a, it));
    case Zero(op, g) =>
      ZeroIs(code, a, it);
      OpenZero(x, code, a, op, g);
      NotAZero(code, a, it, o);
      ItemReached(x, code, a + 1, g, o, k);
    case _ =>
      OnlyOffset(it, a, o);
      EagerAt(x, code, a, it);
  }

  lemma NotAZero(code: seq<byte>, a: nat, it: Item, o: nat)
    requires it.Zero? && a < |code| && Decode(code, a).IZero? && o in Offsets(it, a) && Slack(Decode(code, o))
    ensures o in Offsets(it.group, a + 1)
  {
    hide Decode;
  }

  lemma OnlyOffset(it: Item, a: nat, o: nat)
    requires !it.Group? && !it.Zero? && o in Offsets(it, a)
    ensures o == a
  {
  }

  lemma {:induction false} BranchReached(x: PlainLinks, code: seq<byte>, a: nat, b: Branch, o: nat, k: nat)
    requires LayBranch(x, code, a, b) && TargetsOk(x, code) && Plain(code, a + BranchSize(b))
    requires CodeBranch(Decoded(code), a, b)
    requires o in BranchOffsets(b, a) && Reached(code, o, k) && Outside(k, a, a + BranchSize(b))
    ensures Decode(code, o).atom in TrailBranch(b) && k in Passed(code, a + BranchSize(b))
    decreases b
  {
    hide Decode, Passed, LayItem, CodeItem, DecodedTo, TargetsOk, Offsets, TrailItem, SkipsBranch, Reached;
    var m := a + Size(b.head);
    BranchByte(x, code, m, b.tail);
    if o in Offsets(b.head, a) {
      ItemReached(x, code, a, b.head, o, k);
      BranchPassed(code, m, b.tail, k);
    } else {
      BranchReached(x, code, m, b.tail, o, k);
    }
  }

  lemma {:induction false} AltsReached(x: PlainLinks, code: seq<byte>, h: nat, st: nat, alts: Alts, bra: nat, ket: byte,
                                       end: nat, o: nat, k: nat)
    requires LayAlts(x, code, h, st, alts, bra, ket) && IsKet(ket) && TargetsOk(x, code)
    requires CodeAlts(Decoded(code), st, alts, end)
    requires o in AltsOffsets(alts, st) && Reached(code, o, k) && Outside(k, st, end)
    ensures Decode(code, o).atom in TrailAlts(alts) && k in Passed(code, end)
    decreases alts
  {
    hide Decode, Passed, LayBranch, LayAlts, CodeBranch, CodeAlts, DecodedTo, TargetsOk, BranchOffsets, TrailBranch,
      BranchSize, AltsSize, Softens, Lazy;
    AltIs(code, st, alts, end);
    LayFirst(x, code, h, st, alts, bra, ket);
    var e := st + BranchSize(alts.b);
    if o in BranchOffsets(alts.b, st) {
      BranchReached(x, code, st, alts.b, o, k);
      if alts.More? {
        PassedAlt(code, e);
      }
    } else {
      AltsReached(x, code, e, e + 3, alts.rest, bra, ket, end, o, k);
    }
  }

  // ---------- settled repeats ----------

  /** A lazy repeat is settled only by characters. */
  lemma {:induction false} LazyPassesNothing(code: seq<byte>, offs: set<nat>, a: nat, t: PropertyLists.Tables,
                                             base: Atom)
    requires Closed(code, offs) && a in offs && |t.ctypes| == 256 && |t.fcc| == 256 && AtomOk(base)
    requires Settled(code, a, t, base, false)
    ensures Passed(code, a) == {}
    decreases |code| - a
  {
    hide Closed, Decode, Settled, Passed, PassedAny, PropertyLists.Exclusive, Leads;
    HereIsInside(code, a, offs);
    KindsOf(code, a, offs);
    DecodeForward(code, a);
    if code[a] == OP_END {
      SettledEnd(code, a, t, base, false);
    } else {
      LeadsAt(code, a, offs);
      var i := Decode(code, a);
      LeadsWhere(i, a, offs);
      match i
      case IAlt(end) =>
        SettledAlt(code, a, t, base, false);
        PassedAlt(code, a);
        LazyPassesNothing(code, offs, end, t, base);
      case IKet(_, _) => SettledKet(code, a, t, base, false);
      case IOpen(starts) =>
        SettledOpen(code, a, t, base, false);
        PassedOpen(code, a);
        forall j | 0 <= j < |starts| ensures Passed(code, starts[j]) == {} {
          LazyPassesNothing(code, offs, starts[j], t, base);
        }
        if PassedAny(code, a + 1, starts) != {} {
          var k :| k in PassedAny(code, a + 1, starts);
          var j := PassedSome(code, a + 1, starts, k);
        }
      case IZero(inside, after) =>
        SettledZero(code, a, t, base, false);
        PassedZero(code, a);
        LazyPassesNothing(code, offs, after, t, base);
        LazyPassesNothing(code, offs, inside.value, t, base);
      case IBad =>
      case IRep(_, _, _, _, next) =>
        SettledAtItem(code, a, t, base, false);
        PassedItem(code, a);
        if MayBeEmpty(i) {
          NextInside(i, a, offs);
          LazyPassesNothing(code, offs, next, t, base);
        }
      case _ => PassedItem(code, a);
    }
  }

  lemma RipeIsEager(code: seq<byte>, offs: set<nat>, tb: PropertyLists.Tables, o: nat, k: nat)
    requires Closed(code, offs) && o in offs && Ripe(code, tb, o) && Slack(Decode(code, o))
    requires k in Passed(code, Decode(code, o).next)
    ensures Reached(code, o, k)
  {
    hide Closed, Decode, Settled, Passed, Softens, Lazy;
    RepLeads(code, offs, o);
    if Lazy(code, o) {
      LazyPassesNothing(code, offs, Decode(code, o).next, tb, Decode(code, o).atom);
    }
  }

  /** If from behind a repeat of a called group the walk passes the group's ket, then the
    * repeat is one of those that can be the last to take a character. */
  lemma PassedIsTrailing(x: PlainLinks, code: seq<byte>, root: Item, tb: PropertyLists.Tables, num: nat, o: nat)
    requires IsProgram(x, code, root) && Callee(root, num).Some? && CalleeOffset(root, num).Some?
    requires o in CalleeInner(root, num) && Ripe(code, tb, o) && Slack(Decode(code, o))
    requires CalleeKet(root, num) in Passed(code, Decode(code, o).next)
    ensures Decode(code, o).atom in TrailAlts(Callee(root, num).value.alts)
  {
    hide IsProgram, LayItem, LayAlts, CodeItem, CodeAlts, DecodedTo, TargetsOk, Decode, Passed, Ripe, Reached,
      AltsOffsets, AllOffsets;
    CalleeDecodes(x, code, root, num);
    CalleeInside(x, code, root, num);
    ProgramIsClosed(x, code, root);
    ProgramTargets(x, code, root);
    var g, a, k := Callee(root, num).value, CalleeOffset(root, num).value, CalleeKet(root, num);
    RipeIsEager(code, AllOffsets(root), tb, o, k);
    CalleeLaid(x, code, root, num);
    GroupIs(code, a, g);
    AltsReached(x, code, a, a + BraSize(g.bra), g.alts, a, g.ket, k, o, k);
  }

  lemma CalleeLaid(x: PlainLinks, code: seq<byte>, root: Item, num: nat)
    requires IsProgram(x, code, root) && Callee(root, num).Some? && CalleeOffset(root, num).Some?
    ensures var g, a := Callee(root, num).value, CalleeOffset(root, num).value;
            g.Group? && IsKet(g.ket) && LayAlts(x, code, a, a + BraSize(g.bra), g.alts, a, g.ket)
  {
    hide LayItem, LayAlts, FindOffset, FindGroup;
    if num != 0 {
      FoundItem(x, code, 0, root, num);
    }
    LayGroup(x, code, CalleeOffset(root, num).value, Callee(root, num).value);
  }
}
