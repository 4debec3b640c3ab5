/** The forward walk of auto-possessification over all that may come after a repeat:
  * optional items, groups with all their alternatives, the ends of enclosing groups.
  */
module Comparing {
  import opened Opcodes
  import opened Tree
  import opened Meaning
  import opened Machine
  import opened Decoding
  import opened CodeScan
  import opened Closure
  import opened Backtrack
  import opened PropertyLists
  import opened Following
  import opened Settling
  import opened Onward

  /** What the walk knows: the list of the repeated item is right, and the code is
    * closed under going on. */
  ghost predicate Comparable(code: seq<byte>, t: Tables, offs: set<nat>, base: PropList, baseEnd: nat, ba: Atom) {
    TablesOk(t) && Closed(code, offs) && AtomOk(ba) && Lists(t.fcc, code, baseEnd, base, ba)
  }

  // ---------- reading the code ----------

  lemma LeadsAt(code: seq<byte>, a: nat, offs: set<nat>)
    requires Closed(code, offs) && a in offs && a < |code| && code[a] != OP_END
    ensures Leads(Decode(code, a), a, offs)
  {
    hide Decode, Leads;
  }

  lemma DecodeZero(code: seq<byte>, a: nat)
    requires a < |code| && (code[a] == OP_BRAZERO || code[a] == OP_BRAMINZERO) && Decode(code, a) != IBad
    ensures ChainOk(code, a + 1) && a + 1 < |code|
    ensures Decode(code, a) == IZero(Some(a + 1), EndOf(code, a + 1) + 3)
  {
    hide EndOf;
  }

  lemma AltAt(code: seq<byte>, a: nat, offs: set<nat>)
    requires Closed(code, offs) && a in offs && a < |code| && code[a] == OP_ALT
    ensures ChainOk(code, a) && Decode(code, a) == IAlt(EndOf(code, a)) && EndOf(code, a) in offs
  {
    hide ChainOk, EndOf;
  }

  lemma KetAt(code: seq<byte>, a: nat, offs: set<nat>)
    requires Closed(code, offs) && a in offs && a < |code| && code[a] == OP_KET
    ensures Decode(code, a) == IKet(a + 3, None) && a + 3 in offs
  {
  }

  lemma BraAt(code: seq<byte>, a: nat, offs: set<nat>)
    requires Closed(code, offs) && a in offs && a < |code| && IsBra(code[a])
    ensures ChainOk(code, a) && OpLength(code[a]) > 0
    ensures var starts := AltStarts(code, a, a + OpLength(code[a]));
            Decode(code, a) == IOpen(starts) && |starts| > 0 && forall j :: 0 <= j < |starts| ==> starts[j] in offs
  {
    hide ChainOk, AltStarts;
    BraLength(code[a]);
  }

  lemma ZeroAt(code: seq<byte>, a: nat, offs: set<nat>)
    requires Closed(code, offs) && a in offs && a < |code| && (code[a] == OP_BRAZERO || code[a] == OP_BRAMINZERO)
    ensures ChainOk(code, a + 1) && a + 1 < |code| && a + 1 in offs && EndOf(code, a + 1) + 3 in offs
    ensures Decode(code, a) == IZero(Some(a + 1), EndOf(code, a + 1) + 3)
  {
    hide Closed, ChainOk, EndOf, Decode;
    LeadsAt(code, a, offs);
    DecodeZero(code, a);
  }

  lemma HereIsInside(code: seq<byte>, a: nat, offs: set<nat>)
    requires Closed(code, offs) && a in offs
    ensures a < |code| && (Decode(code, a) != IBad || code[a] == OP_END)
  {
    hide Decode;
  }

  lemma ListedAt(code: seq<byte>, a: nat, offs: set<nat>)
    requires Closed(code, offs) && a in offs && Listed(Decode(code, a))
    ensures a < |code| && NextOf(Decode(code, a)) in offs && NextOf(Decode(code, a)) > a
    ensures !IsKet(code[a]) && code[a] != OP_END
  {
    DecodeForward(code, a);
    ListedByte(code, a);
    hide Decode;
    assert a == |code| - 1 || Leads(Decode(code, a), a, offs);
  }

  lemma ListedByte(code: seq<byte>, a: nat)
    requires Listed(Decode(code, a))
    ensures a < |code| && !IsKet(code[a]) && code[a] != OP_END
  {
    hide ChainOk, EndOf, AltStarts;
  }

  // ---------- one step ----------

  lemma KindsOf(code: seq<byte>, a: nat, offs: set<nat>)
    requires Closed(code, offs) && a in offs
    ensures a < |code|
    ensures code[a] == OP_ALT <==> Decode(code, a).IAlt?
    ensures IsKet(code[a]) <==> Decode(code, a).IKet?
    ensures IsBra(code[a]) <==> Decode(code, a).IOpen?
    ensures IsZero(code[a]) <==> Decode(code, a).IZero?
    ensures code[a] == OP_END <==> Decode(code, a).IBad?
  {
    hide ChainOk, EndOf, AltStarts;
  }

  lemma SettledEnd(code: seq<byte>, a: nat, t: Tables, base: Atom, greedy: bool)
    requires a < |code| && code[a] == OP_END && |t.ctypes| == 256 && |t.fcc| == 256 && AtomOk(base)
    ensures Settled(code, a, t, base, greedy) <==> greedy
    ensures Inner(code, a) == 0
  {
  }

  lemma SettledAlt(code: seq<byte>, a: nat, t: Tables, base: Atom, greedy: bool)
    requires a < |code| && Decode(code, a).IAlt? && |t.ctypes| == 256 && |t.fcc| == 256 && AtomOk(base)
    ensures Settled(code, a, t, base, greedy) <==> Settled(code, Decode(code, a).end, t, base, greedy)
    ensures Inner(code, a) == Inner(code, Decode(code, a).end)
  {
    hide Decode;
  }

  lemma SettledKet(code: seq<byte>, a: nat, t: Tables, base: Atom, greedy: bool)
    requires a < |code| && Decode(code, a).IKet? && |t.ctypes| == 256 && |t.fcc| == 256 && AtomOk(base)
    ensures var i := Decode(code, a);
            && (Settled(code, a, t, base, greedy) <==> i.back.None? && greedy && Settled(code, i.next, t, base, greedy))
            && Inner(code, a) == if i.back.None? then Inner(code, i.next) else 0
  {
    hide Decode;
  }

  lemma SettledZero(code: seq<byte>, a: nat, t: Tables, base: Atom, greedy: bool)
    requires a < |code| && Decode(code, a).IZero? && |t.ctypes| == 256 && |t.fcc| == 256 && AtomOk(base)
    ensures var i := Decode(code, a); var into := i.inside.Some? && Entered(code, i.inside.value);
            && (Settled(code, a, t, base, greedy)
                <==> into && Settled(code, i.after, t, base, greedy) && Settled(code, i.inside.value, t, base, greedy))
            && Inner(code, a) == if into then 1 + Inner(code, i.after) + Inner(code, i.inside.value) else 0
  {
    hide Decode;
  }

  lemma SettledOpen(code: seq<byte>, a: nat, t: Tables, base: Atom, greedy: bool)
    requires a < |code| && Decode(code, a).IOpen? && |t.ctypes| == 256 && |t.fcc| == 256 && AtomOk(base)
    ensures var starts := Decode(code, a).starts;
            && AllFrom(starts, a + 1)
            && (Settled(code, a, t, base, greedy)
                <==> Entered(code, a) && forall j :: 0 <= j < |starts| ==> Settled(code, starts[j], t, base, greedy))
            && Inner(code, a) == if Entered(code, a) then InnerAll(code, a + 1, starts) else 0
  {
    DecodeForward(code, a);
    hide Decode;
  }

  lemma SettledAtItem(code: seq<byte>, a: nat, t: Tables, base: Atom, greedy: bool)
    requires a < |code| && |t.ctypes| == 256 && |t.fcc| == 256 && AtomOk(base)
    requires var i := Decode(code, a); i.IAnchor? || i.IOne? || i.IRep? || i.ICall?
    ensures var i := Decode(code, a);
            && (Settled(code, a, t, base, greedy)
                <==> InstrOk(i) && Exclusive(t, base, i)
                     && (MayBeEmpty(i) ==> Settled(code, NextOf(i), t, base, greedy)))
            && Inner(code, a) == if MayBeEmpty(i) then Inner(code, i.next) else 0
  {
    hide Decode, Exclusive;
  }

  // ---------- one item ----------

  lemma ListedIsOk(fcc: seq<byte>, code: seq<byte>, list: PropList, i: Instr)
    requires |fcc| == 256 && Listed(i) && ListsInstr(fcc, code, list, i)
    ensures InstrOk(i) && (MayBeEmpty(i) <==> list.empty)
  {
  }

  /** Compare the item at a with the repeated item: have they no character in common,
    * and does the walk go on behind the item? */
  method CompareItem(code: seq<byte>, a: nat, t: Tables, base: PropList, baseEnd: nat, ghost offs: set<nat>,
                     ghost ba: Atom)
    returns (apart: bool, more: bool, end: nat)
    requires Comparable(code, t, offs, base, baseEnd, ba) && a in offs
    ensures |t.ctypes| == 256 && |t.fcc| == 256 && AtomOk(ba)
    ensures apart <==> InstrOk(Decode(code, a)) && Exclusive(t, ba, Decode(code, a))
    ensures apart ==>
              (more <==> MayBeEmpty(Decode(code, a))) && end == NextOf(Decode(code, a)) && end in offs && a < end
  {
    hide TablesOk, Closed, Decode, Lists, ListsInstr, Exclusive;
    HereIsInside(code, a, offs);
    TableSizes(t);
    apart, more, end := false, false, a;
    var next, list := GetChrPropertyList(code, a, t.fcc);
    if next.None? {
      return;
    }
    ghost var i := Decode(code, a);
    ListedIsOk(t.fcc, code, list, i);
    ListedAt(code, a, offs);
    assert Compares(code, t, base, baseEnd, ba, list, i);
    apart := Apart(code, t, base, baseEnd, list, next.value, ba, i);
    if apart {
      more, end := list.empty, next.value;
    }
  }

  // ---------- the walk ----------

  /** The alternatives before the header h are settled; a is the start of the one behind
    * the header. */
  ghost predicate Compared(code: seq<byte>, t: Tables, bra: nat, h: nat, a: nat, ba: Atom, greedy: bool, offs: set<nat>,
                           done: seq<nat>)
    requires |t.ctypes| == 256 && |t.fcc| == 256 && AtomOk(ba)
  {
    && bra <= h < |code| && ChainOk(code, bra) && ChainOk(code, h) && bra < a
    && (forall j :: 0 <= j < |done| ==> Settled(code, done[j], t, ba, greedy))
    && AltStarts(code, bra, bra + OpLength(code[bra])) == done + AltStarts(code, h, a)
    && (forall j :: 0 <= j < |AltStarts(code, h, a)| ==> AltStarts(code, h, a)[j] in offs)
    && AllFrom(AltStarts(code, h, a), bra + 1)
  }

  lemma FirstCompared(code: seq<byte>, t: Tables, bra: nat, ba: Atom, greedy: bool, offs: set<nat>)
    requires Closed(code, offs) && bra in offs && bra < |code| && IsBra(code[bra])
    requires |t.ctypes| == 256 && |t.fcc| == 256 && AtomOk(ba)
    ensures ChainOk(code, bra) && Compared(code, t, bra, bra, bra + OpLength(code[bra]), ba, greedy, offs, [])
    ensures var starts := AltStarts(code, bra, bra + OpLength(code[bra]));
            && Decode(code, bra) == IOpen(starts) && AllFrom(starts, bra + 1)
  {
    hide Closed, ChainOk, AltStarts, Settled;
    BraAt(code, bra, offs);
    DecodeForward(code, bra);
  }

  lemma ComparedHere(code: seq<byte>, t: Tables, bra: nat, h: nat, a: nat, ba: Atom, greedy: bool, offs: set<nat>,
                     done: seq<nat>)
    requires |t.ctypes| == 256 && |t.fcc| == 256 && AtomOk(ba)
    requires Compared(code, t, bra, h, a, ba, greedy, offs, done)
    ensures ChainOk(code, h) && h + 3 <= |code| && h < h + Get(code, h + 1) < |code| && a in offs && bra < a
    ensures AllFrom(AltStarts(code, h, a), bra + 1)
  {
    hide Settled;
    assert AltStarts(code, h, a)[0] == a;
  }

  lemma NextCompared(code: seq<byte>, t: Tables, bra: nat, h: nat, a: nat, ba: Atom, greedy: bool, offs: set<nat>,
                     done: seq<nat>)
    requires |t.ctypes| == 256 && |t.fcc| == 256 && AtomOk(ba)
    requires Compared(code, t, bra, h, a, ba, greedy, offs, done) && Settled(code, a, t, ba, greedy)
    requires h + 3 <= |code| && h + Get(code, h + 1) < |code| && code[h + Get(code, h + 1)] == OP_ALT
    ensures var n := h + Get(code, h + 1); Compared(code, t, bra, n, n + 3, ba, greedy, offs, done + [a])
  {
    hide Settled;
    var n := h + Get(code, h + 1);
    var rest := AltStarts(code, n, n + 3);
    assert AltStarts(code, h, a) == [a] + rest;
    assert done + ([a] + rest) == (done + [a]) + rest;
    forall j | 0 <= j < |rest| ensures rest[j] in offs && rest[j] >= bra + 1 {
      assert rest[j] == AltStarts(code, h, a)[j + 1];
    }
  }

  /** Walking on from one more alternative. */
  lemma InnerStep(code: seq<byte>, bra: nat, h: nat, a: nat)
    requires ChainOk(code, h) && bra < |code| && AllFrom(AltStarts(code, h, a), bra + 1)
    ensures h + 3 <= |code| && h + Get(code, h + 1) < |code|
    ensures var n := h + Get(code, h + 1);
            if code[n] == OP_ALT then
              && ChainOk(code, n) && AllFrom(AltStarts(code, n, n + 3), bra + 1)
              && InnerAll(code, bra + 1, AltStarts(code, h, a))
                 == 1 + Inner(code, a) + InnerAll(code, bra + 1, AltStarts(code, n, n + 3))
            else
              InnerAll(code, bra + 1, AltStarts(code, h, a)) == Inner(code, a)
  {
    hide Inner;
    var n := h + Get(code, h + 1);
    if code[n] == OP_ALT {
      var rest := AltStarts(code, n, n + 3);
      assert AltStarts(code, h, a) == [a] + rest && AltStarts(code, h, a)[1..] == rest;
      assert |rest| > 0;
      assert forall j :: 0 <= j < |rest| ==> rest[j] == AltStarts(code, h, a)[j + 1];
    } else {
      assert AltStarts(code, h, a) == [a];
      assert InnerAll(code, bra + 1, [a][1..]) == 0;
    }
  }

  lemma OneStart(code: seq<byte>, h: nat, a: nat)
    requires ChainOk(code, h)
    ensures h + 3 <= |code| && h + Get(code, h + 1) < |code| && |AltStarts(code, h, a)| > 0
    ensures AltStarts(code, h, a)[0] == a
    ensures code[h + Get(code, h + 1)] != OP_ALT ==> AltStarts(code, h, a) == [a]
  {
  }

  /** The group is settled if the last alternative is, and only then. */
  lemma LastCompared(code: seq<byte>, t: Tables, bra: nat, h: nat, a: nat, ba: Atom, greedy: bool, offs: set<nat>,
                     done: seq<nat>)
    requires |t.ctypes| == 256 && |t.fcc| == 256 && AtomOk(ba)
    requires Closed(code, offs) && bra in offs && Entered(code, bra)
    requires Compared(code, t, bra, h, a, ba, greedy, offs, done)
    requires h + 3 <= |code| && h + Get(code, h + 1) < |code| && code[h + Get(code, h + 1)] != OP_ALT
    ensures Settled(code, a, t, ba, greedy) <==> Settled(code, bra, t, ba, greedy)
  {
    hide Closed, Settled, Inner, InnerAll, ChainOk, AltStarts, Decode, OpLength;
    FirstCompared(code, t, bra, ba, greedy, offs);
    SettledOpen(code, bra, t, ba, greedy);
    OneStart(code, h, a);
    var starts := Decode(code, bra).starts;
    assert starts == done + [a];
    assert starts[|done|] == a && forall j :: 0 <= j < |done| ==> starts[j] == done[j];
  }

  /** A group one of whose alternatives is not settled is not settled. */
  lemma OneUnsettled(code: seq<byte>, t: Tables, bra: nat, h: nat, a: nat, ba: Atom, greedy: bool, offs: set<nat>,
                     done: seq<nat>)
    requires |t.ctypes| == 256 && |t.fcc| == 256 && AtomOk(ba)
    requires Closed(code, offs) && bra in offs && Entered(code, bra)
    requires Compared(code, t, bra, h, a, ba, greedy, offs, done) && !Settled(code, a, t, ba, greedy)
    ensures !Settled(code, bra, t, ba, greedy)
  {
    hide Closed, Settled, Inner, InnerAll, ChainOk, AltStarts, Decode, OpLength;
    FirstCompared(code, t, bra, ba, greedy, offs);
    SettledOpen(code, bra, t, ba, greedy);
    OneStart(code, h, a);
    var starts := Decode(code, bra).starts;
    assert starts[|done|] == a;
  }

  lemma {:induction false} EndIsNoAlt(code: seq<byte>, h: nat)
    requires ChainOk(code, h)
    ensures code[EndOf(code, h)] != OP_ALT
    decreases |code| - h
  {
    var n := h + Get(code, h + 1);
    if code[n] == OP_ALT {
      EndIsNoAlt(code, n);
    }
  }

  /** The walk from o has come to a: what is left settles the same, and the walks started so
    * far have been counted. */
  ghost predicate Came(code: seq<byte>, t: Tables, o: nat, a: nat, ba: Atom, greedy: bool, recLimit: nat, limit: nat)
    requires |t.ctypes| == 256 && |t.fcc| == 256 && AtomOk(ba)
  {
    && (Settled(code, a, t, ba, greedy) <==> Settled(code, o, t, ba, greedy))
    && limit + 1 + Inner(code, o) == recLimit + Inner(code, a)
  }

  /** On to e, after some more walks. */
  lemma ComesTo(code: seq<byte>, t: Tables, o: nat, a: nat, e: nat, ba: Atom, greedy: bool, recLimit: nat, limit: nat,
                limit': nat)
    requires |t.ctypes| == 256 && |t.fcc| == 256 && AtomOk(ba)
    requires Came(code, t, o, a, ba, greedy, recLimit, limit)
    requires Settled(code, e, t, ba, greedy) <==> Settled(code, a, t, ba, greedy)
    requires limit' + Inner(code, a) == limit + Inner(code, e)
    ensures Came(code, t, o, e, ba, greedy, recLimit, limit')
  {
    hide Settled, Inner;
  }

  /** What the walk ends with. */
  ghost predicate Answers(code: seq<byte>, t: Tables, o: nat, ba: Atom, greedy: bool, recLimit: nat, ok: bool,
                          limit: nat)
    requires |t.ctypes| == 256 && |t.fcc| == 256 && AtomOk(ba)
  {
    && (ok <==> Settled(code, o, t, ba, greedy) && Inner(code, o) < recLimit)
    && limit + 1 + Inner(code, o) >= recLimit
    && (ok ==> limit + 1 + Inner(code, o) == recLimit)
  }

  lemma AnswersAt(code: seq<byte>, t: Tables, o: nat, a: nat, ba: Atom, greedy: bool, recLimit: nat, limit: nat,
                  ok: bool, limit': nat)
    requires |t.ctypes| == 256 && |t.fcc| == 256 && AtomOk(ba)
    requires Came(code, t, o, a, ba, greedy, recLimit, limit)
    requires ok ==> Settled(code, a, t, ba, greedy) && limit' == limit && Inner(code, a) == 0
    requires !ok ==> limit' + Inner(code, a) >= limit
    requires !ok ==> Settled(code, a, t, ba, greedy) ==> limit < Inner(code, a)
    ensures Answers(code, t, o, ba, greedy, recLimit, ok, limit')
  {
    hide Settled, Inner;
  }

  /** Can a repeat of the base item that ends at baseEnd be made possessive when the
    * code goes on at o? Yes exactly if no way from there leads to something that blocks,
    * and there are not more ways than the limit on walks. */
  method CompareOpcodes(code: seq<byte>, o: nat, t: Tables, base: PropList, baseEnd: nat, greedy: bool, recLimit: nat,
                        ghost offs: set<nat>, ghost ba: Atom)
    returns (ok: bool, limit: nat)
    requires Comparable(code, t, offs, base, baseEnd, ba) && o in offs
    ensures |t.ctypes| == 256 && |t.fcc| == 256 && AtomOk(ba)
    ensures Answers(code, t, o, ba, greedy, recLimit, ok, limit)
    ensures ok <==> Free(code, o, t, ba, greedy) && WaysWithin(code, o, recLimit)
    decreases |code| - o, 2
  {
    hide Free, WaysWithin;
    hide Comparable, Closed, Settled, Inner, Compared, ChainOk, EndOf, AltStarts, OpLength, Decode, Exclusive, Came;
    ComparableParts(code, t, offs, base, baseEnd, ba);
    FreeIsSettled(code, o, t, ba, greedy, recLimit);
    limit := recLimit;
    if limit == 0 {
      return false, limit;
    }
    limit := limit - 1;
    var a := o;
    HereIsInside(code, o, offs);
    CameHere(code, t, o, ba, greedy, recLimit);
    while true
      invariant o <= a < |code| && a in offs && Came(code, t, o, a, ba, greedy, recLimit, limit)
      decreases |code| - a
    {
      if code[a] == OP_ALT {
        AltAt(code, a, offs);
        var end := SkipBranches(code, a);
        SettledAlt(code, a, t, ba, greedy);
        EndIsNoAlt(code, a);
        ComesTo(code, t, o, a, end, ba, greedy, recLimit, limit, limit);
        a := end;
        HereIsInside(code, a, offs);
      }
      ghost var before := limit;
      var done, next;
      done, ok, next, limit := CompareStep(code, a, t, base, baseEnd, greedy, limit, offs, ba);
      if done {
        AnswersAt(code, t, o, a, ba, greedy, recLimit, before, ok, limit);
        return;
      }
      ComesTo(code, t, o, a, next, ba, greedy, recLimit, before, limit);
      a := next;
    }
  }

  /** One step of the walk, at an instruction that does not begin another alternative: an
    * answer, or where to go on. */
  method CompareStep(code: seq<byte>, a: nat, t: Tables, base: PropList, baseEnd: nat, greedy: bool, recLimit: nat,
                     ghost offs: set<nat>, ghost ba: Atom)
    returns (done: bool, ok: bool, next: nat, limit: nat)
    requires Comparable(code, t, offs, base, baseEnd, ba) && a in offs && a < |code| && code[a] != OP_ALT
    ensures |t.ctypes| == 256 && |t.fcc| == 256 && AtomOk(ba)
    ensures !done ==> a < next < |code| && next in offs
    ensures !done ==> (Settled(code, next, t, ba, greedy) <==> Settled(code, a, t, ba, greedy))
    ensures !done ==> limit + Inner(code, a) == recLimit + Inner(code, next)
    ensures done && ok ==> Settled(code, a, t, ba, greedy) && Inner(code, a) == 0 && limit == recLimit
    ensures done && !ok && recLimit >= Inner(code, a) ==> !Settled(code, a, t, ba, greedy)
    ensures done && !ok ==> limit + Inner(code, a) >= recLimit
    decreases |code| - a, 1
  {
    hide Comparable, Closed, Settled, Inner, ChainOk, EndOf, OpLength, Decode, Exclusive;
    ComparableParts(code, t, offs, base, baseEnd, ba);
    done, ok, next, limit := true, false, a, recLimit;
    KindsOf(code, a, offs);
    var c := code[a];
    if c == OP_END {
      SettledEnd(code, a, t, ba, greedy);
      ok := greedy;
    } else if c == OP_KET {
      KetAt(code, a, offs);
      SettledKet(code, a, t, ba, greedy);
      done, next := !greedy, a + 3;
      HereIsInside(code, a + 3, offs);
    } else if c == OP_BRA || c == OP_CBRA {
      ok, next, limit := CompareAlternatives(code, a, t, base, baseEnd, greedy, limit, offs, ba);
      done := !ok;
      if ok {
        HereIsInside(code, next, offs);
      }
    } else if c == OP_BRAZERO || c == OP_BRAMINZERO {
      ok, limit := CompareOptional(code, a, t, base, baseEnd, greedy, limit, offs, ba);
      done, next := !ok, a + 1;
    } else {
      OtherKinds(code, a, offs, t, ba, greedy);
      var more;
      ok, more, next := CompareItem(code, a, t, base, baseEnd, offs, ba);
      done := !ok || !more;
      if ok {
        HereIsInside(code, next, offs);
      }
    }
  }

  lemma CameHere(code: seq<byte>, t: Tables, o: nat, ba: Atom, greedy: bool, recLimit: nat)
    requires |t.ctypes| == 256 && |t.fcc| == 256 && AtomOk(ba) && recLimit > 0
    ensures Came(code, t, o, o, ba, greedy, recLimit, recLimit - 1)
  {
    hide Settled, Inner;
  }

  /** Walk on from behind the optional group at a, whose contents come next. */
  method CompareOptional(code: seq<byte>, a: nat, t: Tables, base: PropList, baseEnd: nat, greedy: bool, recLimit: nat,
                         ghost offs: set<nat>, ghost ba: Atom)
    returns (ok: bool, limit: nat)
    requires Comparable(code, t, offs, base, baseEnd, ba) && a in offs && a < |code|
    requires code[a] == OP_BRAZERO || code[a] == OP_BRAMINZERO
    ensures |t.ctypes| == 256 && |t.fcc| == 256 && AtomOk(ba) && a + 1 < |code| && a + 1 in offs
    ensures ok ==> (Settled(code, a + 1, t, ba, greedy) <==> Settled(code, a, t, ba, greedy))
    ensures ok ==> limit + Inner(code, a) == recLimit + Inner(code, a + 1)
    ensures !ok && recLimit >= Inner(code, a) ==> !Settled(code, a, t, ba, greedy)
    ensures limit + Inner(code, a) >= recLimit
    decreases |code| - a, 0
  {
    hide Comparable, Closed, Settled, Inner, ChainOk, EndOf, Decode;
    ComparableParts(code, t, offs, base, baseEnd, ba);
    limit := recLimit;
    ZeroAt(code, a, offs);
    SettledZero(code, a, t, ba, greedy);
    if code[a + 1] != OP_BRA && code[a + 1] != OP_CBRA {
      return false, limit;
    }
    var end := SkipBranches(code, a + 1);
    HereIsInside(code, end + 3, offs);
    ok, limit := CompareOpcodes(code, end + 3, t, base, baseEnd, greedy, limit, offs, ba);
  }

  /** What is left when an instruction is none of those that the walk goes through. */
  lemma OtherKinds(code: seq<byte>, a: nat, offs: set<nat>, t: Tables, ba: Atom, greedy: bool)
    requires Closed(code, offs) && a in offs && a < |code| && |t.ctypes| == 256 && |t.fcc| == 256 && AtomOk(ba)
    requires code[a] != OP_ALT && code[a] != OP_END && code[a] != OP_KET && code[a] != OP_BRA && code[a] != OP_CBRA
    requires code[a] != OP_BRAZERO && code[a] != OP_BRAMINZERO
    ensures var i := Decode(code, a);
            && (Settled(code, a, t, ba, greedy)
                <==> InstrOk(i) && Exclusive(t, ba, i) && (MayBeEmpty(i) ==> Settled(code, NextOf(i), t, ba, greedy)))
            && Inner(code, a) == if MayBeEmpty(i) then Inner(code, i.next) else 0
  {
    hide Closed, Settled, Inner, Exclusive, Decode;
    KindsOf(code, a, offs);
    var i := Decode(code, a);
    if i.IKet? {
      KetGoesBack(code, a);
      SettledKet(code, a, t, ba, greedy);
    } else if i.IOpen? {
      SettledOpen(code, a, t, ba, greedy);
    } else if i.IZero? {
      SkipHasNoInside(code, a);
      SettledZero(code, a, t, ba, greedy);
    } else {
      SettledAtItem(code, a, t, ba, greedy);
    }
  }

  lemma KetGoesBack(code: seq<byte>, a: nat)
    requires a < |code| && Decode(code, a).IKet? && code[a] != OP_KET
    ensures Decode(code, a).back.Some?
  {
  }

  lemma SkipHasNoInside(code: seq<byte>, a: nat)
    requires a < |code| && Decode(code, a).IZero? && code[a] != OP_BRAZERO && code[a] != OP_BRAMINZERO
    ensures Decode(code, a).inside.None?
  {
    hide ChainOk, EndOf;
  }

  /** Walk on from every alternative of the group at bra but the last one; returns
    * the start of that one. */
  method CompareAlternatives(code: seq<byte>, bra: nat, t: Tables, base: PropList, baseEnd: nat, greedy: bool,
                             recLimit: nat,
                             ghost offs: set<nat>, ghost ba: Atom)
    returns (ok: bool, a: nat, limit: nat)
    requires Comparable(code, t, offs, base, baseEnd, ba) && bra in offs && Entered(code, bra)
    ensures |t.ctypes| == 256 && |t.fcc| == 256 && AtomOk(ba)
    ensures ok ==> bra < a && a in offs && (Settled(code, a, t, ba, greedy) <==> Settled(code, bra, t, ba, greedy))
    ensures ok ==> limit + Inner(code, bra) == recLimit + Inner(code, a)
    ensures !ok && recLimit >= Inner(code, bra) ==> !Settled(code, bra, t, ba, greedy)
    ensures limit + Inner(code, bra) >= recLimit
    decreases |code| - bra, 0
  {
    hide Comparable, Closed, Settled, Inner, InnerAll, Compared, ChainOk, EndOf, AltStarts, OpLength, Decode;
    ComparableParts(code, t, offs, base, baseEnd, ba);
    limit, a := recLimit, bra + OpLength(code[bra]);
    ghost var h, done := bra, [];
    FirstCompared(code, t, bra, ba, greedy, offs);
    SettledOpen(code, bra, t, ba, greedy);
    ComparedHere(code, t, bra, h, a, ba, greedy, offs, done);
    var nextCode := bra + Get(code, bra + 1);
    while code[nextCode] == OP_ALT
      invariant Compared(code, t, bra, h, a, ba, greedy, offs, done) && a in offs && bra < a
      invariant ChainOk(code, h) && h + 3 <= |code| && h < nextCode < |code| && nextCode == h + Get(code, h + 1)
      invariant AllFrom(AltStarts(code, h, a), bra + 1)
      invariant limit + Inner(code, bra) == recLimit + InnerAll(code, bra + 1, AltStarts(code, h, a))
      decreases |code| - nextCode
    {
      HereIsInside(code, a, offs);
      InnerStep(code, bra, h, a);
      var ok';
      ok', limit := CompareOpcodes(code, a, t, base, baseEnd, greedy, limit, offs, ba);
      if !ok' {
        if !Settled(code, a, t, ba, greedy) {
          OneUnsettled(code, t, bra, h, a, ba, greedy, offs, done);
        }
        return false, a, limit;
      }
      NextCompared(code, t, bra, h, a, ba, greedy, offs, done);
      h, done := nextCode, done + [a];
      a := nextCode + 3;
      ComparedHere(code, t, bra, h, a, ba, greedy, offs, done);
      nextCode := nextCode + Get(code, nextCode + 1);
    }
    InnerStep(code, bra, h, a);
    LastCompared(code, t, bra, h, a, ba, greedy, offs, done);
    ok := true;
  }

  lemma ComparableParts(code: seq<byte>, t: Tables, offs: set<nat>, base: PropList, baseEnd: nat, ba: Atom)
    requires Comparable(code, t, offs, base, baseEnd, ba)
    ensures Closed(code, offs) && |t.ctypes| == 256 && |t.fcc| == 256 && AtomOk(ba)
  {
  }

  // ---------- what is settled follows ----------

  /** If everything that follows is settled, then giving characters back never helps. */
  lemma {:induction false} SettledFollows(code: seq<byte>, a: nat, t: Tables, base: Atom, greedy: bool, offs: set<nat>)
    requires TablesOk(t) && Closed(code, offs) && a in offs && AtomOk(base)
    requires |t.ctypes| == 256 && |t.fcc| == 256 && Settled(code, a, t, base, greedy)
    ensures MayFollow(code, t, a, base, greedy)
    decreases |code| - a
  {
    hide TablesOk, Closed, Decode, Settled, MayFollow, Exclusive, Leads;
    HereIsInside(code, a, offs);
    KindsOf(code, a, offs);
    DecodeForward(code, a);
    if code[a] == OP_END {
      SettledEnd(code, a, t, base, greedy);
      EndFollows(code, t, a, base);
    } else {
      LeadsAt(code, a, offs);
      var i := Decode(code, a);
      LeadsWhere(i, a, offs);
      match i
      case IAlt(end) =>
        SettledAlt(code, a, t, base, greedy);
        SettledFollows(code, end, t, base, greedy, offs);
        AltFollows(code, t, a, end, base, greedy);
      case IKet(next, back) =>
        SettledKet(code, a, t, base, greedy);
        SettledFollows(code, next, t, base, greedy, offs);
        KetFollows(code, t, a, next, base);
      case IOpen(starts) =>
        SettledOpen(code, a, t, base, greedy);
        forall j | 0 <= j < |starts| ensures MayFollow(code, t, starts[j], base, greedy) {
          SettledFollows(code, starts[j], t, base, greedy, offs);
        }
        OpenFollows(code, t, a, starts, base, greedy);
      case IZero(inside, after) =>
        SettledZero(code, a, t, base, greedy);
        SettledFollows(code, after, t, base, greedy, offs);
        SettledFollows(code, inside.value, t, base, greedy, offs);
        ZeroFollows(code, t, a, inside.value, after, base, greedy);
      case IBad =>
      case _ => ItemSettles(code, a, t, base, greedy, offs);
    }
  }

  lemma {:induction false} ItemSettles(code: seq<byte>, a: nat, t: Tables, base: Atom, greedy: bool, offs: set<nat>)
    requires TablesOk(t) && Closed(code, offs) && a in offs && AtomOk(base) && a < |code|
    requires |t.ctypes| == 256 && |t.fcc| == 256 && Settled(code, a, t, base, greedy)
    requires var i := Decode(code, a); i.IAnchor? || i.IOne? || i.IRep? || i.ICall?
    ensures MayFollow(code, t, a, base, greedy)
    decreases |code| - a, 0
  {
    hide TablesOk, Closed, Decode, Settled, MayFollow, Exclusive, Fits, Excludes;
    var i := Decode(code, a);
    SettledAtItem(code, a, t, base, greedy);
    ListedAt(code, a, offs);
    forall env: Env | Fits(env, t) ensures |env.ctypes| == 256 && |env.fcc| == 256 && Excludes(env, base, i) {
      EnvSizes(env, t);
      ExclusiveExcludes(env, t, base, i);
    }
    if MayBeEmpty(i) {
      SettledFollows(code, i.next, t, base, greedy, offs);
    }
    ItemFollows(code, t, a, i, base, greedy);
  }

  lemma EnvSizes(env: Env, t: Tables)
    requires Fits(env, t)
    ensures |env.ctypes| == 256 && |env.fcc| == 256
  {
  }

  lemma LeadsWhere(i: Instr, a: nat, offs: set<nat>)
    requires Leads(i, a, offs)
    ensures i.IAlt? ==> i.end in offs
    ensures i.IKet? ==> i.next in offs
    ensures i.IOpen? ==> |i.starts| > 0 && forall j :: 0 <= j < |i.starts| ==> i.starts[j] in offs
    ensures i.IZero? ==> i.after in offs && a + 1 in offs && (i.inside.Some? ==> i.inside.value == a + 1)
  {
  }
}
