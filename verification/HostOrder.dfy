/** Bringing UTF-16 units into host byte order. Byte order marks switch the order
  * while the string is read. The main results are that a string can be converted
  * piece by piece with the order carried over, that converting in place is correct,
  * and that the result does not depend on the order the input was written in.
  */
module HostOrder {
  import opened Utf16

  const BOM: unit := 0xfeff
  const SWAPPED_BOM: unit := 0xfffe

  /** The unit with its two bytes exchanged. */
  function Flip(c: unit): unit {
    c / 0x100 + (c % 0x100) * 0x100
  }

  /** Is a byte order, as the caller gives it, that of the host? */
  predicate Host(bo: int) {
    bo != 0
  }

  /** The byte order behind unit c, when it was bo before. */
  function OrderAfter(c: unit, bo: int): int {
    if c == BOM then 1 else if c == SWAPPED_BOM then 0 else bo
  }

  /** The units that unit c becomes. */
  function Converted(c: unit, bo: int, keep: bool): seq<unit> {
    if c == BOM || c == SWAPPED_BOM then (if keep then [BOM] else [])
    else [if Host(bo) then c else Flip(c)]
  }

  function ConvertAll(s: seq<unit>, bo: int, keep: bool): (r: seq<unit>)
    ensures |r| <= |s|
  {
    if s == [] then [] else Converted(s[0], bo, keep) + ConvertAll(s[1..], OrderAfter(s[0], bo), keep)
  }

  function FinalOrder(s: seq<unit>, bo: int): int {
    if s == [] then bo else FinalOrder(s[1..], OrderAfter(s[0], bo))
  }

  lemma ConvertHead(s: seq<unit>, bo: int, keep: bool)
    requires s != []
    ensures ConvertAll(s, bo, keep) == Converted(s[0], bo, keep) + ConvertAll(s[1..], OrderAfter(s[0], bo), keep)
    ensures FinalOrder(s, bo) == FinalOrder(s[1..], OrderAfter(s[0], bo))
  {
  }

  lemma ConvertNone(bo: int, keep: bool)
    ensures ConvertAll([], bo, keep) == [] && FinalOrder([], bo) == bo
  {
  }

  /** Converting a string in two pieces, with the byte order carried over, is
    * converting it in one. */
  lemma {:induction false} ConvertPieces(a: seq<unit>, b: seq<unit>, bo: int, keep: bool)
    ensures ConvertAll(a + b, bo, keep) == ConvertAll(a, bo, keep) + ConvertAll(b, FinalOrder(a, bo), keep)
    ensures FinalOrder(a + b, bo) == FinalOrder(b, FinalOrder(a, bo))
  {
    hide ConvertAll, FinalOrder, Converted, OrderAfter;
    if a == [] {
      assert a + b == b;
      ConvertNone(bo, keep);
    } else {
      var next := OrderAfter(a[0], bo);
      ConvertHead(a, bo, keep);
      ConvertHead(a + b, bo, keep);
      assert (a + b)[1..] == a[1..] + b;
      ConvertPieces(a[1..], b, next, keep);
      var x, y := Converted(a[0], bo, keep), ConvertAll(a[1..], next, keep);
      var z := ConvertAll(b, FinalOrder(a[1..], next), keep);
      assert (x + y) + z == x + (y + z);
    }
  }

  function FlipAll(s: seq<unit>): (r: seq<unit>)
    ensures |r| == |s| && forall i :: 0 <= i < |s| ==> r[i] == Flip(s[i])
  {
    seq(|s|, i requires 0 <= i < |s| => Flip(s[i]))
  }

  lemma FlipTwice(c: unit)
    ensures Flip(Flip(c)) == c && (Flip(c) == BOM <==> c == SWAPPED_BOM) && (Flip(c) == SWAPPED_BOM <==> c == BOM)
  {
    var hi, lo := c / 0x100, c % 0x100;
    var f: int := hi + lo * 0x100;
    assert f / 0x100 == lo && f % 0x100 == hi;
  }

  lemma OneFlipped(c: unit, bo: int, bo': int, keep: bool)
    requires Host(bo) != Host(bo')
    ensures Converted(Flip(c), bo', keep) == Converted(c, bo, keep)
    ensures Host(OrderAfter(Flip(c), bo')) != Host(OrderAfter(c, bo))
  {
    hide Flip;
    FlipTwice(c);
  }

  /** The same string in the other byte order, read with the other order assumed,
    * gives the same result. */
  lemma {:induction false} OrderDoesNotMatter(s: seq<unit>, bo: int, bo': int, keep: bool)
    requires Host(bo) != Host(bo')
    ensures ConvertAll(FlipAll(s), bo', keep) == ConvertAll(s, bo, keep)
    ensures Host(FinalOrder(FlipAll(s), bo')) != Host(FinalOrder(s, bo))
  {
    hide ConvertAll, FinalOrder, Converted, OrderAfter, Flip, Host;
    var f := FlipAll(s);
    if s == [] {
      assert f == [];
      ConvertNone(bo, keep);
      ConvertNone(bo', keep);
    } else {
      assert f[1..] == FlipAll(s[1..]);
      ConvertHead(s, bo, keep);
      ConvertHead(f, bo', keep);
      OneFlipped(s[0], bo, bo', keep);
      OrderDoesNotMatter(s[1..], OrderAfter(s[0], bo), OrderAfter(f[0], bo'), keep);
    }
  }

  // ---------- what becomes of each unit ----------

  predicate IsMark(c: unit) {
    c == 0xfeff || c == 0xfffe
  }

  /** Up to offset i the last mark is the one at m. */
  predicate LastMark(s: seq<unit>, i: nat, m: nat) {
    m < i <= |s| && IsMark(s[m]) && forall k :: m < k < i ==> !IsMark(s[k])
  }

  predicate Unmarked(s: seq<unit>, i: nat) {
    i <= |s| && forall k :: 0 <= k < i ==> !IsMark(s[k])
  }

  /** Where the unit at i goes: marks before it take no place unless they are kept. */
  function PlaceOf(s: seq<unit>, i: nat, keep: bool): (o: nat)
    requires i <= |s|
    ensures o <= i
  {
    if i == 0 then 0 else PlaceOf(s, i - 1, keep) + if IsMark(s[i - 1]) && !keep then 0 else 1
  }

  /** A unit as it is, or with its bytes exchanged. */
  predicate Stored(c: unit, u: unit, host: bool) {
    if host then u == c else u / 256 == c % 256 && u % 256 == c / 256
  }

  /** The output for s: a unit behind the mark 0xfeff is as it was, one behind the mark
    * 0xfffe has its bytes exchanged, and the given order decides for those that no mark
    * precedes. Kept marks all become 0xfeff. */
  ghost predicate Brought(s: seq<unit>, out: seq<unit>, bo: int, keep: bool) {
    && |out| == PlaceOf(s, |s|, keep)
    && (forall i: nat :: i < |s| ==> InPlace(s, out, bo, keep, i))
    && forall i: nat, m: nat :: m < i < |s| && LastMark(s, i, m) && !IsMark(s[i]) ==>
         Behind(s, out, keep, i, s[m] == 0xfeff)
  }

  /** The unit at i has its place in the output, where it is stored. */
  predicate Behind(s: seq<unit>, out: seq<unit>, keep: bool, i: nat, host: bool)
    requires i < |s|
  {
    var o := PlaceOf(s, i, keep);
    o < |out| && Stored(s[i], out[o], host)
  }

  ghost predicate InPlace(s: seq<unit>, out: seq<unit>, bo: int, keep: bool, i: nat)
    requires i < |s|
  {
    var o := PlaceOf(s, i, keep);
    && (IsMark(s[i]) && keep ==> o < |out| && out[o] == 0xfeff)
    && (!IsMark(s[i]) && Unmarked(s, i) ==> Behind(s, out, keep, i, bo != 0))
  }

  /** The order behind the first i units. */
  ghost predicate OrderIs(s: seq<unit>, i: nat, bo: int, order: int)
    requires i <= |s|
  {
    && (Unmarked(s, i) ==> order == bo)
    && forall m: nat :: LastMark(s, i, m) ==> (order != 0 <==> s[m] == 0xfeff)
  }

  lemma OneMoreOrder(s: seq<unit>, i: nat, bo: int, order: int)
    requires i < |s| && OrderIs(s, i, bo, order)
    ensures OrderIs(s, i + 1, bo, OrderAfter(s[i], order))
  {
    forall m: nat | LastMark(s, i + 1, m)
      ensures OrderAfter(s[i], order) != 0 <==> s[m] == 0xfeff
    {
      if m < i {
        assert LastMark(s, i, m);
      }
    }
  }

  lemma {:induction false} OrderBehind(s: seq<unit>, i: nat, bo: int)
    requires i <= |s|
    ensures OrderIs(s, i, bo, FinalOrder(s[..i], bo))
    decreases i
  {
    hide FinalOrder, OrderAfter;
    if i == 0 {
      assert s[..0] == [];
      ConvertNone(bo, false);
    } else {
      OrderBehind(s, i - 1, bo);
      OneMoreOrder(s, i - 1, bo, FinalOrder(s[..i - 1], bo));
      ConvertOneMore(s, i - 1, bo, false);
    }
  }

  lemma {:induction false} PlaceIsLength(s: seq<unit>, i: nat, bo: int, keep: bool)
    requires i <= |s|
    ensures |ConvertAll(s[..i], bo, keep)| == PlaceOf(s, i, keep)
    decreases i
  {
    hide ConvertAll, FinalOrder;
    if i == 0 {
      assert s[..0] == [];
      ConvertNone(bo, keep);
    } else {
      PlaceIsLength(s, i - 1, bo, keep);
      ConvertOneMore(s, i - 1, bo, keep);
    }
  }

  lemma FlipStores(c: unit)
    ensures Stored(c, Flip(c), false)
  {
    var hi, lo := c / 0x100, c % 0x100;
    var f: int := hi + lo * 0x100;
    assert f / 0x100 == lo && f % 0x100 == hi;
  }

  /** The unit at i in the output. */
  lemma UnitAt(s: seq<unit>, i: nat, bo: int, keep: bool)
    requires i < |s|
    ensures var out, o := ConvertAll(s, bo, keep), PlaceOf(s, i, keep);
            && (IsMark(s[i]) && keep ==> o < |out| && out[o] == BOM)
            && (!IsMark(s[i]) ==> Behind(s, out, keep, i, FinalOrder(s[..i], bo) != 0))
  {
    hide ConvertAll, FinalOrder, Flip;
    ConvertOneMore(s, i, bo, keep);
    PlaceIsLength(s, i, bo, keep);
    FlipStores(s[i]);
    assert s == s[..i + 1] + s[i + 1..];
    ConvertPieces(s[..i + 1], s[i + 1..], bo, keep);
  }

  /** The conversion brings every unit where it belongs. */
  lemma AllBrought(s: seq<unit>, bo: int, keep: bool)
    ensures Brought(s, ConvertAll(s, bo, keep), bo, keep)
  {
    hide ConvertAll, FinalOrder, Stored, PlaceOf, LastMark, Unmarked, IsMark;
    PlaceIsLength(s, |s|, bo, keep);
    assert s[..|s|] == s;
    forall i: nat | i < |s| ensures InPlace(s, ConvertAll(s, bo, keep), bo, keep, i) {
      UnitAt(s, i, bo, keep);
      OrderBehind(s, i, bo);
    }
    forall i: nat, m: nat | m < i < |s| && LastMark(s, i, m) && !IsMark(s[i])
      ensures Behind(s, ConvertAll(s, bo, keep), keep, i, s[m] == 0xfeff)
    {
      UnitAt(s, i, bo, keep);
      OrderBehind(s, i, bo);
    }
  }

  /** Without marks every unit keeps its place. */
  lemma {:induction false} UnmarkedPlace(s: seq<unit>, i: nat, keep: bool)
    requires Unmarked(s, i)
    ensures PlaceOf(s, i, keep) == i
    decreases i
  {
    if i > 0 {
      UnmarkedPlace(s, i - 1, keep);
    }
  }

  /** A string without marks comes out as it is, or with the bytes of every unit
    * exchanged. */
  lemma UnmarkedComesOut(s: seq<unit>, out: seq<unit>, bo: int, keep: bool)
    requires Brought(s, out, bo, keep) && Unmarked(s, |s|)
    ensures |out| == |s|
    ensures bo != 0 ==> out == s
    ensures bo == 0 ==> forall i :: 0 <= i < |s| ==> out[i] == s[i] / 256 + s[i] % 256 * 256
  {
    hide Brought, PlaceOf;
    BroughtLength(s, out, bo, keep);
    UnmarkedPlace(s, |s|, keep);
    forall i: nat | i < |s|
      ensures out[i] == if bo != 0 then s[i] else s[i] / 256 + s[i] % 256 * 256
    {
      UnmarkedPlace(s, i, keep);
      BroughtAt(s, out, bo, keep, i);
    }
  }

  lemma BroughtLength(s: seq<unit>, out: seq<unit>, bo: int, keep: bool)
    requires Brought(s, out, bo, keep)
    ensures |out| == PlaceOf(s, |s|, keep)
  {
  }

  lemma BroughtAt(s: seq<unit>, out: seq<unit>, bo: int, keep: bool, i: nat)
    requires Brought(s, out, bo, keep) && i < |s|
    ensures InPlace(s, out, bo, keep, i)
  {
  }

  /** Unless they are kept, no marks are left. */
  lemma {:induction false} NoMarksLeft(s: seq<unit>, bo: int)
    ensures BOM !in ConvertAll(s, bo, false) && SWAPPED_BOM !in ConvertAll(s, bo, false)
  {
    if s != [] {
      NoMarksLeft(s[1..], OrderAfter(s[0], bo));
    }
  }

  /** If marks are kept, no unit is dropped. */
  lemma {:induction false} KeptLength(s: seq<unit>, bo: int)
    ensures |ConvertAll(s, bo, true)| == |s|
  {
    if s != [] {
      KeptLength(s[1..], OrderAfter(s[0], bo));
    }
  }

  lemma ConvertOneMore(s: seq<unit>, i: nat, bo: int, keep: bool)
    requires i < |s|
    ensures ConvertAll(s[..i + 1], bo, keep)
            == ConvertAll(s[..i], bo, keep) + Converted(s[i], FinalOrder(s[..i], bo), keep)
    ensures FinalOrder(s[..i + 1], bo) == OrderAfter(s[i], FinalOrder(s[..i], bo))
  {
    var one := [s[i]];
    assert one[1..] == [];
    ConvertPieces(s[..i], one, bo, keep);
    ConvertHead(one, FinalOrder(s[..i], bo), keep);
    assert s[..i + 1] == s[..i] + one;
  }

  /** The first i units have been read and o units written over the start of what
    * the output was. */
  ghost predicate Halfway(src: seq<unit>, out0: seq<unit>, now: seq<unit>, i: nat, o: nat, bo: int, keep: bool,
                          order: int) {
    && o <= i <= |src| <= |out0| == |now|
    && now[..o] == ConvertAll(src[..i], bo, keep) && now[o..] == out0[o..]
    && order == FinalOrder(src[..i], bo)
  }

  /** What has not been overwritten yet is still there: reading stays ahead. */
  lemma StillThere(src: seq<unit>, out0: seq<unit>, now: seq<unit>, i: nat, o: nat, bo: int, keep: bool, order: int)
    requires Halfway(src, out0, now, i, o, bo, keep, order) && i < |src|
    ensures now[i] == out0[i]
  {
    assert now[i] == now[o..][i - o] && out0[i] == out0[o..][i - o];
  }

  lemma StoreOne(src: seq<unit>, out0: seq<unit>, now: seq<unit>, i: nat, o: nat, bo: int, keep: bool, order: int,
                 u: unit)
    requires Halfway(src, out0, now, i, o, bo, keep, order) && i < |src| && Converted(src[i], order, keep) == [u]
    ensures Halfway(src, out0, now[o := u], i + 1, o + 1, bo, keep, OrderAfter(src[i], order))
  {
    hide ConvertAll, FinalOrder, Converted;
    ConvertOneMore(src, i, bo, keep);
    var now' := now[o := u];
    assert now'[..o + 1] == now[..o] + [u];
    assert now'[o + 1..] == now[o..][1..] && out0[o + 1..] == out0[o..][1..];
  }

  lemma DropOne(src: seq<unit>, out0: seq<unit>, now: seq<unit>, i: nat, o: nat, bo: int, keep: bool, order: int)
    requires Halfway(src, out0, now, i, o, bo, keep, order) && i < |src| && Converted(src[i], order, keep) == []
    ensures Halfway(src, out0, now, i + 1, o, bo, keep, OrderAfter(src[i], order))
  {
    hide ConvertAll, FinalOrder, Converted;
    ConvertOneMore(src, i, bo, keep);
  }

  /** Convert the first units of the input; the output may be the same buffer. A
    * negative length says that the input ends with its first zero unit. The result
    * is the number of units stored. */
  method ToHostByteOrder(output: array<unit>, input: array<unit>, length0: int, order: int, keepBoms: bool)
    returns (length: int, finalOrder: int, ghost count: nat)
    requires if length0 < 0 then 0 in input[..] else length0 <= input.Length
    requires input.Length <= output.Length
    modifies output
    ensures count <= input.Length
    ensures if length0 >= 0 then count == length0
            else count > 0 && old(input[count - 1]) == 0 && 0 !in old(input[..count - 1])
    ensures 0 <= length <= count && output[..length] == ConvertAll(old(input[..count]), order, keepBoms)
    ensures Brought(old(input[..count]), output[..length], order, keepBoms)
    ensures (forall i :: 0 <= i < count ==> old(input[i]) != 0xfeff && old(input[i]) != 0xfffe) ==>
              && length == count && finalOrder == order
              && forall i :: 0 <= i < count ==>
                   output[i] == if order != 0 then old(input[i]) else old(input[i]) / 256 + old(input[i]) % 256 * 256
    ensures finalOrder == FinalOrder(old(input[..count]), order)
    ensures OrderIs(old(input[..count]), count, order, finalOrder)
    ensures output[length..] == old(output[length..])
  {
    hide ConvertAll, FinalOrder, Halfway, Brought, OrderIs;
    var end := length0;
    if end < 0 {
      end := UnitCount(input[..], end);
      end := end + 1;
    }
    count, length, finalOrder := end, end, order;
    ghost var src, out0 := input[..end], output[..];
    ghost var all := input[..];
    var o, i := 0, 0;
    StartsHalfway(src, out0, order, keepBoms);
    while i < end
      invariant 0 <= o <= i <= end == |src| && length == end - (i - o)
      invariant Halfway(src, out0, output[..], i, o, order, keepBoms, finalOrder)
      invariant if input == output then all == out0 else input[..] == all
    {
      StillThere(src, out0, output[..], i, o, order, keepBoms, finalOrder);
      assert input[i] == all[i] == src[i];
      var c := input[i];
      ghost var now := output[..];
      if c == BOM || c == SWAPPED_BOM {
        if keepBoms {
          StoreOne(src, out0, now, i, o, order, keepBoms, finalOrder, BOM);
          output[o] := BOM;
          o := o + 1;
        } else {
          DropOne(src, out0, now, i, o, order, keepBoms, finalOrder);
          length := length - 1;
        }
        finalOrder := if c == BOM then 1 else 0;
      } else {
        StoreOne(src, out0, now, i, o, order, keepBoms, finalOrder, if finalOrder != 0 then c else Flip(c));
        output[o] := if finalOrder != 0 then c else Flip(c);
        o := o + 1;
      }
      i := i + 1;
    }
    AllDone(src, out0, output[..], o, order, keepBoms, finalOrder);
    AllBrought(src, order, keepBoms);
    OrderBehind(src, |src|, order);
    assert src[..|src|] == src;
    ComesOut(src, output[..length], order, keepBoms, finalOrder);
  }

  lemma ComesOut(s: seq<unit>, out: seq<unit>, bo: int, keep: bool, order: int)
    requires Brought(s, out, bo, keep) && OrderIs(s, |s|, bo, order)
    ensures (forall i :: 0 <= i < |s| ==> s[i] != 0xfeff && s[i] != 0xfffe) ==>
              && |out| == |s| && order == bo
              && forall i :: 0 <= i < |s| ==> out[i] == if bo != 0 then s[i] else s[i] / 256 + s[i] % 256 * 256
  {
    hide Brought;
    if forall i :: 0 <= i < |s| ==> s[i] != 0xfeff && s[i] != 0xfffe {
      UnmarkedComesOut(s, out, bo, keep);
    }
  }

  lemma StartsHalfway(src: seq<unit>, out0: seq<unit>, bo: int, keep: bool)
    requires |src| <= |out0|
    ensures Halfway(src, out0, out0, 0, 0, bo, keep, bo)
  {
  }

  lemma AllDone(src: seq<unit>, out0: seq<unit>, now: seq<unit>, o: nat, bo: int, keep: bool, order: int)
    requires Halfway(src, out0, now, |src|, o, bo, keep, order)
    ensures o <= |now| == |out0| && now[..o] == ConvertAll(src, bo, keep) && order == FinalOrder(src, bo)
    ensures now[o..] == out0[o..]
  {
    assert src[..|src|] == src;
  }
}
