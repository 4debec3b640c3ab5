/** Appending another copy of an emitted group. Calls inside it that are linked
  * keep their targets; those that are not are listed again for the copy.
  */
module Copying {
  import opened Opcodes
  import opened Tree
  import opened Meaning
  import opened Program
  import opened Walk
  import opened Relocation
  import opened Emission
  import opened CodeBuffer
  import opened Items
  import opened Moving

  /** The list entries from base on are those of the group's latest copy, at q,
    * and correspond to those of the group itself, at p; n is the group's size. */
  ghost predicate Entries(s: State, p: nat, q: nat, n: nat, base: nat, g: Item) {
    && p <= q && q + n <= |s.code| && base <= |s.hwm|
    && (forall i :: base <= i < |s.hwm| ==> s.hwm[i] in Operands(g, q))
    && (forall i :: 0 <= i < base ==> s.hwm[i] < q)
    && (forall o: nat :: q <= o < q + n ==> (o in s.x.forward <==> o - q + p in s.x.forward))
  }

  /** The brackets of the group at p are known. */
  ghost predicate Known(x: Links, p: nat, g: Item) {
    forall num: nat | num > 0 :: FindOffset(g, p, num).Some? ==> num in x.target
  }

  /** The group at p can be copied. */
  ghost predicate Source(s: State, p: nat, q: nat, base: nat, g: Item) {
    Entries(s, p, q, Size(g), base, g) && LayItem(s.x, s.code, p, g) && Known(s.x, p, g)
  }

  /** What remains true of the source when the state grows without calls. */
  lemma SourceGrows(s: State, t: State, p: nat, q: nat, base: nat, g: Item)
    requires Source(s, p, q, base, g) && Grown(s, t) && t.hwm == s.hwm && t.x == s.x
    ensures Source(t, p, q, base, g)
  {
    hide LayItem, Size, Known;
    assert Moved(s.x, s.code, t.x, t.code, p, p + Size(g), 0);
    RelocateItem(s.x, s.code, t.x, t.code, p, p + Size(g), 0, g);
  }

  /** A freshly emitted group is its own latest copy. */
  lemma SourceNew(s: State, t: State, g: Item)
    requires Emitted(s, t, Cons(g, Nil))
    ensures Source(t, |s.code|, |s.code|, |s.hwm|, g)
  {
    hide LayItem, Size, Good, Emitted, ListOk, Entries, Known;
    EmittedItem(s, t, g);
    EmittedLists(s, t, Cons(g, Nil));
    NewKnown(s, t, g);
    NewListed(s, t, Size(g), g);
  }

  lemma NewListed(s: State, t: State, n: nat, g: Item)
    requires ListOk(s) && ListOk(t) && Grown(s, t) && |t.code| == |s.code| + n
    requires forall o: nat :: o in t.x.forward && o >= |s.code| ==> o in Operands(g, |s.code|)
    ensures Entries(t, |s.code|, |s.code|, n, |s.hwm|, g)
  {
    forall i | |s.hwm| <= i < |t.hwm| ensures t.hwm[i] in Operands(g, |s.code|) {
      assert t.hwm[i] in t.x.forward;
    }
  }

  lemma EmittedLists(s: State, t: State, b: Branch)
    requires Emitted(s, t, b)
    ensures ListOk(s) && ListOk(t)
  {
  }

  lemma NewKnown(s: State, t: State, g: Item)
    requires forall num: nat | num > 0 :: Target(t.x, num) == Either(Target(s.x, num), FindOffset(g, |s.code|, num))
    ensures Known(t.x, |s.code|, g)
  {
    forall num: nat | num > 0 && FindOffset(g, |s.code|, num).Some? ensures num in t.x.target {
      assert Target(t.x, num) == Either(Target(s.x, num), FindOffset(g, |s.code|, num));
    }
  }

  /** The list entries of the copy. */
  function NewEntries(hwm: seq<nat>, base: nat, delta: nat): (r: seq<nat>)
    requires base <= |hwm|
    ensures |r| == |hwm| - base && forall i :: 0 <= i < |r| ==> r[i] == hwm[base + i] + delta
  {
    seq(|hwm| - base, i requires 0 <= i < |hwm| - base => hwm[base + i] + delta)
  }

  function Elements(q: seq<nat>): set<nat> {
    set o | o in q
  }

  ghost predicate CopiedTo(s: State, t: State, p: nat, q: nat, n: nat, base: nat) {
    && base <= |s.hwm| && q <= |s.code| && p + n <= |s.code|
    && t.code == s.code + s.code[p..p + n]
    && t.hwm == s.hwm + NewEntries(s.hwm, base, |s.code| - q)
    && t.x == s.x.(forward := s.x.forward + Elements(NewEntries(s.hwm, base, |s.code| - q)))
  }

  /** An entry of the copy and the entry it was made from. */
  lemma EntryOf(s: State, p: nat, q: nat, n: nat, base: nat, g: Item, o: nat)
    requires Entries(s, p, q, n, base, g) && ListOk(s) && n == Size(g)
    ensures o in NewEntries(s.hwm, base, |s.code| - q)
       <==> o >= |s.code| && o - |s.code| < n && o - |s.code| + p in s.x.forward
  {
    hide Size;
    var m := |s.code|;
    var e := NewEntries(s.hwm, base, m - q);
    if o in e {
      var i :| 0 <= i < |e| && e[i] == o;
      OperandInside(g, q, s.hwm[base + i]);
      assert s.hwm[base + i] in s.x.forward;
    }
    if o >= m && o - m < n && o - m + p in s.x.forward {
      assert o - m + q in s.x.forward;
      var i :| 0 <= i < |s.hwm| && s.hwm[i] == o - m + q;
      assert e[i - base] == o;
    }
  }

  /** The calls of the copy that are still numbers. */
  lemma CopyForward(s: State, t: State, p: nat, q: nat, n: nat, base: nat, g: Item, o: nat)
    requires Entries(s, p, q, n, base, g) && ListOk(s) && n == Size(g) && CopiedTo(s, t, p, q, n, base)
    requires |s.code| <= o < |s.code| + n
    ensures o in t.x.forward <==> o - |s.code| + p in s.x.forward
  {
    hide Size, Entries;
    EntryOf(s, p, q, n, base, g, o);
    assert o in s.x.forward ==> o in s.hwm;
  }

  lemma CopyMoved(s: State, t: State, p: nat, q: nat, n: nat, base: nat, g: Item)
    requires Entries(s, p, q, n, base, g) && ListOk(s) && n == Size(g) && CopiedTo(s, t, p, q, n, base)
    ensures Moved(s.x, s.code, t.x, t.code, p, p + n, |s.code| - p)
  {
    hide Size, Entries, ListOk;
    forall o: nat | |s.code| <= o < |s.code| + n ensures o in t.x.forward <==> o - |s.code| + p in s.x.forward {
      CopyForward(s, t, p, q, n, base, g, o);
    }
    assert t.code == s.code + s.code[p..p + n];
  }

  lemma CopyList(s: State, t: State, p: nat, q: nat, n: nat, base: nat, g: Item)
    requires Entries(s, p, q, n, base, g) && ListOk(s) && n == Size(g) && CopiedTo(s, t, p, q, n, base)
    ensures ListOk(t) && Grown(s, t)
    ensures forall i :: |s.hwm| <= i < |t.hwm| ==> t.hwm[i] in Operands(g, |s.code|)
  {
    hide Size;
    forall i | |s.hwm| <= i < |t.hwm|
      ensures t.hwm[i] in Operands(g, |s.code|) && |s.code| <= t.hwm[i] && t.hwm[i] + 2 <= |t.code|
    {
      var e := s.hwm[base + i - |s.hwm|];
      OperandMoves(g, q, |s.code|, e);
      OperandInside(g, q, e);
    }
  }

  lemma CopyEntriesOk(s: State, t: State, p: nat, q: nat, n: nat, base: nat, g: Item)
    requires Entries(s, p, q, n, base, g) && ListOk(s) && n == Size(g) && CopiedTo(s, t, p, q, n, base) && ListOk(t)
    requires Grown(s, t)
    requires forall i :: |s.hwm| <= i < |t.hwm| ==> t.hwm[i] in Operands(g, |s.code|)
    ensures Entries(t, p, |s.code|, n, |s.hwm|, g)
  {
    var m := |s.code|;
    assert p <= m && p + n <= m;
    forall o: nat | m <= o < m + n ensures o in t.x.forward <==> o - m + p in t.x.forward {
      CopyForward(s, t, p, q, n, base, g, o);
      GrownForward(s, t, o - m + p);
    }
    forall i | 0 <= i < |s.hwm| ensures t.hwm[i] < m {
      assert s.hwm[i] + 2 <= m;
    }
    hide Size, ListOk;
  }

  lemma CopyTargets(s: State, p: nat, g: Item)
    requires Known(s.x, p, g) && p <= |s.code|
    ensures forall num: nat | num > 0 :: Target(s.x, num) == Either(Target(s.x, num), FindOffset(g, |s.code|, num))
  {
    forall num: nat | num > 0 ensures Target(s.x, num) == Either(Target(s.x, num), FindOffset(g, |s.code|, num)) {
      OffsetShift(g, p, |s.code| - p, num);
    }
  }

  lemma ListedOperands(s: State, t: State, g: Item)
    requires ListOk(t) && ListOk(s) && Grown(s, t)
    requires forall i :: |s.hwm| <= i < |t.hwm| ==> t.hwm[i] in Operands(g, |s.code|)
    ensures forall o: nat :: o in t.x.forward && o >= |s.code| ==> o in Operands(g, |s.code|)
  {
    forall o: nat | o in t.x.forward && o >= |s.code| ensures o in Operands(g, |s.code|) {
      var i :| 0 <= i < |t.hwm| && t.hwm[i] == o;
      assert i >= |s.hwm|;
    }
  }

  lemma CopyEmitted(s: State, t: State, p: nat, q: nat, n: nat, base: nat, g: Item)
    requires Source(s, p, q, base, g) && Good(s) && n == Size(g) && CopiedTo(s, t, p, q, n, base)
    ensures Emitted(s, t, Cons(g, Nil)) && Source(t, p, |s.code|, |s.hwm|, g)
  {
    hide LayItem, Size, Good, Emitted, Known, Entries, Moved, ListOk, Grown;
    GoodParts(s);
    CopyMoved(s, t, p, q, n, base, g);
    CopyList(s, t, p, q, n, base, g);
    CopyEntriesOk(s, t, p, q, n, base, g);
    CopyTargets(s, p, g);
    ListedOperands(s, t, g);
    RelocateItem(s.x, s.code, t.x, t.code, p, p + n, |s.code| - p, g);
    MakeEmitted(s, t, g);
    GrownMoved(s, t, p, p + n);
    RelocateItem(s.x, s.code, t.x, t.code, p, p + n, 0, g);
    StillKnown(s.x, t.x, p, g);
  }

  lemma StillKnown(x: Links, y: Links, p: nat, g: Item)
    requires Known(x, p, g) && y.target == x.target
    ensures Known(y, p, g)
  {
  }

  /** Append a copy of the group at p and copy the list entries from base on,
    * which belong to the latest copy, delta before the new one. */
  method CopyGroup(cd: Compiler, p: nat, len: nat, base: nat, delta: nat, ghost q: nat, ghost g: Item)
    returns (newBase: nat)
    requires cd.Valid() && Good(Now(cd)) && Source(Now(cd), p, q, base, g)
    requires len == Size(g) && delta == cd.end - q && cd.end + len <= cd.buf.Length
    modifies cd, cd.buf
    ensures cd.Valid() && Emitted(old(Now(cd)), Now(cd), Cons(g, Nil))
    ensures newBase == |old(cd.hwm)| && Source(Now(cd), p, |old(cd.code)|, newBase, g)
  {
    ghost var s := Now(cd);
    hide Good, LayItem, Size, Known;
    newBase := |cd.hwm|;
    cd.CopyToEnd(p, len);
    CopyEntries(cd, base, newBase, delta);
    cd.x := cd.x.(forward := cd.x.forward + Elements(NewEntries(s.hwm, base, delta)));
    CopyEmitted(s, Now(cd), p, q, len, base, g);
  }

  method CopyEntries(cd: Compiler, base: nat, newBase: nat, delta: nat)
    requires base <= newBase == |cd.hwm|
    modifies cd`hwm
    ensures cd.hwm == old(cd.hwm) + NewEntries(old(cd.hwm), base, delta)
  {
    var hc := base;
    while hc < newBase
      invariant base <= hc <= newBase && |cd.hwm| == newBase + hc - base
      invariant cd.hwm[..newBase] == old(cd.hwm)
      invariant forall i :: newBase <= i < |cd.hwm| ==> cd.hwm[i] == old(cd.hwm)[base + i - newBase] + delta
    {
      assert cd.hwm[hc] == cd.hwm[..newBase][hc];
      cd.hwm := cd.hwm + [cd.hwm[hc] + delta];
      hc := hc + 1;
    }
  }
}
