/** Character classes: adding a range of characters, with the other cases of the
  * characters if case does not matter. The main result is that exactly the range and
  * the case variants of its characters are added, although the range is widened
  * while it is scanned.
  */
module CharClass {
  import opened Opcodes

  const MAX_CHAR := 0x10ffff

  /** The Unicode case data: the other case of a character, the number of its case
    * set if it has more than one other case, and the characters of each set. */
  datatype Ucd = Ucd(otherCase: nat -> nat, caseSet: nat -> nat, caselessSets: nat -> seq<nat>)

  /** Other cases come in pairs, and case sets are closed. */
  ghost predicate UcdOk(u: Ucd) {
    && (forall c: nat :: c <= MAX_CHAR ==> u.otherCase(c) <= MAX_CHAR)
    && (forall c: nat ::
          c <= MAX_CHAR && u.caseSet(c) == 0 ==> u.caseSet(u.otherCase(c)) == 0 && u.otherCase(u.otherCase(c)) == c)
    && (forall c: nat :: c <= MAX_CHAR && u.caseSet(c) != 0 ==> c in u.caselessSets(u.caseSet(c)))
    && (forall k: nat :: k != 0 ==> SetOk(u, k))
  }

  ghost predicate SetOk(u: Ucd, k: nat) {
    forall x :: x in u.caselessSets(k) ==> x <= MAX_CHAR && u.caseSet(x) == k
  }

  /** y is x or one of its other cases. */
  ghost predicate SameChar(u: Ucd, x: nat, y: nat) {
    if u.caseSet(x) != 0 then y in u.caselessSets(u.caseSet(x)) else y == x || y == u.otherCase(x)
  }

  /** y is a case variant of a character from start to end. */
  ghost predicate Variant(u: Ucd, start: nat, end: nat, y: nat) {
    exists x: nat :: start <= x <= end && x <= MAX_CHAR && SameChar(u, x, y)
  }

  lemma SameCharTransitive(u: Ucd, x: nat, y: nat, z: nat)
    requires UcdOk(u) && x <= MAX_CHAR && SameChar(u, x, y) && SameChar(u, y, z)
    ensures y <= MAX_CHAR && SameChar(u, x, z)
  {
    if u.caseSet(x) != 0 {
      assert SetOk(u, u.caseSet(x));
    }
  }

  lemma VariantTransitive(u: Ucd, start: nat, end: nat, y: nat, z: nat)
    requires UcdOk(u) && Variant(u, start, end, y) && SameChar(u, y, z)
    ensures Variant(u, start, end, z)
  {
    var x: nat :| start <= x <= end && x <= MAX_CHAR && SameChar(u, x, y);
    SameCharTransitive(u, x, y, z);
  }

  // ---------- runs of other cases ----------

  /** The character has no other case. */
  predicate Plain(u: Ucd, x: nat) {
    u.caseSet(x) == 0 && u.otherCase(x) == x
  }

  /** The next characters from c0 on that have other cases: -1 if there are none up to
    * d; 0 for a run of characters, from b to before c, whose other cases are a run
    * from oc to od; else the set of the single character oc. */
  method GetOthercaseRange(u: Ucd, c0: nat, d: nat) returns (rc: int, c: nat, oc: nat, od: nat, ghost b: nat)
    ensures rc >= -1 && c0 <= b
    ensures rc == -1 ==> forall x: nat :: c0 <= x <= d ==> Plain(u, x)
    ensures rc >= 0 ==> b < c <= d + 1 && forall x: nat :: c0 <= x < b ==> Plain(u, x)
    ensures rc > 0 ==> b == oc == c - 1 && u.caseSet(oc) == rc
    ensures rc == 0 ==>
              && od == oc + (c - 1 - b)
              && forall x: nat :: b <= x < c ==> u.caseSet(x) == 0 && u.otherCase(x) == oc + (x - b)
  {
    c, oc, od, b := c0, 0, 0, c0;
    while c <= d
      invariant c0 <= c && b == c && (c <= d + 1 || c == c0)
      invariant forall x: nat :: c0 <= x < c ==> Plain(u, x)
      decreases d + 1 - c
    {
      if u.caseSet(c) != 0 {
        oc, c := c, c + 1;
        return u.caseSet(oc), c, oc, od, b;
      }
      if u.otherCase(c) != c {
        break;
      }
      c, b := c + 1, c + 1;
    }
    if c > d {
      return -1, c, oc, od, b;
    }
    oc := u.otherCase(c);
    var next := oc + 1;
    c := c + 1;
    while c <= d
      invariant b < c <= d + 1 && next == oc + (c - b)
      invariant forall x: nat :: b <= x < c ==> u.caseSet(x) == 0 && u.otherCase(x) == oc + (x - b)
      decreases d + 1 - c
    {
      if u.caseSet(c) != 0 || u.otherCase(c) != next {
        break;
      }
      next := next + 1;
      c := c + 1;
    }
    od := next - 1;
    rc := 0;
  }

  // ---------- bits ----------

  function Value(b: bool): nat {
    if b then 1 else 0
  }

  /** The number with the bits from i on, the least significant one first. */
  function FromBits(f: nat -> bool, i: nat): (r: byte)
    requires i <= 8
    ensures r < [256, 128, 64, 32, 16, 8, 4, 2, 1][i]
    decreases 8 - i
  {
    if i == 8 then 0 else Value(f(i)) + 2 * FromBits(f, i + 1)
  }

  lemma ShiftBit(x: nat, rest: byte, j: nat)
    requires x < 2 && rest < 128 && j < 8
    ensures Bit(x + 2 * rest, j) == if j == 0 then x == 1 else Bit(rest, j - 1)
  {
    assert (x + 2 * rest) % 2 == x && (x + 2 * rest) / 2 == rest;
    assert (x + 2 * rest) / 4 == rest / 2 && (x + 2 * rest) / 8 == rest / 4 && (x + 2 * rest) / 16 == rest / 8;
    assert (x + 2 * rest) / 32 == rest / 16 && (x + 2 * rest) / 64 == rest / 32 && (x + 2 * rest) / 128 == rest / 64;
  }

  lemma FromBitsStep(f: nat -> bool, i: nat)
    requires i < 8
    ensures FromBits(f, i + 1) < 128 && FromBits(f, i) == Value(f(i)) + 2 * FromBits(f, i + 1)
  {
  }

  lemma {:induction false} FromBitsAt(f: nat -> bool, i: nat, j: nat)
    requires i + j < 8
    ensures Bit(FromBits(f, i), j) == f(i + j)
    decreases j
  {
    hide Bit, FromBits;
    FromBitsStep(f, i);
    ShiftBit(Value(f(i)), FromBits(f, i + 1), j);
    if j > 0 {
      FromBitsAt(f, i + 1, j - 1);
    }
  }

  /** The byte with bit k set as well. */
  function OrBit(b: byte, k: nat): (r: byte)
    requires k < 8
  {
    FromBits((j: nat) => j == k || (j < 8 && Bit(b, j)), 0)
  }

  /** The bitmap with the bit of c set as well. */
  function WithBit(bits: seq<byte>, c: byte): (r: seq<byte>)
    requires |bits| == BITMAP_SIZE
    ensures |r| == BITMAP_SIZE
  {
    bits[c / 8 := OrBit(bits[c / 8], c % 8)]
  }

  lemma WithBitHas(bits: seq<byte>, c: byte, d: byte)
    requires |bits| == BITMAP_SIZE
    ensures InBitmap(WithBit(bits, c), d) <==> d == c || InBitmap(bits, d)
  {
    hide Bit, FromBits;
    if d / 8 == c / 8 {
      FromBitsAt((j: nat) => j == c % 8 || (j < 8 && Bit(bits[c / 8], j)), 0, d % 8);
    }
  }

  // ---------- the class under construction ----------

  /** Is the character in the class: in the bitmap, or in one of the ranges behind it? */
  ghost predicate Member(bits: seq<byte>, extra: seq<(nat, nat)>, c: nat)
    requires |bits| == BITMAP_SIZE
  {
    if c < 256 then InBitmap(bits, c) else exists i :: 0 <= i < |extra| && extra[i].0 <= c <= extra[i].1
  }

  /** What adding the range adds: without UTF only characters below 256, and their
    * other case from the table. */
  ghost predicate Adds(u: Ucd, fcc: seq<byte>, caseless: bool, utf: bool, start: nat, end: nat, c: nat)
    requires |fcc| == 256
  {
    if utf then (start <= c <= end || (caseless && Variant(u, start, end, c)))
    else c < 256 && (start <= c <= end || (caseless && exists x: byte :: start <= x <= end && fcc[x] == c))
  }

  ghost predicate AddsAny(u: Ucd, fcc: seq<byte>, caseless: bool, utf: bool, p: seq<nat>, c: nat)
    requires |fcc| == 256
  {
    exists x: nat :: x in p && Adds(u, fcc, caseless, utf, x, x, c)
  }

  /** From i on the next characters of the list are consecutive. */
  ghost predicate IsRun(p: seq<nat>, i: nat, n: nat) {
    i + n < |p| && forall j: nat :: i <= j <= i + n ==> p[j] == p[i] + (j - i)
  }

  /** Adding a run of the list is adding its characters. */
  lemma RunAdds(u: Ucd, fcc: seq<byte>, caseless: bool, utf: bool, p: seq<nat>, i: nat, n: nat)
    requires |fcc| == 256 && IsRun(p, i, n)
    ensures forall c: nat :: Adds(u, fcc, caseless, utf, p[i], p[i + n], c) ==> AddsAny(u, fcc, caseless, utf, p, c)
    ensures forall j: nat, c: nat ::
              i <= j <= i + n && Adds(u, fcc, caseless, utf, p[j], p[j], c) ==>
                Adds(u, fcc, caseless, utf, p[i], p[i + n], c)
  {
    hide SameChar;
    forall c: nat | Adds(u, fcc, caseless, utf, p[i], p[i + n], c) ensures AddsAny(u, fcc, caseless, utf, p, c) {
      var x := RunChar(u, fcc, caseless, utf, p[i], p[i + n], c);
      assert x == p[i + (x - p[i])];
    }
    forall j: nat, c: nat | i <= j <= i + n && Adds(u, fcc, caseless, utf, p[j], p[j], c)
      ensures Adds(u, fcc, caseless, utf, p[i], p[i + n], c)
    {
      assert p[i] <= p[j] <= p[i + n];
      AddsMore(u, fcc, caseless, utf, p[j], p[i], p[i + n], c);
    }
  }

  /** What adding a range adds, adding one of its characters adds. */
  lemma RunChar(u: Ucd, fcc: seq<byte>, caseless: bool, utf: bool, start: nat, end: nat, c: nat) returns (x: nat)
    requires |fcc| == 256 && Adds(u, fcc, caseless, utf, start, end, c)
    ensures start <= x <= end && Adds(u, fcc, caseless, utf, x, x, c)
  {
    hide SameChar;
    if start <= c <= end {
      x := c;
    } else if utf {
      x := VariantOf(u, start, end, c);
    } else {
      var y: byte :| start <= y <= end && fcc[y] == c;
      x := y;
    }
  }

  lemma AddsMore(u: Ucd, fcc: seq<byte>, caseless: bool, utf: bool, x: nat, start: nat, end: nat, c: nat)
    requires |fcc| == 256 && start <= x <= end && Adds(u, fcc, caseless, utf, x, x, c)
    ensures Adds(u, fcc, caseless, utf, start, end, c)
  {
    hide SameChar;
    if utf && caseless && Variant(u, x, x, c) {
      var y := VariantOf(u, x, x, c);
    }
  }

  lemma VariantOf(u: Ucd, start: nat, end: nat, y: nat) returns (x: nat)
    requires Variant(u, start, end, y)
    ensures start <= x <= end && x <= MAX_CHAR && SameChar(u, x, y)
    ensures Variant(u, x, x, y)
  {
    hide SameChar;
    x :| start <= x <= end && x <= MAX_CHAR && SameChar(u, x, y);
  }

  // ---------- widening the range ----------

  /** The range has grown, but only by case variants. */
  ghost predicate Widened(u: Ucd, start0: nat, end0: nat, start: nat, end: nat) {
    start <= start0 <= end0 <= end <= MAX_CHAR && forall y: nat :: start <= y <= end ==> Variant(u, start0, end0, y)
  }

  lemma StartsWide(u: Ucd, start: nat, end: nat)
    requires UcdOk(u) && start <= end <= MAX_CHAR
    ensures Widened(u, start, end, start, end)
  {
    forall y: nat | start <= y <= end ensures Variant(u, start, end, y) {
      assert SameChar(u, y, y);
    }
  }

  lemma PlainStay(u: Ucd, lo: nat, hi: nat)
    requires forall x: nat :: lo <= x < hi ==> Plain(u, x)
    ensures forall x: nat, y: nat :: lo <= x < hi && SameChar(u, x, y) ==> y == x
  {
    forall x: nat, y: nat | lo <= x < hi && SameChar(u, x, y) ensures y == x {
      assert Plain(u, x);
    }
  }

  lemma SetMember(u: Ucd, oc: nat, y: nat)
    requires UcdOk(u) && oc <= MAX_CHAR && u.caseSet(oc) != 0 && y in u.caselessSets(u.caseSet(oc))
    ensures y <= MAX_CHAR && SameChar(u, oc, y)
  {
    var k: nat := u.caseSet(oc);
    assert SetOk(u, k);
  }

  /** A character with a case set: its variants are the set. */
  lemma SetVariants(u: Ucd, start0: nat, end0: nat, start: nat, end: nat, oc: nat)
    requires UcdOk(u) && Widened(u, start0, end0, start, end) && start <= oc <= end && u.caseSet(oc) != 0
    ensures forall y: nat :: SameChar(u, oc, y) ==> y in u.caselessSets(u.caseSet(oc))
    ensures forall y: nat :: y in u.caselessSets(u.caseSet(oc)) ==> y <= MAX_CHAR && Variant(u, start0, end0, y)
  {
    hide UcdOk, Variant;
    forall y: nat | y in u.caselessSets(u.caseSet(oc)) ensures y <= MAX_CHAR && Variant(u, start0, end0, y) {
      SetMember(u, oc, y);
      VariantTransitive(u, start0, end0, oc, y);
    }
  }

  /** A run of characters with single other cases: the other cases are variants, and
    * there are not enough of them to reach beyond both ends of the range. */
  lemma RunVariants(u: Ucd, start0: nat, end0: nat, start: nat, end: nat, b: nat, c: nat, oc: nat, od: nat)
    requires UcdOk(u) && Widened(u, start0, end0, start, end) && start <= b < c <= end + 1 && od == oc + (c - 1 - b)
    requires forall x: nat :: b <= x < c ==> u.caseSet(x) == 0 && u.otherCase(x) == oc + (x - b)
    ensures oc <= od <= MAX_CHAR && od - oc <= end - start
    ensures forall y: nat :: oc <= y <= od ==> Variant(u, start0, end0, y)
    ensures forall x: nat, y: nat :: b <= x < c && SameChar(u, x, y) ==> y == x || oc <= y <= od
  {
    assert u.otherCase(c - 1) == od;
    forall y: nat | oc <= y <= od ensures Variant(u, start0, end0, y) {
      var x: nat := b + (y - oc);
      assert u.otherCase(x) == y && SameChar(u, x, y);
      VariantTransitive(u, start0, end0, x, y);
    }
  }

  class Class {
    const classbits: array<byte>
    var extra: seq<(nat, nat)>
    const u: Ucd
    const fcc: seq<byte>
    const utf: bool

    ghost predicate Valid() {
      classbits.Length == BITMAP_SIZE && |fcc| == 256 && UcdOk(u)
    }

    ghost predicate Has(c: nat)
      requires Valid()
      reads this, classbits
    {
      Member(classbits[..], extra, c)
    }

    /** An empty class. */
    constructor (u: Ucd, fcc: seq<byte>, utf: bool)
      requires |fcc| == 256 && UcdOk(u)
      ensures Valid() && fresh(classbits) && this.u == u && this.fcc == fcc && this.utf == utf
      ensures forall c: nat :: !Has(c)
    {
      classbits := new byte[BITMAP_SIZE](_ => 0);
      extra := [];
      this.u, this.fcc, this.utf := u, fcc, utf;
    }

    method SetBit(c: byte)
      requires Valid()
      modifies classbits
      ensures forall d: nat :: Has(d) <==> d == c || old(Has(d))
    {
      hide InBitmap;
      ghost var before := classbits[..];
      classbits[c / 8] := OrBit(classbits[c / 8], c % 8);
      assert classbits[..] == WithBit(before, c);
      forall d: byte ensures InBitmap(classbits[..], d) <==> d == c || InBitmap(before, d) {
        WithBitHas(before, c, d);
      }
    }

    /** Add the range as it is; returns how many characters below 256 it has. */
    method AddRange(start: nat, end: nat) returns (n8: nat)
      requires Valid() && start <= end <= MAX_CHAR
      modifies this, classbits
      ensures forall c: nat :: Has(c) <==> old(Has(c)) || Adds(u, fcc, false, utf, start, end, c)
      ensures n8 == 0 <==> start > 255
    {
      hide InBitmap;
      n8 := 0;
      var last := if utf || end <= 0xff then end else 0xff;
      var c := start;
      while c <= 0xff && c <= end
        invariant start <= c && (c <= 256 || c == start) && c <= end + 1
        invariant n8 == c - start && extra == old(extra)
        invariant forall d: nat :: Has(d) <==> old(Has(d)) || start <= d < c
      {
        SetBit(c);
        n8 := n8 + 1;
        c := c + 1;
      }
      label filled:
      var from := if start <= 0xff then 0x100 else start;
      if last >= from {
        extra := extra + [(from, last)];
        ghost var before := old@filled(extra);
        forall d: nat | d >= 256 ensures Has(d) <==> old@filled(Has(d)) || from <= d <= last {
          ExtraOne(before, from, last, d);
        }
      }
    }

    /** Add a range of characters to the class, and their case variants if case does
      * not matter. The result is zero only if no character below 256 was added. */
    method AddToClass(caseless: bool, start0: nat, end0: nat) returns (n8: nat)
      requires Valid() && start0 <= end0 <= MAX_CHAR
      modifies this, classbits
      ensures forall c: nat :: Has(c) <==> old(Has(c)) || Adds(u, fcc, caseless, utf, start0, end0, c)
      ensures n8 == 0 ==> forall c: nat :: c < 256 && Has(c) ==> old(Has(c))
      ensures n8 > 0 ==> exists c: nat :: c < 256 && Has(c)
      decreases caseless, 1
    {
      hide Member, UcdOk, Variant;
      n8 := 0;
      var start, end := start0, end0;
      if caseless {
        if utf {
          n8, start, end := AddOtherCases(start0, end0);
        } else {
          n8 := AddFlipped(start0, end0);
        }
      }
      var n := AddRange(start, end);
      assert n > 0 ==> Has(start);
      n8 := n8 + n;
    }

    /** With UTF: add the case variants of the range that do not simply widen it.
      * Returns the widened range. */
    method AddOtherCases(start0: nat, end0: nat) returns (n8: nat, start: nat, end: nat)
      requires Valid() && utf && start0 <= end0 <= MAX_CHAR
      modifies this, classbits
      ensures Widened(u, start0, end0, start, end)
      ensures forall c: nat :: Variant(u, start0, end0, c) ==> Has(c) || start <= c <= end
      ensures forall c: nat :: Has(c) ==> old(Has(c)) || Variant(u, start0, end0, c)
      ensures forall c: nat :: old(Has(c)) ==> Has(c)
      ensures n8 == 0 ==> forall c: nat :: c < 256 && Has(c) ==> old(Has(c))
      ensures n8 > 0 ==> exists c: nat :: c < 256 && Has(c)
      decreases true, 0
    {
      hide Member, UcdOk, Variant, SameChar;
      n8, start, end := 0, start0, end0;
      var c := start0;
      ghost var low: nat := 0;
      StartsWide(u, start0, end0);
      while true
        invariant Valid() && Widened(u, start0, end0, start, end) && start0 <= c <= end + 1
        invariant forall y: nat :: Has(y) ==> old(Has(y)) || Variant(u, start0, end0, y)
        invariant forall y: nat :: old(Has(y)) ==> Has(y)
        invariant forall x: nat, y: nat :: start0 <= x < c && SameChar(u, x, y) ==> Has(y) || start <= y <= end
        invariant n8 == 0 ==> forall y: nat :: y < 256 && Has(y) ==> old(Has(y))
        invariant n8 > 0 ==> low < 256 && Has(low)
        decreases MAX_CHAR + 1 - c
      {
        var rc, next, oc, od, b := GetOthercaseRange(u, c, end);
        if rc < 0 {
          PlainStay(u, c, end + 1);
          forall y: nat | Variant(u, start0, end0, y) ensures Has(y) || start <= y <= end {
            var x := VariantOf(u, start0, end0, y);
          }
          return;
        }
        PlainStay(u, c, b);
        if rc > 0 {
          SetVariants(u, start0, end0, start, end, oc);
          var n := AddListToClass(false, u.caselessSets(rc), oc);
          n8 := n8 + n;
          if n > 0 {
            low :| low < 256 && Has(low);
          }
          forall y: nat | y in u.caselessSets(rc) && y != oc ensures Has(y) {
            assert Adds(u, fcc, false, utf, y, y, y);
          }
        } else {
          RunVariants(u, start0, end0, start, end, b, next, oc, od);
          if oc >= start && od <= end {
          } else if oc < start && od >= start - 1 {
            start := oc;
          } else if od > end && oc <= end + 1 {
            end := od;
          } else {
            var n := AddToClass(false, oc, od);
            n8 := n8 + n;
            if n > 0 {
              low :| low < 256 && Has(low);
            }
          }
        }
        c := next;
      }
    }

    /** Add the characters of a list, run by run; a run that starts with the exception
      * is left out up to there. */
    method AddListToClass(caseless: bool, p: seq<nat>, except: nat) returns (n8: nat)
      requires Valid() && forall x :: x in p ==> x <= MAX_CHAR
      modifies this, classbits
      ensures forall c: nat :: old(Has(c)) ==> Has(c)
      ensures forall c: nat :: Has(c) ==> old(Has(c)) || AddsAny(u, fcc, caseless, utf, p, c)
      ensures forall x: nat, c: nat :: x in p && x != except && Adds(u, fcc, caseless, utf, x, x, c) ==> Has(c)
      ensures n8 == 0 ==> forall c: nat :: c < 256 && Has(c) ==> old(Has(c))
      ensures n8 > 0 ==> exists c: nat :: c < 256 && Has(c)
      decreases caseless, 2
    {
      hide Member, UcdOk, Adds;
      n8 := 0;
      var i := 0;
      while i < |p|
        invariant 0 <= i <= |p|
        invariant forall c: nat :: old(Has(c)) ==> Has(c)
        invariant forall c: nat :: Has(c) ==> old(Has(c)) || AddsAny(u, fcc, caseless, utf, p, c)
        invariant forall j: nat, c: nat ::
                  j < i && p[j] != except && Adds(u, fcc, caseless, utf, p[j], p[j], c) ==> Has(c)
        invariant n8 == 0 ==> forall c: nat :: c < 256 && Has(c) ==> old(Has(c))
        invariant n8 > 0 ==> exists c: nat :: c < 256 && Has(c)
      {
        var n := 0;
        if p[i] != except {
          while i + n + 1 < |p| && p[i + n + 1] == p[i] + n + 1
            invariant i + n < |p| && IsRun(p, i, n)
          {
            n := n + 1;
          }
          RunAdds(u, fcc, caseless, utf, p, i, n);
          assert p[i] in p && p[i + n] in p;
          var m := AddToClass(caseless, p[i], p[i + n]);
          n8 := n8 + m;
        }
        i := i + n + 1;
      }
    }

    /** Without UTF: add the flipped case of every character of the range below 256. */
    method AddFlipped(start: nat, end: nat) returns (n8: nat)
      requires Valid() && start <= end
      modifies classbits
      ensures forall c: nat ::
                Has(c) <==> old(Has(c)) || (c < 256 && exists x: byte :: start <= x <= end && fcc[x] == c)
      ensures n8 == 0 <==> start > 255
    {
      hide InBitmap;
      n8 := 0;
      var c := start;
      while c <= 0xff && c <= end
        invariant start <= c && (c <= 256 || c == start) && c <= end + 1
        invariant n8 == c - start
        invariant forall d: nat :: Has(d) <==> old(Has(d)) || exists x: byte :: start <= x < c && fcc[x] == d
      {
        SetBit(fcc[c]);
        n8 := n8 + 1;
        c := c + 1;
      }
    }
  }

  lemma ExtraOne(extra: seq<(nat, nat)>, lo: nat, hi: nat, d: nat)
    ensures (exists i :: 0 <= i < |extra + [(lo, hi)]| && (extra + [(lo, hi)])[i].0 <= d <= (extra + [(lo, hi)])[i].1)
       <==> (exists i :: 0 <= i < |extra| && extra[i].0 <= d <= extra[i].1) || lo <= d <= hi
  {
    var all := extra + [(lo, hi)];
    if i :| 0 <= i < |extra| && extra[i].0 <= d <= extra[i].1 {
      assert all[i] == extra[i];
    }
    assert all[|extra|] == (lo, hi);
  }
}
