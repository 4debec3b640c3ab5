/** UTF-16 as in sections 2.1 and 2.2 of RFC 2781: the encoding of one character, the
  * validity check, and reading characters back. Shifts and masks are written as
  * division and remainder. The main results are that the check accepts exactly the
  * encodings of character sequences, and that reading such a string gives the
  * sequence back.
  */
module Utf16 {
  type unit = x: int | 0 <= x < 0x10000

  const MAX_CHAR := 0x10ffff

  const PCRE_UTF16_ERR0 := 0
  const PCRE_UTF16_ERR1 := 1
  const PCRE_UTF16_ERR2 := 2
  const PCRE_UTF16_ERR3 := 3

  /** Characters are the code points except the surrogates. */
  predicate IsScalar(c: nat) {
    c <= MAX_CHAR && !(0xd800 <= c <= 0xdfff)
  }

  /** The top five bits, the mask 0xf800, are those of a surrogate. */
  predicate IsSurrogate(u: unit) {
    u / 0x800 == 0xd800 / 0x800
  }

  /** The top six bits, the mask 0xfc00, are those of a high surrogate. */
  predicate IsHigh(u: unit) {
    u / 0x400 == 0xd800 / 0x400
  }

  predicate IsLow(u: unit) {
    u / 0x400 == 0xdc00 / 0x400
  }

  /** The character that a pair of surrogates stands for. */
  function PairValue(h: unit, l: unit): nat {
    (h as int % 0x400) * 0x400 + l as int % 0x400 + 0x10000
  }

  /** The encoding of one character: itself, or a pair of surrogates. */
  function Encode(c: nat): (r: seq<unit>)
    requires c <= MAX_CHAR
    ensures 1 <= |r| <= 2
  {
    if c <= 0xffff then [c] else [0xd800 + (c - 0x10000) / 0x400, 0xdc00 + (c - 0x10000) % 0x400]
  }

  ghost predicate AllScalar(cs: seq<nat>) {
    forall i :: 0 <= i < |cs| ==> IsScalar(cs[i])
  }

  function EncodeAll(cs: seq<nat>): (r: seq<unit>)
    requires forall i :: 0 <= i < |cs| ==> cs[i] <= MAX_CHAR
  {
    if cs == [] then [] else Encode(cs[0]) + EncodeAll(cs[1..])
  }

  /** Store the encoding of a character in a buffer; returns how many units it has. */
  method Ord2Utf(cvalue: nat, buffer: array<unit>, at: nat) returns (n: nat)
    requires cvalue <= MAX_CHAR && at + 2 <= buffer.Length
    modifies buffer
    ensures n == |Encode(cvalue)| && buffer[at..at + n] == Encode(cvalue)
    ensures cvalue <= 0xffff ==> n == 1 && buffer[at] == cvalue
    ensures cvalue > 0xffff ==>
              && n == 2 && 0xd800 <= buffer[at] <= 0xdbff && 0xdc00 <= buffer[at + 1] <= 0xdfff
              && cvalue == 0x10000 + (buffer[at] as int - 0xd800) * 1024 + (buffer[at + 1] as int - 0xdc00)
    ensures forall i: nat :: i < buffer.Length && !(at <= i < at + n) ==> buffer[i] == old(buffer[i])
  {
    var c := cvalue;
    if c <= 0xffff {
      buffer[at] := c;
      return 1;
    }
    c := c - 0x10000;
    buffer[at] := 0xd800 + c / 0x400;
    buffer[at + 1] := 0xdc00 + c % 0x400;
    return 2;
  }

  /** Read the character at i without a check that the string is valid: a high
    * surrogate is taken together with the unit behind it. */
  method GetCharInc(s: seq<unit>, i: nat) returns (c: nat, next: nat)
    requires i < |s| && (IsHigh(s[i]) ==> i + 1 < |s|)
    ensures next == if IsHigh(s[i]) then i + 2 else i + 1
    ensures c == if IsHigh(s[i]) then PairValue(s[i], s[i + 1]) else s[i]
    ensures 0xd800 <= s[i] <= 0xdbff && i + 1 < |s| && 0xdc00 <= s[i + 1] <= 0xdfff ==>
              c == 0x10000 + (s[i] as int - 0xd800) * 1024 + (s[i + 1] as int - 0xdc00)
  {
    c, next := s[i], i + 1;
    if IsHigh(s[i]) {
      c := (c % 0x400) * 0x400 + s[next] as int % 0x400 + 0x10000;
      next := next + 1;
    }
  }

  // ---------- one character ----------

  /** What a character looks like at the start of a string. */
  lemma CharUnits(c: nat)
    requires IsScalar(c)
    ensures var e := Encode(c);
            if IsHigh(e[0]) then |e| == 2 && IsLow(e[1]) && c == PairValue(e[0], e[1])
            else |e| == 1 && !IsSurrogate(e[0]) && c == e[0]
  {
  }

  /** What a pair of surrogates, or any other unit, stands for. */
  lemma UnitsChar(h: unit, l: unit)
    ensures !IsSurrogate(h) ==> IsScalar(h) && Encode(h) == [h] && !IsHigh(h)
    ensures IsSurrogate(h) <==> IsHigh(h) || IsLow(h)
    ensures IsHigh(h) && IsLow(l) ==>
              IsScalar(PairValue(h, l)) && Encode(PairValue(h, l)) == [h, l]
  {
  }

  lemma EncodeHead(cs: seq<nat>)
    requires cs != [] && forall i :: 0 <= i < |cs| ==> cs[i] <= MAX_CHAR
    ensures EncodeAll(cs) == Encode(cs[0]) + EncodeAll(cs[1..])
  {
  }

  lemma {:induction false} EncodeSnoc(cs: seq<nat>, c: nat)
    requires c <= MAX_CHAR && forall i :: 0 <= i < |cs| ==> cs[i] <= MAX_CHAR
    ensures EncodeAll(cs + [c]) == EncodeAll(cs) + Encode(c)
  {
    hide EncodeAll, Encode;
    var all := cs + [c];
    EncodeHead(all);
    if cs == [] {
      assert all[1..] == [];
      EncodeNone();
    } else {
      assert all[1..] == cs[1..] + [c];
      EncodeSnoc(cs[1..], c);
      EncodeHead(cs);
      var x, y, z := Encode(cs[0]), EncodeAll(cs[1..]), Encode(c);
      assert x + (y + z) == (x + y) + z;
    }
  }

  lemma EncodeNone()
    ensures EncodeAll([]) == []
  {
  }

  // ---------- the validity check ----------

  /** The string is the encoding of a sequence of characters. */
  ghost predicate IsUtf16(s: seq<unit>) {
    exists cs: seq<nat> :: AllScalar(cs) && s == EncodeAll(cs)
  }

  /** Units that are not the start of any character. */
  predicate Headless(tail: seq<unit>) {
    tail != [] && (IsLow(tail[0]) || (IsHigh(tail[0]) && (|tail| == 1 || !IsLow(tail[1]))))
  }

  lemma HeadlessAlone(tail: seq<unit>, ds: seq<nat>)
    requires Headless(tail) && AllScalar(ds)
    ensures tail != EncodeAll(ds)
  {
    hide Encode;
    if ds != [] {
      CharUnits(ds[0]);
      var all := EncodeAll(ds);
      assert all[0] == Encode(ds[0])[0];
      assert |Encode(ds[0])| == 2 ==> all[1] == Encode(ds[0])[1];
    }
  }

  /** A string that starts with an encoding and goes on with units that start no
    * character is no encoding. */
  lemma {:induction false} Broken(cs: seq<nat>, tail: seq<unit>, ds: seq<nat>)
    requires AllScalar(cs) && AllScalar(ds) && Headless(tail)
    ensures EncodeAll(cs) + tail != EncodeAll(ds)
    decreases |cs|
  {
    hide Encode;
    if cs == [] {
      assert EncodeAll(cs) + tail == tail;
      HeadlessAlone(tail, ds);
    } else if ds != [] && EncodeAll(cs) + tail == EncodeAll(ds) {
      assert EncodeAll(cs) + tail == Encode(cs[0]) + (EncodeAll(cs[1..]) + tail);
      FirstSame(cs[0], EncodeAll(cs[1..]) + tail, ds[0], EncodeAll(ds[1..]));
      Broken(cs[1..], tail, ds[1..]);
    }
  }

  /** The first character of an encoding is determined by the units. */
  lemma FirstSame(c: nat, s: seq<unit>, d: nat, t: seq<unit>)
    requires IsScalar(c) && IsScalar(d) && Encode(c) + s == Encode(d) + t
    ensures c == d && s == t
  {
    CharUnits(c);
    CharUnits(d);
    var u := Encode(c) + s;
    assert u[0] == Encode(c)[0] == Encode(d)[0];
    if |Encode(c)| == 2 {
      assert u[1] == Encode(c)[1] == Encode(d)[1];
    }
    assert u[|Encode(c)|..] == s && u[|Encode(d)|..] == t;
  }

  /** The first p units are the characters read so far. */
  ghost predicate Read(s: seq<unit>, p: nat, cs: seq<nat>) {
    p <= |s| && AllScalar(cs) && s[..p] == EncodeAll(cs)
  }

  lemma ReadOne(s: seq<unit>, p: nat, cs: seq<nat>)
    requires Read(s, p, cs) && p < |s| && !IsSurrogate(s[p])
    ensures Read(s, p + 1, cs + [s[p]])
  {
    UnitsChar(s[p], 0);
    EncodeSnoc(cs, s[p]);
    hide EncodeAll, Encode;
    assert s[..p + 1] == s[..p] + [s[p]];
  }

  lemma ReadPair(s: seq<unit>, p: nat, cs: seq<nat>)
    requires Read(s, p, cs) && p + 1 < |s| && IsHigh(s[p]) && IsLow(s[p + 1])
    ensures Read(s, p + 2, cs + [PairValue(s[p], s[p + 1])])
  {
    UnitsChar(s[p], s[p + 1]);
    EncodeSnoc(cs, PairValue(s[p], s[p + 1]));
    hide EncodeAll, Encode, PairValue;
    assert s[..p + 2] == s[..p] + [s[p], s[p + 1]];
  }

  /** What is wrong, and where: the units before k are valid, and at k is a high
    * surrogate at the end, one that is not followed by a low one, or a low one. */
  ghost predicate Fault(s: seq<unit>, err: nat, erroroffset: nat, k: nat) {
    && k <= erroroffset < |s| && IsUtf16(s[..k])
    && if err == PCRE_UTF16_ERR1 then erroroffset == k == |s| - 1 && IsHigh(s[k])
       else if err == PCRE_UTF16_ERR2 then erroroffset == k + 1 && IsHigh(s[k]) && !IsLow(s[k + 1])
       else err == PCRE_UTF16_ERR3 && erroroffset == k && IsLow(s[k])
  }

  lemma NotValid(s: seq<unit>, p: nat, cs: seq<nat>)
    requires Read(s, p, cs) && Headless(s[p..])
    ensures !IsUtf16(s) && IsUtf16(s[..p])
  {
    hide EncodeAll;
    forall ds: seq<nat> | AllScalar(ds) ensures s != EncodeAll(ds) {
      assert s == EncodeAll(cs) + s[p..];
      Broken(cs, s[p..], ds);
    }
  }

  /** The units of a string given by its length; a negative length says that the
    * string ends before the first zero unit. */
  method UnitCount(units: seq<unit>, length0: int) returns (length: nat)
    requires if length0 < 0 then 0 in units else length0 <= |units|
    ensures length <= |units|
    ensures if length0 < 0 then 0 !in units[..length] && length < |units| && units[length] == 0 else length == length0
  {
    if length0 >= 0 {
      return length0;
    }
    length := 0;
    while units[length] != 0
      invariant length < |units| && 0 !in units[..length] && 0 in units[length..]
      decreases |units| - length
    {
      assert units[length..] == [units[length]] + units[length + 1..];
      assert units[..length + 1] == units[..length] + [units[length]];
      length := length + 1;
    }
  }

  /** Is the string valid? On an error, the offset is that of the unit that should
    * have been something else. */
  method ValidUtf(units: seq<unit>, length0: int) returns (err: nat, erroroffset: nat, length: nat)
    requires if length0 < 0 then 0 in units else length0 <= |units|
    ensures length <= |units|
    ensures if length0 < 0 then 0 !in units[..length] && length < |units| && units[length] == 0 else length == length0
    ensures err == PCRE_UTF16_ERR0 <==> IsUtf16(units[..length])
    ensures err != PCRE_UTF16_ERR0 ==> exists k: nat :: Fault(units[..length], err, erroroffset, k)
  {
    hide EncodeAll, IsUtf16, PairValue;
    length := UnitCount(units, length0);
    ghost var s := units[..length];
    erroroffset := 0;
    var p := 0;
    ghost var cs: seq<nat> := [];
    NothingRead(s);
    while p < length
      invariant 0 <= p <= length && Read(s, p, cs)
    {
      var c := units[p];
      if !IsSurrogate(c) {
        ReadOne(s, p, cs);
        cs := cs + [c];
      } else if c as int % 0x800 / 0x400 == 0 {
        if p + 1 == length {
          NotValid(s, p, cs);
          err, erroroffset := PCRE_UTF16_ERR1, p;
          assert Fault(s, err, erroroffset, p);
          return;
        }
        if !IsLow(units[p + 1]) {
          NotValid(s, p, cs);
          err, erroroffset := PCRE_UTF16_ERR2, p + 1;
          assert Fault(s, err, erroroffset, p);
          return;
        }
        ReadPair(s, p, cs);
        cs := cs + [PairValue(c, units[p + 1])];
        p := p + 1;
      } else {
        NotValid(s, p, cs);
        err, erroroffset := PCRE_UTF16_ERR3, p;
        assert Fault(s, err, erroroffset, p);
        return;
      }
      p := p + 1;
    }
    AllRead(s, cs);
    err := PCRE_UTF16_ERR0;
  }

  lemma NothingRead(s: seq<unit>)
    ensures Read(s, 0, [])
  {
  }

  lemma AllRead(s: seq<unit>, cs: seq<nat>)
    requires Read(s, |s|, cs)
    ensures IsUtf16(s)
  {
    assert s[..|s|] == s;
  }

  // ---------- reading it back ----------

  /** Read all characters of a valid string. */
  method ReadAll(s: seq<unit>) returns (cs: seq<nat>)
    requires IsUtf16(s)
    ensures AllScalar(cs) && EncodeAll(cs) == s
    ensures forall ds: seq<nat> :: AllScalar(ds) && EncodeAll(ds) == s ==> ds == cs
  {
    hide Encode, EncodeAll, IsHigh, PairValue;
    ghost var all: seq<nat> :| AllScalar(all) && s == EncodeAll(all);
    cs := [];
    var i := 0;
    ghost var rest := all;
    while i < |s|
      invariant 0 <= i <= |s| && AllScalar(rest) && cs + rest == all && s[i..] == EncodeAll(rest)
    {
      NextChar(s, i, rest);
      var c;
      c, i := GetCharInc(s, i);
      assert cs + rest == (cs + [c]) + rest[1..];
      cs, rest := cs + [c], rest[1..];
    }
    EmptyEncoding(rest);
    assert cs == all;
    forall ds: seq<nat> | AllScalar(ds) && EncodeAll(ds) == s ensures ds == cs {
      EncodingIsUnique(ds, cs);
    }
  }

  /** At the start of a character, reading it gives that character. */
  lemma NextChar(s: seq<unit>, i: nat, rest: seq<nat>)
    requires i < |s| && AllScalar(rest) && s[i..] == EncodeAll(rest)
    ensures rest != [] && (IsHigh(s[i]) ==> i + 1 < |s|)
    ensures rest[0] == if IsHigh(s[i]) then PairValue(s[i], s[i + 1]) else s[i]
    ensures s[if IsHigh(s[i]) then i + 2 else i + 1..] == EncodeAll(rest[1..])
  {
    if rest != [] {
      CharUnits(rest[0]);
      EncodeHead(rest);
    }
    hide Encode, IsHigh, PairValue;
    var u, e := s[i..], Encode(rest[0]);
    assert u[0] == e[0] == s[i];
    if |e| == 2 {
      assert u[1] == e[1] == s[i + 1];
      assert u[2..] == EncodeAll(rest[1..]) == s[i + 2..];
    } else {
      assert u[1..] == EncodeAll(rest[1..]) == s[i + 1..];
    }
  }

  lemma EmptyEncoding(cs: seq<nat>)
    requires AllScalar(cs) && EncodeAll(cs) == []
    ensures cs == []
  {
  }

  /** A sequence of characters has only one encoding, and is what it encodes. */
  lemma {:induction false} EncodingIsUnique(cs: seq<nat>, ds: seq<nat>)
    requires AllScalar(cs) && AllScalar(ds) && EncodeAll(cs) == EncodeAll(ds)
    ensures cs == ds
    decreases |cs|
  {
    if cs == [] {
      EmptyEncoding(ds);
    } else if ds == [] {
      EmptyEncoding(cs);
    } else {
      FirstSame(cs[0], EncodeAll(cs[1..]), ds[0], EncodeAll(ds[1..]));
      EncodingIsUnique(cs[1..], ds[1..]);
    }
  }
}
