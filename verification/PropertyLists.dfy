/** What auto-possessification knows about single-character items: the list of
  * properties of an item, and the test that two items have no character in common.
  */
module PropertyLists {
  import opened Opcodes
  import opened Tree
  import opened Meaning
  import opened Machine
  import opened Decoding

  const CHAR_LF: byte := 10
  const CHAR_VT: byte := 11
  const CHAR_FF: byte := 12
  const CHAR_CR: byte := 13
  const CHAR_NEL: byte := 0x85

  /** The character tables of the compilation: case flipping, the type bits, and the
    * bitmaps of digits, spaces and word characters. */
  datatype Tables = Tables(fcc: seq<byte>, ctypes: seq<bv8>, digits: seq<byte>, spaces: seq<byte>, words: seq<byte>)

  predicate Typed(t: Tables, mask: bv8, c: byte)
    requires |t.ctypes| == 256
  {
    t.ctypes[c] & mask != 0
  }

  /** The bitmaps agree with the type bits; digits are word characters, spaces are
    * not, the newlines are spaces, and character 255 is not a word character. */
  ghost predicate TablesOk(t: Tables) {
    && |t.fcc| == 256 && |t.ctypes| == 256
    && |t.digits| == BITMAP_SIZE && |t.spaces| == BITMAP_SIZE && |t.words| == BITMAP_SIZE
    && (forall c: byte :: InBitmap(t.digits, c) <==> Typed(t, CTYPE_DIGIT, c))
    && (forall c: byte :: InBitmap(t.spaces, c) <==> Typed(t, CTYPE_SPACE, c))
    && (forall c: byte :: InBitmap(t.words, c) <==> Typed(t, CTYPE_WORD, c))
    && (forall c: byte :: Typed(t, CTYPE_DIGIT, c) ==> Typed(t, CTYPE_WORD, c))
    && (forall c: byte :: Typed(t, CTYPE_SPACE, c) ==> !Typed(t, CTYPE_WORD, c))
    && Typed(t, CTYPE_SPACE, CHAR_LF) && Typed(t, CTYPE_SPACE, CHAR_CR)
    && !Typed(t, CTYPE_WORD, 255)
  }

  /** Matching with the tables of the compilation, and CR or LF as the newline. */
  ghost predicate Fits(env: Env, t: Tables) {
    env.Ok() && env.fcc == t.fcc && env.ctypes == t.ctypes && (env.nl == CHAR_LF || env.nl == CHAR_CR)
  }

  /** The base opcode of a repeat. */
  function GetRepeatBase(c: byte): (base: byte)
    requires IsRepeat(c)
    ensures base <= c < base + 13 && (base - OP_STAR) % 13 == 0 && base >= OP_STAR
  {
    if c >= OP_TYPESTAR then OP_TYPESTAR
    else if c >= OP_NOTSTARI then OP_NOTSTARI
    else if c >= OP_NOTSTAR then OP_NOTSTAR
    else if c >= OP_STARI then OP_STARI
    else OP_STAR
  }

  /** What is known about an item: its kind, whether it can match nothing, its
    * characters, and for a class how far before the end of the item its bitmap is. */
  datatype PropList = PropList(op: byte, empty: bool, chars: seq<byte>, dist: nat)

  /** The characters of a single character, with both cases if case does not matter. */
  function CharsOf(op: byte, d: byte, fcc: seq<byte>): seq<byte>
    requires |fcc| == 256
  {
    if (op == OP_CHARI || op == OP_NOTI) && fcc[d] != d then [d, fcc[d]] else [d]
  }

  /** The list describes the atom of an item that ends at end. */
  predicate Lists(fcc: seq<byte>, code: seq<byte>, end: nat, list: PropList, atom: Atom)
    requires |fcc| == 256
  {
    match atom
    case Chr(op, d) =>
      && IsSingleChar(op)
      && list.op == (if op == OP_CHAR || op == OP_CHARI then OP_CHAR else OP_NOT)
      && list.chars == CharsOf(op, d, fcc)
    case Type(op) => IsType(op) && list.op == op
    case Cls(op, bits) =>
      && IsClass(op) && list.op == op && |bits| == BITMAP_SIZE
      && BITMAP_SIZE <= list.dist <= end <= |code|
      && code[end - list.dist..end - list.dist + BITMAP_SIZE] == bits
  }

  /** Instructions whose property list can be loaded. */
  predicate Listed(i: Instr) {
    i.IOne? || i.IRep? || (i.IAnchor? && (i.op == OP_EOD || i.op == OP_DOLL))
  }

  function NextOf(i: Instr): nat
    requires Listed(i)
  {
    match i
    case IAnchor(_, next) => next
    case IOne(_, next) => next
    case IRep(_, _, _, _, next) => next
  }

  predicate ListsInstr(fcc: seq<byte>, code: seq<byte>, list: PropList, i: Instr)
    requires |fcc| == 256 && Listed(i)
  {
    && (list.empty <==> i.IRep? && i.min == 0)
    && match i
       case IAnchor(op, _) => list.op == op
       case IOne(atom, next) => Lists(fcc, code, next, list, atom)
       case IRep(atom, _, _, _, next) => Lists(fcc, code, next, list, atom)
  }

  /** The list of a class, from its bitmap and the repeat that may follow it. */
  method ClassList(code: seq<byte>, o: nat, fcc: seq<byte>) returns (end: nat, list: PropList)
    requires |fcc| == 256 && o < |code| && IsClass(code[o]) && Decode(code, o) != IBad
    ensures Listed(Decode(code, o)) && end == NextOf(Decode(code, o)) && ListsInstr(fcc, code, list, Decode(code, o))
  {
    var pos := o + 1;
    var e := pos + BITMAP_SIZE;
    list := PropList(code[o], false, [], 0);
    if IsClassRepeat(code[e]) {
      var k := code[e] - OP_CRSTAR;
      if HasRange(k) {
        list := list.(empty := Get(code, e + 1) == 0);
        e := e + 5;
      } else {
        list := list.(empty := k != K_PLUS && k != K_MINPLUS && k != K_CRPOSPLUS);
        e := e + 1;
      }
    }
    list := list.(dist := e - pos);
    end := e;
  }

  /** The list of a repeated character or type. */
  method RepeatList(code: seq<byte>, o: nat, fcc: seq<byte>) returns (end: nat, list: PropList)
    requires |fcc| == 256 && o < |code| && IsRepeat(code[o]) && Decode(code, o) != IBad
    ensures Listed(Decode(code, o)) && end == NextOf(Decode(code, o)) && ListsInstr(fcc, code, list, Decode(code, o))
  {
    var base := GetRepeatBase(code[o]);
    var k := code[o] - base;
    assert k == (code[o] - OP_STAR) % 13 && base - OP_STAR == 13 * ((code[o] - OP_STAR) / 13);
    var pos := if HasCount(k) then o + 3 else o + 1;
    list := PropList(0, k != K_PLUS && k != K_MINPLUS && k != K_EXACT && k != K_POSPLUS, [], 0);
    if base == OP_TYPESTAR {
      list := list.(op := code[pos]);
    } else {
      var c := OP_CHAR + (base - OP_STAR) / 13;
      list := list.(op := if c == OP_CHARI then OP_CHAR else if c == OP_NOTI then OP_NOT else c,
                    chars := CharsOf(c, code[pos], fcc));
    }
    end := pos + 1;
  }

  /** Load the property list of the item at o, and return where the item ends. */
  method GetChrPropertyList(code: seq<byte>, o: nat, fcc: seq<byte>) returns (end: Option<nat>, list: PropList)
    requires |fcc| == 256 && o < |code| && (Decode(code, o) != IBad || code[o] == OP_END)
    ensures end.Some? <==> Listed(Decode(code, o))
    ensures end.Some? ==> end.value == NextOf(Decode(code, o)) && ListsInstr(fcc, code, list, Decode(code, o))
  {
    hide ChainOk, EndOf, AltStarts, DecodeAtomRep, DecodeClass;
    var c := code[o];
    list := PropList(c, false, [], 0);
    if IsRepeat(c) {
      var e;
      e, list := RepeatList(code, o, fcc);
      return Some(e), list;
    } else if IsType(c) || c == OP_EOD || c == OP_DOLL {
      return Some(o + 1), list;
    } else if IsSingleChar(c) {
      var chr := code[o + 1];
      list := list.(op := if c == OP_CHARI then OP_CHAR else if c == OP_NOTI then OP_NOT else c,
                    chars := CharsOf(c, chr, fcc));
      return Some(o + 2), list;
    } else if IsClass(c) {
      var e;
      e, list := ClassList(code, o, fcc);
      return Some(e), list;
    }
    return None, list;
  }

  // ---------- common characters ----------

  /** Does the atom match the character, with these tables and this newline? */
  predicate TableHit(t: Tables, nl: byte, atom: Atom, c: byte)
    requires |t.ctypes| == 256 && |t.fcc| == 256 && AtomOk(atom)
  {
    match atom
    case Chr(op, d) =>
      if op == OP_CHAR then c == d
      else if op == OP_CHARI then c == d || c == t.fcc[d]
      else if op == OP_NOT then c != d
      else c != d && c != t.fcc[d]
    case Type(op) =>
      if op == OP_DIGIT then Typed(t, CTYPE_DIGIT, c)
      else if op == OP_NOT_DIGIT then !Typed(t, CTYPE_DIGIT, c)
      else if op == OP_WHITESPACE then Typed(t, CTYPE_SPACE, c)
      else if op == OP_NOT_WHITESPACE then !Typed(t, CTYPE_SPACE, c)
      else if op == OP_WORDCHAR then Typed(t, CTYPE_WORD, c)
      else if op == OP_NOT_WORDCHAR then !Typed(t, CTYPE_WORD, c)
      else op != OP_ANY || c != nl
    case Cls(_, bits) => InBitmap(bits, c)
  }

  lemma HitByTable(env: Env, t: Tables, atom: Atom, c: byte)
    requires Fits(env, t) && AtomOk(atom)
    ensures |t.ctypes| == 256 && |t.fcc| == 256
    ensures Hit(env, atom, c) <==> TableHit(t, env.nl, atom, c)
  {
  }

  /** No character is matched by both, or the anchor fails before each of them. */
  ghost predicate Excludes(env: Env, base: Atom, i: Instr)
    requires |env.ctypes| == 256 && |env.fcc| == 256 && AtomOk(base) && Listed(i)
  {
    match i
    case IAnchor(op, _) => op == OP_DOLL ==> !Hit(env, base, env.nl)
    case IOne(atom, _) => AtomOk(atom) && forall c: byte :: Hit(env, base, c) ==> !Hit(env, atom, c)
    case IRep(atom, _, _, _, _) => AtomOk(atom) && forall c: byte :: Hit(env, base, c) ==> !Hit(env, atom, c)
  }

  /** The atom of an instruction, if it has one. */
  function AtomOf(i: Instr): Option<Atom>
    requires Listed(i)
  {
    match i
    case IAnchor(_, _) => None
    case IOne(atom, _) => Some(atom)
    case IRep(atom, _, _, _, _) => Some(atom)
  }

  predicate InstrOk(i: Instr) {
    Listed(i) && (AtomOf(i).Some? ==> AtomOk(AtomOf(i).value))
  }

  /** Is the character matched by the item, or does the anchor hold in front of it? */
  predicate InstrHit(t: Tables, nl: byte, i: Instr, c: byte)
    requires |t.ctypes| == 256 && |t.fcc| == 256 && InstrOk(i)
  {
    if AtomOf(i).Some? then TableHit(t, nl, AtomOf(i).value, c) else i.op == OP_DOLL && c == nl
  }

  predicate Newline(nl: byte) {
    nl == CHAR_LF || nl == CHAR_CR
  }

  /** No character in common, with either newline. */
  ghost predicate Disjoint(t: Tables, base: Atom, i: Instr)
    requires |t.ctypes| == 256 && |t.fcc| == 256 && AtomOk(base) && InstrOk(i)
  {
    forall nl: byte, c: byte :: Newline(nl) && TableHit(t, nl, base, c) ==> !InstrHit(t, nl, i, c)
  }

  predicate IsLiteral(atom: Atom) {
    atom.Chr? && (atom.op == OP_CHAR || atom.op == OP_CHARI)
  }

  /** Classes, and the types that have a bitmap. */
  predicate HasSet(atom: Atom) {
    atom.Cls? || (atom.Type? && atom.op != OP_ANY && atom.op != OP_ALLANY)
  }

  /** When the comparison of a repeated item with what follows says that they have no
    * character in common: literal characters and classes are compared one character at
    * a time, two types by a table, and anything else is taken to overlap. Some control
    * characters are never followed by a dollar. */
  ghost predicate Exclusive(t: Tables, base: Atom, i: Instr)
    requires |t.ctypes| == 256 && |t.fcc| == 256 && AtomOk(base) && InstrOk(i)
  {
    var atom := AtomOf(i);
    if IsLiteral(base) || (atom.Some? && IsLiteral(atom.value)) then
      Disjoint(t, base, i) && (atom.None? && i.op == OP_DOLL ==> !BeforeDollar(t, base))
    else if base.Cls? || (atom.Some? && atom.value.Cls?) then
      HasSet(base) && atom.Some? && HasSet(atom.value) && Disjoint(t, base, i)
    else
      base.Type? && (atom.Some? ==> atom.value.Type?) && TypesApart(base.op, if atom.Some? then atom.value.op else i.op)
  }

  /** The character is one of those that a dollar is not put behind. */
  predicate BeforeDollar(t: Tables, base: Atom)
    requires |t.fcc| == 256 && base.Chr?
  {
    exists c :: c in CharsOf(base.op, base.c, t.fcc) && c in {CHAR_VT, CHAR_FF, CHAR_NEL}
  }

  function BitmapAt(code: seq<byte>, list: PropList, end: nat): (bits: seq<byte>)
    requires BITMAP_SIZE <= list.dist <= end <= |code|
    ensures |bits| == BITMAP_SIZE
  {
    code[end - list.dist..end - list.dist + BITMAP_SIZE]
  }

  /** What a list says about one character. */
  ghost predicate Covers(t: Tables, code: seq<byte>, list: PropList, end: nat, nl: byte, c: byte)
    requires TablesOk(t)
  {
    if list.op == OP_CHAR then c in list.chars
    else if list.op == OP_NOT then c !in list.chars
    else if IsClass(list.op) then BITMAP_SIZE <= list.dist <= end <= |code| && InBitmap(BitmapAt(code, list, end), c)
    else if list.op == OP_DIGIT then Typed(t, CTYPE_DIGIT, c)
    else if list.op == OP_NOT_DIGIT then !Typed(t, CTYPE_DIGIT, c)
    else if list.op == OP_WHITESPACE then Typed(t, CTYPE_SPACE, c)
    else if list.op == OP_NOT_WHITESPACE then !Typed(t, CTYPE_SPACE, c)
    else if list.op == OP_WORDCHAR then Typed(t, CTYPE_WORD, c)
    else if list.op == OP_NOT_WORDCHAR then !Typed(t, CTYPE_WORD, c)
    else if list.op == OP_EOD then false
    else if list.op == OP_DOLL then c == nl
    else list.op != OP_ANY || c != nl
  }

  lemma CoversAtom(t: Tables, code: seq<byte>, list: PropList, end: nat, atom: Atom, nl: byte, c: byte)
    requires TablesOk(t) && AtomOk(atom) && Lists(t.fcc, code, end, list, atom)
    ensures TableHit(t, nl, atom, c) <==> Covers(t, code, list, end, nl, c)
  {
  }

  lemma CoversInstr(t: Tables, code: seq<byte>, list: PropList, i: Instr, nl: byte, c: byte)
    requires TablesOk(t) && InstrOk(i) && ListsInstr(t.fcc, code, list, i)
    requires (i.IAnchor? ==> i.op == OP_EOD || i.op == OP_DOLL)
    ensures InstrHit(t, nl, i, c) <==> Covers(t, code, list, NextOf(i), nl, c)
  {
    hide TablesOk, Covers, TableHit;
    if AtomOf(i).Some? {
      CoversAtom(t, code, list, NextOf(i), AtomOf(i).value, nl, c);
    } else {
      CoversAnchor(t, code, list, NextOf(i), nl, c);
    }
  }

  lemma CoversAnchor(t: Tables, code: seq<byte>, list: PropList, end: nat, nl: byte, c: byte)
    requires TablesOk(t)
    ensures list.op == OP_EOD ==> !Covers(t, code, list, end, nl, c)
    ensures list.op == OP_DOLL ==> (Covers(t, code, list, end, nl, c) <==> c == nl)
  {
  }

  /** The character is covered with neither newline, and may stand before a dollar. */
  ghost predicate Outside(t: Tables, code: seq<byte>, chr: byte, list: PropList, end: nat)
    requires TablesOk(t)
  {
    && (forall nl: byte :: Newline(nl) ==> !Covers(t, code, list, end, nl, chr))
    && (list.op == OP_DOLL ==> chr != CHAR_VT && chr != CHAR_FF && chr != CHAR_NEL)
  }

  /** The character is not matched by the item; both cases of a caseless character
    * are asked about one at a time. */
  method CharOutside(code: seq<byte>, t: Tables, chr: byte, list: PropList, end: nat) returns (outside: bool)
    requires TablesOk(t) && (IsClass(list.op) ==> BITMAP_SIZE <= list.dist <= end <= |code|)
    requires || list.op == OP_CHAR || list.op == OP_NOT || IsType(list.op) || IsClass(list.op)
             || list.op == OP_EOD || list.op == OP_DOLL
    ensures outside <==> Outside(t, code, chr, list, end)
  {
    var op := list.op;
    assert Newline(CHAR_LF) && Newline(CHAR_CR);
    assert op == OP_ANY ==> Covers(t, code, list, end, if chr == CHAR_LF then CHAR_CR else CHAR_LF, chr);
    assert Covers(t, code, list, end, CHAR_LF, chr) || op == OP_ANY || !Covers(t, code, list, end, CHAR_LF, chr);
    if op == OP_CHAR {
      return chr !in list.chars;
    } else if op == OP_NOT {
      return chr in list.chars;
    } else if op == OP_DIGIT {
      return !Typed(t, CTYPE_DIGIT, chr);
    } else if op == OP_NOT_DIGIT {
      return Typed(t, CTYPE_DIGIT, chr);
    } else if op == OP_WHITESPACE {
      return !Typed(t, CTYPE_SPACE, chr);
    } else if op == OP_NOT_WHITESPACE {
      return Typed(t, CTYPE_SPACE, chr);
    } else if op == OP_WORDCHAR {
      return !(chr < 255 && Typed(t, CTYPE_WORD, chr));
    } else if op == OP_NOT_WORDCHAR {
      return Typed(t, CTYPE_WORD, chr);
    } else if op == OP_DOLL {
      assert Covers(t, code, list, end, CHAR_CR, chr) <==> chr == CHAR_CR;
      return chr != CHAR_CR && chr != CHAR_LF && chr != CHAR_VT && chr != CHAR_FF && chr != CHAR_NEL;
    } else if op == OP_EOD {
      return true;
    } else if IsClass(op) {
      return !InBitmap(BitmapAt(code, list, end), chr);
    }
    return false;
  }

  /** Do two bytes have a set bit in common? */
  predicate CommonBit(x: byte, y: byte, invert: bool) {
    exists k: nat :: k < 8 && Bit(x, k) && Bit(y, k) == !invert
  }

  /** Do two bitmaps, the second one possibly inverted, have no bit in common? */
  method BitmapsApart(set1: seq<byte>, set2: seq<byte>, invert: bool) returns (apart: bool)
    requires |set1| == BITMAP_SIZE && |set2| == BITMAP_SIZE
    ensures apart <==> forall c: byte :: InBitmap(set1, c) ==> InBitmap(set2, c) == invert
  {
    var i := 0;
    while i < BITMAP_SIZE
      invariant 0 <= i <= BITMAP_SIZE
      invariant forall c: byte :: c / 8 < i && InBitmap(set1, c) ==> InBitmap(set2, c) == invert
    {
      if CommonBit(set1[i], set2[i], invert) {
        var k: nat :| k < 8 && Bit(set1[i], k) && Bit(set2[i], k) == !invert;
        var c: byte := 8 * i + k;
        assert c / 8 == i && c % 8 == k;
        assert InBitmap(set1, c) && InBitmap(set2, c) == !invert;
        return false;
      }
      i := i + 1;
    }
    return true;
  }

  /** Which type may follow a repeated type: the rows for \D, \d, \S, \s, \W, \w, the
    * dot and the dot that matches newlines. The columns are the types, the
    * assertions \Z, \z and $, and the multiline $. */
  const AUTOPOSSTAB: seq<seq<nat>> := [
    [0, 1, 0, 0, 0, 0, 0, 0, 0, 0, 0, 0, 0, 0, 0, 0, 0, 0, 1, 0, 0],
    [1, 0, 0, 1, 1, 0, 0, 0, 0, 0, 0, 1, 0, 1, 0, 1, 0, 1, 1, 1, 1],
    [0, 0, 0, 1, 0, 0, 0, 0, 0, 0, 0, 1, 0, 1, 0, 1, 0, 1, 1, 1, 1],
    [0, 1, 1, 0, 0, 1, 0, 0, 0, 0, 0, 0, 0, 0, 0, 0, 0, 0, 1, 0, 0],
    [0, 1, 0, 0, 0, 1, 0, 0, 0, 0, 0, 0, 0, 0, 0, 0, 0, 0, 1, 0, 0],
    [0, 0, 0, 1, 1, 0, 0, 0, 0, 0, 0, 1, 0, 1, 0, 1, 0, 1, 1, 1, 1],
    [0, 0, 0, 0, 0, 0, 0, 0, 0, 0, 0, 1, 0, 0, 0, 0, 0, 0, 1, 0, 0],
    [0, 0, 0, 0, 0, 0, 0, 0, 0, 0, 0, 0, 0, 0, 0, 0, 0, 0, 1, 0, 0]
  ]

  predicate TypesApart(left: byte, right: byte) {
    IsType(left) && OP_NOT_DIGIT <= right <= 26 && AUTOPOSSTAB[left - OP_NOT_DIGIT][right - OP_NOT_DIGIT] == 1
  }

  /** The entries of the table for the types and the assertions of the model. */
  lemma TableEntries(left: byte, right: byte)
    requires IsType(left) && (IsType(right) || right == OP_EOD || right == OP_DOLL)
    ensures TypesApart(left, right)
            <==> || right == OP_EOD
                 || (left == OP_NOT_DIGIT && right == OP_DIGIT)
                 || (left == OP_DIGIT && right in {OP_NOT_DIGIT, OP_WHITESPACE, OP_NOT_WORDCHAR, OP_DOLL})
                 || (left == OP_NOT_WHITESPACE && right in {OP_WHITESPACE, OP_DOLL})
                 || (left == OP_WHITESPACE && right in {OP_DIGIT, OP_NOT_WHITESPACE, OP_WORDCHAR})
                 || (left == OP_NOT_WORDCHAR && right in {OP_DIGIT, OP_WORDCHAR})
                 || (left == OP_WORDCHAR && right in {OP_WHITESPACE, OP_NOT_WORDCHAR, OP_DOLL})
  {
  }

  /** The table is right about the types and the assertions of the model. */
  lemma TableIsRight(t: Tables, left: Atom, i: Instr)
    requires TablesOk(t) && left.Type? && AtomOk(left) && InstrOk(i)
    requires var right := if AtomOf(i).Some? then AtomOf(i).value.op else i.op;
             && TypesApart(left.op, right)
             && (if AtomOf(i).Some? then AtomOf(i).value.Type? else right == OP_EOD || right == OP_DOLL)
    ensures Disjoint(t, left, i)
  {
    hide TypesApart;
    TableEntries(left.op, if AtomOf(i).Some? then AtomOf(i).value.op else i.op);
  }

  /** There are digits, other word characters, and characters that are neither word
    * characters nor spaces. */
  ghost predicate Rich(t: Tables)
    requires |t.ctypes| == 256
  {
    && (exists c: byte :: Typed(t, CTYPE_DIGIT, c))
    && (exists c: byte :: Typed(t, CTYPE_WORD, c) && !Typed(t, CTYPE_DIGIT, c))
    && (exists c: byte :: !Typed(t, CTYPE_WORD, c) && !Typed(t, CTYPE_SPACE, c))
  }

  /** With such tables two types are apart exactly if they have no character in common;
    * only the dot is not put before a dollar. */
  lemma TableIsExact(t: Tables, left: Atom, i: Instr)
    requires TablesOk(t) && Rich(t) && left.Type? && AtomOk(left) && InstrOk(i)
    requires AtomOf(i).Some? ==> AtomOf(i).value.Type?
    requires AtomOf(i).None? ==> i.op == OP_EOD || i.op == OP_DOLL
    ensures var right := if AtomOf(i).Some? then AtomOf(i).value.op else i.op;
            TypesApart(left.op, right) <==> Disjoint(t, left, i) && !(left.op == OP_ANY && right == OP_DOLL)
  {
    hide TypesApart, TableHit, TablesOk;
    var right := if AtomOf(i).Some? then AtomOf(i).value.op else i.op;
    TableSizes(t);
    if TypesApart(left.op, right) {
      TableIsRight(t, left, i);
      hide Disjoint;
      TableEntries(left.op, right);
    } else if AtomOf(i).Some? {
      var c := CommonCharacter(t, left.op, right);
      assert Newline(CHAR_LF) && InstrHit(t, CHAR_LF, i, c);
    } else if left.op != OP_ANY || right != OP_DOLL {
      hide Disjoint;
      TableEntries(left.op, right);
      DollarOverlaps(t, left, i);
    }
  }

  lemma DollarOverlaps(t: Tables, left: Atom, i: Instr)
    requires TablesOk(t) && left.Type? && AtomOk(left) && i.IAnchor? && InstrOk(i)
    requires (i.op == OP_EOD || i.op == OP_DOLL) && !TypesApart(left.op, i.op) && left.op != OP_ANY
    ensures !Disjoint(t, left, i)
  {
    hide TypesApart;
    TableEntries(left.op, i.op);
    assert Newline(CHAR_LF) && InstrHit(t, CHAR_LF, i, CHAR_LF);
  }

  /** A character that both types match when the newline is LF. */
  lemma CommonCharacter(t: Tables, left: byte, right: byte) returns (c: byte)
    requires TablesOk(t) && Rich(t) && IsType(left) && IsType(right) && !TypesApart(left, right)
    ensures TableHit(t, CHAR_LF, Type(left), c) && TableHit(t, CHAR_LF, Type(right), c)
  {
    var digit: byte :| Typed(t, CTYPE_DIGIT, digit);
    var letter: byte :| Typed(t, CTYPE_WORD, letter) && !Typed(t, CTYPE_DIGIT, letter);
    var mark: byte :| !Typed(t, CTYPE_WORD, mark) && !Typed(t, CTYPE_SPACE, mark);
    Bits(t, digit, letter, mark);
    hide TypesApart, TablesOk, Rich, Typed;
    TableEntries(left, right);
    if TableHit(t, CHAR_LF, Type(left), digit) && TableHit(t, CHAR_LF, Type(right), digit) {
      return digit;
    } else if TableHit(t, CHAR_LF, Type(left), letter) && TableHit(t, CHAR_LF, Type(right), letter) {
      return letter;
    } else if TableHit(t, CHAR_LF, Type(left), mark) && TableHit(t, CHAR_LF, Type(right), mark) {
      return mark;
    }
    return CHAR_CR;
  }

  /** The type bits of the four characters, none of which is a line feed unless it is
    * the space. */
  lemma Bits(t: Tables, digit: byte, letter: byte, mark: byte)
    requires TablesOk(t) && Typed(t, CTYPE_DIGIT, digit)
    requires Typed(t, CTYPE_WORD, letter) && !Typed(t, CTYPE_DIGIT, letter)
    requires !Typed(t, CTYPE_WORD, mark) && !Typed(t, CTYPE_SPACE, mark)
    ensures |t.ctypes| == 256 && |t.fcc| == 256
    ensures Typed(t, CTYPE_WORD, digit) && !Typed(t, CTYPE_SPACE, digit) && !Typed(t, CTYPE_SPACE, letter)
    ensures !Typed(t, CTYPE_DIGIT, mark) && digit != CHAR_LF && letter != CHAR_LF && mark != CHAR_LF
    ensures Typed(t, CTYPE_SPACE, CHAR_CR) && !Typed(t, CTYPE_WORD, CHAR_CR) && !Typed(t, CTYPE_DIGIT, CHAR_CR)
  {
  }

  /** Whatever the comparison calls exclusive excludes. */
  lemma ExclusiveExcludes(env: Env, t: Tables, base: Atom, i: Instr)
    requires TablesOk(t) && Fits(env, t) && AtomOk(base) && InstrOk(i) && Exclusive(t, base, i)
    requires i.IAnchor? ==> i.op == OP_EOD || i.op == OP_DOLL
    ensures Excludes(env, base, i)
  {
    ExclusiveIsDisjoint(t, base, i);
    hide TablesOk, TableHit, Hit;
    assert Newline(env.nl);
    forall c: byte ensures Hit(env, base, c) <==> TableHit(t, env.nl, base, c) {
      HitByTable(env, t, base, c);
    }
    if AtomOf(i).Some? {
      forall c: byte ensures Hit(env, AtomOf(i).value, c) <==> TableHit(t, env.nl, AtomOf(i).value, c) {
        HitByTable(env, t, AtomOf(i).value, c);
      }
    }
    assert forall c: byte :: TableHit(t, env.nl, base, c) ==> !InstrHit(t, env.nl, i, c);
  }

  lemma ExclusiveIsDisjoint(t: Tables, base: Atom, i: Instr)
    requires TablesOk(t) && AtomOk(base) && InstrOk(i) && Exclusive(t, base, i)
    requires i.IAnchor? ==> i.op == OP_EOD || i.op == OP_DOLL
    ensures Disjoint(t, base, i)
  {
    hide TablesOk, Disjoint, TypesApart;
    var atom := AtomOf(i);
    if !IsLiteral(base) && !(atom.Some? && IsLiteral(atom.value)) && !base.Cls? && !(atom.Some? && atom.value.Cls?) {
      TableIsRight(t, base, i);
    }
  }

  /** Literal characters, classes and types other than the dots. */
  predicate HasCharacters(atom: Atom) {
    IsLiteral(atom) || HasSet(atom)
  }

  /** Between items of these kinds the comparison misses nothing. */
  lemma ExclusiveIsExact(t: Tables, base: Atom, i: Instr)
    requires TablesOk(t) && Rich(t) && AtomOk(base) && InstrOk(i) && AtomOf(i).Some?
    requires HasCharacters(base) && HasCharacters(AtomOf(i).value)
    ensures Exclusive(t, base, i) <==> Disjoint(t, base, i)
  {
    hide TablesOk, Rich, Disjoint, TypesApart;
    var atom := AtomOf(i).value;
    if base.Type? && atom.Type? {
      TableIsExact(t, base, i);
    }
  }

  // ---------- the comparison ----------

  /** The two items as the comparison sees them. */
  ghost predicate Compares(code: seq<byte>, t: Tables, base: PropList, baseEnd: nat, ba: Atom, list: PropList, i: Instr)
    requires TablesOk(t)
  {
    && AtomOk(ba) && Lists(t.fcc, code, baseEnd, base, ba)
    && InstrOk(i) && ListsInstr(t.fcc, code, list, i) && (i.IAnchor? ==> i.op == OP_EOD || i.op == OP_DOLL)
  }

  /** Do the base item, which ends at baseEnd, and the item that ends at end have no
    * character in common? */
  method Apart(code: seq<byte>, t: Tables, base: PropList, baseEnd: nat, list: PropList, end: nat, ghost ba: Atom,
               ghost i: Instr)
    returns (apart: bool)
    requires TablesOk(t) && Compares(code, t, base, baseEnd, ba, list, i) && end == NextOf(i)
    ensures apart <==> Exclusive(t, ba, i)
  {
    hide TablesOk, Disjoint;
    if base.op == OP_CHAR {
      apart := AllOutside(code, t, base.chars, list, end);
      LiteralBase(code, t, base, baseEnd, ba, list, i);
    } else if list.op == OP_CHAR {
      apart := AllOutside(code, t, list.chars, base, baseEnd);
      LiteralItem(code, t, base, baseEnd, ba, list, i);
    } else if IsClass(base.op) {
      apart := ClassApart(code, t, BitmapAt(code, base, baseEnd), list, end);
      ClassBase(code, t, base, baseEnd, ba, list, i);
    } else if IsClass(list.op) {
      apart := ClassApart(code, t, BitmapAt(code, list, end), base, baseEnd);
      ClassItem(code, t, base, baseEnd, ba, list, i);
    } else {
      apart := TypesApart(base.op, list.op);
    }
  }

  lemma TableSizes(t: Tables)
    requires TablesOk(t)
    ensures |t.fcc| == 256 && |t.ctypes| == 256
  {
  }

  lemma LiteralBase(code: seq<byte>, t: Tables, base: PropList, baseEnd: nat, ba: Atom, list: PropList, i: Instr)
    requires TablesOk(t) && Compares(code, t, base, baseEnd, ba, list, i) && base.op == OP_CHAR
    ensures Exclusive(t, ba, i) <==> forall c :: c in base.chars ==> Outside(t, code, c, list, NextOf(i))
  {
    hide TablesOk, Covers, TableHit;
    TableSizes(t);
    forall nl: byte, c: byte ensures TableHit(t, nl, ba, c) <==> c in base.chars {
      CoversAtom(t, code, base, baseEnd, ba, nl, c);
      CharCovers(t, code, base, baseEnd, nl, c);
    }
    forall nl: byte, c: byte ensures InstrHit(t, nl, i, c) <==> Covers(t, code, list, NextOf(i), nl, c) {
      CoversInstr(t, code, list, i, nl, c);
    }
  }

  lemma CharCovers(t: Tables, code: seq<byte>, list: PropList, end: nat, nl: byte, c: byte)
    requires TablesOk(t)
    ensures list.op == OP_CHAR ==> (Covers(t, code, list, end, nl, c) <==> c in list.chars)
  {
  }

  lemma LiteralItem(code: seq<byte>, t: Tables, base: PropList, baseEnd: nat, ba: Atom, list: PropList, i: Instr)
    requires TablesOk(t) && Compares(code, t, base, baseEnd, ba, list, i) && base.op != OP_CHAR && list.op == OP_CHAR
    ensures Exclusive(t, ba, i) <==> forall c :: c in list.chars ==> Outside(t, code, c, base, baseEnd)
  {
    hide TablesOk, Covers, TableHit;
    TableSizes(t);
    forall nl: byte, c: byte ensures TableHit(t, nl, ba, c) <==> Covers(t, code, base, baseEnd, nl, c) {
      CoversAtom(t, code, base, baseEnd, ba, nl, c);
    }
    forall nl: byte, c: byte ensures InstrHit(t, nl, i, c) <==> c in list.chars {
      CoversInstr(t, code, list, i, nl, c);
      CharCovers(t, code, list, NextOf(i), nl, c);
    }
  }

  lemma ClassBase(code: seq<byte>, t: Tables, base: PropList, baseEnd: nat, ba: Atom, list: PropList, i: Instr)
    requires TablesOk(t) && Compares(code, t, base, baseEnd, ba, list, i) && IsClass(base.op) && list.op != OP_CHAR
    ensures Exclusive(t, ba, i)
           <==> SetOp(list.op) && SetOutside(t, code, BitmapAt(code, base, baseEnd), list, NextOf(i))
  {
    hide TablesOk, Covers, InBitmap;
    TableSizes(t);
    forall nl: byte, c: byte ensures InstrHit(t, nl, i, c) <==> Covers(t, code, list, NextOf(i), nl, c) {
      CoversInstr(t, code, list, i, nl, c);
    }
    hide InstrHit;
  }

  lemma ClassItem(code: seq<byte>, t: Tables, base: PropList, baseEnd: nat, ba: Atom, list: PropList, i: Instr)
    requires TablesOk(t) && Compares(code, t, base, baseEnd, ba, list, i)
    requires base.op != OP_CHAR && !IsClass(base.op) && IsClass(list.op)
    ensures Exclusive(t, ba, i)
           <==> SetOp(base.op) && SetOutside(t, code, BitmapAt(code, list, NextOf(i)), base, baseEnd)
  {
    hide TablesOk, Covers, InBitmap;
    TableSizes(t);
    forall nl: byte, c: byte ensures TableHit(t, nl, ba, c) <==> Covers(t, code, base, baseEnd, nl, c) {
      CoversAtom(t, code, base, baseEnd, ba, nl, c);
    }
    assert forall nl: byte, c: byte :: InstrHit(t, nl, i, c) <==> InBitmap(BitmapAt(code, list, NextOf(i)), c);
    hide InstrHit, TableHit;
  }

  /** Is none of the characters matched by the item? */
  method AllOutside(code: seq<byte>, t: Tables, chars: seq<byte>, list: PropList, end: nat) returns (outside: bool)
    requires TablesOk(t) && (IsClass(list.op) ==> BITMAP_SIZE <= list.dist <= end <= |code|)
    requires || list.op == OP_CHAR || list.op == OP_NOT || IsType(list.op) || IsClass(list.op)
             || list.op == OP_EOD || list.op == OP_DOLL
    ensures outside <==> forall c :: c in chars ==> Outside(t, code, c, list, end)
  {
    hide TablesOk, Outside;
    var i := 0;
    while i < |chars|
      invariant 0 <= i <= |chars|
      invariant forall j: nat :: j < i ==> Outside(t, code, chars[j], list, end)
    {
      var here := CharOutside(code, t, chars[i], list, end);
      if !here {
        return false;
      }
      i := i + 1;
    }
    return true;
  }

  /** The kinds of items that have a bitmap. */
  predicate SetOp(op: byte) {
    IsClass(op) || (IsType(op) && op != OP_ANY && op != OP_ALLANY)
  }

  /** No character of the set is covered. */
  ghost predicate SetOutside(t: Tables, code: seq<byte>, set1: seq<byte>, list: PropList, end: nat)
    requires TablesOk(t) && |set1| == BITMAP_SIZE
  {
    forall nl: byte, c: byte :: Newline(nl) && InBitmap(set1, c) ==> !Covers(t, code, list, end, nl, c)
  }

  /** Has a class bitmap no character in common with the item? */
  method ClassApart(code: seq<byte>, t: Tables, set1: seq<byte>, list: PropList, end: nat) returns (apart: bool)
    requires TablesOk(t) && |set1| == BITMAP_SIZE && (IsClass(list.op) ==> BITMAP_SIZE <= list.dist <= end <= |code|)
    ensures apart <==> SetOp(list.op) && SetOutside(t, code, set1, list, end)
  {
    hide InBitmap;
    assert Newline(CHAR_LF);
    var op := list.op;
    if IsClass(op) {
      apart := BitmapsApart(set1, BitmapAt(code, list, end), false);
    } else if op == OP_DIGIT || op == OP_NOT_DIGIT {
      apart := BitmapsApart(set1, t.digits, op == OP_NOT_DIGIT);
    } else if op == OP_WHITESPACE || op == OP_NOT_WHITESPACE {
      apart := BitmapsApart(set1, t.spaces, op == OP_NOT_WHITESPACE);
    } else if op == OP_WORDCHAR || op == OP_NOT_WORDCHAR {
      apart := BitmapsApart(set1, t.words, op == OP_NOT_WORDCHAR);
    } else {
      apart := false;
    }
    if SetOp(op) {
      SetByNewline(t, code, set1, list, end);
    }
  }

  /** For items with a bitmap the newline does not matter. */
  lemma SetByNewline(t: Tables, code: seq<byte>, set1: seq<byte>, list: PropList, end: nat)
    requires TablesOk(t) && |set1| == BITMAP_SIZE && SetOp(list.op)
    ensures SetOutside(t, code, set1, list, end)
           <==> forall c: byte :: InBitmap(set1, c) ==> !Covers(t, code, list, end, CHAR_LF, c)
  {
    hide TablesOk, InBitmap;
    assert Newline(CHAR_LF);
    assert forall nl: byte, c: byte :: Covers(t, code, list, end, nl, c) == Covers(t, code, list, end, CHAR_LF, c);
  }
}
