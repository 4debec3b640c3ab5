/** The table of group names: a flat array of entries of equal size, each with a
  * two-byte group number and a zero-terminated name, kept in the order of strcmp.
  * The main results are that adding names keeps the table sorted with duplicates in
  * the order of the pattern, and that the binary searches find a name exactly when
  * it is there, with all its entries.
  */
module NameTable {
  import opened Opcodes

  const PCRE_ERROR_NOSUBSTRING := -7
  const IMM2_SIZE := 2

  datatype Entry = Entry(number: nat, name: seq<byte>)

  // ---------- the order of names ----------

  /** The sign of strcmp, on names without their terminating zero. */
  function Compare(a: seq<byte>, b: seq<byte>): (r: int)
    ensures -1 <= r <= 1
  {
    if a == [] then (if b == [] then 0 else -1)
    else if b == [] then 1
    else if a[0] < b[0] then -1
    else if a[0] > b[0] then 1
    else Compare(a[1..], b[1..])
  }

  lemma {:induction false} CompareEqual(a: seq<byte>, b: seq<byte>)
    ensures Compare(a, b) == 0 <==> a == b
    ensures Compare(b, a) == -Compare(a, b)
  {
    if a != [] && b != [] {
      CompareEqual(a[1..], b[1..]);
      assert a == [a[0]] + a[1..] && b == [b[0]] + b[1..];
    }
  }

  lemma {:induction false} CompareTransitive(a: seq<byte>, b: seq<byte>, c: seq<byte>)
    requires Compare(a, b) <= 0 && Compare(b, c) <= 0
    ensures Compare(a, c) <= 0
    ensures Compare(a, b) < 0 || Compare(b, c) < 0 ==> Compare(a, c) < 0
  {
    if a != [] && b != [] && c != [] {
      if a[0] == b[0] == c[0] {
        CompareTransitive(a[1..], b[1..], c[1..]);
      }
    }
  }

  /** Names that agree on the first n bytes are compared from there on. */
  lemma {:induction false} CompareFrom(a: seq<byte>, b: seq<byte>, n: nat)
    requires n <= |a| && n <= |b| && a[..n] == b[..n]
    ensures Compare(a, b) == Compare(a[n..], b[n..])
    decreases n
  {
    if n == 0 {
      assert a[0..] == a && b[0..] == b;
    } else {
      assert a[0] == a[..n][0] == b[..n][0] == b[0];
      assert a[1..][..n - 1] == a[..n][1..] && b[1..][..n - 1] == b[..n][1..];
      CompareFrom(a[1..], b[1..], n - 1);
      assert a[1..][n - 1..] == a[n..] && b[1..][n - 1..] == b[n..];
    }
  }

  // ---------- the table as a sorted list ----------

  ghost predicate Sorted(es: seq<Entry>) {
    forall i, j :: 0 <= i < j < |es| ==> Compare(es[i].name, es[j].name) <= 0
  }

  /** Behind everything that is not greater. */
  function Insert(es: seq<Entry>, e: Entry): (r: seq<Entry>)
    ensures |r| == |es| + 1
  {
    if es == [] then [e]
    else if Compare(e.name, es[0].name) < 0 then [e] + es
    else [es[0]] + Insert(es[1..], e)
  }

  /** The table after all names of the list have been added. */
  function Build(list: seq<Entry>): (r: seq<Entry>)
    ensures |r| == |list|
  {
    if list == [] then [] else Insert(Build(list[..|list| - 1]), list[|list| - 1])
  }

  /** The entries with the given name, in their order. */
  function Named(es: seq<Entry>, name: seq<byte>): seq<Entry> {
    if es == [] then [] else (if es[0].name == name then [es[0]] else []) + Named(es[1..], name)
  }

  /** Where an entry is inserted. */
  lemma {:induction false} InsertAt(es: seq<Entry>, e: Entry, i: nat)
    requires i <= |es| && (forall k :: 0 <= k < i ==> Compare(e.name, es[k].name) >= 0)
    requires i < |es| ==> Compare(e.name, es[i].name) < 0
    ensures Insert(es, e) == es[..i] + [e] + es[i..]
    decreases i
  {
    if i > 0 {
      InsertAt(es[1..], e, i - 1);
      assert es[1..][i - 1..] == es[i..];
      assert es[..i] == [es[0]] + es[1..][..i - 1];
      assert [es[0]] + (es[1..][..i - 1] + [e] + es[1..][i - 1..]) == es[..i] + [e] + es[i..];
    } else if es != [] {
      assert es[..0] == [] && es[0..] == es;
    }
  }

  lemma InsertPlace(es: seq<Entry>, e: Entry) returns (i: nat)
    ensures i <= |es| && forall k :: 0 <= k < i ==> Compare(e.name, es[k].name) >= 0
    ensures i < |es| ==> Compare(e.name, es[i].name) < 0
  {
    i := 0;
    while i < |es| && Compare(e.name, es[i].name) >= 0
      invariant i <= |es| && forall k :: 0 <= k < i ==> Compare(e.name, es[k].name) >= 0
    {
      i := i + 1;
    }
  }

  lemma InsertSorted(es: seq<Entry>, e: Entry)
    requires Sorted(es)
    ensures Sorted(Insert(es, e))
  {
    var i := InsertPlace(es, e);
    InsertAt(es, e, i);
    hide Insert, Compare;
    var r := es[..i] + [e] + es[i..];
    forall j, k | 0 <= j < k < |r| ensures Compare(r[j].name, r[k].name) <= 0 {
      if k == i {
        CompareEqual(e.name, es[j].name);
      } else if j == i {
        if k > i + 1 {
          CompareTransitive(e.name, es[i].name, es[k - 1].name);
        }
      } else {
        var j', k' := if j < i then j else j - 1, if k < i then k else k - 1;
        assert r[j] == es[j'] && r[k] == es[k'];
      }
    }
  }

  lemma {:induction false} NamedJoin(a: seq<Entry>, b: seq<Entry>, name: seq<byte>)
    ensures Named(a + b, name) == Named(a, name) + Named(b, name)
  {
    if a == [] {
      assert a + b == b;
    } else {
      NamedJoin(a[1..], b, name);
      assert (a + b)[1..] == a[1..] + b;
    }
  }

  lemma {:induction false} NamedNone(es: seq<Entry>, name: seq<byte>)
    requires forall k :: 0 <= k < |es| ==> es[k].name != name
    ensures Named(es, name) == []
  {
    if es != [] {
      NamedNone(es[1..], name);
    }
  }

  lemma {:induction false} NamedAll(es: seq<Entry>, name: seq<byte>)
    requires forall k :: 0 <= k < |es| ==> es[k].name == name
    ensures Named(es, name) == es
  {
    if es != [] {
      NamedAll(es[1..], name);
      assert es == [es[0]] + es[1..];
    }
  }

  lemma NamedOne(e: Entry, name: seq<byte>)
    ensures Named([e], name) == if e.name == name then [e] else []
  {
    assert [e][1..] == [];
  }

  /** Behind the place of a name in a sorted table the name does not occur. */
  lemma NothingBehind(es: seq<Entry>, name: seq<byte>, i: nat)
    requires Sorted(es) && i <= |es| && (i < |es| ==> Compare(name, es[i].name) < 0)
    ensures Named(es[i..], name) == []
  {
    hide Compare, Named;
    forall k | 0 <= k < |es[i..]| ensures es[i..][k].name != name {
      CompareEqual(name, es[i + k].name);
      if k > 0 {
        CompareTransitive(name, es[i].name, es[i + k].name);
      }
    }
    NamedNone(es[i..], name);
  }

  /** A new entry comes behind all others with its name. */
  lemma InsertNamed(es: seq<Entry>, e: Entry, name: seq<byte>)
    requires Sorted(es)
    ensures Named(Insert(es, e), name) == Named(es, name) + (if e.name == name then [e] else [])
  {
    hide Compare, Named, Insert, Sorted;
    var i := InsertPlace(es, e);
    InsertAt(es, e, i);
    assert es == es[..i] + es[i..];
    NamedJoin(es[..i], es[i..], name);
    NamedJoin(es[..i] + [e], es[i..], name);
    NamedJoin(es[..i], [e], name);
    NamedOne(e, name);
    if e.name == name {
      NothingBehind(es, e.name, i);
    }
  }

  /** The table built from a list is sorted, and the entries of every name are those
    * of the list, in the order of the list. */
  lemma {:induction false} BuildIsIndex(list: seq<Entry>, name: seq<byte>)
    ensures Sorted(Build(list)) && Named(Build(list), name) == Named(list, name)
    decreases |list|
  {
    if list != [] {
      var init, e := list[..|list| - 1], list[|list| - 1];
      BuildIsIndex(init, name);
      InsertSorted(Build(init), e);
      InsertNamed(Build(init), e, name);
      assert list == init + [e];
      NamedJoin(init, [e], name);
      assert [e][1..] == [];
    }
  }

  /** In a sorted table the entries with one name stand together. */
  lemma NamedRun(es: seq<Entry>, name: seq<byte>, i: nat, j: nat)
    requires i <= j < |es| && forall k :: 0 <= k < |es| ==> (es[k].name == name <==> i <= k <= j)
    ensures Named(es, name) == es[i..j + 1]
  {
    assert es == es[..i] + (es[i..j + 1] + es[j + 1..]);
    NamedJoin(es[..i], es[i..j + 1] + es[j + 1..], name);
    NamedJoin(es[i..j + 1], es[j + 1..], name);
    NamedNone(es[..i], name);
    NamedAll(es[i..j + 1], name);
    NamedNone(es[j + 1..], name);
  }

  // ---------- the flat table ----------

  /** Names hold no zero byte. */
  predicate NameOk(name: seq<byte>) {
    0 !in name
  }

  /** The offset of the i-th entry. */
  function Slot(i: nat, size: nat): nat {
    if i == 0 then 0 else Slot(i - 1, size) + size
  }

  lemma {:induction false} SlotOrder(i: nat, j: nat, size: nat)
    requires i <= j
    ensures Slot(i, size) <= Slot(j, size) && (i < j ==> Slot(i, size) + size <= Slot(j, size))
    decreases j - i
  {
    if i < j {
      SlotOrder(i, j - 1, size);
    }
  }

  lemma NextSlot(i: nat, size: nat)
    ensures Slot(i + 1, size) == Slot(i, size) + size
  {
  }

  /** The entry is stored at the offset. */
  predicate Stored(t: seq<byte>, at: nat, size: nat, e: Entry) {
    && at + size <= |t| && |e.name| + IMM2_SIZE + 1 <= size
    && e.number < 65536 && NameOk(e.name)
    && Get(t, at) == e.number
    && t[at + IMM2_SIZE..at + IMM2_SIZE + |e.name|] == e.name
    && t[at + IMM2_SIZE + |e.name|] == 0
  }

  ghost predicate Table(t: seq<byte>, size: nat, es: seq<Entry>) {
    Slot(|es|, size) <= |t| && forall i :: 0 <= i < |es| ==> Stored(t, Slot(i, size), size, es[i])
  }

  /** An entry depends on its own bytes only. */
  lemma StoredMoves(t: seq<byte>, t': seq<byte>, at: nat, at': nat, size: nat, e: Entry)
    requires Stored(t, at, size, e) && at' + size <= |t'| && t[at..at + size] == t'[at'..at' + size]
    ensures Stored(t', at', size, e)
  {
    var u := t[at..at + size];
    assert u[0] == t[at] == t'[at'] && u[1] == t[at + 1] == t'[at' + 1];
    var n := IMM2_SIZE + |e.name|;
    assert t[at + IMM2_SIZE..at + n] == u[IMM2_SIZE..n] == t'[at' + IMM2_SIZE..at' + n];
    assert u[n] == t[at + n] == t'[at' + n];
  }

  /** strcmp of a name with the name stored at the offset. */
  method StrCmp(name: seq<byte>, t: seq<byte>, at: nat, size: nat, ghost e: Entry) returns (c: int)
    requires Stored(t, at, size, e) && NameOk(name)
    ensures c == Compare(name, e.name)
  {
    var i := 0;
    while i < |name| || t[at + IMM2_SIZE + i] != 0
      invariant i <= |name| && i <= |e.name| && name[..i] == e.name[..i]
      decreases |e.name| - i
    {
      CompareFrom(name, e.name, i);
      ByteAt(t, at, size, e, i);
      var c1 := if i < |name| then name[i] else 0;
      var c2 := t[at + IMM2_SIZE + i];
      assert i < |name| ==> name[i] != 0;
      if c1 != c2 {
        return if c1 > c2 then 1 else -1;
      }
      assert name[..i + 1] == name[..i] + [name[i]] && e.name[..i + 1] == e.name[..i] + [e.name[i]];
      i := i + 1;
    }
    ByteAt(t, at, size, e, i);
    assert name == e.name;
    CompareEqual(name, e.name);
    c := 0;
  }

  lemma ByteAt(t: seq<byte>, at: nat, size: nat, e: Entry, i: nat)
    requires Stored(t, at, size, e) && i <= |e.name|
    ensures t[at + IMM2_SIZE + i] == if i < |e.name| then e.name[i] else 0
    ensures i < |e.name| ==> e.name[i] != 0
  {
    if i < |e.name| {
      assert t[at + IMM2_SIZE..at + IMM2_SIZE + |e.name|][i] == e.name[i];
    }
  }

  /** memcmp of the name with as many bytes of the entry at the offset; a name that
    * is a proper prefix of the entry's comes before it. */
  method Earlier(name: seq<byte>, t: seq<byte>, at: nat, size: nat, ghost e: Entry) returns (earlier: bool)
    requires Stored(t, at, size, e) && NameOk(name) && |name| + IMM2_SIZE + 1 <= size
    ensures earlier <==> Compare(name, e.name) < 0
  {
    var length := |name|;
    var crc := 0;
    var i := 0;
    while i < length && crc == 0
      invariant i <= length && (crc == 0 ==> i <= |e.name| && name[..i] == e.name[..i])
      invariant crc != 0 ==> (crc < 0 <==> Compare(name, e.name) < 0)
      decreases length - i
    {
      CompareFrom(name, e.name, i);
      ByteAt(t, at, size, e, i);
      var b := t[at + IMM2_SIZE + i];
      assert name[i] != 0;
      if name[i] != b {
        crc := if name[i] < b then -1 else 1;
      } else {
        assert name[..i + 1] == name[..i] + [name[i]] && e.name[..i + 1] == e.name[..i] + [e.name[i]];
      }
      i := i + 1;
    }
    if crc == 0 {
      CompareFrom(name, e.name, length);
      ByteAt(t, at, size, e, length);
      if t[at + IMM2_SIZE + length] != 0 {
        crc := -1;
      }
    }
    earlier := crc < 0;
  }

  lemma EntryIsStored(t: seq<byte>, size: nat, es: seq<Entry>, i: nat)
    requires Table(t, size, es) && i < |es|
    ensures Stored(t, Slot(i, size), size, es[i]) && Slot(|es|, size) <= |t|
  {
  }

  /** The bytes from lo to hi have moved up by one entry; those below lo are as before. */
  ghost predicate Shifted(t: seq<byte>, t': seq<byte>, lo: nat, hi: nat, size: nat) {
    && |t'| == |t| && lo <= hi && hi + size <= |t|
    && (forall k :: 0 <= k < lo ==> t'[k] == t[k])
    && (forall k :: lo + size <= k < hi + size ==> t'[k] == t[k - size])
  }

  /** Move the bytes from slot to end up by one entry. */
  method MoveUp(t: array<byte>, slot: nat, end: nat, size: nat)
    requires slot <= end && end + size <= t.Length
    modifies t
    ensures Shifted(old(t[..]), t[..], slot, end, size)
  {
    forall k | slot + size <= k < end + size {
      t[k] := t[k - size];
    }
  }

  /** Store an entry at slot. */
  method StoreEntry(t: array<byte>, slot: nat, size: nat, name: seq<byte>, groupno: nat, ghost t0: seq<byte>,
                    ghost end: nat)
    requires Shifted(t0, t[..], slot, end, size)
    requires slot + size <= t.Length && NameOk(name) && |name| + IMM2_SIZE + 1 <= size && groupno < 65536
    modifies t
    ensures Stored(t[..], slot, size, Entry(groupno, name))
    ensures Shifted(t0, t[..], slot, end, size)
  {
    t[slot] := groupno / 256;
    t[slot + 1] := groupno % 256;
    forall k | slot + IMM2_SIZE <= k < slot + IMM2_SIZE + |name| {
      t[k] := name[k - slot - IMM2_SIZE];
    }
    t[slot + IMM2_SIZE + |name|] := 0;
    assert t[..][slot + IMM2_SIZE..slot + IMM2_SIZE + |name|] == name;
  }

  /** The name table of a pattern that is being compiled. */
  class CompileData {
    const nameTable: array<byte>
    const nameEntrySize: nat
    var namesFound: nat
    ghost var entries: seq<Entry>

    ghost predicate Valid()
      reads this, nameTable
    {
      namesFound == |entries| && Table(nameTable[..], nameEntrySize, entries)
    }

    /** An empty table with room for count names. */
    constructor (count: nat, size: nat)
      ensures Valid() && entries == [] && nameEntrySize == size && fresh(nameTable)
      ensures nameTable.Length == Slot(count, size)
    {
      nameTable := new byte[Slot(count, size)](_ => 0);
      nameEntrySize := size;
      namesFound := 0;
      entries := [];
    }

    /** Add a name to the table. */
    method AddName(name: seq<byte>, groupno: nat)
      requires Valid() && NameOk(name) && |name| + IMM2_SIZE + 1 <= nameEntrySize && groupno < 65536
      requires Slot(namesFound + 1, nameEntrySize) <= nameTable.Length
      modifies this, nameTable
      ensures Valid() && entries == Insert(old(entries), Entry(groupno, name))
    {
      hide Table, Stored, Compare, Insert, Shifted;
      var i, slot := 0, 0;
      var size := nameEntrySize;
      ghost var e, t0 := Entry(groupno, name), nameTable[..];
      while i < namesFound
        invariant 0 <= i <= namesFound && slot == Slot(i, size)
        invariant nameTable[..] == t0 && Valid() && entries == old(entries) && namesFound == old(namesFound)
        invariant forall k :: 0 <= k < i ==> Compare(name, entries[k].name) >= 0
      {
        EntryIsStored(nameTable[..], size, entries, i);
        var earlier := Earlier(name, nameTable[..], slot, size, entries[i]);
        if earlier {
          break;
        }
        slot := slot + size;
        i := i + 1;
      }
      InsertAt(entries, e, i);
      SlotOrder(i, namesFound, size);
      MoveUp(nameTable, slot, Slot(namesFound, size), size);
      StoreEntry(nameTable, slot, size, name, groupno, t0, Slot(namesFound, size));
      NewTable(t0, nameTable[..], size, entries, e, i);
      entries := entries[..i] + [e] + entries[i..];
      namesFound := namesFound + 1;
    }
  }

  /** The table after the entries from i on have moved up and one was stored there. */
  lemma NewTable(t: seq<byte>, t': seq<byte>, size: nat, es: seq<Entry>, e: Entry, i: nat)
    requires Table(t, size, es) && i <= |es| && |t'| == |t| && Slot(|es| + 1, size) <= |t|
    requires |e.name| + IMM2_SIZE + 1 <= size && Slot(i, size) + size <= |t|
    requires Shifted(t, t', Slot(i, size), Slot(|es|, size), size) && Stored(t', Slot(i, size), size, e)
    ensures Table(t', size, es[..i] + [e] + es[i..])
  {
    hide Stored, Slot, Shifted;
    NextSlot(|es|, size);
    var r := es[..i] + [e] + es[i..];
    forall j | 0 <= j < |r| ensures Stored(t', Slot(j, size), size, r[j]) {
      if j < i {
        BelowStays(t, t', size, es, i, j);
        assert r[j] == es[j];
      } else if j > i {
        AboveMoves(t, t', size, es, i, j - 1);
        assert r[j] == es[j - 1];
      }
    }
  }

  lemma BelowStays(t: seq<byte>, t': seq<byte>, size: nat, es: seq<Entry>, i: nat, j: nat)
    requires Table(t, size, es) && j < i <= |es| && Slot(i, size) <= |t| == |t'|
    requires Slot(|es|, size) + size <= |t| && Shifted(t, t', Slot(i, size), Slot(|es|, size), size)
    ensures Stored(t', Slot(j, size), size, es[j])
  {
    hide Stored;
    SlotOrder(j, i, size);
    var a := Slot(j, size);
    assert t[a..a + size] == t'[a..a + size];
    StoredMoves(t, t', a, a, size, es[j]);
  }

  lemma AboveMoves(t: seq<byte>, t': seq<byte>, size: nat, es: seq<Entry>, i: nat, j: nat)
    requires Table(t, size, es) && i <= j < |es| && Slot(|es|, size) + size <= |t| == |t'|
    requires Shifted(t, t', Slot(i, size), Slot(|es|, size), size)
    ensures Stored(t', Slot(j + 1, size), size, es[j])
  {
    hide Stored;
    SlotOrder(i, j, size);
    SlotOrder(j, |es|, size);
    NextSlot(j, size);
    var a := Slot(j, size);
    var u, v := t[a..a + size], t'[a + size..a + size + size];
    forall k | 0 <= k < size ensures u[k] == v[k] {
      assert t'[a + size + k] == t[a + size + k - size];
    }
    assert u == v;
    StoredMoves(t, t', a, a + size, size, es[j]);
  }

  // ---------- looking names up ----------

  lemma SplitLeft(es: seq<Entry>, name: seq<byte>, mid: nat, k: nat)
    requires Sorted(es) && k <= mid < |es| && Compare(name, es[mid].name) > 0
    ensures es[k].name != name
  {
    hide Compare;
    CompareEqual(name, es[mid].name);
    CompareEqual(name, name);
  }

  lemma SplitRight(es: seq<Entry>, name: seq<byte>, mid: nat, k: nat)
    requires Sorted(es) && mid <= k < |es| && Compare(name, es[mid].name) < 0
    ensures es[k].name != name
  {
    hide Compare;
    CompareEqual(name, es[mid].name);
    CompareEqual(name, name);
  }

  /** The number of the name, or of one of the entries if it has several. */
  method GetStringNumber(t: seq<byte>, entrysize: nat, count: nat, stringname: seq<byte>, ghost es: seq<Entry>)
    returns (rc: int)
    requires Table(t, entrysize, es) && Sorted(es) && count == |es| && NameOk(stringname)
    ensures rc == PCRE_ERROR_NOSUBSTRING <==> forall k :: 0 <= k < |es| ==> es[k].name != stringname
    ensures rc != PCRE_ERROR_NOSUBSTRING ==> rc >= 0 && Entry(rc, stringname) in es
  {
    hide Sorted, Compare, Stored;
    var bot, top := 0, count;
    while top > bot
      invariant 0 <= bot <= top <= |es|
      invariant forall k :: 0 <= k < |es| && (k < bot || k >= top) ==> es[k].name != stringname
    {
      var mid := (top + bot) / 2;
      var entry := Slot(mid, entrysize);
      var c := StrCmp(stringname, t, entry, entrysize, es[mid]);
      CompareEqual(stringname, es[mid].name);
      if c == 0 {
        StoredNumber(t, entry, entrysize, es[mid]);
        return Get(t, entry);
      }
      if c > 0 {
        forall k | 0 <= k <= mid ensures es[k].name != stringname {
          SplitLeft(es, stringname, mid, k);
        }
        bot := mid + 1;
      } else {
        forall k | mid <= k < |es| ensures es[k].name != stringname {
          SplitRight(es, stringname, mid, k);
        }
        top := mid;
      }
    }
    rc := PCRE_ERROR_NOSUBSTRING;
  }

  lemma StoredNumber(t: seq<byte>, at: nat, size: nat, e: Entry)
    requires Stored(t, at, size, e)
    ensures at + 1 < |t| && Get(t, at) == e.number && e == Entry(e.number, e.name)
  {
  }

  /** The first and the last entry of a name: all its entries and no others. */
  method GetStringTableEntries(t: seq<byte>, entrysize: nat, count: nat, stringname: seq<byte>, ghost es: seq<Entry>)
    returns (rc: int, first: nat, last: nat, ghost i: nat, ghost j: nat)
    requires Table(t, entrysize, es) && Sorted(es) && count == |es| && NameOk(stringname) && entrysize > 0
    ensures rc == PCRE_ERROR_NOSUBSTRING <==> forall k :: 0 <= k < |es| ==> es[k].name != stringname
    ensures rc != PCRE_ERROR_NOSUBSTRING ==>
              && rc == entrysize && i <= j < |es| && first == Slot(i, entrysize) && last == Slot(j, entrysize)
              && (forall k :: 0 <= k < |es| ==> (es[k].name == stringname <==> i <= k <= j))
              && es[i..j + 1] == Named(es, stringname)
  {
    hide Sorted, Compare, Stored, Named;
    rc, first, last, i, j := PCRE_ERROR_NOSUBSTRING, 0, 0, 0, 0;
    if count == 0 {
      return;
    }
    var lastentry := Slot(count - 1, entrysize);
    var bot, top := 0, count;
    while top > bot
      invariant 0 <= bot <= top <= |es|
      invariant forall k :: 0 <= k < |es| && (k < bot || k >= top) ==> es[k].name != stringname
    {
      var mid := (top + bot) / 2;
      var entry := Slot(mid, entrysize);
      var c := StrCmp(stringname, t, entry, entrysize, es[mid]);
      CompareEqual(stringname, es[mid].name);
      if c == 0 {
        first, i := FirstEntry(t, entrysize, stringname, entry, es, mid);
        last, j := LastEntry(t, entrysize, stringname, entry, lastentry, es, mid);
        NamedRun(es, stringname, i, j);
        rc := entrysize;
        return;
      }
      if c > 0 {
        forall k | 0 <= k <= mid ensures es[k].name != stringname {
          SplitLeft(es, stringname, mid, k);
        }
        bot := mid + 1;
      } else {
        forall k | mid <= k < |es| ensures es[k].name != stringname {
          SplitRight(es, stringname, mid, k);
        }
        top := mid;
      }
    }
  }

  lemma RunStops(es: seq<Entry>, name: seq<byte>, a: nat, b: nat, k: nat)
    requires Sorted(es) && a < |es| && b < |es| && k < |es| && es[b].name == name && es[a].name != name
    requires k <= a < b || b < a <= k
    ensures es[k].name != name
  {
    hide Compare;
    CompareEqual(name, es[a].name);
    if k != a && es[k].name == name {
      CompareEqual(es[a].name, name);
    }
  }

  /** Go back from an entry with the name to the first one. */
  method FirstEntry(t: seq<byte>, entrysize: nat, name: seq<byte>, entry: nat, ghost es: seq<Entry>, ghost mid: nat)
    returns (first: nat, ghost i: nat)
    requires Table(t, entrysize, es) && Sorted(es) && NameOk(name) && entrysize > 0
    requires mid < |es| && entry == Slot(mid, entrysize) && es[mid].name == name
    ensures i <= mid && first == Slot(i, entrysize)
    ensures forall k :: 0 <= k <= mid ==> (es[k].name == name <==> i <= k)
  {
    hide Sorted, Compare, Stored;
    first, i := entry, mid;
    while first > 0
      invariant i <= mid && first == Slot(i, entrysize)
      invariant forall k :: i <= k <= mid ==> es[k].name == name
      decreases i
    {
      var c := StrCmp(name, t, first - entrysize, entrysize, es[i - 1]);
      CompareEqual(name, es[i - 1].name);
      if c != 0 {
        forall k | 0 <= k < i ensures es[k].name != name {
          RunStops(es, name, i - 1, mid, k);
        }
        break;
      }
      first, i := first - entrysize, i - 1;
    }
  }

  /** Go on from an entry with the name to the last one. */
  method LastEntry(t: seq<byte>, entrysize: nat, name: seq<byte>, entry: nat, lastentry: nat, ghost es: seq<Entry>,
                   ghost mid: nat)
    returns (last: nat, ghost j: nat)
    requires Table(t, entrysize, es) && Sorted(es) && NameOk(name) && entrysize > 0
    requires mid < |es| && entry == Slot(mid, entrysize) && es[mid].name == name
    requires lastentry == Slot(|es| - 1, entrysize)
    ensures mid <= j < |es| && last == Slot(j, entrysize)
    ensures forall k :: mid <= k < |es| ==> (es[k].name == name <==> k <= j)
  {
    hide Sorted, Compare, Stored;
    last, j := entry, mid;
    SlotOrder(j, |es| - 1, entrysize);
    while last < lastentry
      invariant mid <= j < |es| && last == Slot(j, entrysize) && (j == |es| - 1 <==> last >= lastentry)
      invariant forall k :: mid <= k <= j ==> es[k].name == name
      decreases |es| - j
    {
      var c := StrCmp(name, t, last + entrysize, entrysize, es[j + 1]);
      CompareEqual(name, es[j + 1].name);
      if c != 0 {
        forall k | j < k < |es| ensures es[k].name != name {
          RunStops(es, name, j + 1, mid, k);
        }
        break;
      }
      last, j := last + entrysize, j + 1;
      SlotOrder(j, |es| - 1, entrysize);
    }
  }

  /** Create the table from the groups found in the first pass. */
  method CreateTable(list: seq<Entry>, size: nat) returns (cd: CompileData)
    requires |list| < 65536 && forall k :: 0 <= k < |list| ==>
              list[k].number < 65536 && NameOk(list[k].name) && |list[k].name| + IMM2_SIZE + 1 <= size
    ensures fresh(cd) && cd.Valid() && cd.nameEntrySize == size && cd.entries == Build(list)
  {
    hide Table, Insert;
    cd := new CompileData(|list|, size);
    var i := 0;
    while i < |list|
      invariant 0 <= i <= |list| && fresh(cd) && fresh(cd.nameTable) && cd.Valid() && cd.nameEntrySize == size
      invariant cd.nameTable.Length == Slot(|list|, size) && cd.entries == Build(list[..i])
    {
      SlotOrder(i + 1, |list|, size);
      cd.AddName(list[i].name, list[i].number);
      assert list[..i + 1][..i] == list[..i];
      i := i + 1;
    }
    assert list[..i] == list;
  }
}
