/** What the DFA engine does with one active state: the states it adds to the list
  * for the current character and to the list for the next one.
  */
module DfaStates {
  import opened Opcodes
  import opened Tree
  import opened Meaning
  import opened Machine
  import opened Decoding

  /** A negative offset holds its state back until data more characters have gone by. */
  datatype StateBlock = StateBlock(offset: int, count: nat, data: nat)

  /** The configuration a state stands for when its list belongs to position ptr. */
  function ConfOf(st: StateBlock, ptr: nat): Conf {
    Conf(if st.offset < 0 then -st.offset else st.offset, st.count, ptr + st.data)
  }

  ghost predicate Listed(list: seq<StateBlock>, ptr: nat, d: Conf) {
    || (d.p == ptr && StateBlock(d.o, d.cnt, 0) in list)
    || (d.p >= ptr && StateBlock(-(d.o as int), d.cnt, d.p - ptr) in list)
  }

  /** Adding the states now for the current position and next for the one after it
    * is exactly what the instruction does to the configuration c. */
  ghost predicate Expands(env: Env, facts: iset<Fact>, i: Instr, c: Conf, now: seq<StateBlock>, next: seq<StateBlock>) {
    && (forall st :: st in now ==> st.offset > 0 && st.data == 0)
    && (forall st :: st in next ==>
          st.offset != 0 && (st.offset > 0 ==> st.data == 0) && c.p + 1 + st.data <= |env.s|)
    && forall d :: Does(env, facts, i, c, d) <==> Listed(now, c.p, d) || Listed(next, c.p + 1, d)
  }

  /** The workspace macro: append unless the list is full. */
  method Add(list: seq<StateBlock>, limit: int, st: StateBlock) returns (ok: bool, r: seq<StateBlock>)
    ensures ok == (|list| < limit)
    ensures r == if ok then list + [st] else list
  {
    if |list| < limit {
      return true, list + [st];
    }
    return false, list;
  }

  // ---------- character tests as the engine writes them ----------

  function TopTable1(op: byte): bv8
    requires IsType(op)
  {
    if op <= OP_DIGIT then CTYPE_DIGIT
    else if op <= OP_WHITESPACE then CTYPE_SPACE
    else if op <= OP_WORDCHAR then CTYPE_WORD
    else 0
  }

  function TopTable2(op: byte): bv8
    requires IsType(op)
  {
    if op == OP_NOT_DIGIT then CTYPE_DIGIT
    else if op == OP_NOT_WHITESPACE then CTYPE_SPACE
    else if op == OP_NOT_WORDCHAR then CTYPE_WORD
    else if op >= OP_ANY then 1
    else 0
  }

  lemma MaskTest(t: bv8)
    ensures ((t & CTYPE_DIGIT) ^ 0) != 0 <==> t & CTYPE_DIGIT != 0
    ensures ((t & CTYPE_DIGIT) ^ CTYPE_DIGIT) != 0 <==> t & CTYPE_DIGIT == 0
    ensures ((t & CTYPE_SPACE) ^ 0) != 0 <==> t & CTYPE_SPACE != 0
    ensures ((t & CTYPE_SPACE) ^ CTYPE_SPACE) != 0 <==> t & CTYPE_SPACE == 0
    ensures ((t & CTYPE_WORD) ^ 0) != 0 <==> t & CTYPE_WORD != 0
    ensures ((t & CTYPE_WORD) ^ CTYPE_WORD) != 0 <==> t & CTYPE_WORD == 0
    ensures ((t & 0) ^ 1) != 0
  {
  }

  /** The two-table test decides what the type opcode means. */
  method TypeTest(env: Env, op: byte, ptr: nat) returns (hit: bool)
    requires env.Ok() && IsType(op)
    ensures hit == HitAt(env, Type(op), ptr)
  {
    if ptr >= |env.s| {
      return false;
    }
    var c := env.s[ptr];
    MaskTest(env.ctypes[c]);
    hit := (op != OP_ANY || c != env.nl) && ((env.ctypes[c] & TopTable1(op)) ^ TopTable2(op)) != 0;
  }

  /** The test of a repeated character: caseless comparison by case flipping. */
  method CharTest(env: Env, run: nat, d: byte, ptr: nat) returns (hit: bool)
    requires env.Ok() && run < 4
    ensures hit == HitAt(env, Chr(OP_CHAR + run, d), ptr)
  {
    if ptr >= |env.s| {
      return false;
    }
    var c := env.s[ptr];
    var otherd := if run % 2 == 1 then env.fcc[d] else d;
    hit := (c == d || c == otherd) == (run < 2);
  }

  /** The test of a single character: OP_CHARI compares the lower-cased values. */
  method SingleTest(env: Env, op: byte, d: byte, ptr: nat) returns (hit: bool)
    requires env.Ok() && IsSingleChar(op)
    ensures hit == HitAt(env, Chr(op, d), ptr)
  {
    if ptr >= |env.s| {
      return false;
    }
    var c := env.s[ptr];
    if op == OP_CHAR {
      hit := c == d;
    } else if op == OP_CHARI {
      hit := env.lcc[c] == env.lcc[d];
    } else if op == OP_NOT {
      hit := c != d;
    } else {
      var otherd := env.fcc[d];
      hit := c != d && c != otherd;
    }
  }

  // ---------- repeats ----------

  /** The states for a repeat with minimum min and maximum max at offset o. */
  function RepeatNow(min: nat, poss: bool, cnt: nat, hit: bool, next: nat): seq<StateBlock> {
    if cnt >= min && !(poss && hit) then [StateBlock(next, 0, 0)] else []
  }

  function RepeatNext(min: nat, max: int, o: nat, cnt: nat, hit: bool, next: nat): seq<StateBlock> {
    if hit then (var d := AfterHit(o, cnt, 0, min, max, next); [StateBlock(d.o, d.cnt, 0)]) else []
  }

  /** One repeated character or type: k is the opcode's place in its run of thirteen.
    * A possessive repeat takes back the way out it has just added. */
  method ExpandRepeat(k: nat, n: nat, o: nat, next: nat, cnt: nat, hit: bool,
                      active: seq<StateBlock>, coming: seq<StateBlock>, limit: int)
    returns (ok: bool, act: seq<StateBlock>, fr: seq<StateBlock>)
    requires RepOk(Type(OP_ANY), k, 0, n)
    requires k == K_EXACT ==> cnt < n
    ensures var min, max := RepMin(Type(OP_ANY), k, 0, n), RepMax(Type(OP_ANY), k, 0, n);
            ok ==> && act == active + RepeatNow(min, k >= K_POSSTAR, cnt, hit, next)
                   && fr == coming + RepeatNext(min, max, o, cnt, hit, next)
    ensures |active| < limit && |coming| < limit ==> ok
  {
    act, fr := active, coming;
    if k == K_PLUS || k == K_MINPLUS || k == K_POSPLUS {
      ok := true;
      if cnt > 0 {
        ok, act := Add(act, limit, StateBlock(next, 0, 0));
      }
      if ok && hit {
        if cnt > 0 && k == K_POSPLUS {
          act := act[..|act| - 1];
        }
        ok, fr := Add(fr, limit, StateBlock(o, cnt + 1, 0));
      }
    } else if k == K_QUERY || k == K_MINQUERY || k == K_POSQUERY {
      ok, act := Add(act, limit, StateBlock(next, 0, 0));
      if ok && hit {
        if k == K_POSQUERY {
          act := act[..|act| - 1];
        }
        ok, fr := Add(fr, limit, StateBlock(next, 0, 0));
      }
    } else if k == K_STAR || k == K_MINSTAR || k == K_POSSTAR {
      ok, act := Add(act, limit, StateBlock(next, 0, 0));
      if ok && hit {
        if k == K_POSSTAR {
          act := act[..|act| - 1];
        }
        ok, fr := Add(fr, limit, StateBlock(o, 0, 0));
      }
    } else if k == K_EXACT {
      ok := true;
      if hit {
        if cnt + 1 >= n {
          ok, fr := Add(fr, limit, StateBlock(next, 0, 0));
        } else {
          ok, fr := Add(fr, limit, StateBlock(o, cnt + 1, 0));
        }
      }
    } else {
      ok, act := Add(act, limit, StateBlock(next, 0, 0));
      if ok && hit {
        if k == K_POSUPTO {
          act := act[..|act| - 1];
        }
        if cnt + 1 >= n {
          ok, fr := Add(fr, limit, StateBlock(next, 0, 0));
        } else {
          ok, fr := Add(fr, limit, StateBlock(o, cnt + 1, 0));
        }
      }
    }
  }

  /** A class with whatever quantifier follows its bitmap. */
  method ExpandClassRepeat(k: nat, lo: nat, hi: nat, o: nat, next: nat, cnt: nat, hit: bool,
                           active: seq<StateBlock>, coming: seq<StateBlock>, limit: int)
    returns (ok: bool, act: seq<StateBlock>, fr: seq<StateBlock>)
    requires RepOk(Cls(OP_CLASS, seq(BITMAP_SIZE, _ => 0)), k, lo, hi)
    ensures var atom := Cls(OP_CLASS, []);
            var min, max := RepMin(atom, k, lo, hi), RepMax(atom, k, lo, hi);
            ok ==> && act == active + RepeatNow(min, RepPoss(atom, k), cnt, hit, next)
                   && fr == coming + RepeatNext(min, max, o, cnt, hit, next)
    ensures |active| < limit && |coming| < limit ==> ok
  {
    act, fr := active, coming;
    if k == K_STAR || k == K_MINSTAR || k == K_CRPOSSTAR {
      ok, act := Add(act, limit, StateBlock(next, 0, 0));
      if ok && hit {
        if k == K_CRPOSSTAR {
          act := act[..|act| - 1];
        }
        ok, fr := Add(fr, limit, StateBlock(o, 0, 0));
      }
    } else if k == K_PLUS || k == K_MINPLUS || k == K_CRPOSPLUS {
      ok := true;
      if cnt > 0 {
        ok, act := Add(act, limit, StateBlock(next, 0, 0));
      }
      if ok && hit {
        if cnt > 0 && k == K_CRPOSPLUS {
          act := act[..|act| - 1];
        }
        ok, fr := Add(fr, limit, StateBlock(o, cnt + 1, 0));
      }
    } else if k == K_QUERY || k == K_MINQUERY || k == K_CRPOSQUERY {
      ok, act := Add(act, limit, StateBlock(next, 0, 0));
      if ok && hit {
        if k == K_CRPOSQUERY {
          act := act[..|act| - 1];
        }
        ok, fr := Add(fr, limit, StateBlock(next, 0, 0));
      }
    } else {
      ok := true;
      if cnt >= lo {
        ok, act := Add(act, limit, StateBlock(next, 0, 0));
      }
      if ok && hit {
        if k == K_CRPOSRANGE && cnt >= lo {
          act := act[..|act| - 1];
        }
        if cnt + 1 >= hi && hi != 0 {
          ok, fr := Add(fr, limit, StateBlock(next, 0, 0));
        } else {
          ok, fr := Add(fr, limit, StateBlock(o, cnt + 1, 0));
        }
      }
    }
  }

  // ---------- brackets ----------

  function AtZero(starts: seq<nat>): (r: seq<StateBlock>)
    ensures |r| == |starts|
    ensures forall k :: 0 <= k < |r| ==> r[k] == StateBlock(starts[k], 0, 0)
  {
    seq(|starts|, k requires 0 <= k < |starts| => StateBlock(starts[k], 0, 0))
  }

  /** The list with a state added for each branch, the first one at st. */
  ghost function WithBranches(list: seq<StateBlock>, code: seq<byte>, h: nat, st: nat): seq<StateBlock>
    requires ChainOk(code, h)
    decreases |code| - h
  {
    var n := h + Get(code, h + 1);
    var r := list + [StateBlock(st, 0, 0)];
    if code[n] == OP_ALT then WithBranches(r, code, n, n + 3) else r
  }

  lemma Regroup(list: seq<StateBlock>, st: nat, more: seq<nat>)
    ensures list + [StateBlock(st, 0, 0)] + AtZero(more) == list + AtZero([st] + more)
    ensures list + [StateBlock(st, 0, 0)] == list + AtZero([st])
  {
  }

  lemma {:induction false} WithBranchesIs(list: seq<StateBlock>, code: seq<byte>, h: nat, st: nat)
    requires ChainOk(code, h)
    ensures WithBranches(list, code, h, st) == list + AtZero(AltStarts(code, h, st))
    decreases |code| - h
  {
    hide AtZero;
    var n := h + Get(code, h + 1);
    var r := list + [StateBlock(st, 0, 0)];
    if code[n] == OP_ALT {
      WithBranchesIs(r, code, n, n + 3);
      Regroup(list, st, AltStarts(code, n, n + 3));
    } else {
      Regroup(list, st, []);
      assert AltStarts(code, h, st) == [st];
    }
  }

  lemma {:induction false} BranchesFew(list: seq<StateBlock>, code: seq<byte>, h: nat, st: nat)
    requires ChainOk(code, h)
    ensures |list| < |WithBranches(list, code, h, st)|
    decreases |code| - h
  {
    var n := h + Get(code, h + 1);
    if code[n] == OP_ALT {
      BranchesFew(list + [StateBlock(st, 0, 0)], code, n, n + 3);
    }
  }

  lemma BranchesOn(list: seq<StateBlock>, code: seq<byte>, h: nat, st: nat)
    requires ChainOk(code, h)
    ensures h + 3 <= |code|
    ensures var n, r := h + Get(code, h + 1), list + [StateBlock(st, 0, 0)];
            && h < n < |code| && (code[n] == OP_ALT ==> ChainOk(code, n))
            && WithBranches(list, code, h, st) == if code[n] == OP_ALT then WithBranches(r, code, n, n + 3) else r
  {
  }

  /** The loop below has reached h with r appended; all is what it will end with. */
  ghost predicate Opening(all: seq<StateBlock>, r: seq<StateBlock>, code: seq<byte>, h: nat) {
    && h < |code| && (code[h] == OP_ALT ==> ChainOk(code, h))
    && all == if code[h] == OP_ALT then WithBranches(r, code, h, h + 3) else r
  }

  lemma OpenNext(all: seq<StateBlock>, list: seq<StateBlock>, code: seq<byte>, h: nat, st: nat)
    requires ChainOk(code, h) && all == WithBranches(list, code, h, st)
    ensures h + 3 <= |code| && h < h + Get(code, h + 1) < |code|
    ensures Opening(all, list + [StateBlock(st, 0, 0)], code, h + Get(code, h + 1))
    ensures |list| < |all|
  {
    BranchesFew(list, code, h, st);
    BranchesOn(list, code, h, st);
  }

  lemma AtOpening(all: seq<StateBlock>, r: seq<StateBlock>, code: seq<byte>, h: nat)
    requires Opening(all, r, code, h)
    ensures h < |code|
    ensures if code[h] == OP_ALT then ChainOk(code, h) && all == WithBranches(r, code, h, h + 3) else all == r
  {
  }

  lemma ChainHead(code: seq<byte>, h: nat)
    requires ChainOk(code, h)
    ensures h + 3 <= |code|
  {
  }

  /** Append a state for the start of each branch of the bracket at o. */
  method OpenBranches(code: seq<byte>, o: nat, list: seq<StateBlock>, limit: int)
    returns (ok: bool, r: seq<StateBlock>)
    requires ChainOk(code, o)
    ensures ok ==> r == WithBranches(list, code, o, o + BraSize(code[o]))
    ensures |WithBranches(list, code, o, o + BraSize(code[o]))| <= limit ==> ok
  {
    hide WithBranches, ChainOk, Opening;
    ChainHead(code, o);
    var st := o + BraSize(code[o]);
    ghost var all := WithBranches(list, code, o, st);
    OpenNext(all, list, code, o, st);
    ok, r := Add(list, limit, StateBlock(st, 0, 0));
    if !ok {
      return;
    }
    var h := o + Get(code, o + 1);
    AtOpening(all, r, code, h);
    while code[h] == OP_ALT
      invariant h < |code| && Opening(all, r, code, h)
      decreases |code| - h
    {
      AtOpening(all, r, code, h);
      OpenNext(all, r, code, h, h + 3);
      ok, r := Add(r, limit, StateBlock(h + 3, 0, 0));
      if !ok {
        return;
      }
      h := h + Get(code, h + 1);
    }
    AtOpening(all, r, code, h);
  }

  lemma {:induction false} StartsPositive(code: seq<byte>, h: nat, st: nat)
    requires ChainOk(code, h) && st > 0
    ensures forall o :: o in AltStarts(code, h, st) ==> o > 0
    decreases |code| - h
  {
    var n := h + Get(code, h + 1);
    if code[n] == OP_ALT {
      StartsPositive(code, n, n + 3);
    }
  }

  lemma OpenExpands(env: Env, facts: iset<Fact>, starts: seq<nat>, c: Conf)
    requires forall o :: o in starts ==> o > 0
    ensures Expands(env, facts, IOpen(starts), c, AtZero(starts), [])
  {
    forall st | st in AtZero(starts) ensures st.offset > 0 && st.data == 0 {
      var k :| 0 <= k < |starts| && AtZero(starts)[k] == st;
      assert starts[k] in starts;
    }
    forall d: Conf ensures StateBlock(d.o, d.cnt, 0) in AtZero(starts) <==> d.o in starts && d.cnt == 0 {
      if d.o in starts && d.cnt == 0 {
        var k :| 0 <= k < |starts| && starts[k] == d.o;
        assert AtZero(starts)[k] == StateBlock(d.o, d.cnt, 0);
      }
    }
  }

  // ---------- one state ----------

  /** The states an instruction other than a call adds for the current position. */
  function NowStates(env: Env, i: Instr, c: Conf): seq<StateBlock>
    requires !i.ICall?
  {
    match i
    case IAnchor(op, next) => if AnchorHolds(env, op, c.p) then [StateBlock(next, 0, 0)] else []
    case IRep(atom, min, _, poss, next) => RepeatNow(min, poss, c.cnt, HitAt(env, atom, c.p), next)
    case IOpen(starts) => AtZero(starts)
    case IAlt(end) => [StateBlock(end, 0, 0)]
    case IKet(next, back) =>
      [StateBlock(next, 0, 0)] + if back.Some? then [StateBlock(back.value, 0, 0)] else []
    case IZero(inside, after) =>
      (if inside.Some? then [StateBlock(inside.value, 0, 0)] else []) + [StateBlock(after, 0, 0)]
    case _ => []
  }

  /** The states it adds for the next position. */
  function NextStates(env: Env, i: Instr, c: Conf): seq<StateBlock>
    requires !i.ICall?
  {
    match i
    case IOne(atom, next) => if HitAt(env, atom, c.p) then [StateBlock(next, 0, 0)] else []
    case IRep(atom, min, max, _, next) => RepeatNext(min, max, c.o, c.cnt, HitAt(env, atom, c.p), next)
    case _ => []
  }

  /** Every offset the instruction names is a real one. */
  predicate Positive(i: Instr) {
    match i
    case IBad => false
    case IOpen(starts) => forall o :: o in starts ==> o > 0
    case IKet(next, back) => next > 0 && (back.Some? ==> back.value > 0)
    case IZero(inside, after) => after > 0 && (inside.Some? ==> inside.value > 0)
    case IAlt(end) => end > 0
    case _ => i.next > 0
  }

  lemma RepeatExpands(env: Env, facts: iset<Fact>, i: Instr, c: Conf)
    requires i.IRep? && i.next > 0 && c.o > 0
    ensures Expands(env, facts, i, c, NowStates(env, i, c), NextStates(env, i, c))
  {
  }

  lemma StatesExpand(env: Env, facts: iset<Fact>, i: Instr, c: Conf)
    requires !i.ICall? && Positive(i) && c.o > 0
    ensures Expands(env, facts, i, c, NowStates(env, i, c), NextStates(env, i, c))
  {
    if i.IOpen? {
      OpenExpands(env, facts, i.starts, c);
    } else if i.IRep? {
      RepeatExpands(env, facts, i, c);
    }
  }

  lemma DecodedIsPositive(code: seq<byte>, o: nat)
    requires Decode(code, o) != IBad
    requires var i := Decode(code, o); i.IKet? && i.back.Some? ==> i.back.value > 0
    ensures Positive(Decode(code, o))
  {
    if Decode(code, o).IOpen? {
      StartsPositive(code, o, o + BraSize(code[o]));
    }
  }

  /** How many states an instruction other than a call can add for the current position. */
  function Widest(i: Instr): nat {
    if i.IOpen? then |i.starts| else 2
  }

  /** It has no more successors than that, with real offsets. */
  lemma StatesAreFew(env: Env, i: Instr, c: Conf)
    requires !i.ICall? && Positive(i) && c.o > 0
    ensures |NowStates(env, i, c)| <= Widest(i) && |NextStates(env, i, c)| <= 1
    ensures forall st :: st in NextStates(env, i, c) ==> st.offset > 0
  {
  }

  method ExpandAnchor(env: Env, op: byte, ptr: nat) returns (holds: bool)
    requires IsAnchor(op) && ptr <= |env.s|
    ensures holds == AnchorHolds(env, op, ptr)
  {
    if op == OP_CIRC {
      holds := ptr == 0 && !env.notbol;
    } else if op == OP_SOD {
      holds := ptr == 0;
    } else if op == OP_EOD {
      holds := ptr >= |env.s|;
    } else {
      var clen := if ptr < |env.s| then 1 else 0;
      holds := !env.noteol &&
      (clen == 0 || (!env.dollarEndonly && env.s[ptr] == env.nl && ptr == |env.s| - 1));
    }
  }

  /** A repeated character or character type. */
  method ExpandRepeated(env: Env, code: seq<byte>, o: nat, cnt: nat, ptr: nat,
                        active: seq<StateBlock>, coming: seq<StateBlock>, limit: int)
    returns (ok: bool, act: seq<StateBlock>, fr: seq<StateBlock>)
    requires env.Ok() && o < |code| && IsRepeat(code[o]) && Decode(code, o).IRep?
    requires var i := Decode(code, o); i.max != -1 ==> cnt < i.max
    ensures var i, c := Decode(code, o), Conf(o, cnt, ptr);
            ok ==> act == active + NowStates(env, i, c) && fr == coming + NextStates(env, i, c)
    ensures |active| < limit && |coming| < limit ==> ok
  {
    var k := (code[o] - OP_STAR) % 13;
    var run := (code[o] - OP_STAR) / 13;
    var size := if HasCount(k) then 4 else 2;
    var d := code[o + size - 1];
    var n := if HasCount(k) then Get(code, o + 1) else 0;
    var hit;
    if run == 4 {
      hit := TypeTest(env, d, ptr);
    } else {
      hit := CharTest(env, run, d, ptr);
    }
    ok, act, fr := ExpandRepeat(k, n, o, o + size, cnt, hit, active, coming, limit);
  }

  /** A character class with the quantifier that may follow it. */
  method ExpandClass(env: Env, code: seq<byte>, o: nat, cnt: nat, ptr: nat,
                     active: seq<StateBlock>, coming: seq<StateBlock>, limit: int)
    returns (ok: bool, act: seq<StateBlock>, fr: seq<StateBlock>)
    requires env.Ok() && o < |code| && IsClass(code[o]) && Decode(code, o) != IBad
    ensures var i, c := Decode(code, o), Conf(o, cnt, ptr);
            ok ==> act == active + NowStates(env, i, c) && fr == coming + NextStates(env, i, c)
    ensures |active| < limit && |coming| < limit ==> ok
  {
    var ecode := o + 1 + BITMAP_SIZE;
    var hit := ptr < |env.s| && InBitmap(code[o + 1..ecode], env.s[ptr]);
    if IsClassRepeat(code[ecode]) {
      var k := code[ecode] - OP_CRSTAR;
      var lo := if HasRange(k) then Get(code, ecode + 1) else 0;
      var hi := if HasRange(k) then Get(code, ecode + 3) else 0;
      var next := ecode + if HasRange(k) then 5 else 1;
      ok, act, fr := ExpandClassRepeat(k, lo, hi, o, next, cnt, hit, active, coming, limit);
    } else {
      act, fr, ok := active, coming, true;
      if hit {
        ok, fr := Add(coming, limit, StateBlock(ecode, 0, 0));
      }
    }
  }

  /** A single character or character type. */
  method ExpandSingle(env: Env, code: seq<byte>, o: nat, cnt: nat, ptr: nat, coming: seq<StateBlock>, limit: int)
    returns (ok: bool, fr: seq<StateBlock>)
    requires env.Ok() && o < |code| && (IsSingleChar(code[o]) || IsType(code[o])) && Decode(code, o) != IBad
    ensures var i, c := Decode(code, o), Conf(o, cnt, ptr);
            i.IOne? && (ok ==> fr == coming + NextStates(env, i, c))
    ensures |coming| < limit ==> ok
  {
    var op := code[o];
    var next := if IsType(op) then o + 1 else o + 2;
    var hit;
    if IsType(op) {
      hit := TypeTest(env, op, ptr);
    } else {
      hit := SingleTest(env, op, code[o + 1], ptr);
    }
    ok, fr := true, coming;
    if hit {
      ok, fr := Add(coming, limit, StateBlock(next, 0, 0));
    }
  }

  /** An opening or optional group. */
  method ExpandOpening(env: Env, code: seq<byte>, o: nat, cnt: nat, ptr: nat, active: seq<StateBlock>, limit: int)
    returns (ok: bool, act: seq<StateBlock>)
    requires o < |code| && (IsBra(code[o]) || IsZero(code[o])) && Decode(code, o) != IBad
    ensures var i, c := Decode(code, o), Conf(o, cnt, ptr);
            && (i.IOpen? || i.IZero?) && (ok ==> act == active + NowStates(env, i, c))
            && (|active| + Widest(i) <= limit ==> ok)
  {
    var op := code[o];
    if IsBra(op) {
      WithBranchesIs(active, code, o, o + BraSize(op));
      ok, act := OpenBranches(code, o, active, limit);
    } else {
      ok, act := true, active;
      if op != OP_SKIPZERO {
        ok, act := Add(act, limit, StateBlock(o + 1, 0, 0));
      }
      if ok {
        var end := SkipBranches(code, o + 1);
        ok, act := Add(act, limit, StateBlock(end + 3, 0, 0));
      }
    }
  }

  /** An alternative's end, a ket, or a test of the current position. */
  method ExpandClosing(env: Env, code: seq<byte>, o: nat, cnt: nat, ptr: nat, active: seq<StateBlock>, limit: int)
    returns (ok: bool, act: seq<StateBlock>)
    requires o < |code| && ptr <= |env.s| && Decode(code, o) != IBad
    requires code[o] == OP_ALT || IsKet(code[o]) || IsAnchor(code[o])
    ensures var i, c := Decode(code, o), Conf(o, cnt, ptr);
            (i.IAlt? || i.IKet? || i.IAnchor?) && (ok ==> act == active + NowStates(env, i, c))
    ensures |active| + 2 <= limit ==> ok
  {
    var op := code[o];
    ok, act := true, active;
    if op == OP_ALT {
      var end := SkipBranches(code, o);
      ok, act := Add(act, limit, StateBlock(end, 0, 0));
    } else if IsKet(op) {
      ok, act := Add(act, limit, StateBlock(o + 3, 0, 0));
      if ok && op != OP_KET {
        ok, act := Add(act, limit, StateBlock(o - Get(code, o + 1), 0, 0));
      }
    } else {
      var holds := ExpandAnchor(env, op, ptr);
      if holds {
        ok, act := Add(act, limit, StateBlock(o + 1, 0, 0));
      }
    }
  }
}
