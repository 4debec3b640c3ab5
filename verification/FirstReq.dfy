/** The first and the required character of a pattern, as the second compile pass
  * gathers them. The main result is that what it finds is true of every match: it
  * starts with the first character, and the required character occurs in it, after
  * the first one if that is known too.
  */
module FirstReq {
  import opened Opcodes
  import opened Tree
  import opened Meaning
  import opened Pattern
  import opened Expansion

  const REQ_UNSET := -2
  const REQ_NONE := -1
  const REQ_CASELESS := 1
  const REQ_VARY := 2

  /** A character with its flags; negative flags say that there is none. */
  datatype Char = Char(c: byte, flags: int)

  const UNSET := Char(0, REQ_UNSET)

  predicate FlagsOk(flags: int) {
    REQ_UNSET <= flags <= REQ_CASELESS + REQ_VARY
  }

  predicate Caseless(flags: int) {
    flags == REQ_CASELESS || flags == REQ_CASELESS + REQ_VARY
  }

  /** The flags with REQ_VARY added, or taken away, as the bit operations do it. */
  function WithVary(flags: int, vary: bool): int {
    if vary && 0 <= flags < REQ_VARY then flags + REQ_VARY else flags
  }

  function NoVary(flags: int): int {
    if flags >= REQ_VARY || flags < 0 then flags - REQ_VARY else flags
  }

  function OrFlags(a: int, b: int): int {
    if a < 0 then a else WithVary(a, b >= REQ_VARY)
  }

  // ---------- what the characters claim about a match ----------

  /** The character at position i is ch, possibly in the other case. */
  predicate Sees(env: Env, ch: Char, i: nat)
    requires |env.fcc| == 256
  {
    i < |env.s| && (env.s[i] == ch.c || (Caseless(ch.flags) && env.s[i] == env.fcc[ch.c]))
  }

  ghost predicate SeesIn(env: Env, ch: Char, p: nat, q: nat)
    requires |env.fcc| == 256
  {
    exists i: nat :: p <= i < q && Sees(env, ch, i)
  }

  /** From where on the required character is to be found. */
  function ReqFrom(first: Char, p: nat): nat {
    if first.flags >= 0 then p + 1 else p
  }

  /** The claim about a match from p to q. */
  ghost predicate Claims(env: Env, first: Char, req: Char, p: nat, q: nat)
    requires |env.fcc| == 256
  {
    && (first.flags >= 0 ==> q > p && Sees(env, first, p))
    && (req.flags >= 0 ==> SeesIn(env, req, ReqFrom(first, p), q))
  }

  /** While a branch is scanned, REQ_UNSET also claims that nothing has been
    * matched so far. */
  ghost predicate Holds(env: Env, first: Char, req: Char, p: nat, m: nat)
    requires |env.fcc| == 256
  {
    && Claims(env, first, req, p, m)
    && (first.flags == REQ_UNSET ==> m == p && req.flags < 0)
  }

  /** The claims about a prefix stay true when more is matched. */
  lemma ClaimsGrow(env: Env, first: Char, req: Char, p: nat, m: nat, n: nat)
    requires |env.fcc| == 256 && Claims(env, first, req, p, m) && m <= n
    ensures Claims(env, first, req, p, n)
  {
    if req.flags >= 0 {
      var i: nat :| ReqFrom(first, p) <= i < m && Sees(env, req, i);
      assert i < n;
    }
  }

  ghost predicate Setting(env: Env, facts: iset<Fact>) {
    env.Ok() && FactsOk(env, facts)
  }

  ghost predicate ChoiceClaims(c: Choice, first: Char, req: Char) {
    forall env: Env, facts: iset<Fact>, p: nat, q: nat ::
      Setting(env, facts) && p <= |env.s| && MeansChoice(env, facts, c, p, q) ==> Claims(env, first, req, p, q)
  }

  ghost predicate SequenceClaims(s: Sequence, first: Char, req: Char) {
    forall env: Env, facts: iset<Fact>, p: nat, q: nat ::
      Setting(env, facts) && p <= |env.s| && MeansSequence(env, facts, s, p, q) ==> Claims(env, first, req, p, q)
  }

  /** If the first pair holds before the node, the second holds behind it. */
  ghost predicate Steps(n: Node, first: Char, req: Char, first': Char, req': Char) {
    forall env: Env, facts: iset<Fact>, p: nat, m: nat, q: nat ::
      Setting(env, facts) && p <= m <= |env.s| && Holds(env, first, req, p, m) && MeansNode(env, facts, n, m, q)
      ==> Holds(env, first', req', p, q)
  }

  /** The pair to fall back on: it claims no more than what was known before the
    * item, and does not say that nothing was matched. */
  ghost predicate FallBack(first: Char, req: Char, zeroFirst: Char, zeroReq: Char) {
    && zeroFirst.flags != REQ_UNSET
    && forall env: Env, p: nat, m: nat ::
         env.Ok() && p <= m && Holds(env, first, req, p, m) ==> Claims(env, zeroFirst, zeroReq, p, m)
  }

  // ---------- one item ----------

  lemma StepAssert(op: byte, first: Char, req: Char)
    ensures Steps(Assert(op), first, req, first, req)
  {
  }

  /** Anything that consumes characters without naming one. */
  lemma StepOther(n: Node, first: Char, req: Char)
    requires FlagsOk(first.flags)
    ensures var first' := if first.flags == REQ_UNSET then Char(first.c, REQ_NONE) else first;
            Steps(n, first, req, first', req) && FallBack(first, req, first', req)
  {
    var first' := if first.flags == REQ_UNSET then Char(first.c, REQ_NONE) else first;
    forall env: Env, facts: iset<Fact>, p: nat, m: nat, q: nat
      | Setting(env, facts) && p <= m <= |env.s| && Holds(env, first, req, p, m) && MeansNode(env, facts, n, m, q)
      ensures Holds(env, first', req, p, q)
    {
      NodeBounds(env, facts, n, m, q);
      ClaimsGrow(env, first, req, p, m, q);
    }
  }

  /** A literal character. */
  function LiteralFirst(first: Char, c: byte, caseopt: int): Char {
    if first.flags == REQ_UNSET then Char(c, caseopt) else first
  }

  function LiteralReq(first: Char, req: Char, c: byte, caseopt: int, vary: bool): Char {
    if first.flags == REQ_UNSET then req else Char(c, WithVary(caseopt, vary))
  }

  function LiteralZero(first: Char): Char {
    if first.flags == REQ_UNSET then Char(first.c, REQ_NONE) else first
  }

  predicate IsLiteral(atom: Atom, c: byte, caseopt: int) {
    (atom == Chr(OP_CHAR, c) && caseopt == 0) || (atom == Chr(OP_CHARI, c) && caseopt == REQ_CASELESS)
  }

  lemma StepLiteral(atom: Atom, c: byte, caseopt: int, first: Char, req: Char, vary: bool)
    requires IsLiteral(atom, c, caseopt) && FlagsOk(first.flags)
    ensures Steps(Single(atom), first, req, LiteralFirst(first, c, caseopt), LiteralReq(first, req, c, caseopt, vary))
    ensures FallBack(first, req, LiteralZero(first), req)
  {
    var first', req' := LiteralFirst(first, c, caseopt), LiteralReq(first, req, c, caseopt, vary);
    forall env: Env, facts: iset<Fact>, p: nat, m: nat, q: nat
      | Setting(env, facts) && p <= m <= |env.s| && Holds(env, first, req, p, m)
        && MeansNode(env, facts, Single(atom), m, q)
      ensures Holds(env, first', req', p, q)
    {
      assert Sees(env, first', m) || first.flags != REQ_UNSET;
      if first.flags != REQ_UNSET {
        assert Sees(env, req', m) && ReqFrom(first', p) <= m < q;
      }
    }
  }

  lemma ChoiceClaimsAt(env: Env, facts: iset<Fact>, c: Choice, first: Char, req: Char, p: nat, q: nat)
    requires ChoiceClaims(c, first, req) && Setting(env, facts) && p <= |env.s| && MeansChoice(env, facts, c, p, q)
    ensures Claims(env, first, req, p, q)
  {
  }

  lemma SequenceClaimsAt(env: Env, facts: iset<Fact>, s: Sequence, first: Char, req: Char, p: nat, q: nat)
    requires SequenceClaims(s, first, req) && Setting(env, facts) && p <= |env.s| && MeansSequence(env, facts, s, p, q)
    ensures Claims(env, first, req, p, q)
  {
  }

  /** A group, given what is known of its contents. */
  function GroupFirst(first: Char, sub: Char): Char {
    if first.flags == REQ_UNSET then (if sub.flags >= 0 then sub else Char(first.c, REQ_NONE)) else first
  }

  function GroupReq(first: Char, req: Char, subFirst: Char, subReq: Char, vary: bool): Char {
    var r := if first.flags != REQ_UNSET && subFirst.flags >= 0 && subReq.flags < 0
             then Char(subFirst.c, WithVary(subFirst.flags, vary)) else subReq;
    if r.flags >= 0 then r else req
  }

  lemma StepGroup(num: nat, c: Choice, first: Char, req: Char, subFirst: Char, subReq: Char, vary: bool)
    requires ChoiceClaims(c, subFirst, subReq) && FlagsOk(first.flags) && FlagsOk(subFirst.flags)
    requires FlagsOk(subReq.flags)
    ensures Steps(Sub(num, c), first, req, GroupFirst(first, subFirst), GroupReq(first, req, subFirst, subReq, vary))
    ensures FallBack(first, req, LiteralZero(first), req)
  {
    var first', req' := GroupFirst(first, subFirst), GroupReq(first, req, subFirst, subReq, vary);
    forall env: Env, facts: iset<Fact>, p: nat, m: nat, q: nat
      | Setting(env, facts) && p <= m <= |env.s| && Holds(env, first, req, p, m)
        && MeansNode(env, facts, Sub(num, c), m, q)
      ensures Holds(env, first', req', p, q)
    {
      NodeBounds(env, facts, Sub(num, c), m, q);
      ChoiceClaimsAt(env, facts, c, subFirst, subReq, m, q);
      ClaimsGrow(env, first, req, p, m, q);
      if subReq.flags >= 0 {
        var i: nat :| ReqFrom(subFirst, m) <= i < q && Sees(env, subReq, i);
        assert ReqFrom(first', p) <= i;
      } else if first.flags != REQ_UNSET && subFirst.flags >= 0 {
        assert Sees(env, req', m) && ReqFrom(first', p) <= m < q;
      }
    }
  }

  // ---------- quantifiers ----------

  lemma StepOptional(body: Node, max: int, greed: Greed, first: Char, req: Char, zeroFirst: Char, zeroReq: Char)
    requires FallBack(first, req, zeroFirst, zeroReq)
    ensures Steps(Repeat(body, 0, max, greed), first, req, zeroFirst, zeroReq)
  {
    var n := Repeat(body, 0, max, greed);
    forall env: Env, facts: iset<Fact>, p: nat, m: nat, q: nat
      | Setting(env, facts) && p <= m <= |env.s| && Holds(env, first, req, p, m) && MeansNode(env, facts, n, m, q)
      ensures Holds(env, zeroFirst, zeroReq, p, q)
    {
      NodeBounds(env, facts, n, m, q);
      ClaimsGrow(env, zeroFirst, zeroReq, p, m, q);
    }
  }

  lemma StepMandatory(body: Node, min: nat, max: int, greed: Greed, first: Char, req: Char, first': Char, req': Char)
    requires Steps(body, first, req, first', req') && first'.flags != REQ_UNSET && min >= 1
    ensures Steps(Repeat(body, min, max, greed), first, req, first', req')
  {
    var n := Repeat(body, min, max, greed);
    forall env: Env, facts: iset<Fact>, p: nat, m: nat, q: nat
      | Setting(env, facts) && p <= m <= |env.s| && Holds(env, first, req, p, m) && MeansNode(env, facts, n, m, q)
      ensures Holds(env, first', req', p, q)
    {
      var k := RepeatTake(env, facts, n, m, q);
      var r := TimesTake(env, facts, body, k, m, q);
      NodeBounds(env, facts, body, m, r);
      TimesBounds(env, facts, body, k - 1, r, q);
      ClaimsGrow(env, first', req', p, r, q);
    }
  }

  /** Every match of the node starts with the character. */
  ghost predicate StartsWith(n: Node, ch: Char) {
    forall env: Env, facts: iset<Fact>, m: nat, q: nat ::
      Setting(env, facts) && m <= |env.s| && MeansNode(env, facts, n, m, q) ==> q > m && Sees(env, ch, m)
  }

  /** The second of several copies starts after the first character. */
  lemma StepTwice(body: Node, min: nat, max: int, greed: Greed, first: Char, req: Char, first': Char, req': Char,
                  second: Char)
    requires Steps(body, first, req, first', req') && first'.flags != REQ_UNSET && min >= 2
    requires StartsWith(body, second)
    ensures Steps(Repeat(body, min, max, greed), first, req, first', second)
  {
    var n := Repeat(body, min, max, greed);
    forall env: Env, facts: iset<Fact>, p: nat, m: nat, q: nat
      | Setting(env, facts) && p <= m <= |env.s| && Holds(env, first, req, p, m) && MeansNode(env, facts, n, m, q)
      ensures Holds(env, first', second, p, q)
    {
      var k := RepeatTake(env, facts, n, m, q);
      var r := TimesTake(env, facts, body, k, m, q);
      NodeBounds(env, facts, body, m, r);
      var t := TimesTake(env, facts, body, k - 1, r, q);
      NodeBounds(env, facts, body, r, t);
      TimesBounds(env, facts, body, k - 2, t, q);
      assert Sees(env, second, r) && ReqFrom(first', p) <= r < q;
    }
  }

  // ---------- a sequence ----------

  /** After the items before rest the pair holds, for every match of s. */
  ghost predicate Prefix(s: Sequence, rest: Sequence, first: Char, req: Char) {
    forall env: Env, facts: iset<Fact>, p: nat, q: nat ::
      Setting(env, facts) && p <= |env.s| && MeansSequence(env, facts, s, p, q) ==>
        Reached(env, facts, rest, first, req, p, q)
  }

  ghost predicate Reached(env: Env, facts: iset<Fact>, rest: Sequence, first: Char, req: Char, p: nat, q: nat)
    requires |env.fcc| == 256
  {
    exists m: nat :: p <= m <= |env.s| && Holds(env, first, req, p, m) && MeansSequence(env, facts, rest, m, q)
  }

  lemma PrefixStart(s: Sequence)
    ensures Prefix(s, s, UNSET, UNSET)
  {
    forall env: Env, facts: iset<Fact>, p: nat, q: nat
      | Setting(env, facts) && p <= |env.s| && MeansSequence(env, facts, s, p, q)
      ensures Reached(env, facts, s, UNSET, UNSET, p, q)
    {
      assert Holds(env, UNSET, UNSET, p, p);
    }
  }

  lemma PrefixStep(s: Sequence, rest: Sequence, first: Char, req: Char, first': Char, req': Char)
    requires rest.Then? && Prefix(s, rest, first, req) && Steps(rest.first, first, req, first', req')
    ensures Prefix(s, rest.rest, first', req')
  {
    forall env: Env, facts: iset<Fact>, p: nat, q: nat
      | Setting(env, facts) && p <= |env.s| && MeansSequence(env, facts, s, p, q)
      ensures Reached(env, facts, rest.rest, first', req', p, q)
    {
      var m := ReachedAt(env, facts, rest, first, req, p, q);
      var r := SequenceTake(env, facts, rest, m, q);
      NodeBounds(env, facts, rest.first, m, r);
    }
  }

  lemma ReachedAt(env: Env, facts: iset<Fact>, rest: Sequence, first: Char, req: Char, p: nat, q: nat) returns (m: nat)
    requires |env.fcc| == 256 && Reached(env, facts, rest, first, req, p, q)
    ensures p <= m <= |env.s| && Holds(env, first, req, p, m) && MeansSequence(env, facts, rest, m, q)
  {
    m :| p <= m <= |env.s| && Holds(env, first, req, p, m) && MeansSequence(env, facts, rest, m, q);
  }

  lemma PrefixEnd(s: Sequence, first: Char, req: Char)
    requires Prefix(s, End, first, req)
    ensures SequenceClaims(s, first, req)
  {
    forall env: Env, facts: iset<Fact>, p: nat, q: nat
      | Setting(env, facts) && p <= |env.s| && MeansSequence(env, facts, s, p, q)
      ensures Claims(env, first, req, p, q)
    {
      var m := ReachedAt(env, facts, End, first, req, p, q);
    }
  }

  // ---------- alternatives ----------

  /** What is kept of the first character when another alternative comes. */
  function MergeFirst(first: Char, other: Char): Char {
    if first.flags >= 0 && first != other then Char(first.c, REQ_NONE) else first
  }

  /** What is kept of the required character. */
  function MergeReq(first: Char, req: Char, otherFirst: Char, otherReq: Char): Char {
    var r := if first.flags >= 0 && first != otherFirst && req.flags < 0 then first else req;
    var o := if MergeFirst(first, otherFirst).flags < 0 && otherFirst.flags >= 0 && otherReq.flags < 0
             then otherFirst else otherReq;
    if NoVary(r.flags) != NoVary(o.flags) || r.c != o.c then Char(r.c, REQ_NONE)
    else Char(o.c, OrFlags(r.flags, o.flags))
  }

  lemma MergeClaims(env: Env, first: Char, req: Char, otherFirst: Char, otherReq: Char, p: nat, q: nat)
    requires |env.fcc| == 256 && FlagsOk(first.flags) && FlagsOk(req.flags) && FlagsOk(otherFirst.flags)
    requires FlagsOk(otherReq.flags)
    ensures var f, r := MergeFirst(first, otherFirst), MergeReq(first, req, otherFirst, otherReq);
            && FlagsOk(f.flags) && FlagsOk(r.flags)
            && (Claims(env, first, req, p, q) ==> Claims(env, f, r, p, q))
            && (Claims(env, otherFirst, otherReq, p, q) ==> Claims(env, f, r, p, q))
  {
    var f, r := MergeFirst(first, otherFirst), MergeReq(first, req, otherFirst, otherReq);
    if r.flags >= 0 {
      if Claims(env, first, req, p, q) {
        MergedReq(env, first, req, f, r, p, q);
      }
      if Claims(env, otherFirst, otherReq, p, q) {
        MergedReq(env, otherFirst, otherReq, f, r, p, q);
      }
    }
  }

  /** The merged required character is one of the two of this side. */
  lemma MergedReq(env: Env, first: Char, req: Char, f: Char, r: Char, p: nat, q: nat)
    requires |env.fcc| == 256 && Claims(env, first, req, p, q) && r.flags >= 0
    requires f == first || f.flags < 0
    requires (req.flags >= 0 && r.c == req.c && (Caseless(r.flags) <==> Caseless(req.flags)))
          || (f.flags < 0 && first.flags >= 0 && r.c == first.c && (Caseless(r.flags) <==> Caseless(first.flags)))
    ensures SeesIn(env, r, ReqFrom(f, p), q)
  {
    if req.flags >= 0 && r.c == req.c && (Caseless(r.flags) <==> Caseless(req.flags)) {
      var i: nat :| ReqFrom(first, p) <= i < q && Sees(env, req, i);
      assert Sees(env, r, i);
    } else {
      assert Sees(env, r, p);
    }
  }

  /** Every match of c is one of the alternatives still to come, or the pair is
    * true of it. */
  ghost predicate Covered(c: Choice, rest: Choice, first: Char, req: Char) {
    forall env: Env, facts: iset<Fact>, p: nat, q: nat ::
      Setting(env, facts) && p <= |env.s| && MeansChoice(env, facts, c, p, q)
      ==> Claims(env, first, req, p, q) || MeansChoice(env, facts, rest, p, q)
  }

  lemma CoveredFirst(c: Choice, first: Char, req: Char)
    requires SequenceClaims(c.seq0, first, req)
    ensures if c.Only? then ChoiceClaims(c, first, req) else Covered(c, c.others, first, req)
  {
  }

  lemma CoveredStep(c: Choice, rest: Choice, first: Char, req: Char, otherFirst: Char, otherReq: Char)
    requires Covered(c, rest, first, req) && SequenceClaims(rest.seq0, otherFirst, otherReq)
    requires FlagsOk(first.flags) && FlagsOk(req.flags) && FlagsOk(otherFirst.flags) && FlagsOk(otherReq.flags)
    ensures var f, r := MergeFirst(first, otherFirst), MergeReq(first, req, otherFirst, otherReq);
            && FlagsOk(f.flags) && FlagsOk(r.flags)
            && if rest.Only? then ChoiceClaims(c, f, r) else Covered(c, rest.others, f, r)
  {
    var f, r := MergeFirst(first, otherFirst), MergeReq(first, req, otherFirst, otherReq);
    forall env: Env, facts: iset<Fact>, p: nat, q: nat
      | Setting(env, facts) && p <= |env.s| && MeansChoice(env, facts, c, p, q)
      ensures Claims(env, f, r, p, q) || (rest.Or? && MeansChoice(env, facts, rest.others, p, q))
    {
      MergeClaims(env, first, req, otherFirst, otherReq, p, q);
      if MeansChoice(env, facts, rest, p, q) {
        if MeansSequence(env, facts, rest.seq0, p, q) {
          SequenceClaimsAt(env, facts, rest.seq0, otherFirst, otherReq, p, q);
        } else {
          LaterChoice(env, facts, rest, p, q);
        }
      }
    }
  }

  lemma LaterChoice(env: Env, facts: iset<Fact>, c: Choice, p: nat, q: nat)
    requires MeansChoice(env, facts, c, p, q) && !MeansSequence(env, facts, c.seq0, p, q)
    ensures c.Or? && MeansChoice(env, facts, c.others, p, q)
  {
  }

  // ---------- what the scan computes ----------

  /** What is known behind an item, what to fall back on if it may be missing, and
    * whether it was a group that set the first character. */
  datatype Gathered = Gathered(first: Char, req: Char, vary: bool, zeroFirst: Char, zeroReq: Char, groupSetFirst: bool)

  /** An item without its quantifier. */
  function ItemChars(item: Node, first: Char, req: Char, vary: bool): Gathered
    decreases item, 0
  {
    match item
    case Single(atom) =>
      if atom.Chr? && (atom.op == OP_CHAR || atom.op == OP_CHARI) then
        var caseopt := if atom.op == OP_CHARI then REQ_CASELESS else 0;
        Gathered(LiteralFirst(first, atom.c, caseopt), LiteralReq(first, req, atom.c, caseopt, vary), vary,
                 LiteralZero(first), req, false)
      else
        Gathered(LiteralZero(first), req, vary, LiteralZero(first), req, false)
    case Recurse(_) => Gathered(LiteralZero(first), req, vary, LiteralZero(first), req, false)
    case Sub(_, c) =>
      var (subFirst, subReq, subVary) := ChoiceChars(c, vary);
      Gathered(GroupFirst(first, subFirst), GroupReq(first, req, subFirst, subReq, vary), subVary, LiteralZero(first),
               req, first.flags == REQ_UNSET && subFirst.flags >= 0)
    case _ => Gathered(first, req, vary, first, req, false)
  }

  /** An item with its quantifier: a repeat of more than one makes a single character
    * or the first character of a group required. */
  function NodeChars(n: Node, first: Char, req: Char, vary: bool): (Char, Char, bool)
    decreases n, 1
  {
    if !n.Repeat? then
      var g := ItemChars(n, first, req, vary); (g.first, g.req, g.vary)
    else
      var g := ItemChars(n.body, first, req, vary);
      var f, r := if n.min == 0 then g.zeroFirst else g.first, if n.min == 0 then g.zeroReq else g.req;
      var r' :=
        if n.min > 1 && n.body.Single? && n.body.atom.Chr? && n.body.atom.op <= OP_CHARI then
          Char(n.body.atom.c, WithVary(if n.body.atom.op == OP_CHARI then REQ_CASELESS else 0, g.vary))
        else if n.min > 1 && n.body.Sub? && g.groupSetFirst && r.flags < 0 then f
        else r;
      (f, r', g.vary || n.min != n.max)
  }

  function SequenceChars(s: Sequence, first: Char, req: Char, vary: bool): (Char, Char, bool)
    decreases s, 0
  {
    match s
    case End => (first, req, vary)
    case Then(n, rest) => var (f, r, v) := NodeChars(n, first, req, vary); SequenceChars(rest, f, r, v)
  }

  /** The alternatives from rest on join what is known of those before. */
  function JoinedChars(rest: Choice, first: Char, req: Char, vary: bool): (Char, Char, bool)
    decreases rest, 0
  {
    var (f, r, v) := SequenceChars(rest.seq0, UNSET, UNSET, vary);
    var f', r' := MergeFirst(first, f), MergeReq(first, req, f, r);
    if rest.Only? then (f', r', v) else JoinedChars(rest.others, f', r', v)
  }

  function ChoiceChars(c: Choice, vary: bool): (Char, Char, bool)
    decreases c, 1
  {
    var (f, r, v) := SequenceChars(c.seq0, UNSET, UNSET, vary);
    if c.Only? then (f, r, v) else JoinedChars(c.others, f, r, v)
  }

  // ---------- the scan ----------

  /** The characters of one branch. The flag vary says whether something of variable
    * length came before; it only affects REQ_VARY. */
  method ScanSequence(s: Sequence, vary0: bool) returns (first: Char, req: Char, vary: bool)
    requires SequenceOk(s) && PlainSequence(s)
    ensures SequenceClaims(s, first, req) && FlagsOk(first.flags) && FlagsOk(req.flags)
    ensures (first, req, vary) == SequenceChars(s, UNSET, UNSET, vary0)
    decreases s, 0
  {
    hide Prefix, SequenceClaims, Steps;
    first, req, vary := UNSET, UNSET, vary0;
    var rest := s;
    PrefixStart(s);
    while rest.Then?
      invariant SequenceOk(rest) && PlainSequence(rest) && (rest == s || rest < s)
      invariant Prefix(s, rest, first, req) && FlagsOk(first.flags) && FlagsOk(req.flags)
      invariant SequenceChars(s, UNSET, UNSET, vary0) == SequenceChars(rest, first, req, vary)
      decreases rest
    {
      ghost var first0, req0 := first, req;
      first, req, vary := ScanNode(rest.first, first, req, vary);
      PrefixStep(s, rest, first0, req0, first, req);
      rest := rest.rest;
    }
    PrefixEnd(s, first, req);
  }

  /** One item without its quantifier. */
  method ScanItem(item: Node, first0: Char, req0: Char, vary0: bool) returns (g: Gathered)
    requires NodeOk(item) && PlainNode(item) && !item.Repeat? && FlagsOk(first0.flags) && FlagsOk(req0.flags)
    ensures g == ItemChars(item, first0, req0, vary0)
    ensures Steps(item, first0, req0, g.first, g.req) && GatheredOk(g)
    ensures !item.Assert? ==> g.first.flags != REQ_UNSET && FallBack(first0, req0, g.zeroFirst, g.zeroReq)
    ensures g.groupSetFirst ==> g.first.flags >= 0 && StartsWith(item, g.first)
    decreases item, 0
  {
    hide Steps, FallBack, ChoiceClaims, StartsWith;
    var first, req, vary, zeroFirst, groupSetFirst := first0, req0, vary0, first0, false;
    match item {
      case Assert(op) =>
        StepAssert(op, first, req);
      case Single(atom) =>
        if atom.Chr? && (atom.op == OP_CHAR || atom.op == OP_CHARI) {
          var caseopt := if atom.op == OP_CHARI then REQ_CASELESS else 0;
          StepLiteral(atom, atom.c, caseopt, first, req, vary);
          if first.flags == REQ_UNSET {
            zeroFirst := Char(first.c, REQ_NONE);
            first := Char(atom.c, caseopt);
          } else {
            req := Char(atom.c, WithVary(caseopt, vary));
          }
        } else {
          StepOther(item, first, req);
          first := if first.flags == REQ_UNSET then Char(first.c, REQ_NONE) else first;
          zeroFirst := first;
        }
      case Recurse(_) =>
        StepOther(item, first, req);
        first := if first.flags == REQ_UNSET then Char(first.c, REQ_NONE) else first;
        zeroFirst := first;
      case Sub(num, c) =>
        var subFirst, subReq, subVary := ScanChoice(c, vary);
        StepGroup(num, c, first, req, subFirst, subReq, vary);
        if first.flags == REQ_UNSET {
          if subFirst.flags >= 0 {
            FirstOfGroup(num, c, subFirst, subReq);
            first := subFirst;
            groupSetFirst := true;
          } else {
            first := Char(first.c, REQ_NONE);
          }
          zeroFirst := Char(zeroFirst.c, REQ_NONE);
        } else if subFirst.flags >= 0 && subReq.flags < 0 {
          subReq := Char(subFirst.c, WithVary(subFirst.flags, vary));
        }
        if subReq.flags >= 0 {
          req := subReq;
        }
        vary := subVary;
    }
    g := Gathered(first, req, vary, zeroFirst, req0, groupSetFirst);
  }

  predicate GatheredOk(g: Gathered) {
    FlagsOk(g.first.flags) && FlagsOk(g.req.flags) && FlagsOk(g.zeroFirst.flags) && FlagsOk(g.zeroReq.flags)
  }

  /** One item and its quantifier. */
  method ScanNode(n: Node, first0: Char, req0: Char, vary0: bool) returns (first: Char, req: Char, vary: bool)
    requires NodeOk(n) && PlainNode(n) && FlagsOk(first0.flags) && FlagsOk(req0.flags)
    ensures Steps(n, first0, req0, first, req) && FlagsOk(first.flags) && FlagsOk(req.flags)
    ensures (first, req, vary) == NodeChars(n, first0, req0, vary0)
    decreases n, 1
  {
    hide Steps, FallBack, StartsWith, ItemChars;
    var item := if n.Repeat? then n.body else n;
    var g := ScanItem(item, first0, req0, vary0);
    first, req, vary := g.first, g.req, g.vary;
    if n.Repeat? {
      if n.min == 0 {
        StepOptional(item, n.max, n.greed, first0, req0, g.zeroFirst, g.zeroReq);
        first, req := g.zeroFirst, g.zeroReq;
      } else {
        StepMandatory(item, n.min, n.max, n.greed, first0, req0, g.first, g.req);
      }
      if item.Single? && item.atom.Chr? && item.atom.op <= OP_CHARI && n.min > 1 {
        req := Char(item.atom.c, WithVary(if item.atom.op == OP_CHARI then REQ_CASELESS else 0, vary));
        LiteralSeen(item.atom, req);
        StepTwice(item, n.min, n.max, n.greed, first0, req0, g.first, g.req, req);
      }
      if item.Sub? && n.min > 1 && g.groupSetFirst && req.flags < 0 {
        StepTwice(item, n.min, n.max, n.greed, first0, req0, g.first, g.req, first);
        req := first;
      }
      vary := vary || n.min != n.max;
    }
  }

  lemma LiteralSeen(atom: Atom, ch: Char)
    requires atom.Chr? && ch.c == atom.c && ch.flags >= 0 && FlagsOk(ch.flags)
    requires (atom.op == OP_CHAR && !Caseless(ch.flags)) || (atom.op == OP_CHARI && Caseless(ch.flags))
    ensures StartsWith(Single(atom), ch)
  {
  }

  lemma FirstOfGroup(num: nat, c: Choice, subFirst: Char, subReq: Char)
    requires ChoiceClaims(c, subFirst, subReq) && subFirst.flags >= 0
    ensures StartsWith(Sub(num, c), subFirst)
  {
    forall env: Env, facts: iset<Fact>, m: nat, q: nat
      | Setting(env, facts) && m <= |env.s| && MeansNode(env, facts, Sub(num, c), m, q)
      ensures q > m && Sees(env, subFirst, m)
    {
      ChoiceClaimsAt(env, facts, c, subFirst, subReq, m, q);
    }
  }

  /** The characters of a choice: what its alternatives have in common. */
  method ScanChoice(c: Choice, vary0: bool) returns (first: Char, req: Char, vary: bool)
    requires ChoiceOk(c) && PlainChoice(c)
    ensures ChoiceClaims(c, first, req) && FlagsOk(first.flags) && FlagsOk(req.flags)
    ensures (first, req, vary) == ChoiceChars(c, vary0)
    decreases c, 0
  {
    hide Covered, SequenceClaims, ChoiceClaims;
    first, req, vary := ScanSequence(c.seq0, vary0);
    CoveredFirst(c, first, req);
    var rest := c;
    while rest.Or?
      invariant ChoiceOk(rest) && PlainChoice(rest) && (rest == c || rest < c)
      invariant if rest.Only? then ChoiceClaims(c, first, req) else Covered(c, rest.others, first, req)
      invariant FlagsOk(first.flags) && FlagsOk(req.flags)
      invariant ChoiceChars(c, vary0)
                == if rest.Only? then (first, req, vary) else JoinedChars(rest.others, first, req, vary)
      decreases rest
    {
      rest := rest.others;
      var branchFirst, branchReq, branchVary := ScanSequence(rest.seq0, vary);
      vary := branchVary;
      CoveredStep(c, rest, first, req, branchFirst, branchReq);
      if first.flags >= 0 && first != branchFirst {
        if req.flags < 0 {
          req := first;
        }
        first := Char(first.c, REQ_NONE);
      }
      if first.flags < 0 && branchFirst.flags >= 0 && branchReq.flags < 0 {
        branchReq := branchFirst;
      }
      if NoVary(req.flags) != NoVary(branchReq.flags) || req.c != branchReq.c {
        req := Char(req.c, REQ_NONE);
      } else {
        req := Char(branchReq.c, OrFlags(req.flags, branchReq.flags));
      }
    }
  }
}
