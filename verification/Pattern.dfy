/** Patterns as the parser hands them over, and what they mean. The meaning is
  * the textbook one: alternatives are a union, a sequence is a composition, a
  * quantifier is a number of iterations within its bounds.
  */
module Pattern {
  import opened Opcodes
  import opened Tree
  import opened Meaning

  datatype Greed = Greedy | Lazy | Possessive

  /** A maximum of -1 means no upper bound. */
  datatype Node =
    | Assert(op: byte)
    | Single(atom: Atom)
    | Sub(num: nat, choice: Choice)
    | Recurse(num: nat)
    | Repeat(body: Node, min: nat, max: int, greed: Greed)

  datatype Sequence = End | Then(first: Node, rest: Sequence)

  datatype Choice = Only(seq0: Sequence) | Or(seq0: Sequence, others: Choice)

  const MAX_REPEAT := 65535

  /** What the parser guarantees: only characters, groups and subroutine calls
    * can be repeated, and the counts are in order. */
  predicate NodeOk(n: Node) {
    match n
    case Assert(op) => IsAnchor(op)
    case Single(atom) => AtomOk(atom)
    case Sub(num, c) => num < 65536 && ChoiceOk(c)
    case Recurse(_) => true
    case Repeat(body, min, max, _) =>
      && (body.Single? || body.Sub? || body.Recurse?)
      && NodeOk(body)
      && min <= MAX_REPEAT
      && (max == -1 || min <= max <= MAX_REPEAT)
  }

  predicate SequenceOk(s: Sequence) {
    s.Then? ==> NodeOk(s.first) && SequenceOk(s.rest)
  }

  predicate ChoiceOk(c: Choice) {
    SequenceOk(c.seq0) && (c.Or? ==> ChoiceOk(c.others))
  }

  // ---------- meaning ----------

  /** A single character repeated possessively is repeated as often as it can be. A group
    * or a call that is repeated possessively, which takes the first way only, is not
    * described: as far as this meaning goes it may take any. */
  ghost predicate MeansNode(env: Env, facts: iset<Fact>, n: Node, p: nat, q: nat)
    decreases n, 0
  {
    match n
    case Assert(op) => p == q && AnchorHolds(env, op, p)
    case Single(atom) => q == p + 1 && HitAt(env, atom, p)
    case Sub(_, c) => MeansChoice(env, facts, c, p, q)
    case Recurse(num) => Fact(num, p, q) in facts
    case Repeat(body, min, max, greed) =>
      exists k: nat ::
        && MeansTimes(env, facts, body, k, p, q)
        && min <= k && (max == -1 || k <= max)
        && (greed == Possessive && body.Single? ==> k == max || !HitAt(env, body.atom, q))
  }

  ghost predicate MeansSequence(env: Env, facts: iset<Fact>, s: Sequence, p: nat, q: nat)
    decreases s, 0
  {
    match s
    case End => p == q
    case Then(n, rest) => exists r: nat :: MeansNode(env, facts, n, p, r) && MeansSequence(env, facts, rest, r, q)
  }

  ghost predicate MeansChoice(env: Env, facts: iset<Fact>, c: Choice, p: nat, q: nat)
    decreases c, 0
  {
    || MeansSequence(env, facts, c.seq0, p, q)
    || (c.Or? && MeansChoice(env, facts, c.others, p, q))
  }

  /** Exactly k matches of the node, one after the other. */
  ghost predicate MeansTimes(env: Env, facts: iset<Fact>, n: Node, k: nat, p: nat, q: nat)
    decreases n, k + 1
  {
    if k == 0 then p == q
    else exists r: nat :: MeansNode(env, facts, n, p, r) && MeansTimes(env, facts, n, k - 1, r, q)
  }

  /** The first group with the given number, in the order of the pattern. */
  function FindNode(n: Node, num: nat): Option<Choice>
    decreases n
  {
    match n
    case Sub(k, c) => if k == num && num != 0 then Some(c) else FindChoice(c, num)
    case Repeat(body, _, _, _) => FindNode(body, num)
    case _ => None
  }

  function FindSequence(s: Sequence, num: nat): Option<Choice>
    decreases s
  {
    match s
    case End => None
    case Then(n, rest) => var r := FindNode(n, num); if r.Some? then r else FindSequence(rest, num)
  }

  function FindChoice(c: Choice, num: nat): Option<Choice>
    decreases c
  {
    var r := FindSequence(c.seq0, num);
    if r.Some? || c.Only? then r else FindChoice(c.others, num)
  }

  /** The group a call leads to; 0 stands for the whole pattern. */
  function Called(pattern: Choice, num: nat): Option<Choice> {
    if num == 0 then Some(pattern) else FindChoice(pattern, num)
  }

  ghost predicate CallMeans(env: Env, pattern: Choice, d: nat, f: Fact)
    decreases d, 0
  {
    && d > 0
    && f.p <= |env.s|
    && Called(pattern, f.num).Some?
    && MeansChoice(env, CallsTo(env, pattern, d - 1), Called(pattern, f.num).value, f.p, f.q)
  }

  /** What subroutine calls nested less than d deep match. */
  ghost function CallsTo(env: Env, pattern: Choice, d: nat): iset<Fact>
    decreases d, 1
  {
    iset f: Fact | CallMeans(env, pattern, d, f)
  }

  ghost predicate CallMeansSome(env: Env, pattern: Choice, f: Fact) {
    exists d: nat :: CallMeans(env, pattern, d, f)
  }

  /** What subroutine calls match, however deeply they nest. */
  ghost function Calls(env: Env, pattern: Choice): iset<Fact> {
    iset f: Fact | CallMeansSome(env, pattern, f)
  }

  /** The whole pattern matches s[p..q], and the options allow it. */
  ghost predicate Means(env: Env, pattern: Choice, p: nat, q: nat) {
    MeansChoice(env, Calls(env, pattern), pattern, p, q) && env.Allowed(p, q)
  }

  // ---------- which groups are called ----------

  function CalledNode(n: Node): set<nat>
    decreases n
  {
    match n
    case Recurse(num) => {num}
    case Sub(_, c) => CalledChoice(c)
    case Repeat(body, _, _, _) => CalledNode(body)
    case _ => {}
  }

  function CalledSequence(s: Sequence): set<nat>
    decreases s
  {
    match s
    case End => {}
    case Then(n, rest) => CalledNode(n) + CalledSequence(rest)
  }

  function CalledChoice(c: Choice): set<nat>
    decreases c
  {
    CalledSequence(c.seq0) + if c.Or? then CalledChoice(c.others) else {}
  }

  lemma {:induction false} CalledInNode(n: Node, num: nat)
    ensures FindNode(n, num).Some? ==> CalledChoice(FindNode(n, num).value) <= CalledNode(n)
    decreases n
  {
    match n
    case Sub(_, c) => CalledInChoice(c, num);
    case Repeat(body, _, _, _) => CalledInNode(body, num);
    case _ =>
  }

  lemma {:induction false} CalledInSequence(s: Sequence, num: nat)
    ensures FindSequence(s, num).Some? ==> CalledChoice(FindSequence(s, num).value) <= CalledSequence(s)
    decreases s
  {
    if s.Then? {
      CalledInNode(s.first, num);
      CalledInSequence(s.rest, num);
    }
  }

  lemma {:induction false} CalledInChoice(c: Choice, num: nat)
    ensures FindChoice(c, num).Some? ==> CalledChoice(FindChoice(c, num).value) <= CalledChoice(c)
    decreases c
  {
    CalledInSequence(c.seq0, num);
    if c.Or? {
      CalledInChoice(c.others, num);
    }
  }

  /** A called group calls only what the pattern calls. */
  lemma CalledInside(pattern: Choice, num: nat)
    requires Called(pattern, num).Some?
    ensures CalledChoice(Called(pattern, num).value) <= CalledChoice(pattern)
  {
    CalledInChoice(pattern, num);
  }

  // ---------- the meaning relies only on the calls that are there ----------

  /** The same calls of the groups with these numbers. */
  ghost predicate Agree(f1: iset<Fact>, f2: iset<Fact>, nums: set<nat>) {
    forall f: Fact :: f.num in nums ==> (f in f1 <==> f in f2)
  }

  lemma {:induction false} NodeRelies(env: Env, f1: iset<Fact>, f2: iset<Fact>, n: Node, p: nat, q: nat)
    requires Agree(f1, f2, CalledNode(n))
    ensures MeansNode(env, f1, n, p, q) <==> MeansNode(env, f2, n, p, q)
    decreases n, 0
  {
    match n
    case Sub(_, c) => ChoiceRelies(env, f1, f2, c, p, q);
    case Recurse(num) => assert Fact(num, p, q).num in CalledNode(n);
    case Repeat(body, min, max, greed) =>
      forall k: nat ensures MeansTimes(env, f1, body, k, p, q) <==> MeansTimes(env, f2, body, k, p, q) {
        TimesRelies(env, f1, f2, body, k, p, q);
      }
    case _ =>
  }

  lemma {:induction false} TimesRelies(env: Env, f1: iset<Fact>, f2: iset<Fact>, n: Node, k: nat, p: nat, q: nat)
    requires Agree(f1, f2, CalledNode(n))
    ensures MeansTimes(env, f1, n, k, p, q) <==> MeansTimes(env, f2, n, k, p, q)
    decreases n, k + 1
  {
    if k > 0 {
      forall r: nat
        ensures MeansNode(env, f1, n, p, r) && MeansTimes(env, f1, n, k - 1, r, q)
           <==> MeansNode(env, f2, n, p, r) && MeansTimes(env, f2, n, k - 1, r, q)
      {
        NodeRelies(env, f1, f2, n, p, r);
        TimesRelies(env, f1, f2, n, k - 1, r, q);
      }
    }
  }

  lemma {:induction false} SequenceRelies(env: Env, f1: iset<Fact>, f2: iset<Fact>, s: Sequence, p: nat, q: nat)
    requires Agree(f1, f2, CalledSequence(s))
    ensures MeansSequence(env, f1, s, p, q) <==> MeansSequence(env, f2, s, p, q)
    decreases s, 0
  {
    if s.Then? {
      forall r: nat
        ensures MeansNode(env, f1, s.first, p, r) && MeansSequence(env, f1, s.rest, r, q)
           <==> MeansNode(env, f2, s.first, p, r) && MeansSequence(env, f2, s.rest, r, q)
      {
        NodeRelies(env, f1, f2, s.first, p, r);
        SequenceRelies(env, f1, f2, s.rest, r, q);
      }
    }
  }

  lemma {:induction false} ChoiceRelies(env: Env, f1: iset<Fact>, f2: iset<Fact>, c: Choice, p: nat, q: nat)
    requires Agree(f1, f2, CalledChoice(c))
    ensures MeansChoice(env, f1, c, p, q) <==> MeansChoice(env, f2, c, p, q)
    decreases c, 0
  {
    SequenceRelies(env, f1, f2, c.seq0, p, q);
    if c.Or? {
      ChoiceRelies(env, f1, f2, c.others, p, q);
    }
  }

  // ---------- taking the meaning apart ----------

  lemma TimesTake(env: Env, facts: iset<Fact>, n: Node, k: nat, p: nat, q: nat) returns (r: nat)
    requires k > 0 && MeansTimes(env, facts, n, k, p, q)
    ensures MeansNode(env, facts, n, p, r) && MeansTimes(env, facts, n, k - 1, r, q)
  {
    r :| MeansNode(env, facts, n, p, r) && MeansTimes(env, facts, n, k - 1, r, q);
  }

  lemma TimesJoin(env: Env, facts: iset<Fact>, n: Node, k: nat, p: nat, r: nat, q: nat)
    requires MeansNode(env, facts, n, p, r) && MeansTimes(env, facts, n, k, r, q)
    ensures MeansTimes(env, facts, n, k + 1, p, q)
  {
  }

  lemma RepeatTake(env: Env, facts: iset<Fact>, n: Node, p: nat, q: nat) returns (k: nat)
    requires n.Repeat? && MeansNode(env, facts, n, p, q)
    ensures MeansTimes(env, facts, n.body, k, p, q) && n.min <= k && (n.max == -1 || k <= n.max)
  {
    k :| MeansTimes(env, facts, n.body, k, p, q) && n.min <= k && (n.max == -1 || k <= n.max);
  }

  lemma SequenceTake(env: Env, facts: iset<Fact>, s: Sequence, p: nat, q: nat) returns (r: nat)
    requires s.Then? && MeansSequence(env, facts, s, p, q)
    ensures MeansNode(env, facts, s.first, p, r) && MeansSequence(env, facts, s.rest, r, q)
  {
    r :| MeansNode(env, facts, s.first, p, r) && MeansSequence(env, facts, s.rest, r, q);
  }

  // ---------- positions stay inside the subject ----------

  lemma {:induction false} NodeBounds(env: Env, facts: iset<Fact>, n: Node, p: nat, q: nat)
    requires FactsOk(env, facts) && p <= |env.s| && MeansNode(env, facts, n, p, q)
    ensures p <= q <= |env.s|
    decreases n, 0
  {
    match n
    case Assert(_) =>
    case Single(_) =>
    case Sub(_, c) => ChoiceBounds(env, facts, c, p, q);
    case Recurse(num) => assert Fact(num, p, q) in facts;
    case Repeat(body, min, max, greed) =>
      var k := RepeatTake(env, facts, n, p, q);
      TimesBounds(env, facts, body, k, p, q);
  }

  lemma {:induction false} TimesBounds(env: Env, facts: iset<Fact>, n: Node, k: nat, p: nat, q: nat)
    requires FactsOk(env, facts) && p <= |env.s| && MeansTimes(env, facts, n, k, p, q)
    ensures p <= q <= |env.s|
    decreases n, k + 1
  {
    if k > 0 {
      var r := TimesTake(env, facts, n, k, p, q);
      NodeBounds(env, facts, n, p, r);
      TimesBounds(env, facts, n, k - 1, r, q);
    }
  }

  lemma {:induction false} SequenceBounds(env: Env, facts: iset<Fact>, s: Sequence, p: nat, q: nat)
    requires FactsOk(env, facts) && p <= |env.s| && MeansSequence(env, facts, s, p, q)
    ensures p <= q <= |env.s|
    decreases s, 0
  {
    if s.Then? {
      var r := SequenceTake(env, facts, s, p, q);
      NodeBounds(env, facts, s.first, p, r);
      SequenceBounds(env, facts, s.rest, r, q);
    }
  }

  lemma {:induction false} ChoiceBounds(env: Env, facts: iset<Fact>, c: Choice, p: nat, q: nat)
    requires FactsOk(env, facts) && p <= |env.s| && MeansChoice(env, facts, c, p, q)
    ensures p <= q <= |env.s|
    decreases c, 0
  {
    if MeansSequence(env, facts, c.seq0, p, q) {
      SequenceBounds(env, facts, c.seq0, p, q);
    } else {
      ChoiceBounds(env, facts, c.others, p, q);
    }
  }

  lemma {:induction false} CallsToOk(env: Env, pattern: Choice, d: nat)
    ensures FactsOk(env, CallsTo(env, pattern, d))
  {
    if d > 0 {
      CallsToOk(env, pattern, d - 1);
      forall f | f in CallsTo(env, pattern, d) ensures f.p <= f.q <= |env.s| {
        assert CallMeans(env, pattern, d, f);
        ChoiceBounds(env, CallsTo(env, pattern, d - 1), Called(pattern, f.num).value, f.p, f.q);
      }
    }
  }

  lemma CallsAreOk(env: Env, pattern: Choice)
    ensures FactsOk(env, Calls(env, pattern))
  {
    forall f | f in Calls(env, pattern) ensures f.p <= f.q <= |env.s| {
      var d: nat :| CallMeans(env, pattern, d, f);
      CallsToOk(env, pattern, d);
      assert f in CallsTo(env, pattern, d);
    }
  }

  // ---------- patterns that cannot match nothing ----------

  /** Does every match take a character? A call counts as one that need not. */
  predicate TakesNode(n: Node)
    decreases n
  {
    match n
    case Assert(_) => false
    case Single(_) => true
    case Sub(_, c) => TakesChoice(c)
    case Recurse(_) => false
    case Repeat(body, min, _, _) => min > 0 && TakesNode(body)
  }

  predicate TakesSequence(s: Sequence)
    decreases s
  {
    s.Then? && (TakesNode(s.first) || TakesSequence(s.rest))
  }

  predicate TakesChoice(c: Choice)
    decreases c
  {
    TakesSequence(c.seq0) && (c.Or? ==> TakesChoice(c.others))
  }

  lemma {:induction false} NodeTakes(env: Env, facts: iset<Fact>, n: Node, p: nat, q: nat)
    requires TakesNode(n) && FactsOk(env, facts) && p <= |env.s| && MeansNode(env, facts, n, p, q)
    ensures q > p
    decreases n
  {
    match n
    case Single(_) =>
    case Sub(_, c) => ChoiceTakes(env, facts, c, p, q);
    case Repeat(body, min, _, _) =>
      var k := RepeatTake(env, facts, n, p, q);
      var r := TimesTake(env, facts, body, k, p, q);
      NodeTakes(env, facts, body, p, r);
      NodeBounds(env, facts, body, p, r);
      TimesBounds(env, facts, body, k - 1, r, q);
  }

  lemma {:induction false} SequenceTakes(env: Env, facts: iset<Fact>, s: Sequence, p: nat, q: nat)
    requires TakesSequence(s) && FactsOk(env, facts) && p <= |env.s| && MeansSequence(env, facts, s, p, q)
    ensures q > p
    decreases s
  {
    var r := SequenceTake(env, facts, s, p, q);
    NodeBounds(env, facts, s.first, p, r);
    SequenceBounds(env, facts, s.rest, r, q);
    if TakesNode(s.first) {
      NodeTakes(env, facts, s.first, p, r);
    } else {
      SequenceTakes(env, facts, s.rest, r, q);
    }
  }

  lemma {:induction false} ChoiceTakes(env: Env, facts: iset<Fact>, c: Choice, p: nat, q: nat)
    requires TakesChoice(c) && FactsOk(env, facts) && p <= |env.s| && MeansChoice(env, facts, c, p, q)
    ensures q > p
    decreases c
  {
    if MeansSequence(env, facts, c.seq0, p, q) {
      SequenceTakes(env, facts, c.seq0, p, q);
    } else {
      ChoiceTakes(env, facts, c.others, p, q);
    }
  }
}
