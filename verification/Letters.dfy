/** Which first and which required character has to be found, told by the pattern as it is
  * written, for patterns without alternatives: the letters that every match takes, in
  * order. Also what two alternatives keep of theirs.
  */
module Letters {
  import opened Opcodes
  import opened Tree
  import opened Meaning
  import opened Pattern
  import opened FirstReq

  /** A letter, and whether its case does not matter. */
  datatype Letter = Letter(c: byte, caseless: bool)

  /** What is known of how a match begins: nothing has been taken yet, no letter is known, or
    * this one comes first. */
  datatype Start = NotYet | Unknown | First(letter: Letter)

  /** No group in it has more than one alternative. */
  predicate StraightNode(n: Node)
    decreases n
  {
    match n
    case Sub(_, c) => c.Only? && StraightSequence(c.seq0)
    case Repeat(body, _, _, _) => StraightNode(body)
    case _ => true
  }

  predicate StraightSequence(s: Sequence)
    decreases s
  {
    s.Then? ==> StraightNode(s.first) && StraightSequence(s.rest)
  }

  predicate NamesLetter(n: Node) {
    n.Single? && n.atom.Chr? && (n.atom.op == OP_CHAR || n.atom.op == OP_CHARI)
  }

  function LetterOf(n: Node): Letter
    requires NamesLetter(n)
  {
    Letter(n.atom.c, n.atom.op == OP_CHARI)
  }

  /** The letters that every match of the node takes, in order; a letter or a group that has
    * to match more than once is counted twice. */
  function LettersOf(n: Node): seq<Letter>
    requires StraightNode(n)
    decreases n
  {
    match n
    case Single(_) => if NamesLetter(n) then [LetterOf(n)] else []
    case Sub(_, c) => LettersOfSequence(c.seq0)
    case Repeat(body, min, _, _) =>
      var ls := LettersOf(body);
      if min == 0 then [] else if min == 1 then ls else ls + ls
    case _ => []
  }

  function LettersOfSequence(s: Sequence): seq<Letter>
    requires StraightSequence(s)
    decreases s
  {
    if s.End? then [] else LettersOf(s.first) + LettersOfSequence(s.rest)
  }

  /** How a match of the node begins. */
  function StartOf(n: Node): Start
    requires StraightNode(n)
    decreases n
  {
    match n
    case Assert(_) => NotYet
    case Single(_) => if NamesLetter(n) then First(LetterOf(n)) else Unknown
    case Sub(_, c) => var st := StartOfSequence(c.seq0); if st.First? then st else Unknown
    case Recurse(_) => Unknown
    case Repeat(body, min, _, _) => if min == 0 then Unknown else StartOf(body)
  }

  function StartOfSequence(s: Sequence): Start
    requires StraightSequence(s)
    decreases s
  {
    if s.End? then NotYet else Behind(StartOf(s.first), StartOfSequence(s.rest))
  }

  /** How what begins like the one and goes on like the other begins. */
  function Behind(st: Start, next: Start): Start {
    if st.NotYet? then next else st
  }

  // ---------- what is found ----------

  predicate Is(ch: Char, l: Letter) {
    ch.flags >= 0 && ch.c == l.c && (Caseless(ch.flags) <==> l.caseless)
  }

  /** The letter that is required: the last one that is not the first character. */
  predicate Requires(st: Start, ls: seq<Letter>, req: Char) {
    var skip := if st.First? then 1 else 0;
    if |ls| > skip then Is(req, ls[|ls| - 1]) else req.flags < 0
  }

  /** The two characters are those of the letters taken so far. */
  predicate Tracks(st: Start, ls: seq<Letter>, first: Char, req: Char) {
    && FlagsOk(first.flags) && FlagsOk(req.flags) && Requires(st, ls, req)
    && match st
       case NotYet => first.flags == REQ_UNSET && ls == []
       case Unknown => first.flags == REQ_NONE
       case First(l) => Is(first, l) && ls != [] && ls[0] == l
  }

  /** What comes behind the letters so far. */
  lemma TracksOther(st: Start, ls: seq<Letter>, first: Char, req: Char)
    requires Tracks(st, ls, first, req)
    ensures Tracks(Behind(st, Unknown), ls + [], LiteralZero(first), req)
  {
    assert ls + [] == ls;
  }

  lemma TracksLetter(st: Start, ls: seq<Letter>, first: Char, req: Char, l: Letter, vary: bool)
    requires Tracks(st, ls, first, req)
    ensures var caseopt := if l.caseless then REQ_CASELESS else 0;
            Tracks(Behind(st, First(l)), ls + [l], LiteralFirst(first, l.c, caseopt),
                   LiteralReq(first, req, l.c, caseopt, vary))
  {
  }

  lemma TracksGroup(st: Start, ls: seq<Letter>, first: Char, req: Char, sub: Start, subs: seq<Letter>,
                    subFirst: Char, subReq: Char, vary: bool)
    requires Tracks(st, ls, first, req) && Tracks(sub, subs, subFirst, subReq)
    ensures Tracks(Behind(st, if sub.First? then sub else Unknown), ls + subs, GroupFirst(first, subFirst),
                   GroupReq(first, req, subFirst, subReq, vary))
  {
    var all := ls + subs;
    if subs != [] {
      assert all[|all| - 1] == subs[|subs| - 1];
    } else {
      assert all == ls;
    }
  }

  lemma {:induction false} ItemTracks(n: Node, st: Start, ls: seq<Letter>, first: Char, req: Char, vary: bool)
    requires StraightNode(n) && NodeOk(n) && !n.Repeat? && Tracks(st, ls, first, req)
    ensures var g := ItemChars(n, first, req, vary);
            && Tracks(Behind(st, StartOf(n)), ls + LettersOf(n), g.first, g.req)
            && g.zeroReq == req && (!n.Assert? ==> g.zeroFirst == LiteralZero(first))
            && (g.groupSetFirst <==> n.Sub? && st.NotYet? && StartOf(n).First?)
    decreases n, 0
  {
    hide Tracks, GroupFirst, GroupReq, LiteralFirst, LiteralReq, LiteralZero;
    match n
    case Assert(_) =>
      assert ls + [] == ls;
      BehindNothing(st);
    case Single(atom) =>
      if NamesLetter(n) {
        TracksLetter(st, ls, first, req, LetterOf(n), vary);
      } else {
        TracksOther(st, ls, first, req);
      }
    case Recurse(_) => TracksOther(st, ls, first, req);
    case Sub(_, c) =>
      var (subFirst, subReq, _) := ChoiceChars(c, vary);
      TracksNothing();
      SequenceTracks(c.seq0, NotYet, [], UNSET, UNSET, vary);
      assert [] + LettersOfSequence(c.seq0) == LettersOfSequence(c.seq0);
      TracksGroup(st, ls, first, req, StartOfSequence(c.seq0), LettersOfSequence(c.seq0), subFirst, subReq, vary);
      TracksFlags(st, ls, first, req);
      TracksFlags(StartOfSequence(c.seq0), LettersOfSequence(c.seq0), subFirst, subReq);
    case Repeat(_, _, _, _) =>
  }

  lemma BehindNothing(st: Start)
    ensures Behind(st, NotYet) == st
  {
  }

  lemma TracksNothing()
    ensures Tracks(NotYet, [], UNSET, UNSET)
  {
  }

  lemma TracksFlags(st: Start, ls: seq<Letter>, first: Char, req: Char)
    requires Tracks(st, ls, first, req)
    ensures first.flags == REQ_UNSET <==> st.NotYet?
    ensures first.flags >= 0 <==> st.First?
  {
  }

  /** A repeat that has to match more than once. */
  lemma TracksTwice(st: Start, ls: seq<Letter>, more: seq<Letter>, first: Char, req: Char, twice: Char)
    requires Tracks(st, ls + more, first, req) && FlagsOk(twice.flags)
    requires more != [] ==> Is(twice, more[|more| - 1])
    requires more == [] ==> twice == req
    ensures Tracks(st, ls + (more + more), first, twice)
  {
    var all, twiceAll := ls + more, ls + (more + more);
    if more == [] {
      assert twiceAll == all;
    } else {
      assert twiceAll[|twiceAll| - 1] == more[|more| - 1] && twiceAll[0] == all[0];
    }
  }

  lemma {:induction false} NodeTracks(n: Node, st: Start, ls: seq<Letter>, first: Char, req: Char, vary: bool)
    requires StraightNode(n) && NodeOk(n) && Tracks(st, ls, first, req)
    ensures var r := NodeChars(n, first, req, vary);
            Tracks(Behind(st, StartOf(n)), ls + LettersOf(n), r.0, r.1)
    decreases n, 1
  {
    hide Tracks, ItemChars, LiteralZero;
    if !n.Repeat? {
      ItemTracks(n, st, ls, first, req, vary);
    } else {
      ItemTracks(n.body, st, ls, first, req, vary);
      if n.min == 0 {
        TracksOther(st, ls, first, req);
      } else if n.min > 1 {
        TwiceIs(n, st, ls, first, req, vary);
      }
    }
  }

  lemma TwiceIs(n: Node, st: Start, ls: seq<Letter>, first: Char, req: Char, vary: bool)
    requires StraightNode(n) && NodeOk(n) && n.Repeat? && n.min > 1 && Tracks(st, ls, first, req)
    requires var g := ItemChars(n.body, first, req, vary);
             && Tracks(Behind(st, StartOf(n.body)), ls + LettersOf(n.body), g.first, g.req)
             && (g.groupSetFirst <==> n.body.Sub? && st.NotYet? && StartOf(n.body).First?)
    ensures var r := NodeChars(n, first, req, vary);
            Tracks(Behind(st, StartOf(n)), ls + LettersOf(n), r.0, r.1)
  {
    hide ItemChars, LettersOf;
    var g, more := ItemChars(n.body, first, req, vary), LettersOf(n.body);
    LettersTwice(n);
    var all := ls + more;
    assert more != [] ==> all[|all| - 1] == more[|more| - 1];
    assert ls == [] ==> all == more;
    TracksTwice(Behind(st, StartOf(n.body)), ls, more, g.first, g.req, NodeChars(n, first, req, vary).1);
  }

  lemma LettersTwice(n: Node)
    requires StraightNode(n) && NodeOk(n) && n.Repeat? && n.min > 1
    ensures LettersOf(n) == LettersOf(n.body) + LettersOf(n.body)
    ensures NamesLetter(n.body) ==> LettersOf(n.body) == [LetterOf(n.body)]
  {
  }

  lemma {:induction false} SequenceTracks(s: Sequence, st: Start, ls: seq<Letter>, first: Char, req: Char, vary: bool)
    requires StraightSequence(s) && SequenceOk(s) && Tracks(st, ls, first, req)
    ensures var r := SequenceChars(s, first, req, vary);
            Tracks(Behind(st, StartOfSequence(s)), ls + LettersOfSequence(s), r.0, r.1)
    decreases s, 0
  {
    hide Tracks, NodeChars, StartOf, LettersOf;
    if s.End? {
      assert ls + [] == ls;
      BehindNothing(st);
    } else {
      var (f, r, v) := NodeChars(s.first, first, req, vary);
      NodeTracks(s.first, st, ls, first, req, vary);
      SequenceTracks(s.rest, Behind(st, StartOf(s.first)), ls + LettersOf(s.first), f, r, v);
      assert (ls + LettersOf(s.first)) + LettersOfSequence(s.rest) == ls + LettersOfSequence(s);
    }
  }

  /** The first character is known exactly if a match begins with a letter, and it is that
    * letter; the required character is the last letter that every match takes, unless that
    * is the first character. */
  lemma LettersFound(c: Choice, vary: bool)
    requires ChoiceOk(c) && c.Only? && StraightSequence(c.seq0)
    ensures var (first, req, _) := ChoiceChars(c, vary);
            var st, ls := StartOfSequence(c.seq0), LettersOfSequence(c.seq0);
            && (if st.First? then Is(first, st.letter) else first.flags < 0)
            && Requires(st, ls, req)
  {
    hide StartOfSequence, LettersOfSequence, SequenceChars;
    TracksNothing();
    SequenceTracks(c.seq0, NotYet, [], UNSET, UNSET, vary);
    assert [] + LettersOfSequence(c.seq0) == LettersOfSequence(c.seq0);
  }

  // ---------- behind something of variable length ----------

  /** Is anything in it repeated a variable number of times? */
  predicate VariesNode(n: Node)
    decreases n
  {
    match n
    case Sub(_, c) => VariesChoice(c)
    case Repeat(body, min, max, _) => min != max || VariesNode(body)
    case _ => false
  }

  predicate VariesSequence(s: Sequence)
    decreases s
  {
    s.Then? && (VariesNode(s.first) || VariesSequence(s.rest))
  }

  predicate VariesChoice(c: Choice)
    decreases c
  {
    VariesSequence(c.seq0) || (c.Or? && VariesChoice(c.others))
  }

  lemma {:induction false} NodeVaries(n: Node, first: Char, req: Char, vary: bool)
    requires NodeOk(n)
    ensures NodeChars(n, first, req, vary).2 <==> vary || VariesNode(n)
    ensures first.flags == REQ_UNSET && req.flags < 0 ==>
              var r := NodeChars(n, first, req, vary); r.0.flags == REQ_UNSET ==> r.1.flags < 0 && n.Assert?
    ensures first.flags != REQ_UNSET ==> NodeChars(n, first, req, vary).0.flags != REQ_UNSET
    decreases n
  {
    hide ChoiceChars, VariesChoice;
    var body := if n.Repeat? then n.body else n;
    if body.Sub? {
      ChoiceVaries(body.choice, vary);
    }
  }

  lemma {:induction false} SequenceVaries(s: Sequence, first: Char, req: Char, vary: bool)
    requires SequenceOk(s)
    ensures SequenceChars(s, first, req, vary).2 <==> vary || VariesSequence(s)
    decreases s
  {
    hide NodeChars, VariesNode;
    if s.Then? {
      var (f, r, v) := NodeChars(s.first, first, req, vary);
      NodeVaries(s.first, first, req, vary);
      SequenceVaries(s.rest, f, r, v);
    }
  }

  lemma {:induction false} ChoiceVaries(c: Choice, vary: bool)
    requires ChoiceOk(c)
    ensures ChoiceChars(c, vary).2 <==> vary || VariesChoice(c)
    decreases c, 1
  {
    hide SequenceChars, VariesSequence;
    var (f, r, v) := SequenceChars(c.seq0, UNSET, UNSET, vary);
    SequenceVaries(c.seq0, UNSET, UNSET, vary);
    if c.Or? {
      JoinedVaries(c.others, f, r, v);
    }
  }

  lemma {:induction false} JoinedVaries(rest: Choice, first: Char, req: Char, vary: bool)
    requires ChoiceOk(rest)
    ensures JoinedChars(rest, first, req, vary).2 <==> vary || VariesChoice(rest)
    decreases rest, 0
  {
    hide SequenceChars, VariesSequence, MergeFirst, MergeReq;
    var (f, r, v) := SequenceChars(rest.seq0, UNSET, UNSET, vary);
    SequenceVaries(rest.seq0, UNSET, UNSET, vary);
    if rest.Or? {
      JoinedVaries(rest.others, MergeFirst(first, f), MergeReq(first, req, f, r), v);
    }
  }

  /** The sequence ends with a single letter. */
  predicate EndsWithLetter(s: Sequence)
    decreases s
  {
    s.Then? && if s.rest.End? then NamesLetter(s.first) else EndsWithLetter(s.rest)
  }

  /** Something of variable length comes before its last node. */
  predicate VariesBefore(s: Sequence)
    decreases s
  {
    s.Then? && s.rest.Then? && (VariesNode(s.first) || VariesBefore(s.rest))
  }

  /** A letter at the end that is required carries the mark that something of variable length
    * comes before it exactly if something does. */
  lemma {:induction false} LastLetterVaries(s: Sequence, first: Char, req: Char, vary: bool)
    requires SequenceOk(s) && EndsWithLetter(s) && (first.flags == REQ_UNSET ==> req.flags < 0)
    ensures var r := SequenceChars(s, first, req, vary).1;
            && (first.flags != REQ_UNSET || VariesBefore(s) ==> r.flags >= 0)
            && (r.flags >= 0 ==> (r.flags >= REQ_VARY <==> vary || VariesBefore(s)))
    decreases s
  {
    hide VariesNode, NodeChars;
    var (f, r, v) := NodeChars(s.first, first, req, vary);
    if s.rest.End? {
      LetterChars(s.first, first, req, vary);
    } else {
      NodeVaries(s.first, first, req, vary);
      VariesIsNoAssert(s.first);
      LastLetterVaries(s.rest, f, r, v);
    }
  }

  lemma VariesIsNoAssert(n: Node)
    ensures VariesNode(n) ==> !n.Assert?
  {
  }

  lemma LetterChars(n: Node, first: Char, req: Char, vary: bool)
    requires NamesLetter(n)
    ensures var r := NodeChars(n, first, req, vary).1;
            if first.flags == REQ_UNSET then r == req else r.flags >= 0 && (r.flags >= REQ_VARY <==> vary)
  {
  }

  // ---------- alternatives ----------

  /** Two alternatives keep a first character exactly if they have the same one, and then a
    * required character exactly if both have one and it is the same letter. */
  lemma MergeKeeps(first: Char, req: Char, otherFirst: Char, otherReq: Char)
    requires FlagsOk(first.flags) && FlagsOk(req.flags) && FlagsOk(otherFirst.flags) && FlagsOk(otherReq.flags)
    ensures MergeFirst(first, otherFirst).flags >= 0 <==> first.flags >= 0 && first == otherFirst
    ensures first == otherFirst && first.flags >= 0 ==>
              (MergeReq(first, req, otherFirst, otherReq).flags >= 0
               <==> && req.flags >= 0 && otherReq.flags >= 0 && req.c == otherReq.c
                    && (Caseless(req.flags) <==> Caseless(otherReq.flags)))
    ensures MergeReq(first, req, otherFirst, otherReq).flags >= 0 ==>
              MergeReq(first, req, otherFirst, otherReq).c in {otherFirst.c, otherReq.c}
  {
  }
}
