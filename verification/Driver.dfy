/** Matching from the first possible start on. The driver skips starts that cannot
  * match and gives up early; the main results are that this changes nothing: the
  * outcome is that of trying every start in turn, and the matches reported are the
  * matches of the pattern.
  */
module Driver {
  import opened Opcodes
  import opened Tree
  import opened Meaning
  import opened Pattern
  import opened Expansion
  import opened Sizing
  import opened Decoding
  import opened Program
  import opened DfaExec
  import opened Anchored
  import opened FirstReq
  import opened Compile

  const REQ_BYTE_MAX := 1000

  /** A compiled pattern with what is known about the starts of its matches. */
  datatype Regex = Regex(
    code: seq<byte>,
    anchored: bool,
    firstSet: bool,
    firstChar: byte,
    firstCaseless: bool,
    reqSet: bool,
    reqChar: byte,
    reqCaseless: bool)

  /** Is c the character, or its other case if case does not matter? */
  predicate IsChar(env: Env, c: byte, ch: byte, caseless: bool)
    requires |env.fcc| == 256
  {
    c == ch || (caseless && c == env.fcc[ch])
  }

  ghost predicate HasReq(env: Env, re: Regex, p: nat, q: nat)
    requires |env.fcc| == 256
  {
    exists i: nat :: p <= i < q && i < |env.s| && IsChar(env, env.s[i], re.reqChar, re.reqCaseless)
  }

  /** What is recorded is true of every match with these tables. */
  ghost predicate Recorded(env: Env, re: Regex, root: Item)
    requires root.Group? && |env.fcc| == 256
  {
    && (re.anchored ==> !re.firstSet && forall p: nat, p': nat, q: nat ::
          p < p' <= |env.s| && Matches(env, root, p', q) ==> Matches(env, root, p, q))
    && (forall p: nat, q: nat :: p <= |env.s| && Matches(env, root, p, q) ==>
          && (re.firstSet ==> p < |env.s| && IsChar(env, env.s[p], re.firstChar, re.firstCaseless))
          && (re.reqSet ==> HasReq(env, re, if re.firstSet then p + 1 else p, q)))
  }

  /** No match starts at p. */
  ghost predicate NoMatchAt(env: Env, root: Item, p: nat)
    requires root.Group?
  {
    forall q: nat :: !Matches(env, root, p, q)
  }

  ghost predicate NoMatchFrom(env: Env, root: Item, lo: nat, hi: nat)
    requires root.Group?
  {
    forall p: nat :: lo <= p < hi ==> NoMatchAt(env, root, p)
  }

  /** Skip to the next start that has the known first character, if there is one. */
  method SkipToFirst(env: Env, re: Regex, current0: nat, ghost root: Item) returns (current: nat)
    requires env.Ok() && root.Group? && Recorded(env, re, root) && re.firstSet && current0 <= |env.s|
    ensures current0 <= current <= |env.s| && NoMatchFrom(env, root, current0, current)
    ensures current < |env.s| ==> IsChar(env, env.s[current], re.firstChar, re.firstCaseless)
    ensures forall i: nat :: current0 <= i < current ==> !IsChar(env, env.s[i], re.firstChar, re.firstCaseless)
  {
    current := current0;
    var first2 := if re.firstCaseless then env.fcc[re.firstChar] else re.firstChar;
    while current < |env.s| && env.s[current] != re.firstChar && env.s[current] != first2
      invariant current0 <= current <= |env.s| && NoMatchFrom(env, root, current0, current)
      invariant forall i: nat :: current0 <= i < current ==> !IsChar(env, env.s[i], re.firstChar, re.firstCaseless)
    {
      assert NoMatchAt(env, root, current);
      current := current + 1;
    }
  }

  /** Look for the required character from p on; the end if it is not there. */
  method FindReq(env: Env, re: Regex, p0: nat) returns (p: nat)
    requires env.Ok()
    ensures p0 <= p && (p < |env.s| ==> IsChar(env, env.s[p], re.reqChar, re.reqCaseless))
    ensures forall i: nat :: p0 <= i < p && i < |env.s| ==> !IsChar(env, env.s[i], re.reqChar, re.reqCaseless)
  {
    p := p0;
    var req2 := if re.reqCaseless then env.fcc[re.reqChar] else re.reqChar;
    while p < |env.s| && env.s[p] != re.reqChar && env.s[p] != req2
      invariant p0 <= p
      invariant forall i: nat :: p0 <= i < p && i < |env.s| ==> !IsChar(env, env.s[i], re.reqChar, re.reqCaseless)
      decreases |env.s| - p
    {
      p := p + 1;
    }
  }

  /** Every match has the required character. */
  lemma ReqOfMatch(env: Env, re: Regex, root: Item, p: nat, q: nat) returns (i: nat)
    requires root.Group? && env.Ok() && Recorded(env, re, root) && re.reqSet && p <= |env.s| && Matches(env, root, p, q)
    ensures (if re.firstSet then p + 1 else p) <= i < q && i < |env.s|
    ensures IsChar(env, env.s[i], re.reqChar, re.reqCaseless)
  {
    hide Matches;
    assert HasReq(env, re, if re.firstSet then p + 1 else p, q);
    i :| (if re.firstSet then p + 1 else p) <= i < q && i < |env.s|
         && IsChar(env, env.s[i], re.reqChar, re.reqCaseless);
  }

  /** Without the required character behind the start there is no match there or
    * later. */
  lemma NoReqNoMatch(env: Env, re: Regex, root: Item, current: nat, p: nat)
    requires root.Group? && env.Ok() && Recorded(env, re, root) && re.reqSet
    requires p == current + (if re.firstSet then 1 else 0)
    requires forall i: nat :: p <= i < |env.s| ==> !IsChar(env, env.s[i], re.reqChar, re.reqCaseless)
    ensures NoMatchFrom(env, root, current, |env.s| + 1)
  {
    hide Recorded, Matches, IsChar;
    forall p': nat | current <= p' <= |env.s| ensures NoMatchAt(env, root, p') {
      forall q: nat ensures !Matches(env, root, p', q) {
        if Matches(env, root, p', q) {
          var i := ReqOfMatch(env, re, root, p', q);
        }
      }
    }
  }

  /** What one run of the engine says about its start. */
  lemma RunSays(env: Env, root: Item, current: nat, ends: seq<nat>, rc: int, pairs: nat)
    requires root.Group? && AllEnds(env, root, root, current, ends) && rc == MatchCount(|ends|, pairs)
    ensures rc == PCRE_ERROR_NOMATCH <==> NoMatchAt(env, root, current)
    ensures forall q: nat :: q in ends <==> Matches(env, root, current, q)
  {
    hide MAlts, MBranch, Increasing;
    forall q: nat ensures q in ends <==> Matches(env, root, current, q) {
    }
    if |ends| > 0 {
      assert Matches(env, root, current, ends[0]);
    }
  }

  lemma RunIncreases(env: Env, root: Item, current: nat, ends: seq<nat>, rc: int, pairs: nat)
    requires root.Group? && AllEnds(env, root, root, current, ends) && rc == MatchCount(|ends|, pairs)
    ensures Increasing(ends) && (rc != PCRE_ERROR_NOMATCH ==> ends != [])
  {
  }

  lemma JoinNoMatch(env: Env, root: Item, lo: nat, mid: nat, hi: nat)
    requires root.Group? && NoMatchFrom(env, root, lo, mid) && lo <= mid <= hi
    requires NoMatchFrom(env, root, mid, hi) || (hi == mid + 1 && NoMatchAt(env, root, mid))
    ensures NoMatchFrom(env, root, lo, hi)
  {
    hide NoMatchAt;
  }

  /** Giving up because the required character is not there any more. */
  lemma GivesUp(env: Env, re: Regex, root: Item, current: nat, hasFirst: bool, p: nat)
    requires root.Group? && env.Ok() && Recorded(env, re, root) && re.reqSet && p >= |env.s|
    requires (hasFirst ==> re.firstSet)
    requires var p0 := current + (if hasFirst then 1 else 0);
             && p0 <= p
             && forall i: nat :: p0 <= i < p && i < |env.s| ==> !IsChar(env, env.s[i], re.reqChar, re.reqCaseless)
    ensures NoMatchFrom(env, root, current, |env.s| + 1)
  {
    NoReqNoMatch(env, re, root, current, current + if re.firstSet then 1 else 0);
  }

  /** For an anchored pattern a start that fails is followed by failures. */
  lemma NoLaterMatch(env: Env, re: Regex, root: Item, current: nat, p: nat)
    requires root.Group? && env.Ok() && Recorded(env, re, root) && NoMatchAt(env, root, current) && re.anchored
    requires current <= p <= |env.s|
    ensures NoMatchAt(env, root, p)
  {
    hide Matches;
    if current < p {
      forall q: nat ensures !Matches(env, root, p, q) {
        assert !Matches(env, root, current, q);
      }
    }
  }

  /** For an anchored pattern the first start decides. */
  lemma FirstIsEnough(env: Env, re: Regex, root: Item, current: nat, onlyFirst: bool)
    requires root.Group? && env.Ok() && Recorded(env, re, root) && NoMatchAt(env, root, current)
    requires (onlyFirst || re.anchored)
    ensures NoMatchFrom(env, root, current, if onlyFirst then current + 1 else |env.s| + 1)
  {
    hide Recorded, NoMatchAt;
    if !onlyFirst {
      forall p: nat | current <= p <= |env.s| ensures NoMatchAt(env, root, p) {
        NoLaterMatch(env, re, root, current, p);
      }
    }
  }

  lemma RootIsLaid(md: MatchData)
    requires md.Valid()
    ensures md.root.Group? && Laid(md.x, md.code, md.root, 0) && md.env.Ok()
    ensures md.recursive == NoRecursion ==> md.CallsOk()
  {
  }

  /** From every start the run of the whole pattern succeeds in so much workspace. */
  ghost predicate AllSucceed(md: MatchData, wscount: int)
    requires md.Valid()
  {
    md.root.Group? &&
    forall p: nat :: p <= |md.env.s| ==> Succeeds(md, NoRecursion, md.root, 0, p, ListLimit(wscount))
  }

  /** Try the starts from the given offset on. The starts that are not tried cannot
    * match, unless the caller asked for the first start only. */
  method PcreDfaExec(md: MatchData, re: Regex, startOffset: nat, onlyFirst: bool, noStartOptimize: bool,
                     offsets: array<int>, wscount: int)
    returns (rc: int, ghost start: nat, ghost ends: seq<nat>)
    requires md.Valid() && md.recursive == NoRecursion && re.code == md.code && Recorded(md.env, re, md.root)
    requires startOffset == md.env.startOffset <= |md.env.s| && wscount >= 20
    modifies md, offsets
    ensures rc >= 0 ==>
              && startOffset <= start <= |md.env.s| && NoMatchFrom(md.env, md.root, startOffset, start)
              && ends != [] && Increasing(ends) && (forall q: nat :: q in ends <==> Matches(md.env, md.root, start, q))
              && VectorHolds(offsets[..], offsets.Length / 2, start, ends)
              && rc == MatchCount(|ends|, offsets.Length / 2)
    ensures rc == PCRE_ERROR_NOMATCH ==>
              NoMatchFrom(md.env, md.root, startOffset, if onlyFirst then startOffset + 1 else |md.env.s| + 1)
    ensures rc >= 0 || rc == PCRE_ERROR_NOMATCH || IsError(rc)
    ensures rc >= 0 ==> !RunLoops(md, NoRecursion, md.root, 0, start)
    ensures rc == PCRE_ERROR_RECURSELOOP ==> start <= |md.env.s| && RunLoops(md, NoRecursion, md.root, 0, start)
    ensures Overflowing(rc, |md.env.s|)
    ensures AllSucceed(md, wscount) ==> rc >= 0 || rc == PCRE_ERROR_NOMATCH
  {
    var env := md.env;
    ghost var root := md.root;
    var current: nat := startOffset;
    var reqCharPtr := current - 1;
    var anchored := onlyFirst || re.anchored;
    var hasFirst := !anchored && re.firstSet;
    start, ends := current, [];
    RootIsLaid(md);
    hide IsProgram, LayItem, AllEnds, Matches, MatchCount, VectorHolds, Laid, NoMatchAt, Succeeds, RunLoops;
    while true
      invariant startOffset <= current <= |env.s| && md.recursive == NoRecursion
      invariant NoMatchFrom(env, root, startOffset, current)
      invariant anchored ==> current == startOffset
      invariant -1 <= reqCharPtr < |env.s| || reqCharPtr == startOffset - 1
      invariant reqCharPtr >= startOffset ==> IsChar(env, env.s[reqCharPtr], re.reqChar, re.reqCaseless)
      decreases |env.s| - current
    {
      if !noStartOptimize {
        if hasFirst {
          ghost var before := current;
          current := SkipToFirst(env, re, current, root);
          JoinNoMatch(env, root, startOffset, before, current);
        }
        if re.reqSet && |env.s| - current < REQ_BYTE_MAX {
          var p := current + if hasFirst then 1 else 0;
          if p > reqCharPtr {
            p := FindReq(env, re, p);
            if p >= |env.s| {
              GivesUp(env, re, root, current, hasFirst, p);
              JoinNoMatch(env, root, startOffset, current, |env.s| + 1);
              return PCRE_ERROR_NOMATCH, start, ends;
            }
            reqCharPtr := p;
          }
        }
      }
      start := current;
      rc, ends := InternalDfaExec(md, root, 0, current, offsets, wscount);
      if rc >= PCRE_ERROR_NOMATCH {
        RunSays(env, root, current, ends, rc, offsets.Length / 2);
        RunIncreases(env, root, current, ends, rc, offsets.Length / 2);
      }
      if rc != PCRE_ERROR_NOMATCH || anchored {
        if rc == PCRE_ERROR_NOMATCH {
          FirstIsEnough(env, re, root, current, onlyFirst);
        }
        return;
      }
      JoinNoMatch(env, root, startOffset, current, current + 1);
      current := current + 1;
      if current > |env.s| {
        break;
      }
    }
    rc := PCRE_ERROR_NOMATCH;
  }
}
