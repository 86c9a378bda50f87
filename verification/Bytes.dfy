/** Byte sequences and searching in them. */
module Bytes {
  type Byte = x: int | 0 <= x < 256

  /** `sub` occurs in `s` at `at`. */
  predicate At(s: seq<int>, sub: seq<int>, at: nat) { at + |sub| <= |s| && s[at..at + |sub|] == sub }

  predicate Occurs(s: seq<int>, sub: seq<int>) { exists at :: 0 <= at <= |s| && At(s, sub, at) }

  /** The last `n` elements, or all of them. */
  function LastN(s: seq<int>, n: nat): (r: seq<int>)
    ensures |r| == if |s| <= n then |s| else n
  {
    if |s| <= n then s else s[|s| - n..]
  }

  lemma OccursIn(s: seq<int>, sub: seq<int>, at: nat)
    requires At(s, sub, at)
    ensures Occurs(s, sub)
  {
  }

  /** What occurs in a part occurs in the whole. */
  lemma OccursInWider(before: seq<int>, s: seq<int>, after: seq<int>, sub: seq<int>)
    requires Occurs(s, sub)
    ensures Occurs(before + s + after, sub)
  {
    var at :| 0 <= at <= |s| && At(s, sub, at);
    assert (before + s + after)[|before| + at..|before| + at + |sub|] == s[at..at + |sub|];
    OccursIn(before + s + after, sub, |before| + at);
  }

  lemma OccursTrans(s: seq<int>, sub: seq<int>, part: seq<int>)
    requires Occurs(s, sub) && Occurs(sub, part)
    ensures Occurs(s, part)
  {
    var at :| 0 <= at <= |s| && At(s, sub, at);
    OccursInWider(s[..at], sub, s[at + |sub|..], part);
    assert s[..at] + sub + s[at + |sub|..] == s;
  }

  /** Carrying the last `n` elements from chunk to chunk is carrying the last `n` elements of everything read. */
  lemma CarryIsTail(before: seq<int>, chunk: seq<int>, n: nat)
    ensures LastN(LastN(before, n) + chunk, n) == LastN(before + chunk, n)
  {
  }

  /** An occurrence that a chunk completes lies in the carried tail and that chunk, if the tail is long enough. */
  lemma NewOccurrence(before: seq<int>, chunk: seq<int>, sub: seq<int>, n: nat)
    requires Occurs(before + chunk, sub) && !Occurs(before, sub)
    requires |sub| <= n + 1
    ensures Occurs(LastN(before, n) + chunk, sub)
  {
    var at :| 0 <= at <= |before + chunk| && At(before + chunk, sub, at);
    if at + |sub| <= |before| {
      assert before[at..at + |sub|] == (before + chunk)[at..at + |sub|];
      OccursIn(before, sub, at);
    } else {
      var cut := |before| - |LastN(before, n)|;
      assert cut <= at;
      assert (LastN(before, n) + chunk)[at - cut..at - cut + |sub|] == (before + chunk)[at..at + |sub|];
      OccursIn(LastN(before, n) + chunk, sub, at - cut);
    }
  }
}
