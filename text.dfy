/** String helpers shared by the client and the server models: substring
    occurrences, the leftmost-greedy match of a two-delimiter pattern, and
    ASCII lower-casing. */
module Text {
  import opened Wrappers

  /** `pat` occurs in `s` at index `i`. */
  predicate At(s: string, pat: string, i: int)
  {
    0 <= i && i + |pat| <= |s| && s[i..i + |pat|] == pat
  }

  /** The first index at or after `from` where `pat` occurs. */
  function FirstAt(s: string, pat: string, from: nat): (r: Option<nat>)
    requires from <= |s|
    ensures r.Some? ==> from <= r.value && At(s, pat, r.value)
    ensures r.Some? ==> forall j :: from <= j < r.value ==> !At(s, pat, j)
    ensures r.None? ==> forall j :: from <= j ==> !At(s, pat, j)
    decreases |s| - from
  {
    if At(s, pat, from) then Some(from)
    else if from == |s| then None
    else FirstAt(s, pat, from + 1)
  }

  /** The last index in the range `from..hi` (both included) where `pat` occurs. */
  function LastAt(s: string, pat: string, from: nat, hi: int): (r: Option<nat>)
    ensures r.Some? ==> from <= r.value <= hi && At(s, pat, r.value)
    ensures r.Some? ==> forall j :: r.value < j <= hi ==> !At(s, pat, j)
    ensures r.None? ==> forall j :: from <= j <= hi ==> !At(s, pat, j)
    decreases hi - from + 1
  {
    if hi < from then None
    else if At(s, pat, hi) then Some(hi)
    else LastAt(s, pat, from, hi - 1)
  }

  /** `a` at `p` and `b` at `q`, with `b` starting after `a` ends. */
  predicate Pair(s: string, a: string, b: string, p: int, q: int)
  {
    At(s, a, p) && At(s, b, q) && p + |a| <= q
  }

  /** Some span of `s` has the shape `a … b`. */
  ghost predicate HasPair(s: string, a: string, b: string)
  {
    exists p, q :: Pair(s, a, b, p, q)
  }

  /** The span a backtracking regular-expression engine picks for `a(.*)b`
      when `.` matches every character of `s`: the leftmost start, and from
      there the longest match, so `b` is its last occurrence. */
  ghost predicate GreedyPair(s: string, a: string, b: string, p: int, q: int)
  {
    && Pair(s, a, b, p, q)
    && (forall j :: 0 <= j < p ==> !At(s, a, j))
    && (forall j :: q < j ==> !At(s, b, j))
  }

  /** Locates the leftmost-greedy `a … b` span, if there is one. */
  function FindPair(s: string, a: string, b: string): (r: Option<(nat, nat)>)
    ensures r.Some? ==> GreedyPair(s, a, b, r.value.0, r.value.1)
    ensures r.None? ==> !HasPair(s, a, b)
  {
    match FirstAt(s, a, 0)
    case None => None
    case Some(p) =>
      match LastAt(s, b, p + |a|, |s|)
      case None => None
      case Some(q) => Some((p, q))
  }

  /** At most one span is leftmost-greedy, so `FindPair` is determined by its contract. */
  lemma GreedyPairUnique(s: string, a: string, b: string, p: int, q: int, p': int, q': int)
    requires GreedyPair(s, a, b, p, q) && GreedyPair(s, a, b, p', q')
    ensures p == p' && q == q'
  {
  }

  /** A greedy span exists exactly when some span exists. */
  lemma GreedyPairExists(s: string, a: string, b: string)
    requires HasPair(s, a, b)
    ensures exists p, q :: GreedyPair(s, a, b, p, q)
  {
    var r := FindPair(s, a, b);
    assert GreedyPair(s, a, b, r.value.0, r.value.1);
  }

  /** JavaScript's `toLowerCase` and Python's `lower` on ASCII letters. */
  function LowerChar(c: char): char
  {
    if 'A' <= c <= 'Z' then (c as int + 32) as char else c
  }

  function Lower(s: string): (r: string)
    ensures |r| == |s|
    ensures forall i :: 0 <= i < |s| && 'A' <= s[i] <= 'Z' ==> r[i] as int == s[i] as int + 32
    ensures forall i :: 0 <= i < |s| && !('A' <= s[i] <= 'Z') ==> r[i] == s[i]
    ensures forall i :: 0 <= i < |r| ==> !('A' <= r[i] <= 'Z')
  {
    seq(|s|, i requires 0 <= i < |s| => LowerChar(s[i]))
  }
}
