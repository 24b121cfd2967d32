/**
  Line-level helpers shared by both scripts: a prefix test (what an anchored
  literal regular expression checks) and Python's `filter` over a list of lines.
*/
module Lines {

  /** `s` begins with `prefix`: the match of a regular expression `^prefix` with a literal prefix. */
  predicate StartsWith(s: string, prefix: string) {
    |prefix| <= |s| && s[..|prefix|] == prefix
  }

  /**
    The elements of `s` that satisfy `p`, in their original order, as Python's
    `filter(p, s)` returns them. Defined from the back so that a left-to-right
    loop can extend it one element at a time.
  */
  function Filter<T>(p: T -> bool, s: seq<T>): (r: seq<T>)
    ensures |r| <= |s|
    ensures forall k :: 0 <= k < |r| ==> p(r[k])
  {
    if s == [] then []
    else Filter(p, s[..|s| - 1]) + (if p(s[|s| - 1]) then [s[|s| - 1]] else [])
  }

  /** The positions of `s` whose element satisfies `p`, in increasing order. */
  function KeptIndices<T>(p: T -> bool, s: seq<T>): (idx: seq<nat>)
    ensures forall k :: 0 <= k < |idx| ==> idx[k] < |s|
  {
    if s == [] then []
    else KeptIndices(p, s[..|s| - 1]) + (if p(s[|s| - 1]) then [|s| - 1] else [])
  }

  /** `t` is the subsequence of `s` found at the strictly increasing positions `idx`. */
  ghost predicate EmbedsAt<T>(t: seq<T>, s: seq<T>, idx: seq<nat>) {
    && |idx| == |t|
    && (forall k :: 0 <= k < |idx| ==> idx[k] < |s| && t[k] == s[idx[k]])
    && (forall k, l :: 0 <= k < l < |idx| ==> idx[k] < idx[l])
  }

  /**
    The filtered sequence is exactly the subsequence of `s` at the positions
    whose element satisfies `p`: order is kept, nothing kept is lost, nothing
    rejected gets through.
  */
  lemma {:induction false} FilterSelects<T>(p: T -> bool, s: seq<T>)
    ensures EmbedsAt(Filter(p, s), s, KeptIndices(p, s))
    ensures forall j :: 0 <= j < |s| ==> (j in KeptIndices(p, s) <==> p(s[j]))
  {
    if s != [] {
      var s' := s[..|s| - 1];
      FilterSelects(p, s');
      assert forall j :: 0 <= j < |s'| ==> s'[j] == s[j];
    }
  }

  /** A sequence all of whose elements satisfy `p` passes the filter unchanged. */
  lemma {:induction false} FilterKeepsAll<T>(p: T -> bool, s: seq<T>)
    requires forall k :: 0 <= k < |s| ==> p(s[k])
    ensures Filter(p, s) == s
  {
    if s != [] {
      FilterKeepsAll(p, s[..|s| - 1]);
    }
  }

  /** Filtering twice with the same predicate is filtering once. */
  lemma FilterIdempotent<T>(p: T -> bool, s: seq<T>)
    ensures Filter(p, Filter(p, s)) == Filter(p, s)
  {
    FilterKeepsAll(p, Filter(p, s));
  }

  /** Extending the input by one element extends the output by that element or by nothing. */
  lemma FilterSnoc<T>(p: T -> bool, s: seq<T>, x: T)
    ensures Filter(p, s + [x]) == Filter(p, s) + (if p(x) then [x] else [])
  {
    assert (s + [x])[..|s|] == s;
  }

  /**
    Two sequences that agree on which positions pass, and agree at every
    position that passes, filter to the same result.
  */
  lemma {:induction false} FilterCongruent<T>(p: T -> bool, s: seq<T>, t: seq<T>)
    requires |s| == |t|
    requires forall k :: 0 <= k < |s| ==> p(s[k]) == p(t[k])
    requires forall k :: 0 <= k < |s| && p(s[k]) ==> s[k] == t[k]
    ensures Filter(p, s) == Filter(p, t)
  {
    if s != [] {
      FilterCongruent(p, s[..|s| - 1], t[..|t| - 1]);
    }
  }
}
