/**
 * Splitting an input line into comma-separated fields, and the inverse
 * operation (joining fields with a delimiter) used to describe output rows.
 */
module Text {

  /** Number of occurrences of `d` in `s`. */
  function Occurrences(s: string, d: char): nat {
    multiset(s)[d]
  }

  /**
   * Position of the first `d` at or after `from`, or -1 when there is none
   * (the -1 plays the part of `string_view::npos`).
   */
  function Find(s: string, d: char, from: nat): (i: int)
    requires from <= |s|
    ensures i == -1 || from <= i < |s|
    decreases |s| - from
  {
    if from == |s| then -1
    else if s[from] == d then from
    else Find(s, d, from + 1)
  }

  /** -1 means no `d` from `from` on; otherwise the first `d` from there. */
  lemma {:induction false} FindMeaning(s: string, d: char, from: nat)
    requires from <= |s|
    ensures Find(s, d, from) == -1 ==> forall k :: from <= k < |s| ==> s[k] != d
    ensures Find(s, d, from) != -1 ==>
      s[Find(s, d, from)] == d && forall k :: from <= k < Find(s, d, from) ==> s[k] != d
    decreases |s| - from
  {
    if from < |s| && s[from] != d {
      FindMeaning(s, d, from + 1);
    }
  }

  /** The fields `tokens` written one after another, separated by `d`. */
  function Join(tokens: seq<string>, d: char): string {
    if |tokens| == 0 then []
    else if |tokens| == 1 then tokens[0]
    else tokens[0] + [d] + Join(tokens[1..], d)
  }

  /**
   * Reference definition of splitting: the text before the first delimiter,
   * then the split of the rest. A line without delimiter is one token.
   */
  function Split(s: string, d: char): (tokens: seq<string>)
    ensures |tokens| >= 1
    decreases |s|
  {
    var i := Find(s, d, 0);
    if i == -1 then [s] else [s[..i]] + Split(s[i + 1..], d)
  }

  /**
   * Splitting yields one more field than there are delimiters, no field
   * holds the delimiter, and joining the fields gives the line back.
   */
  lemma SplitFields(s: string, d: char)
    ensures |Split(s, d)| == Occurrences(s, d) + 1
    ensures forall i :: 0 <= i < |Split(s, d)| ==> d !in Split(s, d)[i]
    ensures Join(Split(s, d), d) == s
  {
    SplitCount(s, d);
    SplitNoDelimiter(s, d);
    JoinSplit(s, d);
  }

  /** `s` is the text before its first delimiter, the delimiter, and the rest. */
  lemma AtFirst(s: string, d: char)
    requires Find(s, d, 0) != -1
    ensures var i := Find(s, d, 0);
      && Split(s, d) == [s[..i]] + Split(s[i + 1..], d)
      && s == s[..i] + [d] + s[i + 1..]
      && d !in s[..i]
  {
    var i := Find(s, d, 0);
    FindMeaning(s, d, 0);
    assert s[..i] + [d] == s[..i + 1];
    assert s[..i + 1] + s[i + 1..] == s;
  }

  lemma {:induction false} SplitCount(s: string, d: char)
    ensures |Split(s, d)| == Occurrences(s, d) + 1
    decreases |s|
  {
    var i := Find(s, d, 0);
    if i == -1 {
      FindMeaning(s, d, 0);
      assert d !in multiset(s);
    } else {
      AtFirst(s, d);
      SplitCount(s[i + 1..], d);
      MultisetAround(s[..i], d, s[i + 1..]);
    }
  }

  lemma MultisetAround(a: string, d: char, b: string)
    ensures multiset(a + [d] + b) == multiset(a) + multiset{d} + multiset(b)
  {
  }

  lemma {:induction false} SplitNoDelimiter(s: string, d: char)
    ensures forall i :: 0 <= i < |Split(s, d)| ==> d !in Split(s, d)[i]
    decreases |s|
  {
    var i := Find(s, d, 0);
    if i == -1 {
      FindMeaning(s, d, 0);
    } else {
      AtFirst(s, d);
      SplitNoDelimiter(s[i + 1..], d);
      var rest := Split(s[i + 1..], d);
      assert forall k :: 1 <= k < |Split(s, d)| ==> Split(s, d)[k] == rest[k - 1];
    }
  }

  lemma {:induction false} JoinSplit(s: string, d: char)
    ensures Join(Split(s, d), d) == s
    decreases |s|
  {
    var i := Find(s, d, 0);
    if i != -1 {
      AtFirst(s, d);
      JoinSplit(s[i + 1..], d);
      var rest := Split(s[i + 1..], d);
      assert ([s[..i]] + rest)[1..] == rest;
    }
  }

  /**
   * The line splitter of the reconstruction program: walks the line from
   * delimiter to delimiter and keeps the text in between, then the tail.
   */
  method SplitString(s: string, d: char) returns (tokens: seq<string>)
    ensures |tokens| == Occurrences(s, d) + 1
    ensures forall i :: 0 <= i < |tokens| ==> d !in tokens[i]
    ensures Join(tokens, d) == s
    ensures tokens == Split(s, d)
  {
    tokens := [];
    var start := 0;
    var end := Find(s, d, 0);
    assert s[0..] == s;
    while end != -1
      invariant 0 <= start <= |s|
      invariant end == Find(s, d, start)
      invariant tokens + Split(s[start..], d) == Split(s, d)
      decreases |s| - start
    {
      SplitStep(s, d, start, end, tokens);
      tokens := tokens + [s[start..end]];
      start := end + 1;
      end := Find(s, d, start);
    }
    SplitLast(s, d, start, tokens);
    tokens := tokens + [s[start..]];
    SplitFields(s, d);
  }

  /** A field found by the splitter is the next field of the split. */
  lemma SplitStep(s: string, d: char, start: nat, end: nat, tokens: seq<string>)
    requires start <= |s| && end == Find(s, d, start)
    requires tokens + Split(s[start..], d) == Split(s, d)
    ensures start <= end < |s|
    ensures (tokens + [s[start..end]]) + Split(s[end + 1..], d) == Split(s, d)
  {
    SplitAtFound(s, d, start);
    ConcatAssoc(tokens, [s[start..end]], Split(s[end + 1..], d));
  }

  /** When no delimiter is left, the tail is the last field. */
  lemma SplitLast(s: string, d: char, start: nat, tokens: seq<string>)
    requires start <= |s| && Find(s, d, start) == -1
    requires tokens + Split(s[start..], d) == Split(s, d)
    ensures tokens + [s[start..]] == Split(s, d)
  {
    SplitAtFound(s, d, start);
  }

  /**
   * One step of the splitter: searching from `start` finds either the end of
   * the next field, or nothing, in which case the tail is the last field.
   */
  lemma SplitAtFound(s: string, d: char, start: nat)
    requires start <= |s|
    ensures Find(s, d, start) == -1 ==> Split(s[start..], d) == [s[start..]]
    ensures Find(s, d, start) != -1 ==>
      Split(s[start..], d) == [s[start..Find(s, d, start)]] + Split(s[Find(s, d, start) + 1..], d)
  {
    FindShift(s, d, start);
    var i := Find(s, d, start);
    if i == -1 {
      SplitNotFound(s[start..], d);
    } else {
      SplitFoundAt(s, d, start, i);
    }
  }

  lemma SplitFoundAt(s: string, d: char, start: nat, i: nat)
    requires start <= i < |s| && Find(s[start..], d, 0) == i - start
    ensures Split(s[start..], d) == [s[start..i]] + Split(s[i + 1..], d)
  {
    SplitFound(s[start..], d, i - start);
    SplitSlices(s, start, i);
  }

  /** A line without delimiter is a single field. */
  lemma SplitNotFound(t: string, d: char)
    requires Find(t, d, 0) == -1
    ensures Split(t, d) == [t]
  {
  }

  /** Unfolding `Split` once at a known first delimiter. */
  lemma SplitFound(t: string, d: char, j: nat)
    requires j < |t| && Find(t, d, 0) == j
    ensures Split(t, d) == [t[..j]] + Split(t[j + 1..], d)
  {
  }

  lemma SplitSlices(s: string, start: nat, end: nat)
    requires start <= end < |s|
    ensures s[start..][..end - start] == s[start..end]
    ensures s[start..][end - start + 1..] == s[end + 1..]
  {
  }

  /** Searching from `start` is searching the suffix that begins there. */
  lemma FindShift(s: string, d: char, start: nat)
    requires start <= |s|
    ensures Find(s, d, start) == -1 ==> Find(s[start..], d, 0) == -1
    ensures Find(s, d, start) != -1 ==> Find(s[start..], d, 0) == Find(s, d, start) - start
    decreases |s| - start
  {
    if start < |s| && s[start] != d {
      FindShift(s, d, start + 1);
      assert s[start + 1..] == s[start..][1..];
      FindSuffix(s[start..], d);
    }
  }

  /** A search that skips a non-delimiter first character. */
  lemma FindSuffix(t: string, d: char)
    requires |t| > 0 && t[0] != d
    ensures Find(t[1..], d, 0) == -1 ==> Find(t, d, 0) == -1
    ensures Find(t[1..], d, 0) != -1 ==> Find(t, d, 0) == Find(t[1..], d, 0) + 1
    decreases |t|
  {
    FindFromOne(t, d, 1);
  }

  /** Searching `t` from `k` is searching `t[1..]` from `k - 1`. */
  lemma FindFromOne(t: string, d: char, k: nat)
    requires 1 <= k <= |t|
    ensures Find(t[1..], d, k - 1) == -1 ==> Find(t, d, k) == -1
    ensures Find(t[1..], d, k - 1) != -1 ==> Find(t, d, k) == Find(t[1..], d, k - 1) + 1
    decreases |t| - k
  {
    if k < |t| {
      FindFromOne(t, d, k + 1);
    }
  }

  /** Splitting a joined row gives its fields back when no field holds `d`. */
  lemma {:induction false} SplitJoin(tokens: seq<string>, d: char)
    requires |tokens| >= 1
    requires forall i :: 0 <= i < |tokens| ==> d !in tokens[i]
    ensures Split(Join(tokens, d), d) == tokens
    decreases |tokens|
  {
    var s := Join(tokens, d);
    var t := tokens[0];
    if |tokens| == 1 {
      FindNone(s, d);
    } else {
      var rest := tokens[1..];
      assert s == t + [d] + Join(rest, d);
      assert s[..|t|] == t;
      FindFirst(s, d, |t|);
      assert s[|t| + 1..] == Join(rest, d);
      SplitJoin(rest, d);
      assert tokens == [t] + rest;
    }
  }

  /** The first delimiter of `s` is at `j` when `s[j]` is one and none precedes it. */
  lemma FindFirst(s: string, d: char, j: nat)
    requires j < |s| && s[j] == d && d !in s[..j]
    ensures Find(s, d, 0) == j
  {
    FindMeaning(s, d, 0);
  }

  /** A text without `d` has no first `d`. */
  lemma FindNone(s: string, d: char)
    requires d !in s
    ensures Find(s, d, 0) == -1
  {
    FindMeaning(s, d, 0);
  }

  /** Every occurrence of `d` in a joined row is a separator or inside a field. */
  lemma {:induction false} JoinOccurrences(tokens: seq<string>, d: char)
    requires |tokens| >= 1
    ensures Occurrences(Join(tokens, d), d) == |tokens| - 1 + SumOccurrences(tokens, d)
    decreases |tokens|
  {
    if |tokens| > 1 {
      JoinOccurrences(tokens[1..], d);
      var s := Join(tokens, d);
      assert s == tokens[0] + [d] + Join(tokens[1..], d);
      assert multiset(s) == multiset(tokens[0]) + multiset{d} + multiset(Join(tokens[1..], d)) by {
        calc {
          multiset(s);
          multiset(tokens[0] + [d] + Join(tokens[1..], d));
          multiset(tokens[0] + [d]) + multiset(Join(tokens[1..], d));
        }
      }
    }
  }

  /** `f` applied to each element, in order. */
  function Map<A, B>(f: A -> B, s: seq<A>): (r: seq<B>)
    ensures |r| == |s|
  {
    if s == [] then [] else [f(s[0])] + Map(f, s[1..])
  }

  lemma {:induction false} MapAppend<A, B>(f: A -> B, a: seq<A>, b: seq<A>)
    ensures Map(f, a + b) == Map(f, a) + Map(f, b)
    decreases |a|
  {
    if a == [] {
      assert [] + b == b;
    } else {
      MapAppend(f, a[1..], b);
      assert (a + b)[1..] == a[1..] + b;
      assert (a + b)[0] == a[0];
    }
  }

  /** The strings of `parts` written one after another. */
  function Flatten(parts: seq<string>): string {
    if parts == [] then [] else parts[0] + Flatten(parts[1..])
  }

  lemma {:induction false} FlattenAppend(p: seq<string>, q: seq<string>)
    ensures Flatten(p + q) == Flatten(p) + Flatten(q)
    decreases |p|
  {
    if p == [] {
      assert [] + q == q;
    } else {
      var head := p[0];
      var tail := p[1..];
      FlattenAppend(tail, q);
      assert (p + q)[0] == head;
      assert (p + q)[1..] == tail + q;
      ConcatAssoc(head, Flatten(tail), Flatten(q));
    }
  }

  lemma FlattenOne(x: string)
    ensures Flatten([x]) == x
  {
    assert [x][1..] == [];
  }

  /** Regrouping a concatenation of three sequences. */
  lemma ConcatAssoc<T>(x: seq<T>, y: seq<T>, z: seq<T>)
    ensures x + (y + z) == x + y + z
  {
  }

  /** Total number of `d` characters inside the fields themselves. */
  function SumOccurrences(tokens: seq<string>, d: char): nat {
    if |tokens| == 0 then 0 else Occurrences(tokens[0], d) + SumOccurrences(tokens[1..], d)
  }
}
