/** The few functions of Go's `strings` package that the query translation
    relies on, over `seq<char>`, with the facts about them the proofs use.
    Case mapping is ASCII-only. */
module Text {

  /** `sep` occurs in `s` starting at position `j`. */
  predicate IsAt(s: string, sep: string, j: int)
  {
    0 <= j && j + |sep| <= |s| && s[j..j + |sep|] == sep
  }

  /** The first position at or after `k` where `sep` occurs in `s`, or -1. */
  function IndexFrom(s: string, sep: string, k: nat): (i: int)
    requires sep != []
    ensures i == -1 || (k <= i && IsAt(s, sep, i))
    decreases |s| - k
  {
    if k + |sep| > |s| then -1
    else if s[k..k + |sep|] == sep then k
    else IndexFrom(s, sep, k + 1)
  }

  /** `IndexFrom` finds the first occurrence, and -1 only when there is
      none. */
  lemma {:induction false} IndexFromIsFirst(s: string, sep: string, k: nat)
    requires sep != []
    ensures IndexFrom(s, sep, k) >= 0 ==>
      forall j :: k <= j < IndexFrom(s, sep, k) ==> !IsAt(s, sep, j)
    ensures IndexFrom(s, sep, k) < 0 ==> forall j :: k <= j ==> !IsAt(s, sep, j)
    decreases |s| - k
  {
    if k + |sep| <= |s| && s[k..k + |sep|] != sep {
      IndexFromIsFirst(s, sep, k + 1);
    }
  }

  /** `strings.Index` for a non-empty separator. */
  function IndexOf(s: string, sep: string): (i: int)
    requires sep != []
    ensures i == -1 || IsAt(s, sep, i)
  {
    IndexFrom(s, sep, 0)
  }

  /** `strings.Contains` for a non-empty separator. */
  predicate Contains(s: string, sep: string)
    requires sep != []
  {
    IndexOf(s, sep) >= 0
  }

  /** The pieces of `s[k..]` between the non-overlapping occurrences of
      `sep`, found from the left. */
  function SplitFrom(s: string, sep: string, k: nat): (r: seq<string>)
    requires sep != [] && k <= |s|
    ensures |r| >= 1
    decreases |s| - k
  {
    var i := IndexFrom(s, sep, k);
    if i < 0 then [s[k..]] else [s[k..i]] + SplitFrom(s, sep, i + |sep|)
  }

  /** `strings.Split` for a non-empty separator. */
  function Split(s: string, sep: string): (r: seq<string>)
    requires sep != []
    ensures |r| >= 1
  {
    SplitFrom(s, sep, 0)
  }

  /** Where the last piece of `SplitFrom(s, sep, k)` starts. */
  function LastStartFrom(s: string, sep: string, k: nat): (a: nat)
    requires sep != [] && k <= |s|
    ensures k <= a <= |s|
    decreases |s| - k
  {
    var i := IndexFrom(s, sep, k);
    if i < 0 then k else LastStartFrom(s, sep, i + |sep|)
  }

  /** Where the last piece of `Split(s, sep)` starts. */
  function LastStart(s: string, sep: string): (a: nat)
    requires sep != []
    ensures a <= |s|
  {
    LastStartFrom(s, sep, 0)
  }

  /** The last piece of a split is the suffix from `LastStartFrom`. */
  lemma {:induction false} LastStartIsLastPiece(s: string, sep: string, k: nat)
    requires sep != [] && k <= |s|
    ensures s[LastStartFrom(s, sep, k)..] == SplitFrom(s, sep, k)[|SplitFrom(s, sep, k)| - 1]
    decreases |s| - k
  {
    var i := IndexFrom(s, sep, k);
    if i < 0 {
      LastPieceWhole(s, sep, k);
    } else {
      LastStartIsLastPiece(s, sep, i + |sep|);
      LastPieceStep(s, sep, k);
    }
  }

  /** Without an occurrence of the separator, the one piece is the rest. */
  lemma LastPieceWhole(s: string, sep: string, k: nat)
    requires sep != [] && k <= |s| && IndexFrom(s, sep, k) < 0
    ensures LastStartFrom(s, sep, k) == k && SplitFrom(s, sep, k) == [s[k..]]
  {
  }

  /** Past an occurrence of the separator, the last piece and where it
      starts are those of the rest. */
  lemma LastPieceStep(s: string, sep: string, k: nat)
    requires sep != [] && k <= |s| && IndexFrom(s, sep, k) >= 0
    ensures var j := IndexFrom(s, sep, k) + |sep|;
      && LastStartFrom(s, sep, k) == LastStartFrom(s, sep, j)
      && SplitFrom(s, sep, k)[|SplitFrom(s, sep, k)| - 1] == SplitFrom(s, sep, j)[|SplitFrom(s, sep, j)| - 1]
  {
    var i := IndexFrom(s, sep, k);
    var rest := SplitFrom(s, sep, i + |sep|);
    assert SplitFrom(s, sep, k) == [s[k..i]] + rest;
  }

  /** When the separator occurs after `k`, the last piece directly follows
      an occurrence of it. */
  lemma {:induction false} LastStartAfterSep(s: string, sep: string, k: nat)
    requires sep != [] && k <= |s|
    ensures IndexFrom(s, sep, k) >= 0 ==>
      k + |sep| <= LastStartFrom(s, sep, k) && IsAt(s, sep, LastStartFrom(s, sep, k) - |sep|)
    decreases |s| - k
  {
    var i := IndexFrom(s, sep, k);
    if i >= 0 {
      LastStartAfterSep(s, sep, i + |sep|);
    }
  }

  /** The last piece holds no occurrence of the separator. */
  lemma {:induction false} LastPieceHasNoSep(s: string, sep: string, k: nat)
    requires sep != [] && k <= |s|
    ensures forall j :: LastStartFrom(s, sep, k) <= j ==> !IsAt(s, sep, j)
    decreases |s| - k
  {
    var i := IndexFrom(s, sep, k);
    IndexFromIsFirst(s, sep, k);
    if i >= 0 {
      LastPieceHasNoSep(s, sep, i + |sep|);
    }
  }

  /** `strings.Count` for a one-character substring. */
  function CountChar(s: string, c: char): (n: nat)
    ensures n <= |s|
  {
    if s == [] then 0
    else CountChar(s[..|s| - 1], c) + (if s[|s| - 1] == c then 1 else 0)
  }

  lemma {:induction false} CountCharAppend(a: string, b: string, c: char)
    ensures CountChar(a + b, c) == CountChar(a, c) + CountChar(b, c)
    decreases |b|
  {
    if b == [] {
      assert a + b == a;
    } else {
      assert (a + b)[..|a + b| - 1] == a + b[..|b| - 1];
      CountCharAppend(a, b[..|b| - 1], c);
    }
  }

  /** The positions of `c` in `s`, counted by `CountChar`. */
  lemma {:induction false} CountCharIsPositions(s: string, c: char)
    ensures |set p | 0 <= p < |s| && s[p] == c| == CountChar(s, c)
    decreases |s|
  {
    if s != [] {
      var t := s[..|s| - 1];
      CountCharIsPositions(t, c);
      var ps := set p | 0 <= p < |s| && s[p] == c;
      var pt := set p | 0 <= p < |t| && t[p] == c;
      if s[|s| - 1] == c {
        assert ps == pt + {|s| - 1};
      } else {
        assert ps == pt;
      }
    }
  }

  /** A character of `s` at some position contributes to its count. */
  lemma {:induction false} CountCharPositive(s: string, c: char, p: int)
    requires 0 <= p < |s| && s[p] == c
    ensures CountChar(s, c) >= 1
    decreases |s|
  {
    if p < |s| - 1 {
      CountCharPositive(s[..|s| - 1], c, p);
    }
  }

  /** A stretch with no occurrence of `[c]` holds no `c`. */
  lemma NoOccurrenceNoChar(s: string, c: char, lo: nat, hi: nat)
    requires lo <= hi <= |s|
    requires forall j :: lo <= j < hi ==> !IsAt(s, [c], j)
    ensures CountChar(s[lo..hi], c) == 0
  {
    forall p | 0 <= p < hi - lo ensures s[lo..hi][p] != c {
      assert !IsAt(s, [c], lo + p);
      assert s[lo + p..lo + p + 1] == [s[lo + p]];
    }
    CountCharZero(s[lo..hi], c);
  }

  /** Splitting on one character gives one more piece than there are
      occurrences of that character. */
  lemma {:induction false} SplitFromCharCount(s: string, c: char, k: nat)
    requires k <= |s|
    ensures |SplitFrom(s, [c], k)| == CountChar(s[k..], c) + 1
    decreases |s| - k
  {
    var i := IndexFrom(s, [c], k);
    IndexFromIsFirst(s, [c], k);
    if i < 0 {
      NoOccurrenceNoChar(s, c, k, |s|);
      assert s[k..|s|] == s[k..];
    } else {
      SplitFromCharCount(s, c, i + 1);
      NoOccurrenceNoChar(s, c, k, i);
      assert s[i..i + 1] == [c];
      CountCharPastFirst(s, c, k, i);
    }
  }

  /** Counting `c` from `k` when its first occurrence there is at `i`. */
  lemma CountCharPastFirst(s: string, c: char, k: nat, i: nat)
    requires k <= i < |s| && s[i] == c && CountChar(s[k..i], c) == 0
    ensures CountChar(s[k..], c) == CountChar(s[i + 1..], c) + 1
  {
    assert s[k..] == s[k..i] + [c] + s[i + 1..];
    CountCharAppend(s[k..i] + [c], s[i + 1..], c);
    CountCharAppend(s[k..i], [c], c);
    assert CountChar([c], c) == 1 by {
      assert [c][..0] == [];
    }
  }

  lemma SplitCharCount(s: string, c: char)
    ensures |Split(s, [c])| == CountChar(s, c) + 1
  {
    SplitFromCharCount(s, c, 0);
    assert s[0..] == s;
  }

  /** A character that is counted is found. */
  lemma CountCharContains(s: string, c: char)
    requires CountChar(s, c) >= 1
    ensures Contains(s, [c])
  {
    SplitCharCount(s, c);
  }

  /** A string without `c` has no occurrence of it to count. */
  lemma {:induction false} CountCharZero(s: string, c: char)
    requires forall p :: 0 <= p < |s| ==> s[p] != c
    ensures CountChar(s, c) == 0
    decreases |s|
  {
    if s != [] {
      CountCharZero(s[..|s| - 1], c);
    }
  }

  /** `strings.HasPrefix`. */
  predicate HasPrefix(s: string, prefix: string)
  {
    |prefix| <= |s| && s[..|prefix|] == prefix
  }

  predicate IsUpper(c: char)
  {
    'A' <= c <= 'Z'
  }

  predicate IsLower(c: char)
  {
    'a' <= c <= 'z'
  }

  function UpperChar(c: char): char
  {
    if IsLower(c) then (c as int - 32) as char else c
  }

  function LowerChar(c: char): (d: char)
    ensures !IsUpper(d)
  {
    if IsUpper(c) then (c as int + 32) as char else c
  }

  /** `strings.ToUpper`, ASCII letters only. */
  function Upper(s: string): (r: string)
    ensures |r| == |s|
    ensures forall i :: 0 <= i < |s| ==> r[i] == UpperChar(s[i])
  {
    seq(|s|, i requires 0 <= i < |s| => UpperChar(s[i]))
  }

  /** `strings.ToLower`, ASCII letters only. */
  function Lower(s: string): (r: string)
    ensures |r| == |s|
    ensures forall i :: 0 <= i < |s| ==> r[i] == LowerChar(s[i])
  {
    seq(|s|, i requires 0 <= i < |s| => LowerChar(s[i]))
  }
}
