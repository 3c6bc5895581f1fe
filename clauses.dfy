/** The clauses of a pseudo-SQL expression such as "a = ? AND b != ?" and
    the placeholders they consume.

    The expression is processed in two passes, one that splits it on
    " AND " and one that splits it on " OR " (each only when that separator
    occurs). A piece of a pass is a clause when it splits on " " into
    exactly three tokens `field op value`; a piece with more tokens is
    skipped, and one with fewer is outside the domain (the code indexes its
    third token). A clause whose value token is exactly "?" takes the next
    argument, from one counter shared by both passes.

    The main result, `PassesConsumeAtMostPlaceholders`, is that the two
    passes together never take more arguments than there are '?'
    characters in the expression: a '?' taken by the AND pass is followed by
    " AND " or ends the text, one taken by the OR pass is followed by " OR "
    or ends the text, and the two last pieces cannot both be clauses. */
module Clauses {
  import opened Text

  const AndSep: string := " AND "
  const OrSep: string := " OR "

  /** The tokens of one piece: `strings.Split(piece, " ")`. */
  function Tokens(piece: string): (q: seq<string>)
    ensures |q| >= 1
  {
    Split(piece, " ")
  }

  /** The tokens of every piece of a pass. */
  function PieceTokens(pieces: seq<string>): (qs: seq<seq<string>>)
    ensures |qs| == |pieces|
    ensures forall i :: 0 <= i < |pieces| ==> qs[i] == Tokens(pieces[i])
  {
    seq(|pieces|, i requires 0 <= i < |pieces| => Tokens(pieces[i]))
  }

  /** The code's test on a clause's tokens: it is used (three tokens, as
      more are skipped) and its value token is the placeholder "?". */
  predicate IsPlaceholderClause(q: seq<string>)
  {
    |q| == 3 && q[2] == "?"
  }

  /** The same test on the text of the piece: exactly two spaces, ending in
      " ?". `TakesArgIsPlaceholderClause` shows the two agree. */
  predicate TakesArg(piece: string)
  {
    && CountChar(piece, ' ') == 2
    && |piece| >= 2 && piece[|piece| - 2] == ' ' && piece[|piece| - 1] == '?'
  }

  lemma TakesArgIsPlaceholderClause(piece: string)
    ensures TakesArg(piece) <==> IsPlaceholderClause(Tokens(piece))
  {
    SplitCharCount(piece, ' ');
    LastStartIsLastPiece(piece, " ", 0);
    var a := LastStart(piece, " ");
    var q := Tokens(piece);
    if CountChar(piece, ' ') == 2 {
      CountCharContains(piece, ' ');
      LastStartAfterSep(piece, " ", 0);
      LastPieceHasNoSep(piece, " ", 0);
      assert piece[a..] == q[2];
      if TakesArg(piece) {
        assert piece[|piece| - 1..|piece|] == "?";
        assert piece[|piece| - 2..|piece| - 1] == " ";
        assert IsAt(piece, " ", |piece| - 2);
        assert !IsAt(piece, " ", |piece| - 1);
        assert a == |piece| - 1;
        assert q[2] == [piece[|piece| - 1]];
      }
      if q[2] == "?" {
        assert a == |piece| - 1;
        assert piece[|piece| - 1] == q[2][0];
        assert piece[a - 1..a] == " ";
      }
    }
  }

  /** Every clause has at least three tokens: the code would index past the
      end of a shorter one. */
  predicate ClausesInDomain(qs: seq<seq<string>>)
  {
    forall i :: 0 <= i < |qs| ==> |qs[i]| >= 3
  }

  /** The number of arguments a list of clauses takes. */
  function Takes(qs: seq<seq<string>>): (n: nat)
    ensures n <= |qs|
  {
    if qs == [] then 0
    else (if IsPlaceholderClause(qs[0]) then 1 else 0) + Takes(qs[1..])
  }

  /** The clauses of the pass on `sep`. */
  function PassClauses(sql: string, sep: string): seq<seq<string>>
    requires sep != []
  {
    PieceTokens(Split(sql, sep))
  }

  /** The arguments taken by the pass on `sep`: none when `sep` does not
      occur, since the pass is then not run. */
  function PassTakes(sql: string, sep: string): nat
    requires sep != []
  {
    if Contains(sql, sep) then Takes(PassClauses(sql, sep)) else 0
  }

  /** The expression is in the code's domain: every clause of every pass
      that runs has at least three tokens. */
  predicate SqlInDomain(sql: string)
  {
    && (Contains(sql, AndSep) ==> ClausesInDomain(PassClauses(sql, AndSep)))
    && (Contains(sql, OrSep) ==> ClausesInDomain(PassClauses(sql, OrSep)))
  }

  /** Taking one more clause adds that clause's argument, if it takes one. */
  lemma {:induction false} TakesSnoc(qs: seq<seq<string>>, q: seq<string>)
    ensures Takes(qs + [q]) == Takes(qs) + (if IsPlaceholderClause(q) then 1 else 0)
    decreases |qs|
  {
    if qs == [] {
      assert (qs + [q])[1..] == [];
    } else {
      assert (qs + [q])[1..] == qs[1..] + [q];
      TakesSnoc(qs[1..], q);
    }
  }

  /** A prefix never takes more than the whole list. */
  lemma {:induction false} TakesPrefix(qs: seq<seq<string>>, i: nat)
    requires i <= |qs|
    ensures Takes(qs[..i]) <= Takes(qs)
    decreases |qs| - i
  {
    if i < |qs| {
      TakesPrefix(qs, i + 1);
      assert qs[..i + 1] == qs[..i] + [qs[i]];
      TakesSnoc(qs[..i], qs[i]);
    } else {
      assert qs[..i] == qs;
    }
  }

  /** The positions of the '?' characters that the pass on `sep` consumes
      in the pieces of `s[k..]`: the last character of each piece that takes
      an argument. */
  ghost function Marks(s: string, sep: string, k: nat): set<int>
    requires sep != [] && k <= |s|
    decreases |s| - k
  {
    var i := IndexFrom(s, sep, k);
    if i < 0 then (if TakesArg(s[k..]) then {|s| - 1} else {})
    else (if TakesArg(s[k..i]) then {i - 1} else {}) + Marks(s, sep, i + |sep|)
  }

  /** One mark per argument taken. */
  lemma {:induction false} MarksCount(s: string, sep: string, k: nat)
    requires sep != [] && k <= |s|
    ensures |Marks(s, sep, k)| == Takes(PieceTokens(SplitFrom(s, sep, k)))
    decreases |s| - k
  {
    var i := IndexFrom(s, sep, k);
    if i < 0 {
      MarksLast(s, sep, k);
    } else {
      var j := i + |sep|;
      MarksCount(s, sep, j);
      MarksStep(s, sep, k);
      TakesStep(s, sep, k);
      var h := if TakesArg(s[k..i]) then 1 else 0;
      assert |Marks(s, sep, k)| == h + |Marks(s, sep, j)|;
      assert Takes(PieceTokens(SplitFrom(s, sep, k))) == h + Takes(PieceTokens(SplitFrom(s, sep, j)));
    }
  }

  /** Without a separator left, the one piece takes an argument exactly
      when it has a mark. */
  lemma MarksLast(s: string, sep: string, k: nat)
    requires sep != [] && k <= |s| && IndexFrom(s, sep, k) < 0
    ensures |Marks(s, sep, k)| == Takes(PieceTokens(SplitFrom(s, sep, k)))
  {
    var qs := PieceTokens(SplitFrom(s, sep, k));
    assert qs == [Tokens(s[k..])];
    assert qs[1..] == [];
    TakesArgIsPlaceholderClause(s[k..]);
  }

  /** The marks of `s[k..]` are the first piece's, if it takes an argument,
      and, apart from them, those of the rest. */
  lemma MarksStep(s: string, sep: string, k: nat)
    requires sep != [] && k <= |s| && IndexFrom(s, sep, k) >= 0
    ensures var i := IndexFrom(s, sep, k);
      |Marks(s, sep, k)| == (if TakesArg(s[k..i]) then 1 else 0) + |Marks(s, sep, i + |sep|)|
  {
    var i := IndexFrom(s, sep, k);
    var j := i + |sep|;
    var r := Marks(s, sep, j);
    MarksFrom(s, sep, j);
    if TakesArg(s[k..i]) {
      assert Marks(s, sep, k) == {i - 1} + r;
      assert i - 1 !in r;
      assert |{i - 1} + r| == |r| + 1;
    } else {
      assert Marks(s, sep, k) == r;
    }
  }

  /** The marks of `s[k..]` lie at or after `k`. */
  lemma MarksFrom(s: string, sep: string, k: nat)
    requires sep != [] && k <= |s|
    ensures forall p :: p in Marks(s, sep, k) ==> k <= p
  {
    MarksArePlaceholders(s, sep, k);
  }

  /** The arguments the pieces of `s[k..]` take are the first piece's and
      those of the rest. */
  lemma TakesStep(s: string, sep: string, k: nat)
    requires sep != [] && k <= |s| && IndexFrom(s, sep, k) >= 0
    ensures var i := IndexFrom(s, sep, k);
      Takes(PieceTokens(SplitFrom(s, sep, k))) ==
        (if TakesArg(s[k..i]) then 1 else 0) + Takes(PieceTokens(SplitFrom(s, sep, i + |sep|)))
  {
    var i := IndexFrom(s, sep, k);
    var pieces := SplitFrom(s, sep, k);
    var qs := PieceTokens(pieces);
    assert pieces[1..] == SplitFrom(s, sep, i + |sep|);
    assert qs[1..] == PieceTokens(pieces[1..]);
    TakesArgIsPlaceholderClause(s[k..i]);
  }

  /** Each mark is a '?' of `s[k..]`. */
  lemma {:induction false} MarksArePlaceholders(s: string, sep: string, k: nat)
    requires sep != [] && k <= |s|
    ensures forall p :: p in Marks(s, sep, k) ==> k <= p < |s| && s[p] == '?'
    decreases |s| - k
  {
    var i := IndexFrom(s, sep, k);
    if i < 0 {
      assert s[k..] == s[k..|s|];
      if TakesArg(s[k..]) {
        LastIsPlaceholder(s, k, |s|);
      }
    } else {
      MarksArePlaceholders(s, sep, i + |sep|);
      if TakesArg(s[k..i]) {
        LastIsPlaceholder(s, k, i);
      }
    }
  }

  /** A piece that takes an argument ends in '?'. */
  lemma LastIsPlaceholder(s: string, k: nat, i: nat)
    requires k <= i <= |s| && TakesArg(s[k..i])
    ensures k <= i - 1 && s[i - 1] == '?'
  {
    assert s[k..i][|s[k..i]| - 1] == s[i - 1];
  }

  /** Each mark is followed by the separator unless it ends `s`. */
  lemma {:induction false} MarksPrecedeSep(s: string, sep: string, k: nat)
    requires sep != [] && k <= |s|
    ensures forall p :: p in Marks(s, sep, k) ==> p == |s| - 1 || IsAt(s, sep, p + 1)
    decreases |s| - k
  {
    var i := IndexFrom(s, sep, k);
    if i >= 0 {
      var r := Marks(s, sep, i + |sep|);
      MarksPrecedeSep(s, sep, i + |sep|);
      var head: set<int> := if TakesArg(s[k..i]) then {i - 1} else {};
      assert Marks(s, sep, k) == head + r;
    }
  }

  /** When the last character of `s` is a mark, the last piece takes an
      argument. */
  lemma {:induction false} MarksAtEnd(s: string, sep: string, k: nat)
    requires sep != [] && k <= |s|
    ensures |s| - 1 in Marks(s, sep, k) ==> TakesArg(s[LastStartFrom(s, sep, k)..])
    decreases |s| - k
  {
    var i := IndexFrom(s, sep, k);
    if i >= 0 {
      MarksAtEnd(s, sep, i + |sep|);
    }
  }

  /** The heart of the argument: the two passes together take at most as
      many arguments as the expression has '?' characters. So, once the
      builder has checked that count against the number of arguments,
      indexing the arguments never goes past their end. */
  lemma PassesConsumeAtMostPlaceholders(s: string)
    ensures PassTakes(s, AndSep) + PassTakes(s, OrSep) <= CountChar(s, '?')
  {
    var ma := PassMarks(s, AndSep);
    var mo := PassMarks(s, OrSep);
    if ma != {} && mo != {} {
      MarksAreDisjoint(s);
    }
    assert ma !! mo;
    assert |ma + mo| == |ma| + |mo|;
    PlaceholdersBound(s, ma + mo);
  }

  /** The '?' characters a pass consumes, one per argument it takes. */
  lemma PassMarks(s: string, sep: string) returns (m: set<int>)
    requires sep != []
    ensures |m| == PassTakes(s, sep)
    ensures forall p :: p in m ==> 0 <= p < |s| && s[p] == '?'
    ensures m != {} ==> Contains(s, sep) && m == Marks(s, sep, 0)
  {
    if Contains(s, sep) {
      m := Marks(s, sep, 0);
      MarksCount(s, sep, 0);
      MarksArePlaceholders(s, sep, 0);
    } else {
      m := {};
    }
  }

  /** A set of positions of '?' is no larger than their count. */
  lemma PlaceholdersBound(s: string, m: set<int>)
    requires forall p :: p in m ==> 0 <= p < |s| && s[p] == '?'
    ensures |m| <= CountChar(s, '?')
  {
    var q := set p | 0 <= p < |s| && s[p] == '?';
    CountCharIsPositions(s, '?');
    assert m <= q;
    SubsetSize(m, q);
  }

  /** The AND pass and the OR pass never consume the same '?'. */
  lemma MarksAreDisjoint(s: string)
    requires Contains(s, AndSep) && Contains(s, OrSep)
    ensures Marks(s, AndSep, 0) !! Marks(s, OrSep, 0)
  {
    var ma, mo := Marks(s, AndSep, 0), Marks(s, OrSep, 0);
    MarksPrecedeSep(s, AndSep, 0);
    MarksPrecedeSep(s, OrSep, 0);
    LastEndsAreNotBothClauses(s);
    MarksAtEnd(s, AndSep, 0);
    MarksAtEnd(s, OrSep, 0);
    forall p | p in ma ensures p !in mo {
      SeparatorsDiffer(s, p + 1);
    }
  }

  /** " AND " and " OR " never start at the same place. */
  lemma SeparatorsDiffer(s: string, j: int)
    ensures !(IsAt(s, AndSep, j) && IsAt(s, OrSep, j))
  {
    if IsAt(s, AndSep, j) {
      assert s[j + 1] == s[j..j + 5][1] == 'A';
      if j + 4 <= |s| {
        assert s[j..j + 4][1] == s[j + 1];
      }
    }
  }

  /** The last AND piece and the last OR piece cannot both take an argument:
      each would have exactly two spaces, yet one of them contains the
      separator ending the other (or they would start at the same place,
      after both " AND " and " OR "). */
  lemma LastEndsAreNotBothClauses(s: string)
    requires Contains(s, AndSep) && Contains(s, OrSep)
    ensures !(TakesArg(s[LastStart(s, AndSep)..]) && TakesArg(s[LastStart(s, OrSep)..]))
  {
    var a, b := LastStart(s, AndSep), LastStart(s, OrSep);
    LastStartAfterSep(s, AndSep, 0);
    LastStartAfterSep(s, OrSep, 0);
    assert s[a - 2] == s[a - 5..a][3] == 'D';
    assert s[a - 1] == s[a - 5..a][4] == ' ';
    assert s[b - 2] == s[b - 4..b][2] == 'R';
    assert s[b - 1] == s[b - 4..b][3] == ' ';
    assert a != b;
    if a < b {
      MoreSpacesEarlier(s, a, b);
    } else {
      MoreSpacesEarlier(s, b, a);
    }
  }

  /** A suffix that starts before a space has more spaces than the suffix
      after it. */
  lemma MoreSpacesEarlier(s: string, a: nat, b: nat)
    requires a < b <= |s| && s[b - 1] == ' '
    ensures CountChar(s[a..], ' ') >= CountChar(s[b..], ' ') + 1
  {
    assert s[a..] == s[a..b] + s[b..];
    CountCharAppend(s[a..b], s[b..], ' ');
    CountCharPositive(s[a..b], ' ', b - 1 - a);
  }

  lemma SubsetSize<T>(a: set<T>, b: set<T>)
    requires a <= b
    ensures |a| <= |b|
  {
    assert b == a + (b - a);
  }
}
