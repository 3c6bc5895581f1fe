/** `toSnake`: the field-name to document-key conversion used for untagged
    struct fields. A name that is entirely upper case ("ID") is just lower
    cased; otherwise an underscore goes before every upper-case letter after
    the first character and the result is lower cased ("CreatedAt" becomes
    "created_at"). */
module SnakeCase {
  import opened Text

  /** `s` with '_' before every upper-case letter at a position after the
      first; the string the loop of `ToSnake` builds. */
  function Underscored(s: string): string
  {
    if s == [] then []
    else Underscored(s[..|s| - 1]) + Step(|s| - 1, s[|s| - 1])
  }

  /** What the loop appends for the character `c` at position `i`. */
  function Step(i: nat, c: char): string
  {
    if i > 0 && IsUpper(c) then ['_', c] else [c]
  }

  /** The key `toSnake` produces. */
  function Snake(s: string): (r: string)
    ensures forall i :: 0 <= i < |r| ==> !IsUpper(r[i])
    ensures Upper(s) == s ==> r == Lower(s)
  {
    if Upper(s) == s then Lower(s) else Lower(Underscored(s))
  }

  /** `toSnake`, as the loop over the characters the code runs. */
  method ToSnake(s: string) returns (r: string)
    ensures r == Snake(s)
  {
    if Upper(s) == s {
      return Lower(s);
    }
    var ret: string := [];
    for i := 0 to |s|
      invariant ret == Underscored(s[..i])
    {
      if i > 0 && IsUpper(s[i]) {
        ret := ret + ['_'];
      }
      ret := ret + [s[i]];
      assert s[..i + 1][..i] == s[..i];
    }
    assert s[..|s|] == s;
    return Lower(ret);
  }

  /** `s` with every '_' removed. */
  function DropUnderscores(s: string): (r: string)
    ensures |r| <= |s|
  {
    if s == [] then []
    else DropUnderscores(s[..|s| - 1]) + (if s[|s| - 1] == '_' then [] else [s[|s| - 1]])
  }

  /** The number of upper-case letters after the first character. */
  function InnerUppers(s: string): nat
  {
    if |s| <= 1 then 0
    else InnerUppers(s[..|s| - 1]) + (if IsUpper(s[|s| - 1]) then 1 else 0)
  }

  lemma {:induction false} DropUnderscoresAppend(a: string, b: string)
    ensures DropUnderscores(a + b) == DropUnderscores(a) + DropUnderscores(b)
    decreases |b|
  {
    if b == [] {
      assert a + b == a;
    } else {
      assert (a + b)[..|a + b| - 1] == a + b[..|b| - 1];
      DropUnderscoresAppend(a, b[..|b| - 1]);
    }
  }

  /** Lower-casing never creates or removes an underscore. */
  lemma {:induction false} DropUnderscoresLower(s: string)
    ensures DropUnderscores(Lower(s)) == Lower(DropUnderscores(s))
    decreases |s|
  {
    if s != [] {
      var init := s[..|s| - 1];
      DropUnderscoresLower(init);
      assert Lower(s)[..|s| - 1] == Lower(init);
      var d := DropUnderscores(init);
      if s[|s| - 1] != '_' {
        assert Lower(d + [s[|s| - 1]]) == Lower(d) + [LowerChar(s[|s| - 1])];
      }
    }
  }

  /** What one step appends loses its inserted '_' again. */
  lemma DropStep(i: nat, c: char)
    requires c != '_'
    ensures DropUnderscores(Step(i, c)) == [c]
  {
    assert DropUnderscores([]) == [];
    assert [c][..0] == [];
    if i > 0 && IsUpper(c) {
      assert ['_', c][..1] == ['_'];
      assert ['_'][..0] == [];
    }
  }

  /** Removing the underscores again gives back a name that had none. */
  lemma {:induction false} UnderscoredUndone(s: string)
    requires forall i :: 0 <= i < |s| ==> s[i] != '_'
    ensures DropUnderscores(Underscored(s)) == s
    decreases |s|
  {
    if s != [] {
      var init := s[..|s| - 1];
      var c := s[|s| - 1];
      UnderscoredUndone(init);
      DropUnderscoresAppend(Underscored(init), Step(|s| - 1, c));
      DropStep(|s| - 1, c);
      assert init + [c] == s;
    }
  }

  /** The conversion only lower-cases and inserts underscores: for a name
      without underscores, removing them from the key gives the lower-cased
      name. */
  lemma SnakeOnlyInsertsUnderscores(s: string)
    requires forall i :: 0 <= i < |s| ==> s[i] != '_'
    ensures DropUnderscores(Snake(s)) == Lower(s)
  {
    if Upper(s) == s {
      NoUnderscoreKept(Lower(s));
    } else {
      DropUnderscoresLower(Underscored(s));
      UnderscoredUndone(s);
    }
  }

  /** A string without underscores is left alone by `DropUnderscores`. */
  lemma {:induction false} NoUnderscoreKept(s: string)
    requires forall i :: 0 <= i < |s| ==> s[i] != '_'
    ensures DropUnderscores(s) == s
    decreases |s|
  {
    if s != [] {
      NoUnderscoreKept(s[..|s| - 1]);
    }
  }

  /** One underscore is added per upper-case letter after the first
      character, unless the name is entirely upper case. */
  lemma SnakeLength(s: string)
    ensures |Snake(s)| == if Upper(s) == s then |s| else |s| + InnerUppers(s)
  {
    UnderscoredLength(s);
  }

  lemma {:induction false} UnderscoredLength(s: string)
    ensures |Underscored(s)| == |s| + InnerUppers(s)
    decreases |s|
  {
    if s != [] {
      UnderscoredLength(s[..|s| - 1]);
    }
  }

  /** Without upper-case letters there is nothing to insert. */
  lemma {:induction false} UnderscoredNoUpper(s: string)
    requires forall i :: 0 <= i < |s| ==> !IsUpper(s[i])
    ensures Underscored(s) == s
    decreases |s|
  {
    if s != [] {
      UnderscoredNoUpper(s[..|s| - 1]);
    }
  }

  /** Converting a key a second time changes nothing. */
  lemma SnakeIdempotent(s: string)
    ensures Snake(Snake(s)) == Snake(s)
  {
    var t := Snake(s);
    assert Lower(t) == t;
    if Upper(t) != t {
      UnderscoredNoUpper(t);
    }
  }
}
