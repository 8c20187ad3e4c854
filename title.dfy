/**
 * The play title the command falls back on when none is given: the file's
 * stem with `-` and `_` turned into spaces, then put in title case by
 * Python's `str.title()`, here over ASCII letters.
 */
module Title {
  import opened Wrappers
  import opened PyText

  function ToUpper(c: char): char {
    if IsAsciiLower(c) then (c as int - 32) as char else c
  }

  function ToLower(c: char): char {
    if IsAsciiUpper(c) then (c as int + 32) as char else c
  }

  /** Position `k` starts a word: it is first, or the character before it has no case. */
  predicate WordStart(s: string, k: nat)
    requires k < |s|
  {
    k == 0 || !IsCased(s[k - 1])
  }

  /**
   * `str.title()` scanning left to right with the flag "the previous
   * character was cased": a cased character is upper-cased after an uncased
   * one and lower-cased after a cased one; anything else is copied.
   */
  function TitleFrom(s: string, previousIsCased: bool): (r: string)
    ensures |r| == |s|
    decreases |s|
  {
    if s == [] then []
    else
      var c := s[0];
      var head := if !IsCased(c) then c else if previousIsCased then ToLower(c) else ToUpper(c);
      [head] + TitleFrom(s[1..], IsCased(c))
  }

  function TitleCase(s: string): (r: string)
    ensures |r| == |s|
  {
    TitleFrom(s, false)
  }

  /** What `TitleCase` does at each position, stated without the scan. */
  predicate TitledAt(s: string, r: string, k: nat)
    requires k < |s| == |r|
  {
    r[k] == (if !IsCased(s[k]) then s[k] else if WordStart(s, k) then ToUpper(s[k]) else ToLower(s[k]))
  }

  lemma {:induction false} TitleFromPointwise(s: string, previousIsCased: bool, k: nat)
    requires k < |s|
    ensures var r := TitleFrom(s, previousIsCased);
      r[k] == (if !IsCased(s[k]) then s[k]
               else if (if k == 0 then previousIsCased else IsCased(s[k - 1])) then ToLower(s[k])
               else ToUpper(s[k]))
    decreases k
  {
    if k > 0 {
      TitleFromPointwise(s[1..], IsCased(s[0]), k - 1);
      assert s[1..][k - 1] == s[k];
      if k > 1 {
        assert s[1..][k - 2] == s[k - 1];
      }
    }
  }

  /** Title case, position by position: upper case at a word start, lower case inside a word, the rest unchanged. */
  lemma TitleCasePointwise(s: string)
    ensures forall k :: 0 <= k < |s| ==> TitledAt(s, TitleCase(s), k)
  {
    forall k | 0 <= k < |s|
      ensures TitledAt(s, TitleCase(s), k)
    {
      TitleFromPointwise(s, false, k);
    }
  }

  /** Title case keeps which characters are cased, and so where the words start. */
  lemma TitleCaseKeepsCasedness(s: string)
    ensures forall k :: 0 <= k < |s| ==> (IsCased(TitleCase(s)[k]) <==> IsCased(s[k]))
  {
    TitleCasePointwise(s);
    forall k | 0 <= k < |s|
      ensures IsCased(TitleCase(s)[k]) <==> IsCased(s[k])
    {
      assert TitledAt(s, TitleCase(s), k);
    }
  }

  /** Putting a title-cased string in title case again changes nothing. */
  lemma TitleCaseIdempotent(s: string)
    ensures TitleCase(TitleCase(s)) == TitleCase(s)
  {
    var t := TitleCase(s);
    TitleCasePointwise(s);
    TitleCasePointwise(t);
    TitleCaseKeepsCasedness(s);
    forall k | 0 <= k < |t|
      ensures TitleCase(t)[k] == t[k]
    {
      assert TitledAt(s, t, k) && TitledAt(t, TitleCase(t), k);
      if k > 0 {
        assert IsCased(t[k - 1]) <==> IsCased(s[k - 1]);
      }
    }
  }

  /** `stem.replace("-", " ").replace("_", " ").title()`. */
  function TitleFromStem(stem: string): (r: string)
    ensures |r| == |stem|
  {
    TitleCase(ReplaceChar(ReplaceChar(stem, '-', ' '), '_', ' '))
  }

  /**
   * A derived title has no `-` and no `_`; every other uncased character of
   * the stem stays where it was, and it is already in title case.
   */
  lemma DerivedTitleShape(stem: string)
    ensures var r := TitleFromStem(stem);
      && (forall k :: 0 <= k < |r| ==> r[k] != '-' && r[k] != '_')
      && (forall k :: 0 <= k < |r| && !IsCased(stem[k]) && stem[k] != '-' && stem[k] != '_' ==> r[k] == stem[k])
      && TitleCase(r) == r
  {
    var spaced := ReplaceChar(ReplaceChar(stem, '-', ' '), '_', ' ');
    TitleCasePointwise(spaced);
    TitleCaseIdempotent(spaced);
    forall k | 0 <= k < |stem|
      ensures TitleFromStem(stem)[k] != '-' && TitleFromStem(stem)[k] != '_'
      ensures !IsCased(stem[k]) && stem[k] != '-' && stem[k] != '_' ==> TitleFromStem(stem)[k] == stem[k]
    {
      assert TitledAt(spaced, TitleFromStem(stem), k);
    }
  }

  /** The title used: the `--title` option when given and non-empty, else the one derived from the file stem. */
  function ChooseTitle(option: Option<string>, stem: string): (r: string)
    ensures option.Some? && option.value != [] ==> r == option.value
    ensures option.None? || option.value == [] ==> r == TitleFromStem(stem)
  {
    if option.Some? && option.value != [] then option.value else TitleFromStem(stem)
  }
}
