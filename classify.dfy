/**
 * The marker classifier: the pure predicates by which the importer tells a
 * PROLOGUE / ACT / Scene header (a header line followed by an underline), a
 * stage direction and a speaker line apart, and the hand-written form of the
 * two regular expressions it uses, `^ACT (\d+)$` / `^Scene (\d+)$` and the
 * inline speaker pattern `^([A-Z][A-Z\s&']+?)(?:\s{2,}|\t)(.+)$`.
 */
module Classify {
  import opened Wrappers
  import opened PyText

  /** `_is_underline_line`: a non-empty line made only of `=`. */
  predicate IsUnderlineLine(line: string) {
    line != [] && forall k :: 0 <= k < |line| ==> line[k] == '='
  }

  /** `_is_prologue_marker`: exactly `PROLOGUE`, with an underline below. */
  predicate IsPrologueMarker(line: string, next: string) {
    line == "PROLOGUE" && IsUnderlineLine(next)
  }

  /** The positions where the regular-expression anchor `$` matches. */
  predicate DollarAt(s: string, p: nat) {
    p == |s| || (p + 1 == |s| && s[p] == '\n')
  }

  /** What `(\d+)$` has to cover after `prefix`: the rest of the line less a final line feed. */
  function HeaderBody(prefix: string, line: string): string
    requires StartsWith(line, prefix)
  {
    if |line| > |prefix| && line[|line| - 1] == '\n' then line[|prefix|..|line| - 1]
    else line[|prefix|..]
  }

  /**
   * `re.match(prefix + r"(\d+)$", line)`, answering `int(match.group(1))`:
   * the line is `prefix` followed by one or more digits (and at most a
   * final line feed, where `$` also matches).
   */
  function NumberedHeader(prefix: string, line: string): (r: Option<nat>)
    ensures r.Some? ==> StartsWith(line, prefix)
  {
    if StartsWith(line, prefix) then
      var d := HeaderBody(prefix, line);
      if d != [] && AllDigits(d) then Some(DigitsValue(d)) else None
    else None
  }

  /** The header matches exactly the lines made of `prefix` and a run of digits, and answers the digits' value. */
  lemma NumberedHeaderMatches(prefix: string, line: string)
    ensures var r := NumberedHeader(prefix, line);
      && (r.Some? ==> exists d :: d != [] && AllDigits(d) && DigitsValue(d) == r.value &&
                                  (line == prefix + d || line == prefix + d + "\n"))
      && (forall d :: d != [] && AllDigits(d) && (line == prefix + d || line == prefix + d + "\n") ==>
                      r == Some(DigitsValue(d)))
  {
    if StartsWith(line, prefix) {
      var d := HeaderBody(prefix, line);
      if d != [] && AllDigits(d) {
        assert line == prefix + d || line == prefix + d + "\n";
      }
    }
  }

  /** `_is_act_marker`: `ACT <digits>` with an underline below; the act number. */
  function IsActMarker(line: string, next: string): (r: Option<nat>)
    ensures r.Some? ==> IsUnderlineLine(next) && StartsWith(line, "ACT ")
  {
    if IsUnderlineLine(next) then NumberedHeader("ACT ", line) else None
  }

  /** `_is_scene_marker`: `Scene <digits>` with an underline below; the scene number. */
  function IsSceneMarker(line: string, next: string): (r: Option<nat>)
    ensures r.Some? ==> IsUnderlineLine(next) && StartsWith(line, "Scene ")
  {
    if IsUnderlineLine(next) then NumberedHeader("Scene ", line) else None
  }

  /** `_is_stage_direction`: the trimmed line is wrapped in `[` ... `]`. */
  predicate IsStageDirection(line: string) {
    var s := Strip(line);
    StartsWith(s, "[") && EndsWith(s, "]")
  }

  /**
   * `_is_speaker_line`: the trimmed line is upper case in the sense of
   * `str.isupper`, does not open a stage direction and does not start like
   * a header (`ACT`, `Scene`, `PROLOGUE`, so `ACTOR` is no speaker either).
   */
  predicate IsSpeakerLine(line: string) {
    var s := Strip(line);
    && IsUpper(s)
    && !StartsWith(s, "[")
    && !(StartsWith(s, "ACT") || StartsWith(s, "Scene") || StartsWith(s, "PROLOGUE"))
  }

  // ---------------------------------------------------------------------------
  // The inline speaker pattern ^([A-Z][A-Z\s&']+?)(?:\s{2,}|\t)(.+)$

  /** The class `[A-Z\s&']`. */
  predicate IsNameChar(c: char) {
    IsAsciiUpper(c) || IsSpace(c) || c == '&' || c == '\''
  }

  /** `s[k..q]` is what may separate the name from the speech: two or more whitespace characters, or a tab. */
  predicate SeparatorSpan(s: string, k: nat, q: nat) {
    && k < q <= |s|
    && ((q - k >= 2 && forall i :: k <= i < q ==> IsSpace(s[i])) || (q == k + 1 && s[k] == '\t'))
  }

  /** A match of the inline pattern: group 1, where group 2 starts, and group 2. */
  datatype InlineMatch = InlineMatch(name: string, textStart: nat, text: string)

  /** First line feed at or after `q`, or the end of `s`: how far `.` can reach. */
  function LineEnd(s: string, q: nat): (r: nat)
    requires q <= |s|
    ensures q <= r <= |s|
    ensures forall i :: q <= i < r ==> s[i] != '\n'
    ensures r < |s| ==> s[r] == '\n'
    decreases |s| - q
  {
    if q == |s| || s[q] == '\n' then q else LineEnd(s, q + 1)
  }

  /**
   * `(.+)$` tried at `q`. The greedy `.+` runs to the first line feed; giving
   * characters back cannot help, since `$` never matches before a character
   * other than a final line feed.
   */
  function TailAt(s: string, q: nat): (r: Option<string>)
    requires q <= |s|
    ensures r.Some? ==> r.value != [] && q + |r.value| <= |s| && r.value == s[q..q + |r.value|]
    ensures r.Some? ==> '\n' !in r.value && DollarAt(s, q + |r.value|)
    ensures r.None? ==> forall p :: q < p <= |s| && DollarAt(s, p) ==> '\n' in s[q..p]
  {
    var e := LineEnd(s, q);
    if q < e && DollarAt(s, e) then Some(s[q..e])
    else
      assert forall p :: q < p <= |s| && DollarAt(s, p) ==> s[e] == s[q..p][e - q];
      None
  }

  /** Length of the whitespace run that starts at `k`. */
  function SpaceRun(s: string, k: nat): (n: nat)
    requires k <= |s|
    ensures k + n <= |s|
    ensures forall i :: k <= i < k + n ==> IsSpace(s[i])
    ensures k + n < |s| ==> !IsSpace(s[k + n])
  {
    SkipSpaces(s, k) - k
  }

  /** `\s{2,}` with backtracking: the longest of the first `n` whitespace characters after which `(.+)$` matches. */
  function LongestSpaces(s: string, k: nat, n: nat): (r: Option<(nat, string)>)
    requires k + n <= |s|
    requires forall i :: k <= i < k + n ==> IsSpace(s[i])
    ensures r.Some? ==> k + 2 <= r.value.0 <= k + n && TailAt(s, r.value.0) == Some(r.value.1)
    ensures r.Some? ==> forall q :: r.value.0 < q <= k + n ==> TailAt(s, q).None?
    ensures r.None? ==> forall q :: k + 2 <= q <= k + n ==> TailAt(s, q).None?
    decreases n
  {
    if n < 2 then None
    else match TailAt(s, k + n)
      case Some(t) => Some((k + n, t))
      case None => LongestSpaces(s, k, n - 1)
  }

  /**
   * `(?:\s{2,}|\t)(.+)$` tried at `k`: the first alternative with all its
   * backtracking, then the tab. Answers where group 2 starts and group 2.
   */
  function SeparatorAt(s: string, k: nat): (r: Option<(nat, string)>)
    requires k <= |s|
    ensures r.Some? ==> SeparatorSpan(s, k, r.value.0) && TailAt(s, r.value.0) == Some(r.value.1)
  {
    match LongestSpaces(s, k, SpaceRun(s, k))
    case Some(m) => Some(m)
    case None =>
      if k < |s| && s[k] == '\t' && TailAt(s, k + 1).Some? then Some((k + 1, TailAt(s, k + 1).value))
      else None
  }

  /** When the separator search fails, no separator at `k` is followed by a matching rest. */
  lemma SeparatorAtIsComplete(s: string, k: nat)
    requires k <= |s|
    ensures SeparatorAt(s, k).None? ==> forall q: nat :: SeparatorSpan(s, k, q) ==> TailAt(s, q).None?
  {
    var n := SpaceRun(s, k);
    if SeparatorAt(s, k).None? {
      assert LongestSpaces(s, k, n).None?;
      forall q: nat | SeparatorSpan(s, k, q) ensures TailAt(s, q).None? {
        if q - k >= 2 {
          if k + n < |s| {
            assert !IsSpace(s[k + n]);
          }
          assert q <= k + n;
        }
      }
    }
  }

  /**
   * The separator search answers the furthest start for group 2: greedy
   * `\s{2,}` gives back whitespace only as far as needed, and the tab
   * alternative, which ends at `k + 1`, is tried only when that fails.
   */
  lemma SeparatorAtIsLongest(s: string, k: nat)
    requires k <= |s|
    ensures SeparatorAt(s, k).Some? ==>
      forall q: nat :: SeparatorSpan(s, k, q) && TailAt(s, q).Some? ==> q <= SeparatorAt(s, k).value.0
  {
    var n := SpaceRun(s, k);
    if SeparatorAt(s, k).Some? {
      forall q: nat | SeparatorSpan(s, k, q) && TailAt(s, q).Some?
        ensures q <= SeparatorAt(s, k).value.0
      {
        if q - k >= 2 {
          if k + n < |s| {
            assert !IsSpace(s[k + n]);
          }
          assert q <= k + n;
        }
      }
    }
  }

  /** The name `s[..k]` has the shape `[A-Z][A-Z\s&']+`. */
  predicate NamePrefix(s: string, k: nat) {
    2 <= k <= |s| && IsAsciiUpper(s[0]) && forall i :: 1 <= i < k ==> IsNameChar(s[i])
  }

  /** The lazy `+?`: try the name `s[..k]`, then one character longer, while the class allows. */
  function LazyName(s: string, k: nat): (r: Option<InlineMatch>)
    requires NamePrefix(s, k)
    ensures r.Some? ==> k <= |r.value.name| <= |s|
    decreases |s| - k
  {
    match SeparatorAt(s, k)
    case Some(m) => Some(InlineMatch(s[..k], m.0, m.1))
    case None =>
      if k < |s| && IsNameChar(s[k]) then
        assert NamePrefix(s, k + 1);
        LazyName(s, k + 1)
      else
        None
  }

  /** What the lazy search finds: a name `s[..j]` of the right shape, with a separator and a matching rest after it. */
  lemma {:induction false} LazyNameFound(s: string, k: nat)
    requires NamePrefix(s, k)
    ensures var r := LazyName(s, k);
      r.Some? ==> && k <= |r.value.name| && NamePrefix(s, |r.value.name|) && r.value.name == s[..|r.value.name|]
                  && SeparatorAt(s, |r.value.name|) == Some((r.value.textStart, r.value.text))
    decreases |s| - k
  {
    if SeparatorAt(s, k).None? && k < |s| && IsNameChar(s[k]) {
      assert NamePrefix(s, k + 1);
      LazyNameFound(s, k + 1);
    }
  }

  /** Where a separator follows the name `s[..k]`, the lazy search stops there. */
  lemma LazyNameHere(s: string, k: nat)
    requires NamePrefix(s, k) && SeparatorAt(s, k).Some?
    ensures LazyName(s, k) == Some(InlineMatch(s[..k], SeparatorAt(s, k).value.0, SeparatorAt(s, k).value.1))
  {
  }

  /** Where none follows and the class allows one more character, the search moves on. */
  lemma LazyNameMoves(s: string, k: nat)
    requires NamePrefix(s, k) && SeparatorAt(s, k).None? && k < |s| && IsNameChar(s[k])
    ensures NamePrefix(s, k + 1) && LazyName(s, k) == LazyName(s, k + 1)
  {
  }

  /** Where no separator follows and the class allows no further character, the search fails. */
  lemma LazyNameStops(s: string, k: nat)
    requires NamePrefix(s, k) && SeparatorAt(s, k).None? && !(k < |s| && IsNameChar(s[k]))
    ensures LazyName(s, k).None?
  {
  }

  /** No separator follows a name shorter than the one the lazy search finds. */
  lemma {:induction false} LazyNameIsShortestAt(s: string, k: nat, j: nat)
    requires NamePrefix(s, k) && LazyName(s, k).Some? && k <= j < |LazyName(s, k).value.name|
    ensures SeparatorAt(s, j).None?
    decreases |s| - k
  {
    if j > k {
      LazyNameMoves(s, k);
      LazyNameIsShortestAt(s, k + 1, j);
    }
  }

  /** The lazy search stops at the first name length that works. */
  lemma LazyNameIsShortest(s: string, k: nat)
    requires NamePrefix(s, k)
    ensures LazyName(s, k).Some? ==> forall j: nat :: k <= j < |LazyName(s, k).value.name| ==> SeparatorAt(s, j).None?
  {
    if LazyName(s, k).Some? {
      forall j: nat | k <= j < |LazyName(s, k).value.name|
        ensures SeparatorAt(s, j).None?
      {
        LazyNameIsShortestAt(s, k, j);
      }
    }
  }

  /** The lazy search fails only if no name length works. */
  lemma {:induction false} LazyNameIsComplete(s: string, k: nat)
    requires NamePrefix(s, k)
    ensures LazyName(s, k).None? ==> forall j: nat :: k <= j <= |s| && NamePrefix(s, j) ==> SeparatorAt(s, j).None?
    decreases |s| - k
  {
    if SeparatorAt(s, k).Some? {
      LazyNameHere(s, k);
    } else if k < |s| && IsNameChar(s[k]) {
      LazyNameMoves(s, k);
      LazyNameIsComplete(s, k + 1);
      if LazyName(s, k + 1).None? {
        forall j: nat | k < j <= |s| && NamePrefix(s, j)
          ensures SeparatorAt(s, j).None?
        {
          assert k + 1 <= j;
        }
      }
    }
  }

  /**
   * `re.match(r"^([A-Z][A-Z\s&']+?)(?:\s{2,}|\t)(.+)$", line)`. A match
   * splits the line into a name of the right shape, a separator and a
   * non-empty rest that runs to the end of the line; the name is the
   * shortest that allows this, and no match means no name allows it.
   */
  function InlineSpeech(line: string): (r: Option<InlineMatch>)
    ensures r.Some? ==> r.value.text != []
  {
    if NamePrefix(line, 2) then
      LazyNameFound(line, 2);
      LazyName(line, 2)
    else
      None
  }

  /**
   * The inline pattern, both ways: a match is a name of the right shape, a
   * separator and a non-empty rest running to the end of the line, with no
   * shorter name allowing it; no match means no name allows it.
   */
  lemma InlineSpeechMatches(line: string)
    ensures var r := InlineSpeech(line);
      && (r.Some? ==> NamePrefix(line, |r.value.name|) && r.value.name == line[..|r.value.name|])
      && (r.Some? ==> SeparatorSpan(line, |r.value.name|, r.value.textStart))
      && (r.Some? ==> forall q: nat :: SeparatorSpan(line, |r.value.name|, q) && TailAt(line, q).Some? ==> q <= r.value.textStart)
      && (r.Some? ==> r.value.text != [] && r.value.textStart + |r.value.text| <= |line|)
      && (r.Some? ==> r.value.text == line[r.value.textStart..r.value.textStart + |r.value.text|])
      && (r.Some? ==> '\n' !in r.value.text && DollarAt(line, r.value.textStart + |r.value.text|))
      && (r.Some? ==> forall j: nat :: 2 <= j < |r.value.name| ==> SeparatorAt(line, j).None?)
      && (r.None? ==> forall j: nat :: j <= |line| && NamePrefix(line, j) ==> SeparatorAt(line, j).None?)
  {
    if NamePrefix(line, 2) {
      LazyNameFound(line, 2);
      if LazyName(line, 2).Some? {
        SeparatorAtIsLongest(line, |LazyName(line, 2).value.name|);
      }
      LazyNameIsShortest(line, 2);
      LazyNameIsComplete(line, 2);
    }
  }

  /** A name of the shape `[A-Z][A-Z\s&']*`, once stripped, is upper case: it keeps its first letter and has no lower-case one. */
  lemma NameShapeIsUpper(name: string)
    requires name != [] && IsAsciiUpper(name[0])
    requires forall i :: 1 <= i < |name| ==> IsNameChar(name[i])
    ensures IsUpper(Strip(name))
  {
    assert SkipSpaces(name, 0) == 0;
    var s := Strip(name);
    assert !AllSpace(name);
    assert s != [] && s[0] == name[0];
    forall k | 0 <= k < |s|
      ensures !IsAsciiLower(s[k])
    {
      assert s[k] == name[k];
    }
  }

  /** The name a matched inline speaker line gives, once trimmed, is itself upper case. */
  lemma InlineNameIsUpper(line: string)
    requires InlineSpeech(line).Some?
    ensures IsUpper(Strip(InlineSpeech(line).value.name))
  {
    var name := InlineSpeech(line).value.name;
    InlineSpeechMatches(line);
    assert NamePrefix(line, |name|) && name == line[..|name|];
    assert name[0] == line[0];
    forall i | 1 <= i < |name|
      ensures IsNameChar(name[i])
    {
      assert name[i] == line[i];
    }
    NameShapeIsUpper(name);
  }
}
