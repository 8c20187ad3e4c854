/**
 * Concrete inputs, worked through the model: the corner cases of speaker
 * detection that the importer's own comments and tests describe, and a
 * short prologue parsed from end to end.
 */
module Scenarios {
  import opened Wrappers
  import opened PyText
  import opened Document
  import opened Classify
  import opened Machine
  import Invariants
  import Behaviour

  /** A line with no whitespace at either end is its own strip. */
  lemma StripUnpadded(s: string)
    requires s != [] && !IsSpace(s[0]) && !IsSpace(s[|s| - 1])
    ensures Strip(s) == s
  {
    assert SkipSpaces(s, 0) == 0;
    assert TrimEnd(s, 0, |s|) == |s|;
    assert s[0..|s|] == s;
  }

  /** A string does not start with a prefix whose first character it does not share. */
  lemma DiffersAtStart(s: string, prefix: string)
    requires s != [] && prefix != [] && s[0] != prefix[0]
    ensures !StartsWith(s, prefix)
  {
    if |prefix| <= |s| {
      assert s[..|prefix|][0] == s[0];
    }
  }

  /** A line with no whitespace at all cannot match the inline pattern, which needs a separator. */
  lemma NoInlineWithoutSpace(s: string)
    requires forall k :: 0 <= k < |s| ==> !IsSpace(s[k])
    ensures InlineSpeech(s).None?
  {
    InlineSpeechMatches(s);
    if InlineSpeech(s).Some? {
      var m := InlineSpeech(s).value;
      assert SeparatorSpan(s, |m.name|, m.textStart);
      assert IsSpace(s[|m.name|]);
      assert false;
    }
  }

  /**
   * `KING HENRY  Send for him, good uncle.` is not a speaker line: it has
   * lower-case letters, so `isupper` fails, and it is handled as a
   * continuation line. With a speaker and a scene open it is added to the
   * speech; with no speaker yet, as right after a `Scene` header, it is
   * dropped.
   */
  lemma MixedCaseLineIsContinuation(c: Config)
    requires Invariants.Inv(c)
    ensures && !IsSpeakerLine(KingHenry)
            && ContentStep(KingHenry, c).speaker == c.speaker
            && (c.speaker.Some? && c.scene.Some? ==> ContentStep(KingHenry, c).buffer == c.buffer + [KingHenry])
            && (c.speaker.None? ==> ContentStep(KingHenry, c).buffer == c.buffer)
  {
    KingHenryIsNoSpeaker();
    Behaviour.ContinuationLine(KingHenry, c);
  }

  const KingHenry := "KING HENRY  Send for him, good uncle."

  lemma KingHenryIsNoSpeaker()
    ensures !IsSpeakerLine(KingHenry)
  {
    StripUnpadded(KingHenry);
    assert IsAsciiLower(KingHenry[13]);
  }

  /** `ACTOR` is upper case, yet no speaker line: it starts like an `ACT` header. */
  lemma ActorIsNoSpeaker()
    ensures IsUpper("ACTOR") && !IsSpeakerLine("ACTOR")
  {
    var s := "ACTOR";
    StripUnpadded(s);
    assert IsCased(s[0]);
    assert s[..3] == "ACT";
  }

  /** A capital letter and a character of the class `[A-Z\s&']`: the shortest name the pattern allows. */
  lemma NamePrefixTwo(s: string)
    requires |s| >= 2 && IsAsciiUpper(s[0]) && IsNameChar(s[1])
    ensures NamePrefix(s, 2)
  {
  }

  /** A capital letter at `k`, or one space and then a capital: no separator starts there. */
  lemma NoSeparatorAt(s: string, k: nat)
    requires k < |s| && (IsAsciiUpper(s[k]) || (s[k] == ' ' && k + 1 < |s| && IsAsciiUpper(s[k + 1])))
    ensures SeparatorAt(s, k).None?
  {
    assert SpaceRun(s, k) < 2;
  }

  /** Two spaces, then the rest of the line without a line feed: the separator found at `k`. */
  lemma TwoSpacesAt(s: string, k: nat)
    requires k + 2 < |s| && s[k] == ' ' && s[k + 1] == ' ' && IsAsciiUpper(s[k + 2])
    requires '\n' !in s[k + 2..]
    ensures SeparatorAt(s, k) == Some((k + 2, s[k + 2..]))
  {
    assert forall i :: k + 2 <= i < |s| ==> s[i] == s[k + 2..][i - (k + 2)];
    assert SpaceRun(s, k) == 2;
    assert LineEnd(s, k + 2) == |s|;
    assert DollarAt(s, |s|) && s[k + 2..|s|] == s[k + 2..];
    assert TailAt(s, k + 2) == Some(s[k + 2..]);
    assert LongestSpaces(s, k, 2) == Some((k + 2, s[k + 2..]));
  }

  /** The lazy name stops at the first separator: `KING  Go on` names `KING` and carries `Go on`. */
  lemma InlineSplitsAtFirstSeparator(s: string)
    requires |s| >= 6 && s[..6] == "KING  " && s[6..] == "Go on"
    ensures InlineSpeech(s) == Some(InlineMatch("KING", 6, "Go on"))
  {
    KingUpToFour(s);
    assert s[4] == ' ' && s[5] == ' ' && s[6] == 'G' by {
      assert s[..6][4] == s[4] && s[..6][5] == s[5] && s[6..][0] == s[6];
    }
    TwoSpacesAt(s, 4);
    LazyNameHere(s, 4);
    assert s[..4] == s[..6][..4] == "KING";
  }

  /** `K`, `KI` and `KIN` are followed by letters: no separator. */
  lemma KingUpToFour(s: string)
    requires |s| >= 6 && s[..6] == "KING  "
    ensures NamePrefix(s, 2) && NamePrefix(s, 4) && LazyName(s, 2) == LazyName(s, 4)
  {
    assert s[0] == 'K' && s[1] == 'I' && s[2] == 'N' && s[3] == 'G' by {
      assert s[..6][0] == s[0] && s[..6][1] == s[1] && s[..6][2] == s[2] && s[..6][3] == s[3];
    }
    NamePrefixTwo(s);
    NoSeparatorAt(s, 2);
    LazyNameMoves(s, 2);
    NoSeparatorAt(s, 3);
    LazyNameMoves(s, 3);
  }

  /** At `KING HAL` the separator is found and the rest is the speech. */
  lemma KingHalAtEight(s: string)
    requires |s| >= 10 && s[..10] == "KING HAL  " && s[10..] == "ARISE" && NamePrefix(s, 8)
    ensures LazyName(s, 8) == Some(InlineMatch("KING HAL", 10, "ARISE"))
  {
    assert s[8] == ' ' && s[9] == ' ' && s[10] == 'A' by {
      assert s[..10][8] == s[8] && s[..10][9] == s[9] && s[10..][0] == s[10];
    }
    TwoSpacesAt(s, 8);
    LazyNameHere(s, 8);
    assert s[..8] == s[..10][..8] == "KING HAL";
  }

  /** From `KING ` to `KING HAL` no separator follows. */
  lemma KingHalFiveToEight(s: string)
    requires |s| >= 10 && s[..10] == "KING HAL  " && NamePrefix(s, 5)
    ensures NamePrefix(s, 8) && LazyName(s, 5) == LazyName(s, 8)
  {
    assert s[5] == 'H' && s[6] == 'A' && s[7] == 'L' && s[8] == ' ' by {
      assert s[..10][5] == s[5] && s[..10][6] == s[6] && s[..10][7] == s[7] && s[..10][8] == s[8];
    }
    NoSeparatorAt(s, 5);
    LazyNameMoves(s, 5);
    NoSeparatorAt(s, 6);
    LazyNameMoves(s, 6);
    NoSeparatorAt(s, 7);
    LazyNameMoves(s, 7);
  }

  /** The first three name lengths find no separator, the single space included. */
  lemma KingHalUpToFive(s: string)
    requires |s| > 5 && s[..6] == "KING H"
    ensures NamePrefix(s, 2) && NamePrefix(s, 5) && LazyName(s, 2) == LazyName(s, 5)
  {
    assert s[0] == 'K' && s[1] == 'I' && s[2] == 'N' && s[3] == 'G' && s[4] == ' ' && s[5] == 'H' by {
      assert s[..6][0] == s[0] && s[..6][1] == s[1] && s[..6][2] == s[2];
      assert s[..6][3] == s[3] && s[..6][4] == s[4] && s[..6][5] == s[5];
    }
    NamePrefixTwo(s);
    NoSeparatorAt(s, 2);
    LazyNameMoves(s, 2);
    NoSeparatorAt(s, 3);
    LazyNameMoves(s, 3);
    NoSeparatorAt(s, 4);
    LazyNameMoves(s, 4);
  }

  /** A single space is no separator, so the name runs on: `KING HAL  ARISE` names `KING HAL`. */
  lemma InlineNameSpansSingleSpace(s: string)
    requires |s| >= 10 && s[..10] == "KING HAL  " && s[10..] == "ARISE"
    ensures InlineSpeech(s) == Some(InlineMatch("KING HAL", 10, "ARISE"))
  {
    assert s[..6] == s[..10][..6] == "KING H";
    KingHalUpToFive(s);
    KingHalFiveToEight(s);
    KingHalAtEight(s);
  }

  // The prologue of the importer's own prologue test, as `readlines` gives it.

  const PrologueLines: seq<string> := ["PROLOGUE\n", "========\n", "\n", "CHORUS\n", "This is a prologue speech.\n"]

  const Verse := "This is a prologue speech."

  const AfterHeader: Config := Config([], Some(Act("Prologue", 0, [])), None, None, [], 0, 0, 0)

  const AfterSpeaker: Config :=
    Config([], Some(Act("Prologue", 0, [])), Some(Scene(SceneName(1), 1, [])), Some("CHORUS"), [], 0, 1, 0)

  const AfterText: Config := AfterSpeaker.(buffer := [Verse])

  lemma PrologueHeaderLines()
    ensures LineAt(PrologueLines, 0) == "PROLOGUE" && NextLineAt(PrologueLines, 0) == "========"
  {
    assert "PROLOGUE\n"[..8] == "PROLOGUE";
    assert "========\n"[..8] == "========";
  }

  lemma PrologueHeaderStep()
    ensures Step(PrologueLines, 0, Initial) == (AfterHeader, 2)
  {
    PrologueHeaderLines();
    assert IsPrologueMarker("PROLOGUE", "========");
  }

  /** The blank line after the header, with no speech under way, changes nothing. */
  lemma BlankAfterHeaderStep()
    ensures Step(PrologueLines, 2, AfterHeader) == (AfterHeader, 1)
  {
    assert "\n"[..0] == "";
    assert LineAt(PrologueLines, 2) == "";
    assert "CHORUS\n"[..6] == "CHORUS";
    assert NextLineAt(PrologueLines, 2) == "CHORUS";
    assert !IsUnderlineLine("CHORUS") by {
      assert "CHORUS"[0] != '=';
    }
    assert Strip("") == [];
  }

  /** `CHORUS` alone on its line names a speaker and carries no text. */
  lemma ChorusIsSpeaker()
    ensures Strip("CHORUS") == "CHORUS" && IsSpeakerLine("CHORUS") && !IsStageDirection("CHORUS")
    ensures SpeakerName("CHORUS") == "CHORUS" && InlineText("CHORUS") == []
  {
    ChorusShape();
    NoInlineWithoutSpace("CHORUS");
  }

  lemma ChorusShape()
    ensures Strip("CHORUS") == "CHORUS" && IsUpper("CHORUS")
    ensures !StartsWith("CHORUS", "[") && !StartsWith("CHORUS", "ACT")
    ensures !StartsWith("CHORUS", "Scene") && !StartsWith("CHORUS", "PROLOGUE")
  {
    StripUnpadded("CHORUS");
    assert IsCased("CHORUS"[0]);
    DiffersAtStart("CHORUS", "[");
    DiffersAtStart("CHORUS", "ACT");
    DiffersAtStart("CHORUS", "Scene");
    DiffersAtStart("CHORUS", "PROLOGUE");
  }

  /** With the prologue open and no scene, the speaker line first opens `Scene 1`. */
  lemma ChorusOpensScene()
    ensures ContentStep("CHORUS", AfterHeader) == AfterSpeaker
  {
    ChorusIsSpeaker();
  }

  lemma SpeakerNameStep()
    ensures Step(PrologueLines, 3, AfterHeader) == (AfterSpeaker, 1)
  {
    var line := "CHORUS";
    assert "CHORUS\n"[..6] == line;
    assert LineAt(PrologueLines, 3) == line;
    assert "This is a prologue speech.\n"[..26] == Verse;
    assert NextLineAt(PrologueLines, 3) == Verse;
    assert !IsUnderlineLine(Verse) by {
      assert Verse[0] != '=';
    }
    ChorusIsSpeaker();
    ChorusOpensScene();
  }

  /** The verse line has lower-case letters, so it is no speaker line; nor is it a stage direction. */
  lemma VerseIsPlain()
    ensures Strip(Verse) == Verse && !IsSpeakerLine(Verse) && !IsStageDirection(Verse)
  {
    VerseShape();
  }

  lemma VerseShape()
    ensures Strip(Verse) == Verse && !IsUpper(Verse) && !StartsWith(Verse, "[")
  {
    VerseIsUnpadded();
    assert IsAsciiLower(Verse[1]);
    DiffersAtStart(Verse, "[");
  }

  lemma VerseIsUnpadded()
    ensures Strip(Verse) == Verse
  {
    StripUnpadded(Verse);
  }

  /** The verse line is added to the chorus's speech. */
  lemma VerseIsContinuation()
    ensures ContentStep(Verse, AfterSpeaker) == AfterText
    ensures Strip(Verse) != [] && !IsStageDirection(Verse)
  {
    VerseIsPlain();
  }

  lemma SpeechTextStep()
    ensures Step(PrologueLines, 4, AfterSpeaker) == (AfterText, 1)
  {
    assert "This is a prologue speech.\n"[..26] == Verse;
    assert LineAt(PrologueLines, 4) == Verse;
    assert NextLineAt(PrologueLines, 4) == "";
    VerseIsContinuation();
  }

  lemma PrologueRun()
    ensures Run(PrologueLines, 0, Initial) == AfterText
  {
    PrologueHeaderStep();
    BlankAfterHeaderStep();
    SpeakerNameStep();
    SpeechTextStep();
    Invariants.RunUnfolds(PrologueLines, 0, Initial);
    Invariants.RunUnfolds(PrologueLines, 2, AfterHeader);
    Invariants.RunUnfolds(PrologueLines, 3, AfterHeader);
    Invariants.RunUnfolds(PrologueLines, 4, AfterSpeaker);
  }

  /** At the end of the file the chorus's speech is committed and the act attached. */
  lemma PrologueFinalized()
    ensures FinalizePlayData(AfterText).acts ==
      [Act("Prologue", 0, [Scene(SceneName(1), 1, [Speech("CHORUS", Verse, 0)])])]
  {
    var speech := Speech("CHORUS", Verse, 0);
    var scene := Scene(SceneName(1), 1, [speech]);
    assert JoinLines([Verse]) == Verse;
    assert AfterText.buffer == [Verse] && AfterText.speaker == Some("CHORUS");
    assert AfterText.scene == Some(Scene(SceneName(1), 1, [])) && AfterText.speechOrder == 0;
    assert CanCommit(AfterText.scene, AfterText.speaker, AfterText.buffer);
    var saved := SavePendingSpeech(AfterText.scene, AfterText.speaker, AfterText.buffer, AfterText.speechOrder);
    assert saved.0.value.speeches == [] + [speech];
    assert [] + [speech] == [speech];
    assert saved.0 == Some(scene);
    assert [] + [scene] == [scene];
    assert SaveCurrentSceneToAct(AfterText.act, saved.0) == Some(Act("Prologue", 0, [scene]));
  }

  /**
   * `PROLOGUE`, its underline, a blank line, `CHORUS`, one line of verse:
   * one act named `Prologue` with order 0, holding the auto-created
   * `Scene 1`, holding the chorus's one speech, numbered 0.
   */
  lemma PrologueParse()
    ensures Parse(PrologueLines, "Test Play") ==
      Play("Test Play", [Act("Prologue", 0, [Scene(SceneName(1), 1, [Speech("CHORUS", Verse, 0)])])])
  {
    PrologueRun();
    PrologueFinalized();
  }
}
