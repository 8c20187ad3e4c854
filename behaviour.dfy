/**
 * What each kind of line does to the parser's state: the headers, stage
 * directions, blank lines, speaker lines and continuation lines, each
 * stated against the state before the line rather than by re-running the
 * handler.
 */
module Behaviour {
  import opened Wrappers
  import opened PyText
  import opened Document
  import opened Classify
  import opened Machine
  import opened Invariants

  /**
   * `s` is the open scene of `c` after its pending speech, if the speech can
   * be committed, has been appended with the next number.
   */
  predicate ClosedScene(c: Config, s: Scene)
    requires c.scene.Some?
  {
    && s.name == c.scene.value.name && s.order == c.scene.value.order
    && s.speeches == c.scene.value.speeches +
         (if CanCommit(c.scene, c.speaker, c.buffer) then [Speech(c.speaker.value, JoinLines(c.buffer), c.speechOrder)] else [])
  }

  /** `a` is the open act of `c` with the open scene, closed, appended to its scenes. */
  predicate ClosedAct(c: Config, a: Act)
    requires c.act.Some?
  {
    var open := c.act.value;
    && a.name == open.name && a.order == open.order
    && (c.scene.None? ==> a.scenes == open.scenes)
    && (c.scene.Some? ==>
          && |a.scenes| == |open.scenes| + 1 && a.scenes[..|open.scenes|] == open.scenes
          && ClosedScene(c, a.scenes[|open.scenes|]))
  }

  /** The new, empty act `name`/`order` is open; no scene, no speaker, no lines, counters zeroed. */
  predicate FreshAct(r: Config, name: string, order: nat) {
    && r.act == Some(Act(name, order, [])) && r.scene.None? && r.speaker.None? && r.buffer == []
    && r.actOrder == order && r.sceneOrder == 0 && r.speechOrder == 0
  }

  /**
   * Before a new act opens, the open act (if any) is closed and becomes
   * the play's last act; with no act open nothing is attached, so whatever
   * came before the first header is lost.
   */
  predicate ClosesOpenAct(c: Config, r: Config) {
    && (c.act.None? ==> r.acts == c.acts)
    && (c.act.Some? ==> |r.acts| == |c.acts| + 1 && r.acts[..|c.acts|] == c.acts && ClosedAct(c, r.acts[|c.acts|]))
  }

  lemma CloseOpenActCloses(c: Config)
    requires c.act.Some?
    ensures ClosesOpenAct(c, CloseOpenAct(c))
  {
    var r := CloseOpenAct(c);
    assert r.acts[|c.acts|] == SaveCurrentSceneToAct(c.act, SavePendingSpeech(c.scene, c.speaker, c.buffer, c.speechOrder).0).value;
  }

  /**
   * `_finalize_play_data`: at the end of the file the open act, if any, is
   * closed exactly as a new header would close it (pending speech committed,
   * open scene attached) and becomes the play's last act.
   */
  lemma FinalizeCloses(c: Config)
    requires Inv(c)
    ensures ClosesOpenAct(c, FinalizePlayData(c))
  {
    if c.act.Some? {
      var r := FinalizePlayData(c);
      assert r.acts[|c.acts|] == SaveCurrentSceneToAct(c.act, SavePendingSpeech(c.scene, c.speaker, c.buffer, c.speechOrder).0).value;
    }
  }

  /**
   * A parsed play's acts are those the loop attached, followed by the act
   * still open at the end of the file, closed with its last speech and last
   * scene: nothing pending is lost at the end of the file.
   */
  lemma ParseClosesLastAct(lines: seq<string>, title: string)
    ensures var c := Run(lines, 0, Initial);
      ClosesOpenAct(c, FinalizePlayData(c)) && Parse(lines, title).acts == FinalizePlayData(c).acts
  {
    InitialInv();
    RunKeepsInv(lines, 0, Initial);
    FinalizeCloses(Run(lines, 0, Initial));
  }

  /** `PROLOGUE` over an underline: close the open act, open the act "Prologue" numbered 0, skip two lines. */
  lemma PrologueMarkerStep(lines: seq<string>, i: nat, c: Config)
    requires i < |lines| && IsPrologueMarker(LineAt(lines, i), NextLineAt(lines, i))
    ensures Step(lines, i, c).1 == 2
    ensures FreshAct(Step(lines, i, c).0, "Prologue", 0)
    ensures ClosesOpenAct(c, Step(lines, i, c).0)
  {
    if c.act.Some? {
      CloseOpenActCloses(c);
    }
  }

  /** `ACT n` over an underline: close the open act, open "Act n" numbered n, skip two lines. */
  lemma ActMarkerStep(lines: seq<string>, i: nat, c: Config)
    requires i < |lines| && IsActMarker(LineAt(lines, i), NextLineAt(lines, i)).Some?
    ensures var n := IsActMarker(LineAt(lines, i), NextLineAt(lines, i)).value;
      && Step(lines, i, c).1 == 2
      && FreshAct(Step(lines, i, c).0, ActName(n), n)
      && ClosesOpenAct(c, Step(lines, i, c).0)
  {
    assert !IsPrologueMarker(LineAt(lines, i), NextLineAt(lines, i)) by {
      assert LineAt(lines, i)[..4] == "ACT ";
    }
    if c.act.Some? {
      CloseOpenActCloses(c);
    }
  }

  /**
   * `Scene n` over an underline. The open scene is left open numbered `n`
   * and named `Scene n`, with no speaker and no lines. If it already had
   * number `n` (and an act is open) it stays the same scene: the pending
   * speech is committed to it and the speech numbering goes on, and the act
   * gets no new scene. Otherwise the old scene, closed, is appended to the
   * act and an empty scene with speech numbering restarted at 0 is opened.
   */
  lemma SceneMarkerStep(lines: seq<string>, i: nat, c: Config)
    requires i < |lines| && Inv(c)
    requires !IsPrologueMarker(LineAt(lines, i), NextLineAt(lines, i))
    requires IsActMarker(LineAt(lines, i), NextLineAt(lines, i)).None?
    requires IsSceneMarker(LineAt(lines, i), NextLineAt(lines, i)).Some?
    ensures var n := IsSceneMarker(LineAt(lines, i), NextLineAt(lines, i)).value;
      var r := Step(lines, i, c);
      && r.1 == 2 && r.0.acts == c.acts
      && r.0.scene.Some? && r.0.scene.value.name == SceneName(n) && r.0.scene.value.order == n
      && r.0.speaker.None? && r.0.buffer == [] && r.0.sceneOrder == n
      && (ReopensOpenScene(c, n) ==>
            r.0.act == c.act && ClosedScene(c, r.0.scene.value) && r.0.speechOrder == |r.0.scene.value.speeches|)
      && (!ReopensOpenScene(c, n) ==>
            && r.0.scene.value.speeches == [] && r.0.speechOrder == 0
            && r.0.act.Some? == c.act.Some?
            && (c.act.Some? ==> ClosedAct(c, r.0.act.value)))
  {
    var n := IsSceneMarker(LineAt(lines, i), NextLineAt(lines, i)).value;
    SaveKeepsSceneReady(c.scene, c.speaker, c.buffer, c.speechOrder);
  }

  /**
   * Only the open scene is compared: declaring again the number of a scene
   * the act has already closed opens a second scene with that number, and
   * once the act is finalised it holds both.
   */
  lemma ReDeclaredSceneRepeats(c: Config, n: nat, k: nat)
    requires Inv(c) && c.act.Some? && c.scene.Some? && c.scene.value.order != n
    requires k < |c.act.value.scenes| && c.act.value.scenes[k].order == n
    ensures var f := FinalizePlayData(SceneStep(c, n));
      var a := f.acts[|f.acts| - 1];
      && |a.scenes| == |c.act.value.scenes| + 2
      && a.scenes[k].order == n && a.scenes[|a.scenes| - 1].order == n
  {
    var s := SceneStep(c, n);
    assert s.act.value.scenes[k] == c.act.value.scenes[k];
    var f := FinalizePlayData(s);
    assert f.acts[|f.acts| - 1].scenes == s.act.value.scenes + [s.scene.value];
  }

  /** A stage direction changes nothing and advances one line. */
  lemma StageDirectionStep(lines: seq<string>, i: nat, c: Config)
    requires i < |lines| && !IsMarker(LineAt(lines, i), NextLineAt(lines, i))
    requires IsStageDirection(LineAt(lines, i))
    ensures Step(lines, i, c) == (c, 1)
  {
  }

  /** A blank line is neither a header nor a stage direction. */
  lemma BlankIsPlain(line: string, next: string)
    requires Strip(line) == []
    ensures !IsMarker(line, next) && !IsStageDirection(line)
  {
    if line != [] {
      assert IsSpace(line[0]);
      assert line[0] != 'A' && line[0] != 'S' && line[0] != 'P';
    }
  }

  /**
   * A blank line ends the speech under way exactly when there is one (a
   * speaker and some lines) and the next line that is not blank, trimmed,
   * is a speaker line: the speech is committed to the open scene and
   * speaker and lines are cleared. Otherwise nothing changes.
   */
  lemma BlankLineStep(lines: seq<string>, i: nat, c: Config)
    requires i < |lines| && Strip(LineAt(lines, i)) == [] && Inv(c)
    ensures var r := Step(lines, i, c);
      var j := NextNonBlank(lines, i + 1);
      var ends := c.buffer != [] && c.speaker.Some? && j < |lines| && IsSpeakerLine(Strip(lines[j]));
      && r.1 == 1
      && (ends ==>
            && r.0.acts == c.acts && r.0.act == c.act && r.0.speaker.None? && r.0.buffer == []
            && r.0.scene.Some? == c.scene.Some?
            && (c.scene.Some? ==> ClosedScene(c, r.0.scene.value) && r.0.speechOrder == c.speechOrder + 1)
            && (c.scene.None? ==> r.0.speechOrder == c.speechOrder))
      && (!ends ==> r.0 == c)
  {
    BlankIsPlain(LineAt(lines, i), NextLineAt(lines, i));
  }

  /**
   * A line that is not a speaker line (reached past the headers, stage
   * directions and blank lines) is added, verbatim, to the speech under way
   * exactly when a speaker is set and a scene is open or about to be
   * opened for the open act; otherwise it is dropped. Speaker and play are
   * untouched either way.
   */
  lemma ContinuationLine(line: string, c: Config)
    requires Inv(c) && !IsSpeakerLine(line)
    ensures var r := ContentStep(line, c);
      && r.speaker == c.speaker && r.acts == c.acts && r.act == c.act
      && (c.speaker.Some? && (c.scene.Some? || c.act.Some?) ==> r.buffer == c.buffer + [line])
      && (!(c.speaker.Some? && (c.scene.Some? || c.act.Some?)) ==> r.buffer == c.buffer)
  {
  }

  /** Content reached with an act open and no scene first opens the empty scene `Scene 1`. */
  lemma ContentOpensDefaultScene(line: string, c: Config)
    requires c.act.Some? && c.scene.None?
    ensures var r := ContentStep(line, c);
      && r.scene.Some? && r.scene.value.name == SceneName(1) && r.scene.value.order == 1
      && r.sceneOrder == 1 && r.act == c.act && r.acts == c.acts
  {
  }

  /** The same speaker named again: no commit, and the speech keeps growing. */
  lemma SameSpeakerContinues(line: string, st: SpeechState)
    requires Truthy(st.speaker) && SpeakerName(line) == st.speaker.value
    ensures HandleSpeakerLine(line, st) == st.(lines := st.lines + InlineText(line))
  {
  }

  /** A different speaker: the previous speech is committed (if it can be) and a new one starts. */
  lemma NewSpeakerCommits(line: string, st: SpeechState)
    requires Truthy(st.speaker) && SpeakerName(line) != st.speaker.value
    ensures var r := HandleSpeakerLine(line, st);
      && r.speaker == Some(SpeakerName(line)) && r.lines == InlineText(line)
      && r.scene.Some? == st.scene.Some?
      && (CanCommit(st.scene, st.speaker, st.lines) ==>
            && r.order == st.order + 1
            && r.scene.value.speeches == st.scene.value.speeches + [Speech(st.speaker.value, JoinLines(st.lines), st.order)])
      && (!CanCommit(st.scene, st.speaker, st.lines) ==> r.scene == st.scene && r.order == st.order)
  {
  }

  /** The first speaker of a speech: nothing to commit; the speech starts with the inline text, if any. */
  lemma FirstSpeakerStarts(line: string, st: SpeechState)
    requires st.speaker.None? && SpeakerReady(st.speaker, st.lines)
    ensures HandleSpeakerLine(line, st) == st.(speaker := Some(SpeakerName(line)), lines := InlineText(line))
  {
  }

  /** Line `k` opens no act: it is neither a PROLOGUE nor an ACT header. */
  predicate OpensNoAct(lines: seq<string>, k: nat)
    requires k < |lines|
  {
    !IsPrologueMarker(LineAt(lines, k), NextLineAt(lines, k)) && IsActMarker(LineAt(lines, k), NextLineAt(lines, k)).None?
  }

  /** A line that opens no act leaves "no act open, none attached" as it was. */
  lemma StepWithoutActHeader(lines: seq<string>, i: nat, c: Config)
    requires i < |lines| && c.act.None? && c.acts == [] && OpensNoAct(lines, i)
    ensures Step(lines, i, c).0.act.None? && Step(lines, i, c).0.acts == []
  {
  }

  lemma {:induction false} RunWithoutActHeaders(lines: seq<string>, i: nat, c: Config)
    requires c.act.None? && c.acts == []
    requires forall k :: i <= k < |lines| ==> OpensNoAct(lines, k)
    ensures Run(lines, i, c).act.None? && Run(lines, i, c).acts == []
    decreases |lines| - i
  {
    if i < |lines| {
      RunUnfolds(lines, i, c);
      StepWithoutActHeader(lines, i, c);
      RunWithoutActHeaders(lines, i + Step(lines, i, c).1, Step(lines, i, c).0);
    }
  }

  /** A script with no PROLOGUE or ACT header gives a play with no acts: everything is dropped. */
  lemma NoActHeaderNoActs(lines: seq<string>, title: string)
    requires forall k :: 0 <= k < |lines| ==> OpensNoAct(lines, k)
    ensures Parse(lines, title) == Play(title, [])
  {
    RunWithoutActHeaders(lines, 0, Initial);
  }
}
