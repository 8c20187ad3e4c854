/**
 * The importer's line parser as a pure state machine. A `Config` is
 * everything `parse_play_file` keeps between two iterations of its loop:
 * the acts already attached to the play and the `ParserState` fields.
 * `Step` is one iteration (the dispatch in its fixed priority), `Run` the
 * loop, `Parse` the loop plus `_finalize_play_data`. This is the reference
 * definition that the imperative model in module Importer is proved equal to.
 *
 * The open act and the open scene are values here. The importer appends to
 * them in place, but it never shares an open scene or act with anything
 * until it is attached for good, so the two readings agree.
 */
module Machine {
  import opened Wrappers
  import opened PyText
  import opened Document
  import opened Classify

  datatype Config = Config(
    acts: seq<Act>,              // `play_data.acts`
    act: Option<Act>,            // `current_act`
    scene: Option<Scene>,        // `current_scene`
    speaker: Option<string>,     // `current_speaker`
    buffer: seq<string>,         // `current_speech_lines`
    actOrder: nat,
    sceneOrder: nat,
    speechOrder: nat)

  /** `PlayData(title)` with `ParserState.create_initial()`. */
  const Initial: Config := Config([], None, None, None, [], 0, 0, 0)

  /** The part of the state the speech helpers take and hand back. */
  datatype SpeechState = SpeechState(scene: Option<Scene>, speaker: Option<string>, lines: seq<string>, order: nat)

  /** Python truthiness of `current_speaker`: set, and not the empty string. */
  predicate Truthy(speaker: Option<string>) {
    speaker.Some? && speaker.value != ""
  }

  /** The guard of `_save_pending_speech`: a speaker (`is not None`), some lines and a scene. */
  predicate CanCommit(scene: Option<Scene>, speaker: Option<string>, lines: seq<string>) {
    speaker.Some? && lines != [] && scene.Some?
  }

  /**
   * `_save_pending_speech`: either appends exactly one speech (the speaker,
   * the lines joined by line feeds, the current number) to the scene and
   * answers the next number, or leaves scene and number as they were.
   */
  function SavePendingSpeech(scene: Option<Scene>, speaker: Option<string>, lines: seq<string>, order: nat): (r: (Option<Scene>, nat))
    ensures r.0.Some? == scene.Some?
    ensures CanCommit(scene, speaker, lines) ==>
      && r.1 == order + 1
      && r.0.value.name == scene.value.name && r.0.value.order == scene.value.order
      && r.0.value.speeches == scene.value.speeches + [Speech(speaker.value, JoinLines(lines), order)]
    ensures !CanCommit(scene, speaker, lines) ==> r == (scene, order)
  {
    if CanCommit(scene, speaker, lines) then
      var s := scene.value;
      (Some(s.(speeches := s.speeches + [Speech(speaker.value, JoinLines(lines), order)])), order + 1)
    else
      (scene, order)
  }

  /** `_save_current_scene_to_act`: the act with the scene appended, when both are open. */
  function SaveCurrentSceneToAct(act: Option<Act>, scene: Option<Scene>): (r: Option<Act>)
    ensures r.Some? == act.Some?
    ensures r.Some? ==> r.value.name == act.value.name && r.value.order == act.value.order
    ensures r.Some? ==> r.value.scenes == act.value.scenes + (if scene.Some? then [scene.value] else [])
  {
    if act.Some? && scene.Some? then Some(act.value.(scenes := act.value.scenes + [scene.value])) else act
  }

  /** `_save_current_act_to_play`: the play's acts with the open act appended, if any. */
  function SaveCurrentActToPlay(acts: seq<Act>, act: Option<Act>): (r: seq<Act>)
    ensures r == acts + (if act.Some? then [act.value] else [])
  {
    if act.Some? then acts + [act.value] else acts
  }

  /** `ParserState.reset_for_new_act`. */
  function ResetForNewAct(c: Config, name: string, order: nat): (r: Config)
    ensures r.acts == c.acts && r.act == Some(Act(name, order, []))
    ensures r.scene.None? && r.speaker.None? && r.buffer == []
    ensures r.actOrder == order && r.sceneOrder == 0 && r.speechOrder == 0
  {
    c.(act := Some(Act(name, order, [])), scene := None, speaker := None, buffer := [],
       actOrder := order, sceneOrder := 0, speechOrder := 0)
  }

  /** `ParserState.reset_for_new_scene`. */
  function ResetForNewScene(c: Config, name: string, order: nat): (r: Config)
    ensures r.acts == c.acts && r.act == c.act && r.actOrder == c.actOrder
    ensures r.scene == Some(Scene(name, order, [])) && r.speaker.None? && r.buffer == []
    ensures r.sceneOrder == order && r.speechOrder == 0
  {
    c.(scene := Some(Scene(name, order, [])), speaker := None, buffer := [],
       sceneOrder := order, speechOrder := 0)
  }

  /**
   * What the PROLOGUE and ACT handlers do while an act is open: commit the
   * pending speech, attach the open scene to the act and the act to the play.
   */
  function CloseOpenAct(c: Config): (r: Config)
    requires c.act.Some?
    ensures |r.acts| == |c.acts| + 1 && r.acts[..|c.acts|] == c.acts
  {
    var saved := SavePendingSpeech(c.scene, c.speaker, c.buffer, c.speechOrder);
    var act := SaveCurrentSceneToAct(c.act, saved.0);
    c.(scene := saved.0, speechOrder := saved.1, act := act, acts := SaveCurrentActToPlay(c.acts, act))
  }

  /** `_handle_prologue`. */
  function PrologueStep(c: Config): Config {
    var closed := if c.act.Some? then CloseOpenAct(c) else c;
    ResetForNewAct(closed, "Prologue", 0)
  }

  /** `_handle_act` for `ACT n`. */
  function ActStep(c: Config, n: nat): Config {
    var closed := if c.act.Some? then CloseOpenAct(c) else c;
    ResetForNewAct(closed, ActName(n), n)
  }

  /** The guard of the merge branch of `_handle_scene`: the open scene already has number `n`. */
  predicate ReopensOpenScene(c: Config, n: nat) {
    c.scene.Some? && c.act.Some? && c.scene.value.order == n
  }

  /** `_handle_scene` for `Scene n`. */
  function SceneStep(c: Config, n: nat): Config {
    if ReopensOpenScene(c, n) then
      var saved := SavePendingSpeech(c.scene, c.speaker, c.buffer, c.speechOrder);
      c.(scene := saved.0, speechOrder := saved.1, speaker := None, buffer := [], sceneOrder := n)
    else
      var flushed :=
        if c.buffer != [] then
          var saved := SavePendingSpeech(c.scene, c.speaker, c.buffer, c.speechOrder);
          c.(scene := saved.0, speechOrder := saved.1, buffer := [])
        else c;
      var attached := flushed.(act := SaveCurrentSceneToAct(flushed.act, flushed.scene));
      ResetForNewScene(attached, SceneName(n), n)
  }

  /** `_ensure_scene_exists`: a fresh, empty `Scene 1`, whatever the counters were. */
  function EnsureSceneExists(sceneOrder: nat, speechOrder: nat): (r: (Option<Scene>, nat, nat))
    ensures r.0.Some? && r.0.value.name == SceneName(1) && r.0.value.order == r.1 == 1
    ensures r.0.value.speeches == [] && r.2 == 0
  {
    (Some(Scene(SceneName(1), 1, [])), 1, 0)
  }

  /** The first index at or after `j` whose line is not blank, or `|lines|`. */
  function NextNonBlank(lines: seq<string>, j: nat): (r: nat)
    requires j <= |lines|
    ensures j <= r <= |lines|
    ensures forall k :: j <= k < r ==> Strip(lines[k]) == []
    ensures r < |lines| ==> Strip(lines[r]) != []
    decreases |lines| - j
  {
    if j == |lines| || Strip(lines[j]) != [] then j else NextNonBlank(lines, j + 1)
  }

  /**
   * `_handle_empty_line` at line `i`: with a speech under way, look ahead
   * past blank lines; if the next line is a speaker line, commit the speech
   * and clear the speaker and the buffer.
   */
  function EmptyLineResult(lines: seq<string>, i: nat, st: SpeechState): SpeechState
    requires i < |lines|
  {
    if st.lines != [] && Truthy(st.speaker) then
      var j := NextNonBlank(lines, i + 1);
      if j < |lines| && IsSpeakerLine(Strip(lines[j])) then
        var saved := SavePendingSpeech(st.scene, st.speaker, st.lines, st.order);
        SpeechState(saved.0, None, [], saved.1)
      else st
    else st
  }

  /** The rule both branches of `_handle_speaker_line` share: a new name commits the previous speech. */
  function SwitchSpeaker(name: string, st: SpeechState): SpeechState {
    if Truthy(st.speaker) && st.speaker.value != name then
      var saved := SavePendingSpeech(st.scene, st.speaker, st.lines, st.order);
      SpeechState(saved.0, Some(name), [], saved.1)
    else
      st.(speaker := Some(name))
  }

  /** The speaker a speaker line names: group 1 of the inline pattern, trimmed, or else the whole trimmed line. */
  function SpeakerName(line: string): string {
    match InlineSpeech(line)
    case Some(m) => Strip(m.name)
    case None => Strip(line)
  }

  /** The first line of speech a speaker line carries: group 2 of the inline pattern, if it matches. */
  function InlineText(line: string): seq<string> {
    match InlineSpeech(line)
    case Some(m) => [m.text]
    case None => []
  }

  /**
   * `_handle_speaker_line`: switch to the named speaker, then add the
   * speech text that follows the name on the same line, if any.
   */
  function HandleSpeakerLine(line: string, st: SpeechState): SpeechState {
    var switched := SwitchSpeaker(SpeakerName(line), st);
    switched.(lines := switched.lines + InlineText(line))
  }

  function SpeechOf(c: Config): SpeechState {
    SpeechState(c.scene, c.speaker, c.buffer, c.speechOrder)
  }

  function WithSpeech(c: Config, st: SpeechState): Config {
    c.(scene := st.scene, speaker := st.speaker, buffer := st.lines, speechOrder := st.order)
  }

  /** The scene auto-creation that precedes every content line (lines 280-286). */
  function AutoScene(c: Config): Config {
    if c.act.Some? && c.scene.None? then
      var created := EnsureSceneExists(c.sceneOrder, c.speechOrder);
      c.(scene := created.0, sceneOrder := created.1, speechOrder := created.2)
    else c
  }

  /** A line that is no marker, no stage direction and not blank: a speaker line or a continuation. */
  function ContentStep(line: string, c: Config): Config {
    var c1 := AutoScene(c);
    if IsSpeakerLine(line) then WithSpeech(c1, HandleSpeakerLine(line, SpeechOf(c1)))
    else if Truthy(c1.speaker) && c1.scene.Some? then c1.(buffer := c1.buffer + [line])
    else c1
  }

  /** `lines[i].rstrip("\n")`. */
  function LineAt(lines: seq<string>, i: nat): string
    requires i < |lines|
  {
    RStripNewlines(lines[i])
  }

  /** The lookahead line, or `""` past the end. */
  function NextLineAt(lines: seq<string>, i: nat): string {
    if i + 1 < |lines| then RStripNewlines(lines[i + 1]) else ""
  }

  /** Any of the three headers, each with its underline below. */
  predicate IsMarker(line: string, next: string) {
    IsPrologueMarker(line, next) || IsActMarker(line, next).Some? || IsSceneMarker(line, next).Some?
  }

  /**
   * One iteration of the loop of `parse_play_file` at line `i`: the new
   * configuration and how far `i` advances. The three marker handlers skip
   * the header and its underline; every other line advances by one.
   */
  function Step(lines: seq<string>, i: nat, c: Config): (r: (Config, nat))
    requires i < |lines|
    ensures r.1 == (if IsMarker(LineAt(lines, i), NextLineAt(lines, i)) then 2 else 1)
    ensures i + r.1 <= |lines|
  {
    var line := LineAt(lines, i);
    var next := NextLineAt(lines, i);
    if IsPrologueMarker(line, next) then (PrologueStep(c), 2)
    else if IsActMarker(line, next).Some? then (ActStep(c, IsActMarker(line, next).value), 2)
    else if IsSceneMarker(line, next).Some? then (SceneStep(c, IsSceneMarker(line, next).value), 2)
    else if IsStageDirection(line) then (c, 1)
    else if Strip(line) == [] then (WithSpeech(c, EmptyLineResult(lines, i, SpeechOf(c))), 1)
    else (ContentStep(line, c), 1)
  }

  /** The loop of `parse_play_file` from line `i` on. */
  function Run(lines: seq<string>, i: nat, c: Config): Config
    decreases |lines| - i
  {
    if i >= |lines| then c
    else
      var r := Step(lines, i, c);
      Run(lines, i + r.1, r.0)
  }

  /** `_finalize_play_data`: commit the last speech, attach the open scene, attach the open act. */
  function FinalizePlayData(c: Config): (r: Config)
    ensures |c.acts| <= |r.acts| <= |c.acts| + 1 && r.acts[..|c.acts|] == c.acts
    ensures |r.acts| == |c.acts| + 1 <==> c.act.Some?
  {
    var c1 :=
      if c.buffer != [] && Truthy(c.speaker) && c.scene.Some? then
        var saved := SavePendingSpeech(c.scene, c.speaker, c.buffer, c.speechOrder);
        c.(scene := saved.0)
      else c;
    var c2 := if c1.scene.Some? && c1.act.Some? then c1.(act := SaveCurrentSceneToAct(c1.act, c1.scene)) else c1;
    if c2.act.Some? then c2.(acts := SaveCurrentActToPlay(c2.acts, c2.act)) else c2
  }

  /** `parse_play_file` on the lines of a file (each as `readlines` gives it). */
  function Parse(lines: seq<string>, title: string): (p: Play)
    ensures p.title == title
  {
    Play(title, FinalizePlayData(Run(lines, 0, Initial)).acts)
  }
}
