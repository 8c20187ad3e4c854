/**
 * The importer as it runs: a `ParserState` and a `PlayData` updated in
 * place by the handlers and by the loop of `parse_play_file`. Every method
 * is proved to move the state exactly as the reference machine in module
 * Machine does, so the properties proved there (module Invariants,
 * module Behaviour) hold of what this code builds.
 */
module Importer {
  import opened Wrappers
  import opened PyText
  import opened Document
  import opened Classify
  import Machine
  import Invariants

  /** The parser's state between two lines. */
  class ParserState {
    var currentAct: Option<Act>
    var currentScene: Option<Scene>
    var currentSpeaker: Option<string>
    var currentSpeechLines: seq<string>
    var actOrder: nat
    var sceneOrder: nat
    var speechOrder: nat

    /** `ParserState.create_initial()`: nothing open, no speaker, no lines, counters at 0. */
    constructor CreateInitial()
      ensures currentAct.None? && currentScene.None? && currentSpeaker.None? && currentSpeechLines == []
      ensures actOrder == 0 && sceneOrder == 0 && speechOrder == 0
    {
      currentAct := None;
      currentScene := None;
      currentSpeaker := None;
      currentSpeechLines := [];
      actOrder := 0;
      sceneOrder := 0;
      speechOrder := 0;
    }

    /** `reset_for_new_act`: open the empty act `name`; no scene, no speaker, no lines; scene and speech counters at 0. */
    method ResetForNewAct(name: string, order: nat)
      modifies this
      ensures currentAct == Some(Act(name, order, [])) && currentScene.None?
      ensures currentSpeaker.None? && currentSpeechLines == []
      ensures actOrder == order && sceneOrder == 0 && speechOrder == 0
    {
      currentAct := Some(Act(name, order, []));
      currentScene := None;
      currentSpeaker := None;
      currentSpeechLines := [];
      actOrder := order;
      sceneOrder := 0;
      speechOrder := 0;
    }

    /** `reset_for_new_scene`: open the empty scene `name`; no speaker, no lines; speech counter at 0; the act is kept. */
    method ResetForNewScene(name: string, order: nat)
      modifies this
      ensures currentScene == Some(Scene(name, order, []))
      ensures currentSpeaker.None? && currentSpeechLines == []
      ensures sceneOrder == order && speechOrder == 0
      ensures currentAct == old(currentAct) && actOrder == old(actOrder)
    {
      currentScene := Some(Scene(name, order, []));
      currentSpeaker := None;
      currentSpeechLines := [];
      sceneOrder := order;
      speechOrder := 0;
    }
  }

  /** The play under construction: its title and the acts attached so far. */
  class PlayData {
    const title: string
    var acts: seq<Act>

    constructor (title: string)
      ensures this.title == title && acts == []
    {
      this.title := title;
      acts := [];
    }

    /** The play as a value. */
    function Value(): Play
      reads this
    {
      Play(title, acts)
    }
  }

  /** The play's acts and the parser state, read as one configuration of the reference machine. */
  function Snapshot(play: PlayData, state: ParserState): Machine.Config
    reads play, state
  {
    Machine.Config(play.acts, state.currentAct, state.currentScene, state.currentSpeaker,
                   state.currentSpeechLines, state.actOrder, state.sceneOrder, state.speechOrder)
  }

  /**
   * What `_handle_prologue` and `_handle_act` do while an act is open:
   * commit the pending speech, attach the open scene to the act and the act
   * to the play.
   */
  method CloseOpenAct(play: PlayData, state: ParserState)
    requires state.currentAct.Some?
    modifies play, state
    ensures Snapshot(play, state) == Machine.CloseOpenAct(old(Snapshot(play, state)))
  {
    var saved := Machine.SavePendingSpeech(state.currentScene, state.currentSpeaker,
                                           state.currentSpeechLines, state.speechOrder);
    state.currentScene, state.speechOrder := saved.0, saved.1;
    state.currentAct := Machine.SaveCurrentSceneToAct(state.currentAct, state.currentScene);
    play.acts := Machine.SaveCurrentActToPlay(play.acts, state.currentAct);
  }

  /** `_handle_prologue`. */
  method HandlePrologue(play: PlayData, state: ParserState) returns (linesToSkip: nat)
    modifies play, state
    ensures linesToSkip == 2
    ensures Snapshot(play, state) == Machine.PrologueStep(old(Snapshot(play, state)))
  {
    if state.currentAct.Some? {
      CloseOpenAct(play, state);
    }
    state.ResetForNewAct("Prologue", 0);
    linesToSkip := 2;
  }

  /** `_handle_act` for `ACT n`. */
  method HandleAct(play: PlayData, state: ParserState, n: nat) returns (linesToSkip: nat)
    modifies play, state
    ensures linesToSkip == 2
    ensures Snapshot(play, state) == Machine.ActStep(old(Snapshot(play, state)), n)
  {
    if state.currentAct.Some? {
      CloseOpenAct(play, state);
    }
    state.ResetForNewAct(ActName(n), n);
    linesToSkip := 2;
  }

  /** `_handle_scene` for `Scene n`. */
  method HandleScene(ghost play: PlayData, state: ParserState, n: nat) returns (linesToSkip: nat)
    modifies state
    ensures linesToSkip == 2
    ensures Snapshot(play, state) == Machine.SceneStep(old(Snapshot(play, state)), n)
  {
    if state.currentScene.Some? && state.currentAct.Some? && state.currentScene.value.order == n {
      var saved := Machine.SavePendingSpeech(state.currentScene, state.currentSpeaker,
                                             state.currentSpeechLines, state.speechOrder);
      state.currentScene, state.speechOrder := saved.0, saved.1;
      state.currentSpeaker := None;
      state.currentSpeechLines := [];
      state.sceneOrder := n;
      return 2;
    }
    if state.currentSpeechLines != [] {
      var saved := Machine.SavePendingSpeech(state.currentScene, state.currentSpeaker,
                                             state.currentSpeechLines, state.speechOrder);
      state.currentScene, state.speechOrder := saved.0, saved.1;
      state.currentSpeechLines := [];
    }
    state.currentAct := Machine.SaveCurrentSceneToAct(state.currentAct, state.currentScene);
    state.ResetForNewScene(SceneName(n), n);
    linesToSkip := 2;
  }

  /**
   * `_handle_empty_line` at line `i`: with a speech under way, scan past the
   * blank lines that follow; if the first line that is not blank is, once
   * trimmed, a speaker line, commit the speech and clear speaker and lines.
   */
  method HandleEmptyLine(lines: seq<string>, i: nat, scene: Option<Scene>, speaker: Option<string>,
                         speechLines: seq<string>, speechOrder: nat) returns (r: Machine.SpeechState)
    requires i < |lines|
    ensures r == Machine.EmptyLineResult(lines, i, Machine.SpeechState(scene, speaker, speechLines, speechOrder))
  {
    r := Machine.SpeechState(scene, speaker, speechLines, speechOrder);
    if speechLines != [] && Machine.Truthy(speaker) {
      var j := i + 1;
      while j < |lines| && Strip(lines[j]) == []
        invariant i + 1 <= j <= |lines|
        invariant Machine.NextNonBlank(lines, i + 1) == Machine.NextNonBlank(lines, j)
        decreases |lines| - j
      {
        j := j + 1;
      }
      if j < |lines| {
        var nextNonEmpty := Strip(lines[j]);
        if IsSpeakerLine(nextNonEmpty) {
          var saved := Machine.SavePendingSpeech(scene, speaker, speechLines, speechOrder);
          r := Machine.SpeechState(saved.0, None, [], saved.1);
        }
      }
    }
  }

  /** `_finalize_play_data`: commit the last speech, attach the open scene, attach the open act. */
  method FinalizePlayData(play: PlayData, state: ParserState)
    modifies play, state
    ensures Snapshot(play, state) == Machine.FinalizePlayData(old(Snapshot(play, state)))
  {
    if state.currentSpeechLines != [] && Machine.Truthy(state.currentSpeaker) && state.currentScene.Some? {
      var saved := Machine.SavePendingSpeech(state.currentScene, state.currentSpeaker,
                                             state.currentSpeechLines, state.speechOrder);
      state.currentScene := saved.0;
    }
    if state.currentScene.Some? && state.currentAct.Some? {
      state.currentAct := Machine.SaveCurrentSceneToAct(state.currentAct, state.currentScene);
    }
    if state.currentAct.Some? {
      play.acts := Machine.SaveCurrentActToPlay(play.acts, state.currentAct);
    }
  }

  /**
   * The tail of the loop body for a line that is no marker, no stage
   * direction and not blank: open a default scene if an act has none, then
   * handle a speaker line or add the line to the current speech.
   */
  method HandleContentLine(ghost play: PlayData, state: ParserState, line: string)
    modifies state
    ensures Snapshot(play, state) == Machine.ContentStep(line, old(Snapshot(play, state)))
  {
    if state.currentAct.Some? && state.currentScene.None? {
      var created := Machine.EnsureSceneExists(state.sceneOrder, state.speechOrder);
      state.currentScene, state.sceneOrder, state.speechOrder := created.0, created.1, created.2;
    }
    if IsSpeakerLine(line) {
      var r := Machine.HandleSpeakerLine(line, Machine.SpeechState(state.currentScene, state.currentSpeaker,
                                                                  state.currentSpeechLines, state.speechOrder));
      state.currentScene := r.scene;
      state.currentSpeaker, state.currentSpeechLines, state.speechOrder := r.speaker, r.lines, r.order;
    } else if Machine.Truthy(state.currentSpeaker) && state.currentScene.Some? {
      state.currentSpeechLines := state.currentSpeechLines + [line];
    }
  }

  /**
   * One pass of the loop body of `parse_play_file` at line `i`, dispatching
   * in the source's order: PROLOGUE, ACT, Scene, stage direction, blank line,
   * then (after opening a default scene if needed) speaker or continuation.
   */
  method ParseLine(lines: seq<string>, i: nat, play: PlayData, state: ParserState) returns (advance: nat)
    requires i < |lines|
    modifies play, state
    ensures (Snapshot(play, state), advance) == Machine.Step(lines, i, old(Snapshot(play, state)))
  {
    var line := RStripNewlines(lines[i]);
    var nextLine := if i + 1 < |lines| then RStripNewlines(lines[i + 1]) else "";
    var actMatch := IsActMarker(line, nextLine);
    var sceneMatch := IsSceneMarker(line, nextLine);
    if IsPrologueMarker(line, nextLine) {
      advance := HandlePrologue(play, state);
    } else if actMatch.Some? {
      advance := HandleAct(play, state, actMatch.value);
    } else if sceneMatch.Some? {
      advance := HandleScene(play, state, sceneMatch.value);
    } else if IsStageDirection(line) {
      advance := 1;
    } else if Strip(line) == [] {
      var r := HandleEmptyLine(lines, i, state.currentScene, state.currentSpeaker,
                               state.currentSpeechLines, state.speechOrder);
      state.currentScene := r.scene;
      state.currentSpeaker, state.currentSpeechLines, state.speechOrder := r.speaker, r.lines, r.order;
      advance := 1;
    } else {
      HandleContentLine(play, state, line);
      advance := 1;
    }
  }

  /**
   * One pass of the loop body at line `i`, from the state read as `c`: the
   * line is handled and `i` moves past the lines it used. The rest of the
   * run is the same from the new state `next` at the new position.
   */
  method ParseNext(lines: seq<string>, i: nat, play: PlayData, state: ParserState, ghost c: Machine.Config)
    returns (j: nat, ghost next: Machine.Config)
    requires i < |lines| && c == Snapshot(play, state)
    modifies play, state
    ensures next == Snapshot(play, state)
    ensures i < j <= |lines|
    ensures Machine.Run(lines, i, c) == Machine.Run(lines, j, next)
  {
    var advance := ParseLine(lines, i, play, state);
    j := i + advance;
    next := Snapshot(play, state);
    Invariants.RunAdvances(lines, i, j, c, next);
  }

  /** The loop of `parse_play_file`: every line from `i` on, through `ParseLine`, as the reference machine runs them. */
  method ParseLines(lines: seq<string>, i: nat, play: PlayData, state: ParserState)
    requires i <= |lines|
    modifies play, state
    ensures Snapshot(play, state) == Machine.Run(lines, i, old(Snapshot(play, state)))
  {
    ghost var c := Snapshot(play, state);
    ghost var rest := Machine.Run(lines, i, c);
    var j := i;
    while j < |lines|
      invariant i <= j <= |lines|
      invariant c == Snapshot(play, state)
      invariant rest == Machine.Run(lines, j, c)
      decreases |lines| - j
    {
      j, c := ParseNext(lines, j, play, state, c);
    }
  }

  /**
   * `parse_play_file` over the lines of the file, each as `readlines` gives
   * it. The result is the reference parse, and so is well formed.
   */
  method ParsePlayFile(lines: seq<string>, title: string) returns (play: PlayData)
    ensures fresh(play)
    ensures play.Value() == Machine.Parse(lines, title)
    ensures WellFormedPlay(play.Value())
  {
    play := new PlayData(title);
    var state := new ParserState.CreateInitial();
    ParseLines(lines, 0, play, state);
    FinalizePlayData(play, state);
    Invariants.ParseIsWellFormed(lines, title);
  }
}
