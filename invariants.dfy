/**
 * What every configuration the parser reaches satisfies, and hence what
 * every parsed play satisfies: speeches numbered 0, 1, 2, ... in each scene,
 * scenes and acts named after their numbers, no two neighbouring scenes of
 * an act with the same number, and no speaker set without a speech under way
 * being empty ("no speaker => empty buffer").
 */
module Invariants {
  import opened Wrappers
  import opened PyText
  import opened Document
  import opened Classify
  import opened Machine

  /** An open scene is well formed and `speech_order` is the number of its speeches. */
  predicate SceneReady(scene: Option<Scene>, order: nat) {
    scene.Some? ==> WellFormedScene(scene.value) && order == |scene.value.speeches|
  }

  /** Speaker and buffer: no speaker means an empty buffer; a speaker is upper case; no buffered line is empty. */
  predicate SpeakerReady(speaker: Option<string>, lines: seq<string>) {
    && (speaker.None? ==> lines == [])
    && (speaker.Some? ==> IsUpper(speaker.value))
    && forall k :: 0 <= k < |lines| ==> lines[k] != []
  }

  predicate SpeechInv(st: SpeechState) {
    SceneReady(st.scene, st.order) && SpeakerReady(st.speaker, st.lines)
  }

  /** The speech helpers never open, close or rename a scene. */
  predicate SameScene(a: Option<Scene>, b: Option<Scene>) {
    a.Some? == b.Some? && (a.Some? ==> a.value.name == b.value.name && a.value.order == b.value.order)
  }

  /** The open scene may be attached to the open act without repeating the act's last scene number. */
  predicate FitsAct(act: Option<Act>, scene: Option<Scene>) {
    && (act.Some? && scene.None? ==> act.value.scenes == [])
    && (act.Some? && scene.Some? && act.value.scenes != [] ==>
          act.value.scenes[|act.value.scenes| - 1].order != scene.value.order)
  }

  predicate Inv(c: Config) {
    && (forall k :: 0 <= k < |c.acts| ==> WellFormedAct(c.acts[k]))
    && (c.act.Some? ==> WellFormedAct(c.act.value))
    && FitsAct(c.act, c.scene)
    && SpeechInv(SpeechOf(c))
  }

  lemma InitialInv()
    ensures Inv(Initial)
  {
  }

  /** Joining non-empty lines gives a non-empty text. */
  lemma JoinLinesNonEmpty(lines: seq<string>)
    requires lines != [] && lines[|lines| - 1] != []
    ensures JoinLines(lines) != []
  {
  }

  /** Committing a speech keeps the scene well formed and `speech_order` in step with it. */
  lemma SaveKeepsSceneReady(scene: Option<Scene>, speaker: Option<string>, lines: seq<string>, order: nat)
    requires SpeechInv(SpeechState(scene, speaker, lines, order))
    ensures SceneReady(SavePendingSpeech(scene, speaker, lines, order).0, SavePendingSpeech(scene, speaker, lines, order).1)
  {
    if CanCommit(scene, speaker, lines) {
      JoinLinesNonEmpty(lines);
      var s := SavePendingSpeech(scene, speaker, lines, order).0.value;
      assert s.speeches[|s.speeches| - 1] == Speech(speaker.value, JoinLines(lines), order);
      assert WellFormedSpeech(s.speeches[|s.speeches| - 1]);
      assert forall k :: 0 <= k < |s.speeches| - 1 ==> s.speeches[k] == scene.value.speeches[k];
    }
  }

  /** The blank-line handler keeps the speech invariant and the open scene. */
  lemma EmptyLineKeepsInv(lines: seq<string>, i: nat, st: SpeechState)
    requires i < |lines| && SpeechInv(st)
    ensures SpeechInv(EmptyLineResult(lines, i, st)) && SameScene(st.scene, EmptyLineResult(lines, i, st).scene)
  {
    SaveKeepsSceneReady(st.scene, st.speaker, st.lines, st.order);
  }

  lemma SwitchSpeakerKeepsInv(name: string, st: SpeechState)
    requires SpeechInv(st) && IsUpper(name)
    ensures SpeechInv(SwitchSpeaker(name, st)) && SameScene(st.scene, SwitchSpeaker(name, st).scene)
    ensures SwitchSpeaker(name, st).speaker == Some(name)
  {
    SaveKeepsSceneReady(st.scene, st.speaker, st.lines, st.order);
  }

  /** The speaker-line handler keeps the speech invariant and the open scene. */
  lemma SpeakerLineKeepsInv(line: string, st: SpeechState)
    requires SpeechInv(st) && IsSpeakerLine(line)
    ensures SpeechInv(HandleSpeakerLine(line, st)) && SameScene(st.scene, HandleSpeakerLine(line, st).scene)
  {
    if InlineSpeech(line).Some? {
      InlineNameIsUpper(line);
    }
    SwitchSpeakerKeepsInv(SpeakerName(line), st);
  }

  /** Attaching a fitting, well-formed scene keeps the act well formed. */
  lemma AttachKeepsAct(act: Option<Act>, scene: Option<Scene>, order: nat)
    requires act.Some? ==> WellFormedAct(act.value)
    requires FitsAct(act, scene) && SceneReady(scene, order)
    ensures SaveCurrentSceneToAct(act, scene).Some? ==> WellFormedAct(SaveCurrentSceneToAct(act, scene).value)
  {
    if act.Some? && scene.Some? {
      var a := SaveCurrentSceneToAct(act, scene).value;
      assert a.scenes == act.value.scenes + [scene.value];
      assert forall k :: 0 <= k < |act.value.scenes| ==> a.scenes[k] == act.value.scenes[k];
    }
  }

  lemma CloseOpenActKeepsInv(c: Config)
    requires Inv(c) && c.act.Some?
    ensures forall k :: 0 <= k < |CloseOpenAct(c).acts| ==> WellFormedAct(CloseOpenAct(c).acts[k])
  {
    var saved := SavePendingSpeech(c.scene, c.speaker, c.buffer, c.speechOrder);
    SaveKeepsSceneReady(c.scene, c.speaker, c.buffer, c.speechOrder);
    AttachKeepsAct(c.act, saved.0, saved.1);
  }

  lemma PrologueKeepsInv(c: Config)
    requires Inv(c)
    ensures Inv(PrologueStep(c))
  {
    if c.act.Some? {
      CloseOpenActKeepsInv(c);
    }
  }

  lemma ActKeepsInv(c: Config, n: nat)
    requires Inv(c)
    ensures Inv(ActStep(c, n))
  {
    if c.act.Some? {
      CloseOpenActKeepsInv(c);
    }
    NamesDetermineOrders(n, n);
  }

  lemma SceneKeepsInv(c: Config, n: nat)
    requires Inv(c)
    ensures Inv(SceneStep(c, n))
  {
    SaveKeepsSceneReady(c.scene, c.speaker, c.buffer, c.speechOrder);
    if !ReopensOpenScene(c, n) {
      var flushed :=
        if c.buffer != [] then
          var saved := SavePendingSpeech(c.scene, c.speaker, c.buffer, c.speechOrder);
          c.(scene := saved.0, speechOrder := saved.1, buffer := [])
        else c;
      AttachKeepsAct(flushed.act, flushed.scene, flushed.speechOrder);
    }
  }

  lemma ContentKeepsInv(line: string, c: Config)
    requires Inv(c) && line != []
    ensures Inv(ContentStep(line, c))
  {
    var c1 := AutoScene(c);
    assert Inv(c1);
    if IsSpeakerLine(line) {
      SpeakerLineKeepsInv(line, SpeechOf(c1));
    }
  }

  /** One iteration of the parser loop keeps the invariant. */
  lemma StepKeepsInv(lines: seq<string>, i: nat, c: Config)
    requires i < |lines| && Inv(c)
    ensures Inv(Step(lines, i, c).0)
  {
    var line := LineAt(lines, i);
    var next := NextLineAt(lines, i);
    if IsPrologueMarker(line, next) {
      PrologueKeepsInv(c);
    } else if IsActMarker(line, next).Some? {
      ActKeepsInv(c, IsActMarker(line, next).value);
    } else if IsSceneMarker(line, next).Some? {
      SceneKeepsInv(c, IsSceneMarker(line, next).value);
    } else if IsStageDirection(line) {
    } else if Strip(line) == [] {
      EmptyLineKeepsInv(lines, i, SpeechOf(c));
    } else {
      ContentKeepsInv(line, c);
    }
  }

  /** One turn of the loop: `Run` at `i` is `Run` after the step at `i`. */
  lemma RunUnfolds(lines: seq<string>, i: nat, c: Config)
    requires i < |lines|
    ensures Run(lines, i, c) == Run(lines, i + Step(lines, i, c).1, Step(lines, i, c).0)
  {
  }

  /** One pass of the loop body, taken as the reference step, leaves the rest of the run unchanged. */
  lemma RunAdvances(lines: seq<string>, i: nat, j: nat, before: Config, after: Config)
    requires i < |lines| && (after, j - i) == Step(lines, i, before)
    ensures Run(lines, i, before) == Run(lines, j, after)
  {
    RunUnfolds(lines, i, before);
  }

  /** The whole loop keeps the invariant. */
  lemma {:induction false} RunKeepsInv(lines: seq<string>, i: nat, c: Config)
    requires Inv(c)
    ensures Inv(Run(lines, i, c))
    decreases |lines| - i
  {
    if i < |lines| {
      RunUnfolds(lines, i, c);
      StepKeepsInv(lines, i, c);
      RunKeepsInv(lines, i + Step(lines, i, c).1, Step(lines, i, c).0);
    }
  }

  /** Finalising a reachable configuration leaves only well-formed acts. */
  lemma FinalizeKeepsActs(c: Config)
    requires Inv(c)
    ensures forall k :: 0 <= k < |FinalizePlayData(c).acts| ==> WellFormedAct(FinalizePlayData(c).acts[k])
  {
    SaveKeepsSceneReady(c.scene, c.speaker, c.buffer, c.speechOrder);
    var saved := SavePendingSpeech(c.scene, c.speaker, c.buffer, c.speechOrder);
    var scene := if c.buffer != [] && Truthy(c.speaker) && c.scene.Some? then saved.0 else c.scene;
    var order := if c.buffer != [] && Truthy(c.speaker) && c.scene.Some? then saved.1 else c.speechOrder;
    AttachKeepsAct(c.act, scene, order);
  }

  /**
   * Every play the parser produces is well formed: in each scene the
   * speeches are numbered 0, 1, 2, ...; each speech has an upper-case
   * speaker and some text; each scene is named `Scene n` after its number
   * and each act `Act n` (or is the prologue, number 0); and no two
   * neighbouring scenes of an act share a number.
   */
  lemma {:induction false} ParseIsWellFormed(lines: seq<string>, title: string)
    ensures WellFormedPlay(Parse(lines, title))
  {
    InitialInv();
    RunKeepsInv(lines, 0, Initial);
    FinalizeKeepsActs(Run(lines, 0, Initial));
  }
}
