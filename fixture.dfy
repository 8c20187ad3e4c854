/**
 * `generate_fixture`: the parsed play flattened into Django fixture records
 * `{model, pk, fields}`, with surrogate keys drawn from one counter and
 * speakers shared by name. `Fixture` is the reference definition, a fold
 * over the play in emission order; `GenerateFixture` is the importer's
 * nested loops, proved to produce it. The JSON file write is left out.
 */
module Fixture {
  import opened Document

  /** The `fields` of a record, one shape per model; foreign keys are pks. */
  datatype Fields =
    | PlayFields(title: string)
    | ActFields(play: nat, name: string, order: nat)
    | SceneFields(act: nat, name: string, order: nat)
    | SpeakerFields(name: string)
    | SpeechFields(speaker: nat, scene: nat, text: string, order: nat)

  datatype Record = Record(model: string, pk: nat, fields: Fields)

  /** The model label each kind of record is emitted under. */
  function ModelName(f: Fields): string {
    match f
    case PlayFields(_) => "core.play"
    case ActFields(_, _, _) => "core.act"
    case SceneFields(_, _, _) => "core.scene"
    case SpeakerFields(_) => "core.speaker"
    case SpeechFields(_, _, _, _) => "core.speech"
  }

  /** What the loops carry: the records so far, the speaker pks by name, and `pk_counter`. */
  datatype Emitter = Emitter(records: seq<Record>, speakerPks: map<string, nat>, next: nat)

  /** Emit one record under the next pk. */
  function Emit(e: Emitter, f: Fields): Emitter {
    e.(records := e.records + [Record(ModelName(f), e.next, f)], next := e.next + 1)
  }

  /** One speech: its speaker's record first if the name is new, then the speech record. */
  function EmitSpeech(e: Emitter, scenePk: nat, s: Speech): Emitter {
    if s.speaker in e.speakerPks then
      Emit(e, SpeechFields(e.speakerPks[s.speaker], scenePk, s.text, s.order))
    else
      var speakerPk := e.next;
      var e1 := Emit(e, SpeakerFields(s.speaker)).(speakerPks := e.speakerPks[s.speaker := speakerPk]);
      Emit(e1, SpeechFields(speakerPk, scenePk, s.text, s.order))
  }

  function EmitSpeeches(e: Emitter, scenePk: nat, ss: seq<Speech>): Emitter
    decreases |ss|
  {
    if ss == [] then e else EmitSpeech(EmitSpeeches(e, scenePk, ss[..|ss| - 1]), scenePk, ss[|ss| - 1])
  }

  /** One scene: its record, then its speeches pointing at it. */
  function EmitScene(e: Emitter, actPk: nat, sc: Scene): Emitter {
    EmitSpeeches(Emit(e, SceneFields(actPk, sc.name, sc.order)), e.next, sc.speeches)
  }

  function EmitScenes(e: Emitter, actPk: nat, scs: seq<Scene>): Emitter
    decreases |scs|
  {
    if scs == [] then e else EmitScene(EmitScenes(e, actPk, scs[..|scs| - 1]), actPk, scs[|scs| - 1])
  }

  /** One act: its record, then its scenes pointing at it. */
  function EmitAct(e: Emitter, playPk: nat, a: Act): Emitter {
    EmitScenes(Emit(e, ActFields(playPk, a.name, a.order)), e.next, a.scenes)
  }

  function EmitActs(e: Emitter, playPk: nat, acts: seq<Act>): Emitter
    decreases |acts|
  {
    if acts == [] then e else EmitAct(EmitActs(e, playPk, acts[..|acts| - 1]), playPk, acts[|acts| - 1])
  }

  /** The state once the play record is out: pk 1 used, no speakers yet. */
  function Start(p: Play): Emitter {
    Emit(Emitter([], map[], 1), PlayFields(p.title))
  }

  /** The records `generate_fixture` writes for the play, in order. */
  function FixtureData(p: Play): seq<Record> {
    EmitActs(Start(p), 1, p.acts).records
  }

  lemma EmitSpeechesStep(e: Emitter, scenePk: nat, ss: seq<Speech>, k: nat)
    requires k < |ss|
    ensures EmitSpeeches(e, scenePk, ss[..k + 1]) == EmitSpeech(EmitSpeeches(e, scenePk, ss[..k]), scenePk, ss[k])
  {
    assert ss[..k + 1][..k] == ss[..k];
  }

  lemma EmitScenesStep(e: Emitter, actPk: nat, scs: seq<Scene>, k: nat)
    requires k < |scs|
    ensures EmitScenes(e, actPk, scs[..k + 1]) == EmitScene(EmitScenes(e, actPk, scs[..k]), actPk, scs[k])
  {
    assert scs[..k + 1][..k] == scs[..k];
  }

  lemma EmitActsStep(e: Emitter, playPk: nat, acts: seq<Act>, k: nat)
    requires k < |acts|
    ensures EmitActs(e, playPk, acts[..k + 1]) == EmitAct(EmitActs(e, playPk, acts[..k]), playPk, acts[k])
  {
    assert acts[..k + 1][..k] == acts[..k];
  }

  /**
   * The body of the innermost loop of `generate_fixture`: the speaker's
   * record under a fresh pk if the name is new, then the speech record
   * pointing at the speaker and at the scene.
   */
  method AddSpeech(fixtureData: seq<Record>, speakerPks: map<string, nat>, pkCounter: nat, scenePk: nat, speechData: Speech)
    returns (fixtureData': seq<Record>, speakerPks': map<string, nat>, pkCounter': nat)
    ensures Emitter(fixtureData', speakerPks', pkCounter') == EmitSpeech(Emitter(fixtureData, speakerPks, pkCounter), scenePk, speechData)
  {
    fixtureData', speakerPks', pkCounter' := fixtureData, speakerPks, pkCounter;
    var speakerName := speechData.speaker;
    var speakerPk: nat;
    if speakerName !in speakerPks' {
      speakerPk := pkCounter';
      speakerPks' := speakerPks'[speakerName := speakerPk];
      fixtureData' := fixtureData' + [Record("core.speaker", speakerPk, SpeakerFields(speakerName))];
      pkCounter' := pkCounter' + 1;
    } else {
      speakerPk := speakerPks'[speakerName];
    }
    fixtureData' := fixtureData' + [Record("core.speech", pkCounter', SpeechFields(speakerPk, scenePk, speechData.text, speechData.order))];
    pkCounter' := pkCounter' + 1;
  }

  /**
   * `generate_fixture` without the file write: the play record, then for
   * each act its record, for each scene its record, and for each speech
   * its speaker's record (the first time the name is seen) and its own.
   */
  method GenerateFixture(play: Play) returns (fixture: seq<Record>)
    ensures fixture == FixtureData(play)
  {
    var fixtureData: seq<Record> := [];
    var pkCounter: nat := 1;
    var playPk := pkCounter;
    fixtureData := fixtureData + [Record("core.play", playPk, PlayFields(play.title))];
    pkCounter := pkCounter + 1;
    var speakerPks: map<string, nat> := map[];
    for a := 0 to |play.acts|
      invariant Emitter(fixtureData, speakerPks, pkCounter) == EmitActs(Start(play), playPk, play.acts[..a])
    {
      ghost var beforeAct := Emitter(fixtureData, speakerPks, pkCounter);
      var actData := play.acts[a];
      var actPk := pkCounter;
      fixtureData := fixtureData + [Record("core.act", actPk, ActFields(playPk, actData.name, actData.order))];
      pkCounter := pkCounter + 1;
      ghost var actOpened := Emitter(fixtureData, speakerPks, pkCounter);
      for s := 0 to |actData.scenes|
        invariant Emitter(fixtureData, speakerPks, pkCounter) == EmitScenes(actOpened, actPk, actData.scenes[..s])
      {
        ghost var beforeScene := Emitter(fixtureData, speakerPks, pkCounter);
        var sceneData := actData.scenes[s];
        var scenePk := pkCounter;
        fixtureData := fixtureData + [Record("core.scene", scenePk, SceneFields(actPk, sceneData.name, sceneData.order))];
        pkCounter := pkCounter + 1;
        ghost var sceneOpened := Emitter(fixtureData, speakerPks, pkCounter);
        for k := 0 to |sceneData.speeches|
          invariant Emitter(fixtureData, speakerPks, pkCounter) == EmitSpeeches(sceneOpened, scenePk, sceneData.speeches[..k])
        {
          fixtureData, speakerPks, pkCounter := AddSpeech(fixtureData, speakerPks, pkCounter, scenePk, sceneData.speeches[k]);
          EmitSpeechesStep(sceneOpened, scenePk, sceneData.speeches, k);
        }
        assert sceneData.speeches[..|sceneData.speeches|] == sceneData.speeches;
        assert Emitter(fixtureData, speakerPks, pkCounter) == EmitScene(beforeScene, actPk, sceneData);
        EmitScenesStep(actOpened, actPk, actData.scenes, s);
      }
      assert actData.scenes[..|actData.scenes|] == actData.scenes;
      assert Emitter(fixtureData, speakerPks, pkCounter) == EmitAct(beforeAct, playPk, actData);
      EmitActsStep(Start(play), playPk, play.acts, a);
    }
    assert play.acts[..|play.acts|] == play.acts;
    fixture := fixtureData;
  }
}
