/**
 * What the fixture records promise: pks are 1, 2, ..., n in emission
 * order with the play at pk 1; every foreign key names an earlier record
 * of the right model; each speaker name has exactly one speaker record,
 * and it is the one every speech by that name points at; and there are
 * 1 + acts + scenes + speeches + distinct speakers records in all.
 */
module FixtureFacts {
  import opened Document
  import opened Fixture

  /** Record `k` has pk `k + 1`, the right model label, and its foreign keys name earlier records of the right model. */
  predicate RecordOk(records: seq<Record>, k: nat)
    requires k < |records|
  {
    var r := records[k];
    && r.pk == k + 1 && r.model == ModelName(r.fields)
    && (r.fields.ActFields? ==> 1 <= r.fields.play <= k && records[r.fields.play - 1].fields.PlayFields?)
    && (r.fields.SceneFields? ==> 1 <= r.fields.act <= k && records[r.fields.act - 1].fields.ActFields?)
    && (r.fields.SpeechFields? ==>
          && 1 <= r.fields.speaker <= k && records[r.fields.speaker - 1].fields.SpeakerFields?
          && 1 <= r.fields.scene <= k && records[r.fields.scene - 1].fields.SceneFields?)
  }

  predicate AllOk(records: seq<Record>) {
    forall k :: 0 <= k < |records| ==> RecordOk(records, k)
  }

  /** `speaker_pks` maps `name`, if at all, to the pk of a speaker record with that name. */
  predicate SoundEntry(e: Emitter, name: string) {
    name in e.speakerPks ==>
      1 <= e.speakerPks[name] <= |e.records| && e.records[e.speakerPks[name] - 1].fields == SpeakerFields(name)
  }

  ghost predicate PksSound(e: Emitter) {
    forall name :: SoundEntry(e, name)
  }

  /** Record `k`, if it is a speaker record, is the one `speaker_pks` holds for its name. */
  predicate CompleteEntry(e: Emitter, k: int) {
    0 <= k < |e.records| && e.records[k].fields.SpeakerFields? ==>
      e.records[k].fields.name in e.speakerPks && e.speakerPks[e.records[k].fields.name] == k + 1
  }

  ghost predicate PksComplete(e: Emitter) {
    forall k :: CompleteEntry(e, k)
  }

  ghost predicate Good(e: Emitter) {
    e.next == |e.records| + 1 && AllOk(e.records) && PksSound(e) && PksComplete(e)
  }

  predicate HasAt(e: Emitter, pk: nat, isScene: bool) {
    1 <= pk <= |e.records| &&
    (if isScene then e.records[pk - 1].fields.SceneFields? else e.records[pk - 1].fields.ActFields?)
  }

  predicate Extends(e: Emitter, r: Emitter) {
    |e.records| <= |r.records| && r.records[..|e.records|] == e.records
  }

  /** Records emitted, less speaker records: one per play, act, scene and speech. */
  function Tally(e: Emitter): int {
    |e.records| - |e.speakerPks.Keys|
  }

  function SpeakerNames(ss: seq<Speech>): set<string>
    decreases |ss|
  {
    if ss == [] then {} else SpeakerNames(ss[..|ss| - 1]) + {ss[|ss| - 1].speaker}
  }

  function SceneSpeakers(scs: seq<Scene>): set<string>
    decreases |scs|
  {
    if scs == [] then {} else SceneSpeakers(scs[..|scs| - 1]) + SpeakerNames(scs[|scs| - 1].speeches)
  }

  /** The distinct speaker names of a play's acts. */
  function ActSpeakers(acts: seq<Act>): set<string>
    decreases |acts|
  {
    if acts == [] then {} else ActSpeakers(acts[..|acts| - 1]) + SceneSpeakers(acts[|acts| - 1].scenes)
  }

  function SpeechCount(scs: seq<Scene>): nat
    decreases |scs|
  {
    if scs == [] then 0 else SpeechCount(scs[..|scs| - 1]) + |scs[|scs| - 1].speeches|
  }

  function SceneTotal(acts: seq<Act>): nat
    decreases |acts|
  {
    if acts == [] then 0 else SceneTotal(acts[..|acts| - 1]) + |acts[|acts| - 1].scenes|
  }

  function SpeechTotal(acts: seq<Act>): nat
    decreases |acts|
  {
    if acts == [] then 0 else SpeechTotal(acts[..|acts| - 1]) + SpeechCount(acts[|acts| - 1].scenes)
  }

  lemma ExtendsTrans(a: Emitter, b: Emitter, c: Emitter)
    requires Extends(a, b) && Extends(b, c)
    ensures Extends(a, c)
  {
    assert c.records[..|a.records|] == c.records[..|b.records|][..|a.records|];
  }

  lemma ExtendsAt(a: Emitter, b: Emitter, i: int)
    requires Extends(a, b) && 0 <= i < |a.records|
    ensures b.records[i] == a.records[i]
  {
    assert b.records[..|a.records|][i] == b.records[i];
  }

  /** An entry that is fine stays fine once more records follow it. */
  lemma OkInLonger(records: seq<Record>, all: seq<Record>, k: nat)
    requires k < |records| <= |all| && RecordOk(records, k)
    requires forall j :: 0 <= j < |records| ==> all[j] == records[j]
    ensures RecordOk(all, k)
  {
    var r := records[k];
    assert all[k] == r;
    if r.fields.ActFields? {
      assert all[r.fields.play - 1] == records[r.fields.play - 1];
    } else if r.fields.SceneFields? {
      assert all[r.fields.act - 1] == records[r.fields.act - 1];
    } else if r.fields.SpeechFields? {
      assert all[r.fields.speaker - 1] == records[r.fields.speaker - 1];
      assert all[r.fields.scene - 1] == records[r.fields.scene - 1];
    }
  }

  /** Appending a record whose own entry is fine keeps every earlier entry fine. */
  lemma AppendOk(records: seq<Record>, rec: Record)
    requires AllOk(records) && RecordOk(records + [rec], |records|)
    ensures AllOk(records + [rec])
  {
    var all := records + [rec];
    forall k | 0 <= k < |records|
      ensures RecordOk(all, k)
    {
      OkInLonger(records, all, k);
    }
  }

  /** Appending any record keeps `speaker_pks` sound. */
  lemma EmitKeepsSound(e: Emitter, f: Fields)
    requires PksSound(e)
    ensures PksSound(Emit(e, f))
  {
    var r := Emit(e, f);
    forall name
      ensures SoundEntry(r, name)
    {
      if name in r.speakerPks {
        assert SoundEntry(e, name);
        assert r.records[e.speakerPks[name] - 1] == e.records[e.speakerPks[name] - 1];
      }
    }
  }

  /** Appending a record that is not a speaker record keeps `speaker_pks` complete. */
  lemma EmitKeepsComplete(e: Emitter, f: Fields)
    requires PksComplete(e) && !f.SpeakerFields?
    ensures PksComplete(Emit(e, f))
  {
    var r := Emit(e, f);
    forall k
      ensures CompleteEntry(r, k)
    {
      if 0 <= k < |e.records| {
        assert CompleteEntry(e, k);
        assert r.records[k] == e.records[k];
      }
    }
  }

  /** Emitting a record that is not a speaker record keeps the emitter good. */
  lemma EmitKeepsGood(e: Emitter, f: Fields)
    requires Good(e) && !f.SpeakerFields? && RecordOk(e.records + [Record(ModelName(f), e.next, f)], |e.records|)
    ensures Good(Emit(e, f)) && Extends(e, Emit(e, f)) && Tally(Emit(e, f)) == Tally(e) + 1
    ensures Emit(e, f).speakerPks == e.speakerPks
  {
    AppendOk(e.records, Record(ModelName(f), e.next, f));
    EmitKeepsSound(e, f);
    EmitKeepsComplete(e, f);
    assert Emit(e, f).records[..|e.records|] == e.records;
  }

  /** The emitter once the first speech by `name` has put out its speaker record. */
  function AddSpeaker(e: Emitter, name: string): Emitter {
    Emit(e, SpeakerFields(name)).(speakerPks := e.speakerPks[name := e.next])
  }

  lemma AddSpeakerSound(e: Emitter, name: string)
    requires PksSound(e) && e.next == |e.records| + 1
    ensures PksSound(AddSpeaker(e, name))
  {
    var r := AddSpeaker(e, name);
    forall n
      ensures SoundEntry(r, n)
    {
      if n != name && n in e.speakerPks {
        assert SoundEntry(e, n);
        assert r.records[e.speakerPks[n] - 1] == e.records[e.speakerPks[n] - 1];
      }
    }
  }

  lemma AddSpeakerComplete(e: Emitter, name: string)
    requires PksComplete(e) && name !in e.speakerPks && e.next == |e.records| + 1
    ensures PksComplete(AddSpeaker(e, name))
  {
    var r := AddSpeaker(e, name);
    forall k
      ensures CompleteEntry(r, k)
    {
      if 0 <= k < |e.records| {
        assert CompleteEntry(e, k);
        assert r.records[k] == e.records[k];
      }
    }
  }

  /** The first speech by `name`: its speaker record is emitted and remembered in `speaker_pks`. */
  lemma NewSpeakerFacts(e: Emitter, name: string)
    requires Good(e) && name !in e.speakerPks
    ensures Good(AddSpeaker(e, name)) && Extends(e, AddSpeaker(e, name))
    ensures Tally(AddSpeaker(e, name)) == Tally(e)
    ensures AddSpeaker(e, name).speakerPks.Keys == e.speakerPks.Keys + {name}
  {
    var r := AddSpeaker(e, name);
    AppendOk(e.records, Record(ModelName(SpeakerFields(name)), e.next, SpeakerFields(name)));
    AddSpeakerSound(e, name);
    AddSpeakerComplete(e, name);
    assert r.records[..|e.records|] == e.records;
    assert r.speakerPks.Keys == e.speakerPks.Keys + {name};
  }

  /** The speech record of a speaker already known: it points at the scene and at that speaker's record. */
  lemma SpeechRecordFacts(e: Emitter, scenePk: nat, s: Speech)
    requires Good(e) && HasAt(e, scenePk, true) && s.speaker in e.speakerPks
    ensures var r := Emit(e, SpeechFields(e.speakerPks[s.speaker], scenePk, s.text, s.order));
      && Good(r) && Extends(e, r) && Tally(r) == Tally(e) + 1 && r.speakerPks == e.speakerPks
  {
    assert SoundEntry(e, s.speaker);
    var f := SpeechFields(e.speakerPks[s.speaker], scenePk, s.text, s.order);
    var all := e.records + [Record(ModelName(f), e.next, f)];
    assert all[scenePk - 1] == e.records[scenePk - 1];
    assert all[e.speakerPks[s.speaker] - 1] == e.records[e.speakerPks[s.speaker] - 1];
    assert RecordOk(all, |e.records|);
    EmitKeepsGood(e, f);
  }

  /** A speech's records keep the emitter good and only add records. */
  lemma EmitSpeechFacts(e: Emitter, scenePk: nat, s: Speech)
    requires Good(e) && HasAt(e, scenePk, true)
    ensures var r := EmitSpeech(e, scenePk, s); Good(r) && Extends(e, r)
  {
    if s.speaker in e.speakerPks {
      SpeechRecordFacts(e, scenePk, s);
    } else {
      var e1 := AddSpeaker(e, s.speaker);
      NewSpeakerFacts(e, s.speaker);
      assert e1.records[scenePk - 1] == e.records[scenePk - 1];
      SpeechRecordFacts(e1, scenePk, s);
      var r := EmitSpeech(e, scenePk, s);
      assert r.records[..|e1.records|] == e1.records;
      assert r.records[..|e.records|] == e.records;
    }
  }

  /**
   * A speech record carries the speech's text and order, points at its scene,
   * and points at the speaker record bearing the speech's speaker name, whether
   * that record was emitted just now or for an earlier speech.
   */
  lemma SpeechPointsAtItsSpeaker(e: Emitter, scenePk: nat, s: Speech)
    requires Good(e)
    ensures var r := EmitSpeech(e, scenePk, s);
      var last := r.records[|r.records| - 1].fields;
      && last.SpeechFields? && last.scene == scenePk && last.text == s.text && last.order == s.order
      && 1 <= last.speaker < |r.records| && r.records[last.speaker - 1].fields == SpeakerFields(s.speaker)
  {
    if s.speaker in e.speakerPks {
      assert SoundEntry(e, s.speaker);
    }
  }

  /** A scene's speeches keep the emitter good and only add records. */
  lemma {:induction false} EmitSpeechesGood(e: Emitter, scenePk: nat, ss: seq<Speech>)
    requires Good(e) && HasAt(e, scenePk, true)
    ensures Good(EmitSpeeches(e, scenePk, ss)) && Extends(e, EmitSpeeches(e, scenePk, ss))
    decreases |ss|
  {
    if ss != [] {
      var init, last := ss[..|ss| - 1], ss[|ss| - 1];
      var m := EmitSpeeches(e, scenePk, init);
      EmitSpeechesGood(e, scenePk, init);
      ExtendsAt(e, m, scenePk - 1);
      EmitSpeechFacts(m, scenePk, last);
      ExtendsTrans(e, m, EmitSpeech(m, scenePk, last));
    }
  }

  /** One speech adds one to the tally and makes its speaker's name known, whatever the emitter. */
  lemma EmitSpeechCount(e: Emitter, scenePk: nat, s: Speech)
    ensures var r := EmitSpeech(e, scenePk, s);
      Tally(r) == Tally(e) + 1 && r.speakerPks.Keys == e.speakerPks.Keys + {s.speaker}
  {
    if s.speaker in e.speakerPks {
      assert e.speakerPks.Keys + {s.speaker} == e.speakerPks.Keys;
    } else {
      assert e.speakerPks[s.speaker := e.next].Keys == e.speakerPks.Keys + {s.speaker};
    }
  }

  /** A scene's speeches add one to the tally each and make their speakers' names known. */
  lemma {:induction false} EmitSpeechesCount(e: Emitter, scenePk: nat, ss: seq<Speech>)
    ensures var r := EmitSpeeches(e, scenePk, ss);
      Tally(r) == Tally(e) + |ss| && r.speakerPks.Keys == e.speakerPks.Keys + SpeakerNames(ss)
    decreases |ss|
  {
    if ss != [] {
      var init, last := ss[..|ss| - 1], ss[|ss| - 1];
      EmitSpeechesCount(e, scenePk, init);
      EmitSpeechCount(EmitSpeeches(e, scenePk, init), scenePk, last);
    }
  }

  lemma EmitSpeechesFacts(e: Emitter, scenePk: nat, ss: seq<Speech>)
    requires Good(e) && HasAt(e, scenePk, true)
    ensures var r := EmitSpeeches(e, scenePk, ss);
      Good(r) && Extends(e, r) && Tally(r) == Tally(e) + |ss| && r.speakerPks.Keys == e.speakerPks.Keys + SpeakerNames(ss)
  {
    EmitSpeechesGood(e, scenePk, ss);
    EmitSpeechesCount(e, scenePk, ss);
  }

  lemma EmitSceneFacts(e: Emitter, actPk: nat, sc: Scene)
    requires Good(e) && HasAt(e, actPk, false)
    ensures var r := EmitScene(e, actPk, sc);
      && Good(r) && Extends(e, r) && Tally(r) == Tally(e) + 1 + |sc.speeches|
      && r.speakerPks.Keys == e.speakerPks.Keys + SpeakerNames(sc.speeches)
  {
    var f := SceneFields(actPk, sc.name, sc.order);
    assert (e.records + [Record(ModelName(f), e.next, f)])[actPk - 1] == e.records[actPk - 1];
    EmitKeepsGood(e, f);
    EmitSpeechesFacts(Emit(e, f), e.next, sc.speeches);
    ExtendsTrans(e, Emit(e, f), EmitScene(e, actPk, sc));
  }

  lemma {:induction false} EmitScenesFacts(e: Emitter, actPk: nat, scs: seq<Scene>)
    requires Good(e) && HasAt(e, actPk, false)
    ensures var r := EmitScenes(e, actPk, scs);
      && Good(r) && Extends(e, r) && Tally(r) == Tally(e) + |scs| + SpeechCount(scs)
      && r.speakerPks.Keys == e.speakerPks.Keys + SceneSpeakers(scs)
    decreases |scs|
  {
    if scs != [] {
      var m := EmitScenes(e, actPk, scs[..|scs| - 1]);
      EmitScenesFacts(e, actPk, scs[..|scs| - 1]);
      ExtendsAt(e, m, actPk - 1);
      EmitSceneFacts(m, actPk, scs[|scs| - 1]);
      ExtendsTrans(e, m, EmitScenes(e, actPk, scs));
    }
  }

  lemma EmitActFacts(e: Emitter, a: Act)
    requires Good(e) && 1 <= |e.records| && e.records[0].fields.PlayFields?
    ensures var r := EmitAct(e, 1, a);
      && Good(r) && Extends(e, r) && Tally(r) == Tally(e) + 1 + |a.scenes| + SpeechCount(a.scenes)
      && r.speakerPks.Keys == e.speakerPks.Keys + SceneSpeakers(a.scenes)
  {
    var f := ActFields(1, a.name, a.order);
    assert (e.records + [Record(ModelName(f), e.next, f)])[0] == e.records[0];
    EmitKeepsGood(e, f);
    EmitScenesFacts(Emit(e, f), e.next, a.scenes);
    ExtendsTrans(e, Emit(e, f), EmitAct(e, 1, a));
  }

  lemma {:induction false} EmitActsFacts(e: Emitter, acts: seq<Act>)
    requires Good(e) && 1 <= |e.records| && e.records[0].fields.PlayFields?
    ensures var r := EmitActs(e, 1, acts);
      && Good(r) && Extends(e, r) && Tally(r) == Tally(e) + |acts| + SceneTotal(acts) + SpeechTotal(acts)
      && r.speakerPks.Keys == e.speakerPks.Keys + ActSpeakers(acts)
    decreases |acts|
  {
    if acts != [] {
      var m := EmitActs(e, 1, acts[..|acts| - 1]);
      EmitActsFacts(e, acts[..|acts| - 1]);
      ExtendsAt(e, m, 0);
      EmitActFacts(m, acts[|acts| - 1]);
      ExtendsTrans(e, m, EmitActs(e, 1, acts));
    }
  }

  /** From index `from` on, only speaker records and speech records of scene `scenePk`. */
  predicate OnlySpeechesOf(records: seq<Record>, from: nat, scenePk: nat) {
    forall k :: from <= k < |records| ==>
      records[k].fields.SpeakerFields? || (records[k].fields.SpeechFields? && records[k].fields.scene == scenePk)
  }

  /** From index `from` on, only speaker records, speech records and scene records of act `actPk`. */
  predicate OnlyScenesOf(records: seq<Record>, from: nat, actPk: nat) {
    forall k :: from <= k < |records| ==>
      || records[k].fields.SpeakerFields? || records[k].fields.SpeechFields?
      || (records[k].fields.SceneFields? && records[k].fields.act == actPk)
  }

  lemma EmitSpeechShape(e: Emitter, scenePk: nat, s: Speech)
    ensures var r := EmitSpeech(e, scenePk, s);
      Extends(e, r) && OnlySpeechesOf(r.records, |e.records|, scenePk)
  {
    var r := EmitSpeech(e, scenePk, s);
    assert r.records[..|e.records|] == e.records;
  }

  /** A scene's speeches only append speaker records and speech records pointing at the scene. */
  lemma {:induction false} EmitSpeechesShape(e: Emitter, scenePk: nat, ss: seq<Speech>)
    ensures var r := EmitSpeeches(e, scenePk, ss);
      Extends(e, r) && OnlySpeechesOf(r.records, |e.records|, scenePk)
    decreases |ss|
  {
    if ss != [] {
      var m := EmitSpeeches(e, scenePk, ss[..|ss| - 1]);
      var r := EmitSpeeches(e, scenePk, ss);
      EmitSpeechesShape(e, scenePk, ss[..|ss| - 1]);
      EmitSpeechShape(m, scenePk, ss[|ss| - 1]);
      ExtendsTrans(e, m, r);
      forall k | |e.records| <= k < |m.records|
        ensures r.records[k] == m.records[k]
      {
        ExtendsAt(m, r, k);
      }
    }
  }

  /**
   * One scene: its own record comes first, `core.scene` under the next pk
   * with the act's pk, name and order; every record after it is a speaker
   * record or a speech record pointing at that scene.
   */
  lemma EmitSceneShape(e: Emitter, actPk: nat, sc: Scene)
    ensures var r := EmitScene(e, actPk, sc);
      && Extends(e, r) && |e.records| < |r.records|
      && r.records[|e.records|] == Record("core.scene", e.next, SceneFields(actPk, sc.name, sc.order))
      && OnlySpeechesOf(r.records, |e.records| + 1, e.next)
  {
    var e1 := Emit(e, SceneFields(actPk, sc.name, sc.order));
    assert e1.records[..|e.records|] == e.records;
    EmitSpeechesShape(e1, e.next, sc.speeches);
    ExtendsAt(e1, EmitScene(e, actPk, sc), |e.records|);
    ExtendsTrans(e, e1, EmitScene(e, actPk, sc));
  }

  /** An act's scenes only append scene records pointing at the act, with their speakers and speeches. */
  lemma {:induction false} EmitScenesShape(e: Emitter, actPk: nat, scs: seq<Scene>)
    ensures var r := EmitScenes(e, actPk, scs);
      Extends(e, r) && OnlyScenesOf(r.records, |e.records|, actPk)
    decreases |scs|
  {
    if scs != [] {
      var m := EmitScenes(e, actPk, scs[..|scs| - 1]);
      var r := EmitScenes(e, actPk, scs);
      EmitScenesShape(e, actPk, scs[..|scs| - 1]);
      EmitSceneShape(m, actPk, scs[|scs| - 1]);
      ExtendsTrans(e, m, r);
      forall k | |e.records| <= k < |m.records|
        ensures r.records[k] == m.records[k]
      {
        ExtendsAt(m, r, k);
      }
    }
  }

  /**
   * One act: its own record comes first, `core.act` under the next pk with
   * the play's pk, name and order; every scene record after it points at
   * that act, and nothing after it is an act or play record.
   */
  lemma EmitActShape(e: Emitter, playPk: nat, a: Act)
    ensures var r := EmitAct(e, playPk, a);
      && Extends(e, r) && |e.records| < |r.records|
      && r.records[|e.records|] == Record("core.act", e.next, ActFields(playPk, a.name, a.order))
      && OnlyScenesOf(r.records, |e.records| + 1, e.next)
  {
    var e1 := Emit(e, ActFields(playPk, a.name, a.order));
    assert e1.records[..|e.records|] == e.records;
    EmitScenesShape(e1, e.next, a.scenes);
    ExtendsAt(e1, EmitAct(e, playPk, a), |e.records|);
    ExtendsTrans(e, e1, EmitAct(e, playPk, a));
  }

  lemma FinalFacts(p: Play)
    ensures var r := EmitActs(Start(p), 1, p.acts);
      && Good(r) && r.records[0] == Record("core.play", 1, PlayFields(p.title))
      && Tally(r) == 1 + |p.acts| + SceneTotal(p.acts) + SpeechTotal(p.acts)
      && r.speakerPks.Keys == ActSpeakers(p.acts)
  {
    var s := Start(p);
    assert s.speakerPks.Keys == {};
    assert Good(s);
    EmitActsFacts(s, p.acts);
  }

  /** pks run 1, 2, ..., n in emission order, the play record first; each record carries its model's label. */
  lemma FixtureNumbered(p: Play)
    ensures |FixtureData(p)| >= 1 && FixtureData(p)[0] == Record("core.play", 1, PlayFields(p.title))
    ensures forall k :: 0 <= k < |FixtureData(p)| ==> FixtureData(p)[k].pk == k + 1 && FixtureData(p)[k].model == ModelName(FixtureData(p)[k].fields)
  {
    FinalFacts(p);
    forall k | 0 <= k < |FixtureData(p)|
      ensures FixtureData(p)[k].pk == k + 1 && FixtureData(p)[k].model == ModelName(FixtureData(p)[k].fields)
    {
      assert RecordOk(FixtureData(p), k);
    }
  }

  /** Every act points at the play, every scene at an act and every speech at a speaker and a scene, all emitted earlier. */
  lemma FixtureRefersBack(p: Play)
    ensures AllOk(FixtureData(p))
  {
    FinalFacts(p);
  }

  /**
   * One speaker record per name: no two speaker records share a name, and
   * the names with a speaker record are exactly the speakers of the play.
   */
  lemma FixtureSpeakersOnce(p: Play)
    ensures var f := FixtureData(p);
      forall k1, k2 :: (0 <= k1 < |f| && 0 <= k2 < |f| && f[k1].fields.SpeakerFields? && f[k2].fields.SpeakerFields? &&
                        f[k1].fields.name == f[k2].fields.name) ==> k1 == k2
    ensures var f := FixtureData(p);
      forall name :: name in ActSpeakers(p.acts) <==> exists k :: 0 <= k < |f| && f[k].fields == SpeakerFields(name)
  {
    FinalFacts(p);
    var r := EmitActs(Start(p), 1, p.acts);
    forall k1, k2 | 0 <= k1 < |r.records| && 0 <= k2 < |r.records| && r.records[k1].fields.SpeakerFields? &&
                    r.records[k2].fields.SpeakerFields? && r.records[k1].fields.name == r.records[k2].fields.name
      ensures k1 == k2
    {
      assert CompleteEntry(r, k1) && CompleteEntry(r, k2);
    }
    forall name
      ensures name in ActSpeakers(p.acts) <==> exists k :: 0 <= k < |r.records| && r.records[k].fields == SpeakerFields(name)
    {
      if name in ActSpeakers(p.acts) {
        assert name in r.speakerPks && SoundEntry(r, name);
        var k := r.speakerPks[name] - 1;
        assert r.records[k].fields == SpeakerFields(name);
      }
      if k :| 0 <= k < |r.records| && r.records[k].fields == SpeakerFields(name) {
        assert CompleteEntry(r, k);
      }
    }
  }

  /** The fixture has one record per play, act, scene and speech, plus one per distinct speaker name. */
  lemma FixtureCount(p: Play)
    ensures |FixtureData(p)| == 1 + |p.acts| + SceneTotal(p.acts) + SpeechTotal(p.acts) + |ActSpeakers(p.acts)|
  {
    FinalFacts(p);
  }
}
