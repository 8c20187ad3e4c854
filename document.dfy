/**
 * The parsed play: Play -> Act -> Scene -> Speech, as built by the
 * importer's dataclasses, and what it means for each level to be well formed.
 */
module Document {
  import opened PyText

  /** One speech: who speaks, the joined lines, and its position in the scene. */
  datatype Speech = Speech(speaker: string, text: string, order: nat)

  datatype Scene = Scene(name: string, order: nat, speeches: seq<Speech>)

  datatype Act = Act(name: string, order: nat, scenes: seq<Scene>)

  datatype Play = Play(title: string, acts: seq<Act>)

  /** The name `f"Scene {n}"` the importer gives scene `n`. */
  function SceneName(n: nat): (s: string)
    ensures |s| > 6 && s[..6] == "Scene "
  {
    "Scene " + Decimal(n)
  }

  /** The name `f"Act {n}"` the importer gives act `n`. */
  function ActName(n: nat): (s: string)
    ensures |s| > 4 && s[..4] == "Act "
  {
    "Act " + Decimal(n)
  }

  /** After its prefix, a scene or act name spells its number in decimal. */
  lemma NamesSpellNumbers(n: nat)
    ensures SceneName(n)[6..] == Decimal(n) && AllDigits(SceneName(n)[6..])
    ensures ActName(n)[4..] == Decimal(n) && AllDigits(ActName(n)[4..])
  {
    assert SceneName(n)[6..] == Decimal(n);
    assert ActName(n)[4..] == Decimal(n);
  }

  /** Speeches are numbered 0, 1, 2, ... in the order they were committed. */
  predicate NumberedSpeeches(speeches: seq<Speech>) {
    forall k :: 0 <= k < |speeches| ==> speeches[k].order == k
  }

  /** A committed speech has an upper-case speaker and at least one character of text. */
  predicate WellFormedSpeech(s: Speech) {
    IsUpper(s.speaker) && s.text != []
  }

  predicate WellFormedScene(s: Scene) {
    && s.name == SceneName(s.order)
    && NumberedSpeeches(s.speeches)
    && forall k :: 0 <= k < |s.speeches| ==> WellFormedSpeech(s.speeches[k])
  }

  /** The act is the prologue (order 0) or `Act n` with order `n`. */
  predicate ActNamed(a: Act) {
    (a.name == "Prologue" && a.order == 0) || a.name == ActName(a.order)
  }

  /** No two neighbouring scenes of an act carry the same number. */
  predicate NoRepeatedNeighbours(scenes: seq<Scene>) {
    forall k :: 0 < k < |scenes| ==> scenes[k - 1].order != scenes[k].order
  }

  predicate WellFormedAct(a: Act) {
    && ActNamed(a)
    && (forall k :: 0 <= k < |a.scenes| ==> WellFormedScene(a.scenes[k]))
    && NoRepeatedNeighbours(a.scenes)
  }

  predicate WellFormedPlay(p: Play) {
    forall k :: 0 <= k < |p.acts| ==> WellFormedAct(p.acts[k])
  }

  /** Scene and act names never collide with the prologue's, and differ for different numbers. */
  lemma NamesDetermineOrders(m: nat, n: nat)
    ensures SceneName(m) == SceneName(n) <==> m == n
    ensures ActName(m) == ActName(n) <==> m == n
    ensures ActName(n) != "Prologue"
  {
    if SceneName(m) == SceneName(n) {
      assert Decimal(m) == SceneName(m)[6..];
      DecimalInjective(m, n);
    }
    if ActName(m) == ActName(n) {
      assert Decimal(m) == ActName(m)[4..];
      DecimalInjective(m, n);
    }
    assert ActName(n)[0] == 'A';
  }
}
