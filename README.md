# A verified model of the `import_play` management command

The `import_play` command of the demo project reads a plain-text play
script and turns it into Play → Act → Scene → Speech records. Markers
drive the parse:

- a `PROLOGUE` line, an `ACT n` line or a `Scene n` line, each followed by
  a line of `=` characters;
- stage directions in `[` … `]`;
- blank lines;
- upper-case speaker lines, which can also carry the start of the speech
  after two spaces or a tab.

The command either writes the parsed play to the database or flattens it
into a Django fixture whose records carry sequential primary keys.

The model follows the source file by file.

- `pytext.dfy` (module `PyText`): the Python string operations the importer relies on. These are `strip`, `rstrip("\n")`, `isupper`, `"\n".join`, `int(...)` on digit strings and `str(n)`.
- `classify.dfy` (module `Classify`): the line classifiers `_is_underline_line`, `_is_prologue_marker`, `_is_act_marker`, `_is_scene_marker`, `_is_stage_direction` and `_is_speaker_line`. It also holds the inline speaker pattern `^([A-Z][A-Z\s&']+?)(?:\s{2,}|\t)(.+)$`, written out with its lazy name group and its backtracking separator.
- `document.dfy` (module `Document`): the dataclasses `SpeechData`, `SceneData`, `ActData` and `PlayData` as values, with what a well-formed play is.
- `machine.dfy` (module `Machine`): the reference definition of the parse. A configuration is the play's acts plus the `ParserState` fields. `Step` handles one line in the source's dispatch order, `Run` is the loop, and `Parse` is `parse_play_file`.
- `invariants.dfy` (module `Invariants`): the invariant the parse keeps, and the theorem that every parse is well formed.
- `behaviour.dfy` (module `Behaviour`): what one line of each kind does to the state.
- `importer.dfy` (module `Importer`): the importer as the source writes it.
  - `ParserState` and `PlayData` are classes updated in place.
  - The handlers are methods.
  - `ParsePlayFile` runs the `while` loop (`ParseLines`) with its skip counts, then finalises.
  - Every method is proved to move the state exactly as `Machine` does, so everything proved there holds of what the methods build.
- `fixture.dfy` (module `Fixture`): `generate_fixture`, in two forms. One is a fold over the play in emission order. The other is the source's nested loops, proved to produce the fold's records.
- `fixture_facts.dfy` (module `FixtureFacts`): what the fixture guarantees about its records.
  - Primary keys run 1, 2, 3, ….
  - Every foreign key points back at an earlier record of the right model.
  - Each act record is followed by its own scenes, and each scene record by its own speeches, all pointing back at it.
  - There is one speaker record per distinct speaker name.
  - The number of records is fixed.
- `title.dfy` (module `Title`): the title used when none is given. This is the file stem with `-` and `_` turned into spaces, then `str.title()`.
- `scenarios.dfy` (module `Scenarios`): concrete lines and a short prologue worked through the model.

Speaker detection follows the code, not its comments. A line such as
`KING HENRY  Send for him, good uncle.` has lower-case letters, so
`_is_speaker_line` rejects it and the inline pattern is never tried. It is
handled as a continuation of the current speech. The comment at
`_handle_speaker_line` and the same-line speaker test suggest the inline
form is meant for such lines. That test accepts either outcome, and the
model does what the code does (`Scenarios.MixedCaseLineIsContinuation`).

## Model

| member | source | states |
|---|---|---|
| PyText.Strip | sandbox/demo/core/management/commands/import_play.py:383 | `str.strip()`: the result is the input less a leading and a trailing run of whitespace. Its ends are not whitespace, and it is empty exactly when the input is all whitespace. |
| PyText.RStripNewlines | sandbox/demo/core/management/commands/import_play.py:234-235 | `rstrip("\n")`: a prefix of the line, what was removed is all line feeds, and the result does not end in one. |
| PyText.Decimal | sandbox/demo/core/management/commands/import_play.py:556 | `str(n)` for a natural number: non-empty, all digits, no leading zero. |
| PyText.DigitsValueOfDecimal | sandbox/demo/core/management/commands/import_play.py:555-556 | `int(str(n)) == n`: reading back the decimal spelling of a number gives the number. |
| PyText.DecimalInjective | sandbox/demo/core/management/commands/import_play.py:556 | Different numbers have different decimal spellings. |
| PyText.DigitsValue | sandbox/demo/core/management/commands/import_play.py:555 | `int(s)` on a string of ASCII digits, read left to right in base 10. See PyText.DigitsValueOfDecimal, where it inverts `str(n)`, and Classify.NumberedHeaderMatches, where it gives the header number. |
| PyText.JoinLines | sandbox/demo/core/management/commands/import_play.py:431 | `"\n".join(lines)`: empty for no lines, and otherwise ends with the last line. |
| PyText.JoinLinesNewlines | sandbox/demo/core/management/commands/import_play.py:431 | Joining k ≥ 1 lines without line feeds gives a text with exactly k − 1 line feeds. |
| PyText.JoinLinesAppend | sandbox/demo/core/management/commands/import_play.py:431 | `"\n".join` one line at a time: one line joins to itself, and joining one more line adds a line feed and that line. |
| PyText.ReplaceChar | sandbox/demo/core/management/commands/import_play.py:192 | `str.replace` of one character by another: the same length, each occurrence replaced, every other character kept in place. |
| PyText.IsUpper | sandbox/demo/core/management/commands/import_play.py:399 | Definition of `str.isupper()`: at least one cased character and no lower-case one. Used by `Classify.IsSpeakerLine`; see Classify.NameShapeIsUpper, Scenarios.KingHenryIsNoSpeaker, Scenarios.ActorIsNoSpeaker. |
| Classify.IsUnderlineLine | sandbox/demo/core/management/commands/import_play.py:311-322 | Definition of `_is_underline_line`: a non-empty line made only of `=`. See Scenarios.PrologueHeaderStep, where `========` is the underline below `PROLOGUE`. |
| Classify.IsPrologueMarker | sandbox/demo/core/management/commands/import_play.py:324-336 | Definition of `_is_prologue_marker`: exactly `PROLOGUE` with an underline below. See Behaviour.PrologueMarkerStep, Scenarios.PrologueHeaderStep. |
| Classify.NumberedHeader | sandbox/demo/core/management/commands/import_play.py:350-353 | `re.match(prefix + r"(\d+)$")` with `int(group(1))`: a match only ever happens on a line that starts with the prefix. |
| Classify.NumberedHeaderMatches | sandbox/demo/core/management/commands/import_play.py:350-353 | Both ways: a match means the line is the prefix plus a non-empty digit string, with at most a final line feed, and the answer is that digit string's value. Every such line matches with that value. |
| Classify.IsActMarker | sandbox/demo/core/management/commands/import_play.py:338-353 | An act marker is an `ACT ` line with an underline below it. |
| Classify.IsSceneMarker | sandbox/demo/core/management/commands/import_play.py:355-370 | A scene marker is a `Scene ` line with an underline below it. |
| Classify.IsStageDirection | sandbox/demo/core/management/commands/import_play.py:372-384 | Definition of `_is_stage_direction`: the stripped line starts with `[` and ends with `]`. See Behaviour.StageDirectionStep, Behaviour.BlankIsPlain. |
| Classify.IsSpeakerLine | sandbox/demo/core/management/commands/import_play.py:386-402 | Definition of `_is_speaker_line`: the stripped line is upper case, does not start with `[`, and starts with none of `ACT`, `Scene`, `PROLOGUE`. See Scenarios.ActorIsNoSpeaker, Scenarios.KingHenryIsNoSpeaker, Scenarios.ChorusIsSpeaker, Classify.InlineNameIsUpper. |
| Classify.TailAt | sandbox/demo/core/management/commands/import_play.py:689 | `(.+)$` at a position: a non-empty run without line feeds that ends where `$` matches. If there is none, no end point reachable without a line feed satisfies `$`. |
| Classify.LongestSpaces | sandbox/demo/core/management/commands/import_play.py:689 | `\s{2,}` with backtracking: the longest run of two or more whitespace characters after which `(.+)$` matches. No longer run works, and when it fails, none does. |
| Classify.SeparatorAt | sandbox/demo/core/management/commands/import_play.py:689 | The separator (two or more whitespace characters, or a tab) followed by `(.+)$`, tried at a position: a success is a legal separator followed by a matching group 2. |
| Classify.SeparatorAtIsComplete | sandbox/demo/core/management/commands/import_play.py:689 | When the separator search fails, no legal separator at that position is followed by a matching group 2. |
| Classify.SeparatorAtIsLongest | sandbox/demo/core/management/commands/import_play.py:689 | A successful separator search gives the furthest start for group 2: no legal separator at that position that is followed by a matching rest ends later. |
| Classify.LazyName | sandbox/demo/core/management/commands/import_play.py:689 | The lazy group `[A-Z][A-Z\s&']+?` tried from name length k: a name found is at least k long and lies within the line. |
| Classify.LazyNameFound | sandbox/demo/core/management/commands/import_play.py:689 | A name found is a prefix of the line made of name characters, and the separator search right after it succeeds with the match's speech start and text. |
| Classify.LazyNameHere | sandbox/demo/core/management/commands/import_play.py:689 | When a separator follows the name at length k, the lazy group stops there: the name is the first k characters. |
| Classify.LazyNameMoves | sandbox/demo/core/management/commands/import_play.py:689 | With no separator at length k and a name character next, the lazy group takes one more character and the answer is unchanged. |
| Classify.LazyNameStops | sandbox/demo/core/management/commands/import_play.py:689 | With no separator at length k and no name character next, the group cannot grow and the pattern fails. |
| Classify.LazyNameIsShortestAt | sandbox/demo/core/management/commands/import_play.py:689 | No name length between k and the name found has a separator after it. |
| Classify.LazyNameIsShortest | sandbox/demo/core/management/commands/import_play.py:689 | The lazy name is the shortest: no shorter name length has a matching separator after it. |
| Classify.LazyNameIsComplete | sandbox/demo/core/management/commands/import_play.py:689 | When the lazy search fails, no name length at all has a matching separator after it. |
| Classify.InlineSpeech | sandbox/demo/core/management/commands/import_play.py:689-692 | The inline speaker pattern: a match carries non-empty speech text. |
| Classify.InlineSpeechMatches | sandbox/demo/core/management/commands/import_play.py:689-692 | The inline pattern, both ways. Group 1 is a name prefix of the line with a legal separator after it, and no shorter name length has one. Group 2 starts at the furthest position that such a separator followed by a matching rest can reach. Group 2 is a non-empty run of the line without line feeds, ending where `$` matches. When there is no match, no name prefix has a separator with a matching rest after it. |
| Classify.InlineNameIsUpper | sandbox/demo/core/management/commands/import_play.py:689-692 | A matched name, once stripped, is upper case in the sense of `isupper`. |
| Classify.NameShapeIsUpper | sandbox/demo/core/management/commands/import_play.py:689-692 | A capital letter followed by name characters (capitals, whitespace, `&`, `'`) is upper case in the sense of `isupper` once stripped. |
| Document.SceneName | sandbox/demo/core/management/commands/import_play.py:612 | `f"Scene {n}"` starts with `Scene ` and is longer than that prefix. What follows the prefix is Document.NamesSpellNumbers. |
| Document.ActName | sandbox/demo/core/management/commands/import_play.py:556 | `f"Act {n}"` starts with `Act ` and is longer than that prefix. What follows the prefix is Document.NamesSpellNumbers. |
| Document.NamesSpellNumbers | sandbox/demo/core/management/commands/import_play.py:556-612 | After `Scene ` or `Act `, the name is the decimal spelling of n, all digits. |
| Document.NamesDetermineOrders | sandbox/demo/core/management/commands/import_play.py:556-612 | Two scene names, or two act names, are equal exactly when their numbers are. No act name is `Prologue`. |
| Machine.SavePendingSpeech | sandbox/demo/core/management/commands/import_play.py:404-436 | With a scene, a speaker that is not None (even an empty one) and lines, the speech (speaker, joined lines, current order) is appended to the scene and the order goes up by one. Otherwise nothing changes. |
| Machine.SaveCurrentSceneToAct | sandbox/demo/core/management/commands/import_play.py:438-450 | The open scene, if any, is appended to the open act. The act's name and order are kept, and with no act there is none after. |
| Machine.SaveCurrentActToPlay | sandbox/demo/core/management/commands/import_play.py:452-464 | The open act, if any, is appended to the play's acts. |
| Machine.ResetForNewAct | sandbox/demo/core/management/commands/import_play.py:89-104 | `reset_for_new_act`: an empty act with the given name and order, no scene, no speaker, no lines, scene and speech counters at 0. The play's acts are untouched. |
| Machine.ResetForNewScene | sandbox/demo/core/management/commands/import_play.py:106-119 | `reset_for_new_scene`: an empty scene with the given name and order, no speaker, no lines, speech counter at 0. The act and act counter are kept. |
| Machine.CloseOpenAct | sandbox/demo/core/management/commands/import_play.py:505-516 | Closing the open act appends exactly one act to the play and keeps the earlier ones. |
| Machine.PrologueStep | sandbox/demo/core/management/commands/import_play.py:489-521 | Definition of `_handle_prologue`: close any open act, then reset for the act `Prologue` numbered 0. See Behaviour.PrologueMarkerStep, Invariants.PrologueKeepsInv. |
| Machine.ActStep | sandbox/demo/core/management/commands/import_play.py:523-558 | Definition of `_handle_act`: close any open act, then reset for `Act n` numbered n. See Behaviour.ActMarkerStep, Invariants.ActKeepsInv. |
| Machine.SceneStep | sandbox/demo/core/management/commands/import_play.py:560-614 | Definition of `_handle_scene`, merge branch and new-scene branch. See Behaviour.SceneMarkerStep, Behaviour.ReDeclaredSceneRepeats, Invariants.SceneKeepsInv. |
| Machine.EnsureSceneExists | sandbox/demo/core/management/commands/import_play.py:466-487 | The default scene is `Scene 1` with order 1 and no speeches, and the speech counter restarts at 0. |
| Machine.NextNonBlank | sandbox/demo/core/management/commands/import_play.py:643-646 | The look-ahead loop of `_handle_empty_line` stops at the first line after i that is not blank, or at the end. Every line it skips is blank. |
| Machine.EmptyLineResult | sandbox/demo/core/management/commands/import_play.py:616-663 | Definition of `_handle_empty_line`. See Behaviour.BlankLineStep, Invariants.EmptyLineKeepsInv, and Importer.HandleEmptyLine for its loop. |
| Machine.HandleSpeakerLine | sandbox/demo/core/management/commands/import_play.py:665-717 | Definition of `_handle_speaker_line`: switch speaker, then add the inline text. See Behaviour.SameSpeakerContinues, Behaviour.NewSpeakerCommits, Behaviour.FirstSpeakerStarts, Invariants.SpeakerLineKeepsInv. |
| Machine.ContentStep | sandbox/demo/core/management/commands/import_play.py:278-302 | Definition of the content branch of the loop body: default scene, then speaker line or continuation. See Behaviour.ContentOpensDefaultScene, Behaviour.ContinuationLine, Invariants.ContentKeepsInv, Importer.HandleContentLine. |
| Machine.Step | sandbox/demo/core/management/commands/import_play.py:233-304 | One turn of the loop skips 2 lines on a PROLOGUE, ACT or Scene marker and 1 otherwise, and never passes the end of the file. |
| Machine.Run | sandbox/demo/core/management/commands/import_play.py:233-304 | Definition of the `while` loop over the lines. See Invariants.RunUnfolds, Invariants.RunKeepsInv, Behaviour.RunWithoutActHeaders, and Importer.ParseLines for the loop itself. |
| Machine.FinalizePlayData | sandbox/demo/core/management/commands/import_play.py:719-747 | Finalising keeps the acts attached so far. It adds exactly one act when an act is open and none otherwise. What that act holds is Behaviour.FinalizeCloses. |
| Machine.Parse | sandbox/demo/core/management/commands/import_play.py:214-309 | The parsed play carries the title it was given. |
| Invariants.InitialInv | sandbox/demo/core/management/commands/import_play.py:79-87 | The initial parser state satisfies the invariant. |
| Invariants.JoinLinesNonEmpty | sandbox/demo/core/management/commands/import_play.py:431 | Joined lines whose last line is non-empty give non-empty text, so no committed speech is empty. |
| Invariants.SaveKeepsSceneReady | sandbox/demo/core/management/commands/import_play.py:404-436 | Committing a speech keeps the open scene well formed: speeches numbered 0, 1, …, upper-case speakers, non-empty text. |
| Invariants.EmptyLineKeepsInv | sandbox/demo/core/management/commands/import_play.py:616-663 | A blank line keeps the speech invariant and the scene's name and order. |
| Invariants.SwitchSpeakerKeepsInv | sandbox/demo/core/management/commands/import_play.py:694-711 | A change of speaker keeps the speech invariant and the scene's identity, and makes the new name the speaker. |
| Invariants.SpeakerLineKeepsInv | sandbox/demo/core/management/commands/import_play.py:665-717 | A speaker line, inline or bare, keeps the speech invariant and the scene's identity. |
| Invariants.AttachKeepsAct | sandbox/demo/core/management/commands/import_play.py:438-450 | Attaching a well-formed scene whose number differs from the last one keeps the act well formed. |
| Invariants.CloseOpenActKeepsInv | sandbox/demo/core/management/commands/import_play.py:505-516 | After closing the open act every act of the play is well formed. |
| Invariants.PrologueKeepsInv | sandbox/demo/core/management/commands/import_play.py:489-521 | The PROLOGUE handler keeps the invariant. |
| Invariants.ActKeepsInv | sandbox/demo/core/management/commands/import_play.py:523-558 | The ACT handler keeps the invariant. |
| Invariants.SceneKeepsInv | sandbox/demo/core/management/commands/import_play.py:560-614 | The Scene handler keeps the invariant, in its merge branch and its new-scene branch. |
| Invariants.ContentKeepsInv | sandbox/demo/core/management/commands/import_play.py:278-302 | A non-blank, non-marker line keeps the invariant, whether it opens a default scene, names a speaker or continues a speech. |
| Invariants.StepKeepsInv | sandbox/demo/core/management/commands/import_play.py:233-304 | Every turn of the loop keeps the invariant. |
| Invariants.RunUnfolds | sandbox/demo/core/management/commands/import_play.py:233-304 | The loop from line i is one step, then the loop from where that step left off. |
| Invariants.RunAdvances | sandbox/demo/core/management/commands/import_play.py:233-304 | When one step at line i leads to a state and position j, the loop from i gives the same play as the loop from j on that state. |
| Invariants.RunKeepsInv | sandbox/demo/core/management/commands/import_play.py:233-304 | The whole loop keeps the invariant. |
| Invariants.FinalizeKeepsActs | sandbox/demo/core/management/commands/import_play.py:719-747 | After finalising, every act is well formed. |
| Invariants.ParseIsWellFormed | sandbox/demo/core/management/commands/import_play.py:214-309 | Every parse is well formed, whatever the input. Every act is `Prologue` with order 0 or `Act n` with order n. Every scene is `Scene n` with order n, and no two neighbouring scenes share a number. Speeches in a scene are numbered 0, 1, 2, …, each with an upper-case speaker and non-empty text. |
| Behaviour.CloseOpenActCloses | sandbox/demo/core/management/commands/import_play.py:505-516 | Closing the act commits the pending speech, attaches the open scene to the act and appends that act to the play. |
| Behaviour.FinalizeCloses | sandbox/demo/core/management/commands/import_play.py:719-747 | At the end of the file, in any reachable state, the open act is closed as a header would close it. The pending speech is committed to the open scene, that scene is appended to the act, and the act is appended to the play. With no act open, the play's acts are unchanged. |
| Behaviour.ParseClosesLastAct | sandbox/demo/core/management/commands/import_play.py:214-309 | A parsed play's acts are the acts the loop attached, then the act left open at the end with its last speech and last scene: nothing pending is lost. |
| Behaviour.PrologueMarkerStep | sandbox/demo/core/management/commands/import_play.py:489-521 | A PROLOGUE marker skips two lines and closes any open act. It opens an empty act `Prologue` with order 0, with nothing else open. |
| Behaviour.ActMarkerStep | sandbox/demo/core/management/commands/import_play.py:523-558 | `ACT n` skips two lines and closes any open act. It opens an empty `Act n` with order n. |
| Behaviour.SceneMarkerStep | sandbox/demo/core/management/commands/import_play.py:560-614 | `Scene n` skips two lines and leaves `Scene n` open, with no speaker. If the open scene already has number n, it is kept with its pending speech committed. Otherwise the old scene goes to the act and the new one is empty. |
| Behaviour.ReDeclaredSceneRepeats | sandbox/demo/core/management/commands/import_play.py:577-614 | Only the open scene is merged. Re-declaring an earlier scene number of the act adds a second scene with that number. |
| Behaviour.StageDirectionStep | sandbox/demo/core/management/commands/import_play.py:257-260 | A stage direction changes nothing and advances one line. |
| Behaviour.BlankIsPlain | sandbox/demo/core/management/commands/import_play.py:263 | A blank line is neither a marker nor a stage direction, so it reaches the blank-line branch. |
| Behaviour.BlankLineStep | sandbox/demo/core/management/commands/import_play.py:263-276 | A blank line ends the speech (committed, speaker and lines cleared) exactly when a speech is under way and the next non-blank line is a speaker line. Otherwise it changes nothing. |
| Behaviour.ContinuationLine | sandbox/demo/core/management/commands/import_play.py:288-302 | A non-speaker line is appended to the speech when a speaker is set and a scene is open or created. Otherwise it is dropped, and the speaker is kept either way. |
| Behaviour.ContentOpensDefaultScene | sandbox/demo/core/management/commands/import_play.py:278-286 | Content with an act open and no scene first opens `Scene 1`. |
| Behaviour.SameSpeakerContinues | sandbox/demo/core/management/commands/import_play.py:690-711 | The same speaker again just adds the inline text, if any, to the speech. |
| Behaviour.NewSpeakerCommits | sandbox/demo/core/management/commands/import_play.py:690-711 | A different speaker commits the previous speech when it can be committed, then starts the new speaker with the inline text. |
| Behaviour.FirstSpeakerStarts | sandbox/demo/core/management/commands/import_play.py:690-711 | With no speaker yet, the line only sets the speaker and its inline text. |
| Behaviour.StepWithoutActHeader | sandbox/demo/core/management/commands/import_play.py:278-286 | With no act open, a line that is no PROLOGUE or ACT marker opens no act. |
| Behaviour.RunWithoutActHeaders | sandbox/demo/core/management/commands/import_play.py:233-304 | Without PROLOGUE or ACT markers, the loop never opens an act. |
| Behaviour.NoActHeaderNoActs | sandbox/demo/core/management/commands/import_play.py:466-487 | A script without PROLOGUE or ACT markers parses to a play with no acts: all its text is dropped. |
| Importer.ParserState.CreateInitial | sandbox/demo/core/management/commands/import_play.py:79-87 | `create_initial`: nothing open, no speaker, no lines, all counters 0. |
| Importer.ParserState.ResetForNewAct | sandbox/demo/core/management/commands/import_play.py:89-104 | `reset_for_new_act` on the state object. |
| Importer.ParserState.ResetForNewScene | sandbox/demo/core/management/commands/import_play.py:106-119 | `reset_for_new_scene` on the state object, keeping the act. |
| Importer.PlayData.constructor | sandbox/demo/core/management/commands/import_play.py:49-56 | A new play has the given title and no acts. |
| Importer.CloseOpenAct | sandbox/demo/core/management/commands/import_play.py:505-516 | Commits the speech, attaches the scene and attaches the act in place, exactly as `Machine.CloseOpenAct`. |
| Importer.HandlePrologue | sandbox/demo/core/management/commands/import_play.py:489-521 | `_handle_prologue` skips 2 lines and moves play and state as `Machine.PrologueStep`. |
| Importer.HandleAct | sandbox/demo/core/management/commands/import_play.py:523-558 | `_handle_act` skips 2 lines and moves play and state as `Machine.ActStep`. |
| Importer.HandleScene | sandbox/demo/core/management/commands/import_play.py:560-614 | `_handle_scene` skips 2 lines and moves the state as `Machine.SceneStep`, leaving the play's acts alone. |
| Importer.HandleEmptyLine | sandbox/demo/core/management/commands/import_play.py:616-663 | The look-ahead `while` loop gives the same speech state as the reference blank-line step. |
| Importer.FinalizePlayData | sandbox/demo/core/management/commands/import_play.py:719-747 | `_finalize_play_data` on the objects, exactly as `Machine.FinalizePlayData`. |
| Importer.HandleContentLine | sandbox/demo/core/management/commands/import_play.py:278-302 | A line that is no marker, no stage direction and not blank: opens a default scene if needed, then handles a speaker line or a continuation, moving the state exactly as `Machine.ContentStep`. |
| Importer.ParseLine | sandbox/demo/core/management/commands/import_play.py:233-304 | One loop body, dispatching in the source's order: the new state and skip count are the reference step's. |
| Importer.ParseNext | sandbox/demo/core/management/commands/import_play.py:233-304 | One loop body moves forward by at least one line and never past the end, and the rest of the loop from the new position gives the same result as from the old one. |
| Importer.ParseLines | sandbox/demo/core/management/commands/import_play.py:233-304 | The `while` loop from line i leaves play and state exactly as the reference loop `Machine.Run` from the state it started with. |
| Importer.ParsePlayFile | sandbox/demo/core/management/commands/import_play.py:214-309 | `parse_play_file` returns a fresh play equal to the reference parse, hence well formed. |
| Fixture.FixtureData | sandbox/demo/core/management/commands/import_play.py:785-876 | Definition of the records `generate_fixture` writes, as a fold in emission order. See Fixture.GenerateFixture, FixtureFacts.FixtureNumbered, FixtureFacts.FixtureRefersBack, FixtureFacts.FixtureSpeakersOnce, FixtureFacts.FixtureCount. |
| Fixture.GenerateFixture | sandbox/demo/core/management/commands/import_play.py:785-876 | The nested loops emit exactly the records of the reference fold, in order. |
| Fixture.AddSpeech | sandbox/demo/core/management/commands/import_play.py:848-876 | One pass of the innermost loop: a new speaker name first gets a speaker record and a map entry, then the speech record is appended. The result is the reference fold's step for one speech. |
| FixtureFacts.NewSpeakerFacts | sandbox/demo/core/management/commands/import_play.py:850-862 | A new speaker name gets a speaker record under the next pk and is added to the name map. All invariants are kept. |
| FixtureFacts.EmitSpeechFacts | sandbox/demo/core/management/commands/import_play.py:848-876 | One speech keeps the invariants (pks in order, foreign keys pointing back, the name map sound and complete) and only appends records. |
| FixtureFacts.EmitSpeechCount | sandbox/demo/core/management/commands/import_play.py:848-876 | One speech adds exactly one non-speaker record and adds its speaker's name to the name map, whatever came before. |
| FixtureFacts.SpeechPointsAtItsSpeaker | sandbox/demo/core/management/commands/import_play.py:848-876 | A speech record carries the speech's text, order and scene pk. Its speaker pk is an earlier record, the speaker record with the speech's speaker name. |
| FixtureFacts.EmitSpeechesGood | sandbox/demo/core/management/commands/import_play.py:848-876 | A scene's speeches keep the invariants and only append records. |
| FixtureFacts.EmitSpeechesCount | sandbox/demo/core/management/commands/import_play.py:848-876 | A scene's speeches add one non-speaker record each, and the name map gains exactly their speaker names. |
| FixtureFacts.EmitSpeechesFacts | sandbox/demo/core/management/commands/import_play.py:848-876 | A scene's speeches keep the invariants, add one record each plus the new speakers, and register every speaker name. |
| FixtureFacts.EmitSceneFacts | sandbox/demo/core/management/commands/import_play.py:831-876 | One scene keeps the invariants and only appends records. It adds one record for the scene and one per speech, and the name map gains its speakers. Which records those are is FixtureFacts.EmitSceneShape. |
| FixtureFacts.EmitScenesFacts | sandbox/demo/core/management/commands/import_play.py:831-876 | An act's scenes keep the invariants, with the record count and the speaker names they add. |
| FixtureFacts.EmitActFacts | sandbox/demo/core/management/commands/import_play.py:814-876 | One act keeps the invariants and only appends records. It adds one record for the act, one per scene and one per speech, and the name map gains its speakers. Which records those are is FixtureFacts.EmitActShape. |
| FixtureFacts.EmitActsFacts | sandbox/demo/core/management/commands/import_play.py:814-876 | All acts keep the invariants, with the record count and the speaker names they add. |
| FixtureFacts.EmitSpeechesShape | sandbox/demo/core/management/commands/import_play.py:848-876 | A scene's speeches only append records: speaker records, and speech records whose scene is that scene's pk. |
| FixtureFacts.EmitSceneShape | sandbox/demo/core/management/commands/import_play.py:831-876 | A scene's first record is `core.scene` under the next pk, with the act's pk, the scene's name and its order. Every later record of the scene is a speaker record or a speech record pointing at that scene. |
| FixtureFacts.EmitScenesShape | sandbox/demo/core/management/commands/import_play.py:831-876 | An act's scenes only append records: scene records whose act is that act's pk, plus speaker and speech records. They add no act or play record. |
| FixtureFacts.EmitActShape | sandbox/demo/core/management/commands/import_play.py:814-876 | An act's first record is `core.act` under the next pk, with the play's pk, the act's name and its order. Every later scene record of the act points at that act, and no later record of the act is an act or play record. |
| FixtureFacts.FinalFacts | sandbox/demo/core/management/commands/import_play.py:785-876 | At the end the play record comes first with pk 1. Every invariant holds, and the speaker map holds exactly the play's speaker names. |
| FixtureFacts.FixtureNumbered | sandbox/demo/core/management/commands/import_play.py:794-876 | The first record is `core.play` with pk 1. Record k has pk k+1 and the model label of its kind. |
| FixtureFacts.FixtureRefersBack | sandbox/demo/core/management/commands/import_play.py:814-876 | Every act points at the play record, every scene at an earlier act record, and every speech at an earlier speaker record and an earlier scene record. |
| FixtureFacts.FixtureSpeakersOnce | sandbox/demo/core/management/commands/import_play.py:848-862 | No two speaker records have the same name. A name has a speaker record exactly when it speaks somewhere in the play. |
| FixtureFacts.FixtureCount | sandbox/demo/core/management/commands/import_play.py:785-876 | The fixture has 1 + acts + scenes + speeches + distinct speakers records. |
| Title.TitleFromPointwise | sandbox/demo/core/management/commands/import_play.py:192 | The left-to-right `str.title()` scan, position by position: a cased letter after a cased one is lowered and otherwise raised. Anything else is kept. |
| Title.TitleCase | sandbox/demo/core/management/commands/import_play.py:192 | `str.title()` keeps the length. Its per-position meaning is Title.TitleCasePointwise, and it is idempotent by Title.TitleCaseIdempotent. |
| Title.TitleCasePointwise | sandbox/demo/core/management/commands/import_play.py:192 | `str.title()`: upper case at a word start, lower case inside a word, uncased characters unchanged, length kept. |
| Title.TitleCaseKeepsCasedness | sandbox/demo/core/management/commands/import_play.py:192 | Title case keeps which positions hold cased letters. |
| Title.TitleCaseIdempotent | sandbox/demo/core/management/commands/import_play.py:192 | Applying `str.title()` twice is the same as once. |
| Title.TitleFromStem | sandbox/demo/core/management/commands/import_play.py:192 | `stem.replace("-", " ").replace("_", " ").title()` keeps the stem's length. Its shape is Title.DerivedTitleShape. |
| Title.DerivedTitleShape | sandbox/demo/core/management/commands/import_play.py:192 | A title derived from the stem has no `-` or `_`, keeps every other uncased character in place, and is already in title case. |
| Title.ChooseTitle | sandbox/demo/core/management/commands/import_play.py:189-192 | A non-empty `--title` is used as given. A missing or empty one falls back on the title derived from the file stem. |
| Scenarios.NoInlineWithoutSpace | sandbox/demo/core/management/commands/import_play.py:689 | A line without whitespace never matches the inline pattern, which needs a separator. |
| Scenarios.MixedCaseLineIsContinuation | sandbox/demo/core/tests.py:242-280 | `KING HENRY  Send for him, good uncle.` is no speaker line, and the speaker is kept. With a speaker and a scene open it is appended to the current speech. With no speaker yet, as in that test right after the `Scene 1` header, it is dropped. |
| Scenarios.KingHenryIsNoSpeaker | sandbox/demo/core/management/commands/import_play.py:396-402 | `KING HENRY  Send for him, good uncle.` has lower-case letters, so it is no speaker line. |
| Scenarios.ActorIsNoSpeaker | sandbox/demo/core/management/commands/import_play.py:396-402 | `ACTOR` is upper case but no speaker line, because it starts like an `ACT` header. |
| Scenarios.InlineSplitsAtFirstSeparator | sandbox/demo/core/management/commands/import_play.py:689-692 | A line `KING  Go on` matches with name `KING`, speech start 6 and speech `Go on`. |
| Scenarios.InlineNameSpansSingleSpace | sandbox/demo/core/management/commands/import_play.py:689-692 | In a line `KING HAL  ARISE` the single space is no separator, so the name is `KING HAL`, the speech starts at 10 and is `ARISE`. |
| Scenarios.ChorusIsSpeaker | sandbox/demo/core/management/commands/import_play.py:386-402 | `CHORUS` alone on its line is a speaker line and no stage direction. Its speaker name is `CHORUS` and it carries no inline text. |
| Scenarios.VerseIsPlain | sandbox/demo/core/management/commands/import_play.py:372-402 | `This is a prologue speech.` has lower-case letters, so it is no speaker line, and it is no stage direction. |
| Scenarios.PrologueRun | sandbox/demo/core/tests.py:101-116 | The loop over the prologue test's five lines ends with the act `Prologue` open, `Scene 1` open, `CHORUS` speaking and the verse line pending. |
| Scenarios.PrologueFinalized | sandbox/demo/core/tests.py:101-116 | Finalising that state commits the chorus's speech, numbered 0, into `Scene 1` and attaches the one act. |
| Scenarios.PrologueParse | sandbox/demo/core/tests.py:101-116 | The prologue test's script parses to one act, `Prologue` with order 0. It holds the auto-created `Scene 1` with the chorus's single speech, numbered 0. |

## Left out

- The command's `handle` entry point is not modelled beyond the choice of title (`Title.ChooseTitle`). That covers the missing-file error, the `--output-fixture` / `--dry-run` switch and the console messages, which are I/O.
- Reading the file (`open(...).readlines()`) is left out. `parse_play_file` is modelled on the list of lines `readlines` returns, each with its line feed.
- Writing the fixture as JSON is left out. `Fixture.GenerateFixture` returns the list of records that would be written.
- `save_to_database` is left out: it is Django ORM calls (`get_or_create`, `create`) against a database.
- `act_pks` and `scene_pks` in `generate_fixture` are filled but never read, so the model does not keep them.
- Character classes: letters, casing and `str.title()` are modelled over ASCII letters only. `\d` and `int()` are modelled over ASCII digits only. Python's Unicode casing and digit tables are not reproduced. Whitespace (`str.strip`, `\s`) uses Python's full set of whitespace code points.
- In place versus values: the source appends to scene, act and list objects in place. The model replaces the open scene, act and line list with updated values. Nothing else refers to these objects until they are attached, so no aliasing is lost.
- The loop of `parse_play_file` is written as its own method, `Importer.ParseLines`. Its body is `Importer.ParseNext`, which calls `Importer.ParseLine`.
- Importer.HandleScene: takes the play as a ghost parameter that the source's `_handle_scene` does not have. It lets the contract state the whole configuration and that the play's acts do not change.
