# SFX Manager, modelled in Dafny

The package is a Unity sound-effects manager. It has four parts:

- A `Sound` holds a clip and its playback settings.
- An `SFXTrack` holds a named list of sounds and, once something has played, one audio voice.
- A `ScriptableSFXManager` holds the tracks. It looks sounds and tracks up by name through two tables that are built lazily. It plays a sound on its track, either from a track name and a sound name or from a single `track_sound` key.
- The editor of the manager generates a C# file. That file has one struct per track and one string constant per sound, and each constant is a key for `Play(string)`.

## How the model is built

The model is functional. The manager's state is a `Registry`:

- `_tracks` as a sequence of object references;
- a heap of track objects, because `SFXTrack` is a reference type shared by `_tracks` and the track table;
- the two tables as `Option`s, since `null` means not built yet;
- a counter that gives each newly created voice an identity.

Every public operation returns the next state together with a result. A C# exception is modelled as a `Failure` carrying one of five kinds:

- `KeyNotFound` for the dictionary indexer;
- `DuplicateKey` for `Dictionary.Add` on a key that is already there;
- `ArgumentOutOfRange` for `Substring`;
- `IndexOutOfRange` for the string indexer;
- `NullReference` for a call through the manager's `_onInspectorChange` event while it is `null`.

The manager declares `_onInspectorChange` as a private, unserialized field and never assigns it. `OnValidate` invokes it through `?.`, so a missing event is harmless there. The editor's `EnableAutoSave` and `DisableAutoSave` call `AddListener` and `RemoveListener` on it directly, after they have already flipped `_subscribedToEvent`. The auto-save model therefore carries whether the event object exists, and covers both cases.

Both table builders store the dictionary before filling it. So a build that throws part-way leaves a partial table, and that table is never rebuilt. The model keeps this behaviour.

The modules are:

- `Outcomes`: `Option`, `Result` and the exception kinds.
- `CsStrings`: the .NET `String` members used by the code: `IndexOf`, `LastIndexOf`, both `Substring` overloads and `Split`.
- `Sounds`: `Sound` and its defaults.
- `Tracks`: `SFXTrack`, the voice as an abstract record of the `AudioSource` fields the code sets, and `PlaySound`.
- `Indexes`: the two table builders, with all their exceptions.
- `Manager`: the registry and its public operations.
- `RegistryFacts`: the invariant that every call keeps, and what the lookups and plays find.
- `CamelCasing`: the editor's `CamelCase`, against a character-by-character reference definition.
- `EditorCodegen`: the folder, the file name and the generated class text, and why the generated keys play their sounds.
- `AutoSave`: the `_subscribedToEvent` guard.
- `AddSoundFix`: `AddSound` as written against `AddSound` with its condition corrected.

Each model name maps to the source as follows:

- `Registry.soundIndex` is `SoundDictionary`.
- `Registry.trackIndex` is `TrackDictionary`.
- `Play(string)` is `Manager.PlayKey`.

## Model

| member | source | states |
|---|---|---|
| Sounds.NewSound | Runtime/Sound.cs:12-20 | a new sound has priority 128, which lies inside the 0..256 slider range; volume and pitch are 1, pan is 0, no loop, no clip |
| Sounds.SetPriority | Runtime/Sound.cs:15 | the `Range` attribute only bounds the inspector: any priority is stored as given; the result is in range exactly when the value is; no other field changes |
| Tracks.NewTrack | Runtime/SFXTrack.cs:15-18 | a new track has an empty sound list and no voice |
| Tracks.VoiceObjectName | Runtime/SFXTrack.cs:55 | the voice's game object is named `[SFX] ` + track name + ` Track`, and the track name can be read back from the middle |
| Tracks.CreateTrackInstance | Runtime/SFXTrack.cs:53-58 | a new voice identified by the given id, on an object named after the track, not yet playing; nothing else about the track changes (that the id is unused is `RegistryFacts.PlayVoiceIsFresh`) |
| Tracks.CheckForTrackInstance | Runtime/SFXTrack.cs:45-51 | afterwards there is a voice; an existing voice is kept as it is, and only a missing one is created |
| Tracks.AssignAudio | Runtime/SFXTrack.cs:32-43 | the voice takes the sound's clip, priority, volume, pitch, loop and pan, routes to the track's mixer group and bypasses reverb zones; its identity and play state are kept |
| Tracks.PlaySound | Runtime/SFXTrack.cs:23-30 | afterwards the track has a playing voice configured from the sound; that is the existing voice if there was one, otherwise a new one named after the track; name, group and sounds are untouched |
| Tracks.PlaySoundOverwrites | Runtime/SFXTrack.cs:23-43 | a second play reuses the first play's voice and leaves the track as if only the second sound had been played |
| Tracks.PlayEachIsLastPlay | Runtime/SFXTrack.cs:23-30 | any run of plays leaves the track as playing only its last sound would: one voice, created at most once |
| CsStrings.IndexOf | Runtime/ScriptableSFXManager.cs:73 | -1 exactly when the character is absent; otherwise the position of its first occurrence |
| CsStrings.LastIndexOf | Editor/ScriptableSFXManagerEditor.cs:83 | -1 exactly when the character is absent; otherwise the position of its last occurrence |
| CsStrings.Substring | Runtime/ScriptableSFXManager.cs:73 | throws `ArgumentOutOfRange` exactly when the range leaves the string; otherwise returns those characters |
| CsStrings.SubstringFrom | Runtime/ScriptableSFXManager.cs:74 | throws exactly when the start lies outside `0..|s|`; otherwise the prefix followed by the result gives back the string |
| CsStrings.Split | Editor/ScriptableSFXManagerEditor.cs:96 | `String.Split(char)`: one piece more than there are separators, no piece holding the separator, and the pieces joined by the separator spell the input |
| CsStrings.SplitProperties | Editor/ScriptableSFXManagerEditor.cs:96 | `Split` gives one piece more than there are separators; no piece holds the separator; joining the pieces gives back the input |
| CsStrings.SplitJoin | Editor/ScriptableSFXManagerEditor.cs:96 | splitting separator-free pieces joined by the separator gives back the pieces, so `Split` is the inverse of joining |
| Indexes.AddSounds | Runtime/ScriptableSFXManager.cs:35-39 | the inner loop of `CreateSoundDictionary`: the only exception it can throw is `DuplicateKey` |
| Indexes.AddSoundsSucceedsIff | Runtime/ScriptableSFXManager.cs:35-39 | adding a track's sounds throws exactly when two of them share a name |
| Indexes.AddSoundsContents | Runtime/ScriptableSFXManager.cs:35-39 | after a clean inner loop, the track's table holds exactly its sound names, each mapped to its own sound |
| Indexes.FillSoundIndex | Runtime/ScriptableSFXManager.cs:29-43 | the outer loop of `CreateSoundDictionary` (`CreateSoundIndex` starts it from an empty table): it keeps every entry already present unchanged, adds only track names, and can throw only `DuplicateKey`, leaving what it has added so far |
| Indexes.FillSoundIndexSucceedsIff | Runtime/ScriptableSFXManager.cs:29-43 | building the sound table throws exactly when two tracks share a name or a track repeats a sound name |
| Indexes.FillSoundIndexContents | Runtime/ScriptableSFXManager.cs:29-43 | a clean build holds exactly the track names; under each, exactly that track's sound names; each pair leads to its sound |
| Indexes.FillTrackIndex | Runtime/ScriptableSFXManager.cs:45-53 | the loop of `CreateTrackDictionary` (`CreateTrackIndex` starts it from an empty table): it keeps every entry already present, adds only track names mapped to track objects, and can throw only `DuplicateKey`, leaving what it has added so far |
| Indexes.FillTrackIndexSucceedsIff | Runtime/ScriptableSFXManager.cs:45-53 | building the track table throws exactly when two tracks share a name |
| Indexes.FillTrackIndexContents | Runtime/ScriptableSFXManager.cs:45-53 | a clean build maps each track name to its own object and holds no other name |
| Indexes.PartialSoundKeysWithinTrackKeys | Runtime/ScriptableSFXManager.cs:29-53 | even when both builds throw part-way, every track name in the sound table is also in the track table |
| Indexes.SoundIndexIgnoresVoices | Runtime/ScriptableSFXManager.cs:29-43 | the sound table depends only on track names and sound lists, not on voices |
| Manager.Loaded | Runtime/ScriptableSFXManager.cs:16-25 | a freshly loaded manager holds its serialized `_tracks` and neither table is built yet |
| Manager.GetTracks | Runtime/ScriptableSFXManager.cs:27 | a copy of `_tracks`: the same objects in the same order |
| Manager.CheckForSoundIndex | Runtime/ScriptableSFXManager.cs:113-124 | builds only when unbuilt, and keeps the table even if the build throws; throws exactly when unbuilt and the names collide; nothing else changes |
| Manager.CheckForTrackIndex | Runtime/ScriptableSFXManager.cs:126-137 | builds only when unbuilt, and keeps a partial table on exception; throws exactly when unbuilt and track names collide; nothing else changes |
| Manager.TryGetSoundByName | Runtime/ScriptableSFXManager.cs:93-111 | finds a sound exactly when both names are in the table; a missing track leaves `sound` as a default `new Sound()`; a missing sound leaves it `null` |
| Manager.GetSoundByName | Runtime/ScriptableSFXManager.cs:81-86 | hits exactly when the `Try` form does, with the same sound; throws `KeyNotFound` where that form misses |
| Manager.TryGetTrack | Runtime/ScriptableSFXManager.cs:154-164 | finds exactly the names in the track table, giving the mapped object |
| Manager.GetTrack | Runtime/ScriptableSFXManager.cs:142-147 | hits exactly when `TryGetTrack` does; otherwise throws `KeyNotFound` |
| Manager.Play | Runtime/ScriptableSFXManager.cs:58-65 | plays only when both lookups hit, changing only that one track object; a miss changes no object; only a table build can throw |
| Manager.SplitKey | Runtime/ScriptableSFXManager.cs:73-74 | throws `ArgumentOutOfRange` exactly when the key has no `_`; otherwise the key is the two parts joined by `_`, with no `_` in the first part |
| Manager.PlayKey | Runtime/ScriptableSFXManager.cs:71-76 | a key without `_` throws and changes nothing; any other key plays the pair it splits into |
| Manager.SplitKeyRoundTrip | Runtime/ScriptableSFXManager.cs:71-76 | `track + "_" + sound` splits back into `(track, sound)` exactly when the track name holds no `_` |
| Manager.AddTrack | Runtime/ScriptableSFXManager.cs:169-173 | inserts into the track table, or throws on a name already present; the sound table and `_tracks` are untouched |
| Manager.AddSound | Runtime/ScriptableSFXManager.cs:178-186 | as written: throws when the sound-table build throws; otherwise the track table is checked; the sound table is left alone whenever the track is found |
| Manager.AddSoundToNewTrack | Runtime/ScriptableSFXManager.cs:191-195 | is `AddTrack` followed, if that succeeded, by `AddSound` under the new track's name |
| RegistryFacts.TablesBuiltAtMostOnce | Runtime/ScriptableSFXManager.cs:113-137 | a second check never rebuilds and never throws, even after a first build that threw |
| RegistryFacts.AddSoundNeverAdds | Runtime/ScriptableSFXManager.cs:178-186 | from any reachable state, `AddSound` never changes the sound table; when the track is unknown it throws `KeyNotFound` |
| RegistryFacts.AddTrackKeepsInv | Runtime/ScriptableSFXManager.cs:169-173 | `AddTrack` keeps the invariant and never changes the sound table, so an added track is never known to sound lookups |
| RegistryFacts.AddSoundToNewTrackNeverAdds | Runtime/ScriptableSFXManager.cs:191-195 | the sound table stays the one built from `_tracks`, yet the call reports success once the track went in and that table built cleanly |
| RegistryFacts.TryGetSoundFindsRegistered | Runtime/ScriptableSFXManager.cs:93-111 | with cleanly built tables, every sound of every track is found under (track name, sound name) |
| RegistryFacts.TryGetSoundMissesUnregistered | Runtime/ScriptableSFXManager.cs:93-111 | a pair naming no sound of any track is a miss, reported without an exception |
| RegistryFacts.TryGetTrackFindsRegistered | Runtime/ScriptableSFXManager.cs:154-164 | each track name leads to that track's own object |
| RegistryFacts.PlayRegistered | Runtime/ScriptableSFXManager.cs:58-65 | playing a registered pair plays that sound on that track's object, and on no other |
| RegistryFacts.PlayUnregisteredPlaysNothing | Runtime/ScriptableSFXManager.cs:58-65 | playing an unregistered pair succeeds and changes no object |
| RegistryFacts.PlayKeepsInv | Runtime/ScriptableSFXManager.cs:58-65 | a play changes only voices, so the tables still agree with `_tracks` and no two tracks share a voice |
| RegistryFacts.PlayVoiceIsFresh | Runtime/SFXTrack.cs:45-58 | a voice that a play creates has an identity no track had before, and no other track has afterwards |
| RegistryFacts.ApplyFollows | Runtime/ScriptableSFXManager.cs:58-195 | every public call keeps the invariant; it never alters a built sound table and never removes a track-table entry |
| RegistryFacts.RunKeepsTables | Runtime/ScriptableSFXManager.cs:113-137 | over any sequence of calls, a built sound table stays as built and a built track table only grows |
| CamelCasing.Capitalise | Editor/ScriptableSFXManagerEditor.cs:101 | an empty piece throws `IndexOutOfRange`; otherwise the same length, with the first character upper-cased and the rest kept |
| CamelCasing.CapitaliseAll | Editor/ScriptableSFXManagerEditor.cs:99-103 | the loop over the pieces throws `IndexOutOfRange` exactly when some piece is empty |
| CamelCasing.CamelCase | Editor/ScriptableSFXManagerEditor.cs:94-106 | `CamelCase` throws `IndexOutOfRange` exactly when the string is empty, starts or ends with a space, or has two spaces in a row |
| CamelCasing.CamelCaseIsSpec | Editor/ScriptableSFXManagerEditor.cs:94-106 | otherwise it equals the reference: spaces dropped, and the first letter of each word upper-cased |
| CamelCasing.CamelSpecLength | Editor/ScriptableSFXManagerEditor.cs:94-106 | the result is one character shorter per space |
| CamelCasing.CamelCaseResult | Editor/ScriptableSFXManagerEditor.cs:94-106 | on a well-spaced string the result is the input's length less its spaces, and holds no space |
| EditorCodegen.GetDefaultPath | Editor/ScriptableSFXManagerEditor.cs:79-86 | the folder is a prefix of the asset path that is empty or ends with `/`, with no `/` after it |
| EditorCodegen.DefaultPathUnique | Editor/ScriptableSFXManagerEditor.cs:79-86 | those properties single out the folder |
| EditorCodegen.GetFileName | Editor/ScriptableSFXManagerEditor.cs:88-92 | the file name is the reference camel-casing of the manager's name followed by `Tracks`; the only exception is `IndexOutOfRange` |
| EditorCodegen.GetFileNameFailsIff | Editor/ScriptableSFXManagerEditor.cs:88-92 | the file name throws exactly when the manager's name starts with a space or has two spaces in a row; the appended `Tracks` makes a trailing space harmless |
| EditorCodegen.GeneratedFilePath | Editor/ScriptableSFXManagerEditor.cs:77 | the written path is the folder, then the file name, then `.cs`; it throws exactly when the file name does |
| EditorCodegen.StructFor | Editor/ScriptableSFXManagerEditor.cs:118-123 | a struct named after the track, with one constant per sound in list order, named by the camel-cased sound name and holding `track_sound` |
| EditorCodegen.Declarations | Editor/ScriptableSFXManagerEditor.cs:108-128 | the class layout cannot be formed exactly when the file name or some sound name cannot be camel-cased; the exception is then `IndexOutOfRange` |
| EditorCodegen.ConstsCode | Editor/ScriptableSFXManagerEditor.cs:120-123 | the constants loop emits exactly the rendered constants of the track, or throws when a sound name is badly spaced |
| EditorCodegen.StructCode | Editor/ScriptableSFXManagerEditor.cs:118-125 | one iteration of the tracks loop emits exactly the rendered struct |
| EditorCodegen.StructsCode | Editor/ScriptableSFXManagerEditor.cs:114-126 | the tracks loop emits the structs of all tracks in order, or throws on the first track with a badly spaced sound name |
| EditorCodegen.GenerateCsClass | Editor/ScriptableSFXManagerEditor.cs:108-128 | the generated text is exactly the rendered layout of `GetTracks()`; it throws exactly when that layout cannot be formed |
| EditorCodegen.GeneratedKeyPlaysItsSound | Editor/ScriptableSFXManagerEditor.cs:122 | the text of a generated constant's literal, passed to `Play(string)`, plays its own sound on its own track when the track name has no `_` |
| EditorCodegen.GeneratedKeyNeedsPlainTrackName | Runtime/ScriptableSFXManager.cs:71-76 | the text of a generated constant's literal splits back into its own pair exactly when the track name has no `_` |
| AutoSave.EnableAutoSave | Editor/ScriptableSFXManagerEditor.cs:56-64 | when not subscribed it sets the flag, then adds one listener and generates once, reporting that generation's outcome (its `IndexOutOfRange` propagates); with no event object it throws `NullReference` after setting the flag, adding and generating nothing; when subscribed it changes nothing |
| AutoSave.DisableAutoSave | Editor/ScriptableSFXManagerEditor.cs:66-73 | when subscribed it clears the flag, then removes the listener, leaving none, or throws `NullReference` after clearing it when there is no event object; when not subscribed it changes nothing; it never generates |
| AutoSave.InspectorPass | Editor/ScriptableSFXManagerEditor.cs:26-48 | with class generation on, the flag ends equal to the auto-save toggle, a first enable reports the generation's outcome, and a consistent editor stays consistent even when the call throws; with it off, nothing changes |
| AutoSave.InspectorChange | Runtime/ScriptableSFXManager.cs:206-209 | each registered listener generates the file once per inspector change; with no event object nothing happens |
| AutoSave.EnableIdempotent | Editor/ScriptableSFXManagerEditor.cs:56-64 | enabling twice is enabling once, and the second call never throws |
| AutoSave.DisableIdempotent | Editor/ScriptableSFXManagerEditor.cs:66-73 | disabling twice is disabling once, and the second call never throws |
| AutoSave.ReenableRegistersOnce | Editor/ScriptableSFXManagerEditor.cs:56-73 | with an event object, toggling off and on leaves exactly one listener and costs exactly one generation |
| AutoSave.RunKeepsConsistent | Editor/ScriptableSFXManagerEditor.cs:41-48 | however the inspector is redrawn and toggled, the flag matches the event and at most one listener is registered |
| AutoSave.RunSavesBounded | Editor/ScriptableSFXManagerEditor.cs:41-48 | a run of redraws and changes calls `GenerateCsClass` at most once per event |
| AutoSave.UnassignedEventNeverGenerates | Editor/ScriptableSFXManagerEditor.cs:56-63 | with no event object, no run of redraws and changes ever calls `GenerateCsClass` |
| AddSoundFix.AddSoundLosesSound | Runtime/ScriptableSFXManager.cs:178-186 | as written, adding a new sound to a registered track reports success, yet the sound cannot be found afterwards |
| AddSoundFix.AddSoundCorrected | Runtime/ScriptableSFXManager.cs:178-186 | with the condition corrected: when the track is unknown, nothing is written and there is no exception |
| AddSoundFix.AddSoundCorrectedFinds | Runtime/ScriptableSFXManager.cs:178-186 | corrected, the same call succeeds and the sound is found under (track name, sound name) |
| AddSoundFix.AddSoundCorrectedKeepsOthers | Runtime/ScriptableSFXManager.cs:178-186 | corrected, every sound that was found before is still found |

## Left out

- Unity engine objects are not modelled. `GameObject` creation, `AddComponent<AudioSource>`, `DontDestroyOnLoad` and `AudioSource.Play` are not modelled; the voice is an abstract record of the fields the code sets, plus a `playing` flag. Voice identities come from a counter in the registry.
- Logging (`Debug.Log`, `Debug.LogError`) and the `_enableLogs` switch have no effect on state, so they are left out.
- The inspector GUI (`OnInspectorGUI` buttons, toggles, disabled groups and serialized properties) is reduced to the choice between `EnableAutoSave` and `DisableAutoSave` that it makes.
- Reflection (`GetInspectorChangeEvent`) is left out. The event is modelled as whether it exists and the number of this editor's listeners it holds. Whatever outside the manager might assign the event is not modelled; the start state says whether it exists. Several editor instances on one asset are not modelled.
- EditorCodegen.GeneratedKeyPlaysItsSound: the key is the raw text placed between the quotes of the generated literal. Names are pasted in unescaped, so when a track or sound name holds `\` or `"` the compiled constant differs from that text, or the file does not compile; C# literal decoding is not modelled.
- EditorCodegen.GeneratedKeyNeedsPlainTrackName: likewise about the literal's raw text, which is the compiled constant only when neither name holds `\` or `"`.
- The editor's "Save" button, which calls `GenerateCsClass` directly when auto-save is off, is not modelled.
- AutoSave.Editor: `attempts` counts calls of `GenerateCsClass`, including those that throw while camel-casing; it does not count files written.
- File output (`File.WriteAllText`, `AssetDatabase.Refresh`, `AssetDatabase.GetAssetPath`) is not modelled; only the path and the text are. The asset path is a parameter.
- `Environment.NewLine` is the parameter `nl`.
- `ToUpper` is the parameter `upper` and maps one character to one character. Culture rules and case mappings that change length are not modelled.
- Float fields are opaque 32-bit patterns. They are only copied, never computed with.
- `null` strings, `null` sounds and `null` tracks are not modelled. A `null` name would make `Dictionary.Add` throw. `new Sound()` has a `null` name in C#; here its name is the empty string.
- Concurrency is not modelled.
- Changes made to `_tracks` from outside, for example in the inspector at run time, are not modelled. `_tracks` stays fixed after load.
- EditorCodegen.GenerateCsClass: the model renders the tracks from `TrackValues`, the objects of `GetTracks()`. It does not call the list-copying `GetTracks` method itself, whose own contract says the copy is exact.
- Manager.AddSoundToNewTrack: it keeps the code as written and calls the as-written `AddSound`, because that is what the source does. The corrected form is stated only for `AddSound` itself.
- CsStrings.LastIndexOf: models the ordinal `LastIndexOf(char)`. `GetDefaultPath` calls the string overload `LastIndexOf("/")`, which compares by culture; for `/` in an asset path the two agree, but culture rules are not modelled.
- Strings are sequences of Unicode scalar values, while C# strings are UTF-16 code units. A word starting with a character outside the Basic Multilingual Plane would have `word[0]` as half a surrogate pair in C#; that difference is not modelled.

## Findings

| source | as written | input that shows it | evidently intended | confidence | as-written member | corrected member |
|---|---|---|---|---|---|---|
| Runtime/ScriptableSFXManager.cs:181-183 | the sound is added only when `TryGetTrack` does not find the track, and then `SoundDictionary[trackName]` throws `KeyNotFound` | a manager loaded with tracks of distinct names, none repeating a sound name (so the sound table builds cleanly), one of them `T` holding no sound named `s`: `AddSound(s, "T")` returns normally, and `TryGetSoundByName("T", s.Name)` still misses | add the sound to `T`'s entry when the track is found | high; not executed | AddSoundFix.AddSoundLosesSound | AddSoundFix.AddSoundCorrectedFinds |
