/** The two lookup tables of the sound registry and the loops that fill them
    (`CreateSoundDictionary`, `CreateTrackDictionary`).

    Both loops add entries with `Dictionary.Add`, which throws on a key that
    is already present. The registry stores the new dictionary BEFORE the
    loop runs, so a throwing build leaves a partial table behind: `Build`
    carries that partial table together with the exception, if any. */
module Indexes {
  import opened Outcomes
  import opened Sounds
  import opened Tracks

  /** Identity of an `SFXTrack` object on the managed heap. */
  type TrackRef = nat

  /** track name -> sound name -> sound */
  type SoundIndex = map<string, map<string, Sound>>

  /** track name -> track object */
  type TrackIndex = map<string, TrackRef>

  /** The table as it stands after the fill loop, and what the loop threw. */
  datatype Build<K> = Build(index: K, error: Option<Exception>)

  /** No two positions hold the same name. */
  predicate Distinct(names: seq<string>) {
    forall i, j :: 0 <= i < j < |names| ==> names[i] != names[j]
  }

  function SoundNames(sounds: seq<Sound>): (names: seq<string>)
    ensures |names| == |sounds|
    ensures forall j :: 0 <= j < |sounds| ==> names[j] == sounds[j].name
  {
    seq(|sounds|, j requires 0 <= j < |sounds| => sounds[j].name)
  }

  function TrackNames(tracks: seq<Track>): (names: seq<string>)
    ensures |names| == |tracks|
    ensures forall i :: 0 <= i < |tracks| ==> names[i] == tracks[i].name
  {
    seq(|tracks|, i requires 0 <= i < |tracks| => tracks[i].name)
  }

  function EntryNames(entries: seq<(string, TrackRef)>): (names: seq<string>)
    ensures |names| == |entries|
    ensures forall i :: 0 <= i < |entries| ==> names[i] == entries[i].0
  {
    seq(|entries|, i requires 0 <= i < |entries| => entries[i].0)
  }

  /** The inner loop of `CreateSoundDictionary`: add every sound of one track
      under its name, in list order. */
  function AddSounds(acc: map<string, Sound>, sounds: seq<Sound>): (r: Result<map<string, Sound>>)
    decreases |sounds|
    ensures r.Failure? ==> r.error == DuplicateKey
  {
    if |sounds| == 0 then Success(acc)
    else if sounds[0].name in acc then Failure(DuplicateKey)
    else AddSounds(acc[sounds[0].name := sounds[0]], sounds[1..])
  }

  /** One track's sounds go in without an exception exactly when their names
      are distinct and new. */
  lemma {:induction false} AddSoundsSucceedsIff(acc: map<string, Sound>, sounds: seq<Sound>)
    decreases |sounds|
    ensures AddSounds(acc, sounds).Success? <==>
      Distinct(SoundNames(sounds)) && forall j :: 0 <= j < |sounds| ==> sounds[j].name !in acc
  {
    if |sounds| > 0 {
      var rest := sounds[1..];
      var n := sounds[0].name;
      assert SoundNames(rest) == SoundNames(sounds)[1..];
      DistinctCons(SoundNames(sounds));
      assert n !in SoundNames(rest) <==> forall j :: 0 <= j < |rest| ==> rest[j].name != n;
      if n !in acc {
        AddSoundsSucceedsIff(acc[n := sounds[0]], rest);
        assert (forall j :: 0 <= j < |sounds| ==> sounds[j].name !in acc)
           <==> (forall j :: 0 <= j < |rest| ==> rest[j].name !in acc);
      }
    }
  }

  /** A track's sounds, once in, are found under their own names, and
      nothing else is added. */
  lemma {:induction false} AddSoundsContents(acc: map<string, Sound>, sounds: seq<Sound>)
    requires AddSounds(acc, sounds).Success?
    decreases |sounds|
    ensures AddSounds(acc, sounds).value.Keys == acc.Keys + (set s | s in sounds :: s.name)
    ensures forall j :: 0 <= j < |sounds| ==> AddSounds(acc, sounds).value[sounds[j].name] == sounds[j]
  {
    if |sounds| > 0 {
      var rest := sounds[1..];
      var n := sounds[0].name;
      AddSoundsContents(acc[n := sounds[0]], rest);
      assert (set s | s in sounds :: s.name) == {n} + (set s | s in rest :: s.name) by {
        assert sounds == [sounds[0]] + rest;
      }
      forall j | 0 < j < |sounds|
        ensures AddSounds(acc, sounds).value[sounds[j].name] == sounds[j]
      {
        assert sounds[j] == rest[j - 1];
      }
      AddSoundsKeepsNames(acc[n := sounds[0]], rest);
    }
  }

  /** Adding more sounds never replaces an entry already present. */
  lemma {:induction false} AddSoundsKeepsNames(acc: map<string, Sound>, sounds: seq<Sound>)
    requires AddSounds(acc, sounds).Success?
    decreases |sounds|
    ensures forall k :: k in acc ==> k in AddSounds(acc, sounds).value && AddSounds(acc, sounds).value[k] == acc[k]
  {
    if |sounds| > 0 {
      AddSoundsKeepsNames(acc[sounds[0].name := sounds[0]], sounds[1..]);
    }
  }

  /** Every track name is new and distinct, and no track repeats a sound name. */
  predicate WellNamed(acc: SoundIndex, tracks: seq<Track>) {
    && Distinct(TrackNames(tracks))
    && (forall i :: 0 <= i < |tracks| ==> tracks[i].name !in acc)
    && (forall i :: 0 <= i < |tracks| ==> Distinct(SoundNames(tracks[i].sounds)))
  }

  /** The outer loop of `CreateSoundDictionary`, continuing from `acc`. */
  function FillSoundIndex(acc: SoundIndex, tracks: seq<Track>): (b: Build<SoundIndex>)
    decreases |tracks|
    ensures acc.Keys <= b.index.Keys
    ensures forall k :: k in acc ==> b.index[k] == acc[k]
    ensures b.index.Keys <= acc.Keys + (set t | t in tracks :: t.name)
    ensures b.error.Some? ==> b.error.value == DuplicateKey
  {
    if |tracks| == 0 then Build(acc, None)
    else
      match AddSounds(map[], tracks[0].sounds)
      case Failure(e) => Build(acc, Some(e))
      case Success(inner) =>
        if tracks[0].name in acc then Build(acc, Some(DuplicateKey))
        else FillSoundIndex(acc[tracks[0].name := inner], tracks[1..])
  }

  /** `CreateSoundDictionary` over the tracks in array order. */
  function CreateSoundIndex(tracks: seq<Track>): Build<SoundIndex>
  {
    FillSoundIndex(map[], tracks)
  }

  /** `CreateTrackDictionary`'s loop, continuing from `acc`; each entry is a
      track's name and the track object. */
  function FillTrackIndex(acc: TrackIndex, entries: seq<(string, TrackRef)>): (b: Build<TrackIndex>)
    decreases |entries|
    ensures acc.Keys <= b.index.Keys
    ensures forall k :: k in acc ==> b.index[k] == acc[k]
    ensures b.index.Keys <= acc.Keys + (set e | e in entries :: e.0)
    ensures b.index.Values <= acc.Values + (set e | e in entries :: e.1)
    ensures b.error.Some? ==> b.error.value == DuplicateKey
  {
    if |entries| == 0 then Build(acc, None)
    else if entries[0].0 in acc then Build(acc, Some(DuplicateKey))
    else FillTrackIndex(acc[entries[0].0 := entries[0].1], entries[1..])
  }

  /** `CreateTrackDictionary` over the tracks in array order. */
  function CreateTrackIndex(entries: seq<(string, TrackRef)>): Build<TrackIndex>
  {
    FillTrackIndex(map[], entries)
  }

  lemma DistinctCons(names: seq<string>)
    requires |names| > 0
    ensures Distinct(names) <==> Distinct(names[1..]) && names[0] !in names[1..]
  {
    if Distinct(names[1..]) && names[0] !in names[1..] {
      forall i, j | 0 <= i < j < |names|
        ensures names[i] != names[j]
      {
        if i > 0 {
          assert names[i] == names[1..][i - 1] && names[j] == names[1..][j - 1];
        } else {
          assert names[j] == names[1..][j - 1];
        }
      }
    }
    if Distinct(names) {
      assert forall k :: 0 <= k < |names| - 1 ==> names[1..][k] == names[k + 1];
    }
  }

  /** `WellNamed` peeled by one track: the first track's sounds are distinct,
      its name is new, and the rest is well named once that name is taken. */
  lemma WellNamedCons(acc: SoundIndex, tracks: seq<Track>, inner: map<string, Sound>)
    requires |tracks| > 0
    ensures WellNamed(acc, tracks) <==>
      && Distinct(SoundNames(tracks[0].sounds))
      && tracks[0].name !in acc
      && WellNamed(acc[tracks[0].name := inner], tracks[1..])
  {
    var rest := tracks[1..];
    var n := tracks[0].name;
    assert TrackNames(rest) == TrackNames(tracks)[1..];
    DistinctCons(TrackNames(tracks));
    assert n !in TrackNames(rest) <==> forall i :: 0 <= i < |rest| ==> rest[i].name != n;
    forall i | 0 < i < |tracks| ensures tracks[i] == rest[i - 1] { }
  }

  /** The sound table builds without an exception exactly when track names
      are distinct (and new) and no track repeats a sound name. */
  lemma {:induction false} FillSoundIndexSucceedsIff(acc: SoundIndex, tracks: seq<Track>)
    decreases |tracks|
    ensures FillSoundIndex(acc, tracks).error.None? <==> WellNamed(acc, tracks)
  {
    if |tracks| > 0 {
      AddSoundsSucceedsIff(map[], tracks[0].sounds);
      var r := AddSounds(map[], tracks[0].sounds);
      if r.Success? {
        WellNamedCons(acc, tracks, r.value);
        if tracks[0].name !in acc {
          FillSoundIndexSucceedsIff(acc[tracks[0].name := r.value], tracks[1..]);
        }
      } else {
        WellNamedCons(acc, tracks, map[]);
      }
    }
  }

  /** After a build without exception, the sound table holds exactly the
      tracks' names. */
  lemma {:induction false} FillSoundIndexKeys(acc: SoundIndex, tracks: seq<Track>)
    requires FillSoundIndex(acc, tracks).error.None?
    decreases |tracks|
    ensures FillSoundIndex(acc, tracks).index.Keys == acc.Keys + (set t | t in tracks :: t.name)
  {
    if |tracks| > 0 {
      var rest := tracks[1..];
      var inner := AddSounds(map[], tracks[0].sounds).value;
      var acc' := acc[tracks[0].name := inner];
      assert FillSoundIndex(acc, tracks) == FillSoundIndex(acc', rest);
      FillSoundIndexKeys(acc', rest);
      TrackNameSetCons(tracks);
    }
  }

  lemma TrackNameSetCons(tracks: seq<Track>)
    requires |tracks| > 0
    ensures (set t | t in tracks :: t.name) == {tracks[0].name} + (set t | t in tracks[1..] :: t.name)
  {
    assert tracks == [tracks[0]] + tracks[1..];
  }

  /** After a build without exception, each track's entry holds exactly its
      sounds, each under its own name. */
  lemma {:induction false} FillSoundIndexEntries(acc: SoundIndex, tracks: seq<Track>)
    requires FillSoundIndex(acc, tracks).error.None?
    decreases |tracks|
    ensures forall i :: 0 <= i < |tracks| ==>
      && tracks[i].name in FillSoundIndex(acc, tracks).index
      && AddSounds(map[], tracks[i].sounds).Success?
      && FillSoundIndex(acc, tracks).index[tracks[i].name] == AddSounds(map[], tracks[i].sounds).value
  {
    if |tracks| > 0 {
      var rest := tracks[1..];
      var inner := AddSounds(map[], tracks[0].sounds).value;
      var acc' := acc[tracks[0].name := inner];
      var b := FillSoundIndex(acc, tracks);
      assert b == FillSoundIndex(acc', rest);
      FillSoundIndexEntries(acc', rest);
      forall i | 0 < i < |tracks|
        ensures tracks[i].name in b.index && b.index[tracks[i].name] == AddSounds(map[], tracks[i].sounds).value
      {
        assert tracks[i] == rest[i - 1];
      }
    }
  }

  /** Once built without exception, the sound table holds every track's name,
      under it exactly the names of that track's sounds, and each
      (track name, sound name) pair leads to that sound. */
  lemma FillSoundIndexContents(acc: SoundIndex, tracks: seq<Track>)
    requires FillSoundIndex(acc, tracks).error.None?
    ensures var m := FillSoundIndex(acc, tracks).index;
      && m.Keys == acc.Keys + (set t | t in tracks :: t.name)
      && (forall i :: 0 <= i < |tracks| ==> m[tracks[i].name].Keys == (set s | s in tracks[i].sounds :: s.name))
      && (forall i, j :: 0 <= i < |tracks| && 0 <= j < |tracks[i].sounds| ==>
            m[tracks[i].name][tracks[i].sounds[j].name] == tracks[i].sounds[j])
  {
    FillSoundIndexKeys(acc, tracks);
    FillSoundIndexEntries(acc, tracks);
    forall i | 0 <= i < |tracks| {
      AddSoundsContents(map[], tracks[i].sounds);
    }
  }

  /** The track table builds without an exception exactly when the names
      are distinct and new. */
  lemma {:induction false} FillTrackIndexSucceedsIff(acc: TrackIndex, entries: seq<(string, TrackRef)>)
    decreases |entries|
    ensures FillTrackIndex(acc, entries).error.None? <==>
      Distinct(EntryNames(entries)) && forall i :: 0 <= i < |entries| ==> entries[i].0 !in acc
  {
    if |entries| > 0 {
      var rest := entries[1..];
      var n := entries[0].0;
      assert EntryNames(rest) == EntryNames(entries)[1..];
      DistinctCons(EntryNames(entries));
      assert n !in EntryNames(rest) <==> forall i :: 0 <= i < |rest| ==> rest[i].0 != n;
      if n !in acc {
        FillTrackIndexSucceedsIff(acc[n := entries[0].1], rest);
        assert (forall i :: 0 <= i < |entries| ==> entries[i].0 !in acc)
           <==> (forall i :: 0 <= i < |rest| ==> rest[i].0 !in acc);
      }
    }
  }

  lemma EntryNameSetCons(entries: seq<(string, TrackRef)>)
    requires |entries| > 0
    ensures (set e | e in entries :: e.0) == {entries[0].0} + (set e | e in entries[1..] :: e.0)
  {
    assert entries == [entries[0]] + entries[1..];
  }

  /** After a build without exception, the track table holds exactly the
      entries' names. */
  lemma {:induction false} FillTrackIndexKeys(acc: TrackIndex, entries: seq<(string, TrackRef)>)
    requires FillTrackIndex(acc, entries).error.None?
    decreases |entries|
    ensures FillTrackIndex(acc, entries).index.Keys == acc.Keys + (set e | e in entries :: e.0)
  {
    if |entries| > 0 {
      var acc' := acc[entries[0].0 := entries[0].1];
      assert FillTrackIndex(acc, entries) == FillTrackIndex(acc', entries[1..]);
      FillTrackIndexKeys(acc', entries[1..]);
      EntryNameSetCons(entries);
    }
  }

  /** After a build without exception, the track table maps every entry's
      name to its track, and holds no other name. */
  lemma {:induction false} FillTrackIndexContents(acc: TrackIndex, entries: seq<(string, TrackRef)>)
    requires FillTrackIndex(acc, entries).error.None?
    decreases |entries|
    ensures FillTrackIndex(acc, entries).index.Keys == acc.Keys + (set e | e in entries :: e.0)
    ensures forall i :: 0 <= i < |entries| ==> FillTrackIndex(acc, entries).index[entries[i].0] == entries[i].1
  {
    FillTrackIndexKeys(acc, entries);
    if |entries| > 0 {
      var rest := entries[1..];
      var acc' := acc[entries[0].0 := entries[0].1];
      var b := FillTrackIndex(acc, entries);
      assert b == FillTrackIndex(acc', rest);
      FillTrackIndexContents(acc', rest);
      forall i | 0 < i < |entries|
        ensures b.index[entries[i].0] == entries[i].1
      {
        assert entries[i] == rest[i - 1];
      }
    }
  }

  /** Whatever a sound-table build leaves behind, even after an exception,
      names only tracks that the track-table build over the same array holds. */
  lemma {:induction false} PartialSoundKeysWithinTrackKeys(
    accS: SoundIndex, accT: TrackIndex, tracks: seq<Track>, entries: seq<(string, TrackRef)>)
    requires accS.Keys == accT.Keys
    requires |tracks| == |entries|
    requires forall i :: 0 <= i < |tracks| ==> tracks[i].name == entries[i].0
    decreases |tracks|
    ensures FillSoundIndex(accS, tracks).index.Keys <= FillTrackIndex(accT, entries).index.Keys
  {
    if |tracks| > 0 {
      var n := tracks[0].name;
      var r := AddSounds(map[], tracks[0].sounds);
      if r.Success? && n !in accS {
        PartialSoundKeysWithinTrackKeys(accS[n := r.value], accT[n := entries[0].1], tracks[1..], entries[1..]);
      }
    }
  }

  /** The sound table depends only on the tracks' names and sound lists, not
      on their voices. */
  lemma {:induction false} SoundIndexIgnoresVoices(acc: SoundIndex, a: seq<Track>, b: seq<Track>)
    requires |a| == |b|
    requires forall i :: 0 <= i < |a| ==> a[i].name == b[i].name && a[i].sounds == b[i].sounds
    decreases |a|
    ensures FillSoundIndex(acc, a) == FillSoundIndex(acc, b)
  {
    if |a| > 0 {
      var r := AddSounds(map[], a[0].sounds);
      if r.Success? && a[0].name !in acc {
        SoundIndexIgnoresVoices(acc[a[0].name := r.value], a[1..], b[1..]);
      }
    }
  }
}
