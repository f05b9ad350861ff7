/** `AddSound` adds only when `TryGetTrack` reports a miss, the opposite of
    what its summary promises. This module sets the method as written
    against the method with the condition the other way round. */
module AddSoundFix {
  import opened Outcomes
  import opened Sounds
  import opened Tracks
  import opened Indexes
  import opened Manager
  import opened RegistryFacts

  /** `AddSound` with the `!` removed: add to the track's sound table entry
      when the track is found. */
  function AddSoundCorrected(r: Registry, sound: Sound, trackName: string): (s: Step<()>)
    requires WellFormed(r)
    ensures WellFormed(s.next)
    ensures s.next.tracks == r.tracks && s.next.objects == r.objects
    ensures var c := CheckForSoundIndex(r);
      && (c.result.Failure? ==> s == Step(c.next, Failure(DuplicateKey)))
      && (c.result.Success? ==> s.next.trackIndex == CheckForTrackIndex(c.next).next.trackIndex)
      && (c.result.Success? && CheckForTrackIndex(c.next).result.Success? && trackName !in s.next.trackIndex.value ==>
            s == Step(s.next, Success(())) && s.next.soundIndex == c.next.soundIndex)
  {
    var c := CheckForSoundIndex(r);
    if c.result.Failure? then Step(c.next, Failure(c.result.error))
    else
      var g := TryGetTrack(c.next, trackName);
      if g.result.Failure? then Step(g.next, Failure(g.result.error))
      else if !g.result.value.0 then Step(g.next, Success(()))
      else
        var m := g.next.soundIndex.value;
        if trackName !in m then Step(g.next, Failure(KeyNotFound))
        else if sound.name in m[trackName] then Step(g.next, Failure(DuplicateKey))
        else Step(g.next.(soundIndex := Some(m[trackName := m[trackName][sound.name := sound]])), Success(()))
  }

  /** `sound` shares no name with the sounds of `t`. */
  predicate NewToTrack(sound: Sound, t: Track) {
    forall j :: 0 <= j < |t.sounds| ==> t.sounds[j].name != sound.name
  }

  /** The state after the two index checks `AddSound` makes on a registered
      track: nothing but the tables differ, and both are the clean builds. */
  lemma ChecksOnRegistered(r: Registry, i: int)
    requires Inv(r) && WellNamed(map[], TrackValues(r))
    requires 0 <= i < |r.tracks|
    ensures var c := CheckForSoundIndex(r);
      var g := TryGetTrack(c.next, TrackValues(r)[i].name);
      && c.result.Success? && CreateSoundIndex(TrackValues(r)).error.None?
      && g.result == Success((true, Some(r.tracks[i])))
      && Inv(g.next) && TrackValues(g.next) == TrackValues(r)
      && g.next.soundIndex == Some(CreateSoundIndex(TrackValues(r)).index)
  {
    FillSoundIndexSucceedsIff(map[], TrackValues(r));
    var c := CheckForSoundIndex(r);
    CheckForSoundIndexKeepsInv(r);
    assert TrackValues(c.next) == TrackValues(r);
    TryGetTrackFindsRegistered(c.next, i);
    CheckForTrackIndexKeepsInv(c.next);
  }

  /** As written: adding a new sound to a registered track returns normally,
      yet the sound cannot be found afterwards. */
  lemma AddSoundLosesSound(r: Registry, i: int, sound: Sound)
    requires Inv(r) && WellNamed(map[], TrackValues(r))
    requires 0 <= i < |r.tracks| && NewToTrack(sound, TrackValues(r)[i])
    ensures var t := TrackValues(r)[i];
      var s := AddSound(r, sound, t.name);
      && s.result.Success?
      && TryGetSoundByName(s.next, t.name, sound.name).result == Success((false, None))
  {
    var t := TrackValues(r)[i];
    ChecksOnRegistered(r, i);
    FillSoundIndexContents(map[], TrackValues(r));
    assert TrackValues(r)[i] == t;
  }

  /** Corrected, on a registered track and a new sound name: the call
      returns normally and writes exactly the one new entry. */
  lemma AddSoundCorrectedWrites(r: Registry, i: int, sound: Sound)
    requires Inv(r) && WellNamed(map[], TrackValues(r))
    requires 0 <= i < |r.tracks| && NewToTrack(sound, TrackValues(r)[i])
    ensures var t := TrackValues(r)[i];
      var m := CreateSoundIndex(TrackValues(r)).index;
      var s := AddSoundCorrected(r, sound, t.name);
      && s.result.Success?
      && t.name in m
      && s.next.soundIndex == Some(m[t.name := m[t.name][sound.name := sound]])
  {
    var t := TrackValues(r)[i];
    ChecksOnRegistered(r, i);
    FillSoundIndexContents(map[], TrackValues(r));
    assert TrackValues(r)[i] == t;
  }

  /** Corrected: the same call returns normally and the sound is found under
      (track name, sound name) afterwards. */
  lemma AddSoundCorrectedFinds(r: Registry, i: int, sound: Sound)
    requires Inv(r) && WellNamed(map[], TrackValues(r))
    requires 0 <= i < |r.tracks| && NewToTrack(sound, TrackValues(r)[i])
    ensures var t := TrackValues(r)[i];
      var s := AddSoundCorrected(r, sound, t.name);
      && s.result.Success?
      && TryGetSoundByName(s.next, t.name, sound.name).result == Success((true, Some(sound)))
  {
    AddSoundCorrectedWrites(r, i, sound);
  }

  /** A lookup in a state whose sound table is already built reads that
      table. */
  lemma LookupInBuiltTable(x: Registry, m: SoundIndex, trackName: string, soundName: string)
    requires WellFormed(x) && x.soundIndex == Some(m)
    requires trackName in m && soundName in m[trackName]
    ensures TryGetSoundByName(x, trackName, soundName).result == Success((true, Some(m[trackName][soundName])))
  {
  }

  /** Adding one sound to one entry keeps every other (track, sound) pair. */
  lemma WriteKeepsOtherPairs(m: SoundIndex, trackName: string, sound: Sound, u: string, v: string)
    requires trackName in m && u in m && v in m[u]
    requires u == trackName ==> v != sound.name
    ensures var m' := m[trackName := m[trackName][sound.name := sound]];
      u in m' && v in m'[u] && m'[u][v] == m[u][v]
  {
  }

  /** Corrected, the other sounds stay where they were: every sound of every
      track is still found after the addition. */
  lemma AddSoundCorrectedKeepsOthers(r: Registry, i: int, sound: Sound, a: int, b: int)
    requires Inv(r) && WellNamed(map[], TrackValues(r))
    requires 0 <= i < |r.tracks| && NewToTrack(sound, TrackValues(r)[i])
    requires 0 <= a < |r.tracks| && 0 <= b < |TrackValues(r)[a].sounds|
    ensures var t := TrackValues(r)[i];
      var u := TrackValues(r)[a];
      var s := AddSoundCorrected(r, sound, t.name);
      TryGetSoundByName(s.next, u.name, u.sounds[b].name).result == Success((true, Some(u.sounds[b])))
  {
    var ts := TrackValues(r);
    var t, u := ts[i], ts[a];
    var m := CreateSoundIndex(ts).index;
    AddSoundCorrectedWrites(r, i, sound);
    FillSoundIndexSucceedsIff(map[], ts);
    FillSoundIndexContents(map[], ts);
    assert u.name in m && u.sounds[b].name in m[u.name] && m[u.name][u.sounds[b].name] == u.sounds[b];
    if u.name == t.name {
      assert TrackNames(ts)[a] == TrackNames(ts)[i];
    }
    WriteKeepsOtherPairs(m, t.name, sound, u.name, u.sounds[b].name);
    var s := AddSoundCorrected(r, sound, t.name);
    LookupInBuiltTable(s.next, m[t.name := m[t.name][sound.name := sound]], u.name, u.sounds[b].name);
  }
}
