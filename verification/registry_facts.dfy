/** What holds of every state the manager can reach from its loaded asset:
    the sound table, once built, is exactly the table built from `_tracks`
    (no call ever adds to it), the track table only grows, and lookups and
    plays find exactly the sounds the tracks hold. */
module RegistryFacts {
  import opened Outcomes
  import opened Sounds
  import opened Tracks
  import opened Indexes
  import opened Manager

  /** Every entry of `a` is in `b` with the same value. */
  predicate IsSubmap<K, V(==)>(a: map<K, V>, b: map<K, V>) {
    forall k :: k in a ==> k in b && b[k] == a[k]
  }

  /** The sound table, when built, is the one `_tracks` yields (partial if
      that build threw); the track table, when built, contains the one
      `_tracks` yields, plus whatever `AddTrack` inserted; every voice has an
      identity of its own, below the count of voices created. */
  predicate Inv(r: Registry) {
    && WellFormed(r)
    && (r.soundIndex.Some? ==> r.soundIndex.value == CreateSoundIndex(TrackValues(r)).index)
    && (r.trackIndex.Some? ==> IsSubmap(CreateTrackIndex(Entries(r)).index, r.trackIndex.value))
    && VoiceIdsBelow(r.objects, r.voicesCreated)
    && VoiceIdsDistinct(r.objects)
  }

  lemma LoadedInv(tracks: seq<TrackRef>, objects: map<TrackRef, Track>, voicesCreated: nat)
    requires forall i :: 0 <= i < |tracks| ==> tracks[i] in objects
    requires VoiceIdsBelow(objects, voicesCreated) && VoiceIdsDistinct(objects)
    ensures Inv(Loaded(tracks, objects, voicesCreated))
  {
  }

  /** Every track name the sound table can hold, the track table holds too. */
  lemma SoundKeysWithinTrackKeys(r: Registry)
    requires WellFormed(r)
    ensures CreateSoundIndex(TrackValues(r)).index.Keys <= CreateTrackIndex(Entries(r)).index.Keys
  {
    PartialSoundKeysWithinTrackKeys(map[], map[], TrackValues(r), Entries(r));
  }

  /** Two states whose `_tracks` objects differ at most in their voices yield
      the same tables. */
  lemma SameTables(r: Registry, r': Registry)
    requires WellFormed(r) && WellFormed(r')
    requires r'.tracks == r.tracks
    requires forall i :: 0 <= i < |r.tracks| ==>
      r'.objects[r.tracks[i]].name == r.objects[r.tracks[i]].name
      && r'.objects[r.tracks[i]].sounds == r.objects[r.tracks[i]].sounds
    ensures Entries(r') == Entries(r)
    ensures CreateSoundIndex(TrackValues(r')) == CreateSoundIndex(TrackValues(r))
  {
    SoundIndexIgnoresVoices(map[], TrackValues(r'), TrackValues(r));
  }

  lemma CheckForSoundIndexKeepsInv(r: Registry)
    requires Inv(r)
    ensures Inv(CheckForSoundIndex(r).next)
  {
  }

  lemma CheckForTrackIndexKeepsInv(r: Registry)
    requires Inv(r)
    ensures Inv(CheckForTrackIndex(r).next)
  {
  }

  /** Building a table happens at most once: after a first check, a second
      one changes nothing and throws nothing, even when the first threw and
      left a partial table. */
  lemma TablesBuiltAtMostOnce(r: Registry)
    requires WellFormed(r)
    ensures var s := CheckForSoundIndex(r).next; CheckForSoundIndex(s) == Step(s, Success(()))
    ensures var t := CheckForTrackIndex(r).next; CheckForTrackIndex(t) == Step(t, Success(()))
  {
  }

  /** `AddSound` never writes: under the invariant a track missing from the
      track table is missing from the sound table too, so the one branch
      that writes always throws `KeyNotFound` first. */
  lemma AddSoundNeverAdds(r: Registry, sound: Sound, trackName: string)
    requires Inv(r)
    ensures var s := AddSound(r, sound, trackName);
      var c := CheckForSoundIndex(r);
      var g := TryGetTrack(c.next, trackName);
      && s.next.soundIndex == c.next.soundIndex
      && (c.result.Success? && g.result.Success? ==>
            && (s.result.Success? <==> g.result.value.0)
            && (s.result.Failure? ==> s.result.error == KeyNotFound))
  {
    var c := CheckForSoundIndex(r);
    CheckForSoundIndexKeepsInv(r);
    CheckForTrackIndexKeepsInv(c.next);
    if c.result.Success? {
      var g := TryGetTrack(c.next, trackName);
      if g.result.Success? && !g.result.value.0 {
        SoundKeysWithinTrackKeys(c.next);
        assert trackName !in g.next.soundIndex.value;
      }
    }
  }

  lemma AddSoundKeepsInv(r: Registry, sound: Sound, trackName: string)
    requires Inv(r)
    ensures Inv(AddSound(r, sound, trackName).next)
  {
    AddSoundNeverAdds(r, sound, trackName);
    var c := CheckForSoundIndex(r);
    CheckForSoundIndexKeepsInv(r);
    CheckForTrackIndexKeepsInv(c.next);
  }

  /** `AddTrack` leaves the sound table as it was: a track added this way is
      never known to `TryGetSoundByName`. */
  lemma AddTrackKeepsInv(r: Registry, ref: TrackRef)
    requires Inv(r) && ref in r.objects
    ensures Inv(AddTrack(r, ref).next)
    ensures AddTrack(r, ref).next.soundIndex == r.soundIndex
  {
    CheckForTrackIndexKeepsInv(r);
  }

  /** `AddSoundToNewTrack` never adds the sound: after it, the sound table is
      still exactly the one `_tracks` yields, and once the track went in and
      that table built cleanly, it reports success all the same. */
  lemma AddSoundToNewTrackNeverAdds(r: Registry, sound: Sound, ref: TrackRef)
    requires Inv(r) && ref in r.objects
    ensures var s := AddSoundToNewTrack(r, sound, ref);
      && Inv(s.next)
      && (s.next.soundIndex.Some? ==> s.next.soundIndex.value == CreateSoundIndex(TrackValues(r)).index)
      && (AddTrack(r, ref).result.Success? && (r.soundIndex.Some? || WellNamed(map[], TrackValues(r))) ==>
            s.result.Success?)
  {
    var a := AddTrack(r, ref);
    AddTrackKeepsInv(r, ref);
    if a.result.Success? {
      AddSoundNeverAdds(a.next, sound, r.objects[ref].name);
      AddSoundKeepsInv(a.next, sound, r.objects[ref].name);
    }
  }

  /** A lookup hits exactly when both names are in the sound table: so with
      a cleanly built table, every sound of every track is found under
      (track name, sound name). */
  lemma TryGetSoundFindsRegistered(r: Registry, i: int, j: int)
    requires Inv(r) && WellNamed(map[], TrackValues(r))
    requires 0 <= i < |r.tracks| && 0 <= j < |TrackValues(r)[i].sounds|
    ensures var t := TrackValues(r)[i];
      TryGetSoundByName(r, t.name, t.sounds[j].name).result == Success((true, Some(t.sounds[j])))
  {
    FillSoundIndexSucceedsIff(map[], TrackValues(r));
    FillSoundIndexContents(map[], TrackValues(r));
  }

  /** ... and a pair that names no sound of any track is a miss, reported
      without an exception. */
  lemma TryGetSoundMissesUnregistered(r: Registry, trackName: string, soundName: string)
    requires Inv(r) && WellNamed(map[], TrackValues(r))
    requires forall i, j :: 0 <= i < |r.tracks| && 0 <= j < |TrackValues(r)[i].sounds| ==>
      !(TrackValues(r)[i].name == trackName && TrackValues(r)[i].sounds[j].name == soundName)
    ensures TryGetSoundByName(r, trackName, soundName).result.Success?
    ensures !TryGetSoundByName(r, trackName, soundName).result.value.0
  {
    var ts := TrackValues(r);
    FillSoundIndexSucceedsIff(map[], ts);
    FillSoundIndexContents(map[], ts);
  }

  /** With cleanly built tables, the track table maps each track's name to
      its own object. */
  lemma TryGetTrackFindsRegistered(r: Registry, i: int)
    requires Inv(r) && WellNamed(map[], TrackValues(r))
    requires 0 <= i < |r.tracks|
    ensures TryGetTrack(r, TrackValues(r)[i].name).result == Success((true, Some(r.tracks[i])))
  {
    assert EntryNames(Entries(r)) == TrackNames(TrackValues(r));
    FillTrackIndexSucceedsIff(map[], Entries(r));
    FillTrackIndexContents(map[], Entries(r));
    assert Entries(r)[i] == (TrackValues(r)[i].name, r.tracks[i]);
  }

  /** Playing a registered pair plays that sound on that track's object and
      changes no other object. */
  lemma PlayRegistered(r: Registry, i: int, j: int)
    requires Inv(r) && WellNamed(map[], TrackValues(r))
    requires 0 <= i < |r.tracks| && 0 <= j < |TrackValues(r)[i].sounds|
    ensures var t := TrackValues(r)[i];
      var s := Play(r, t.name, t.sounds[j].name);
      && s.result.Success?
      && s.next.objects == r.objects[r.tracks[i] := PlaySound(t, t.sounds[j], r.voicesCreated)]
  {
    var t := TrackValues(r)[i];
    TryGetSoundFindsRegistered(r, i, j);
    var c := TryGetSoundByName(r, t.name, t.sounds[j].name).next;
    CheckForSoundIndexKeepsInv(r);
    assert TrackValues(c) == TrackValues(r);
    TryGetTrackFindsRegistered(c, i);
  }

  /** Playing a pair that names no sound of any track plays nothing. */
  lemma PlayUnregisteredPlaysNothing(r: Registry, trackName: string, soundName: string)
    requires Inv(r) && WellNamed(map[], TrackValues(r))
    requires forall i, j :: 0 <= i < |r.tracks| && 0 <= j < |TrackValues(r)[i].sounds| ==>
      !(TrackValues(r)[i].name == trackName && TrackValues(r)[i].sounds[j].name == soundName)
    ensures Play(r, trackName, soundName).result.Success?
    ensures Play(r, trackName, soundName).next.objects == r.objects
  {
    TryGetSoundMissesUnregistered(r, trackName, soundName);
  }

  /** Playing on one object keeps every voice identity distinct and below
      the count: a new voice takes the count itself. */
  lemma PlayedOnKeepsVoiceIds(g: Registry, ref: TrackRef, sound: Sound)
    requires ref in g.objects
    requires VoiceIdsBelow(g.objects, g.voicesCreated) && VoiceIdsDistinct(g.objects)
    ensures VoiceIdsBelow(PlayedOn(g, ref, sound).objects, PlayedOn(g, ref, sound).voicesCreated)
    ensures VoiceIdsDistinct(PlayedOn(g, ref, sound).objects)
  {
    var g' := PlayedOn(g, ref, sound);
    var after := g'.objects[ref];
    assert after == PlaySound(g.objects[ref], sound, g.voicesCreated);
    forall a | a in g'.objects && a != ref && g'.objects[a].voice.Some?
      ensures g'.objects[a].voice.value.id != after.voice.value.id
    {
      assert g'.objects[a] == g.objects[a];
    }
  }

  /** Playing a sound on one track object changes only its voice, so the
      invariant survives. */
  lemma PlayingOneObjectKeepsInv(g: Registry, ref: TrackRef, sound: Sound)
    requires Inv(g) && ref in g.objects
    ensures Inv(PlayedOn(g, ref, sound))
  {
    SameTables(g, PlayedOn(g, ref, sound));
    PlayedOnKeepsVoiceIds(g, ref, sound);
  }

  lemma PlayKeepsInv(r: Registry, trackName: string, soundName: string)
    requires Inv(r)
    ensures Inv(Play(r, trackName, soundName).next)
  {
    var c := CheckForSoundIndex(r);
    CheckForSoundIndexKeepsInv(r);
    var t := TryGetSoundByName(r, trackName, soundName);
    if t.result.Success? && t.result.value.0 {
      CheckForTrackIndexKeepsInv(c.next);
      var g := TryGetTrack(t.next, trackName);
      if g.result.Success? && g.result.value.0 {
        var ref := g.result.value.1.value;
        PlayingOneObjectKeepsInv(g.next, ref, t.result.value.1.value);
        assert Play(r, trackName, soundName).next == PlayedOn(g.next, ref, t.result.value.1.value);
      }
    }
  }

  /** A voice that `Play` creates is new: no track had a voice with its
      identity before, and afterwards no other track has one. */
  lemma PlayVoiceIsFresh(r: Registry, trackName: string, soundName: string, ref: TrackRef)
    requires Inv(r) && ref in r.objects && r.objects[ref].voice.None?
    ensures var s := Play(r, trackName, soundName);
      s.next.objects[ref].voice.Some? ==>
        && (forall a :: a in r.objects && r.objects[a].voice.Some? ==>
              r.objects[a].voice.value.id != s.next.objects[ref].voice.value.id)
        && (forall a :: a in s.next.objects && a != ref && s.next.objects[a].voice.Some? ==>
              s.next.objects[a].voice.value.id != s.next.objects[ref].voice.value.id)
  {
    var s := Play(r, trackName, soundName);
    PlayKeepsInv(r, trackName, soundName);
    if s.next.objects[ref].voice.Some? {
      var id := s.next.objects[ref].voice.value.id;
      assert id == r.voicesCreated by {
        var t := TryGetSoundByName(r, trackName, soundName);
        var g := TryGetTrack(t.next, trackName);
        assert t.result.Success? && t.result.value.0 && g.result.Success? && g.result.value.0;
        var played := g.result.value.1.value;
        assert s.next.objects == r.objects[played := PlaySound(r.objects[played], t.result.value.1.value, r.voicesCreated)];
        assert played == ref;
      }
      assert VoiceIdsBelow(r.objects, r.voicesCreated);
      assert VoiceIdsDistinct(s.next.objects);
    }
  }

  /** One public call on the manager. */
  datatype Call =
    | GetSoundCall(trackName: string, soundName: string)
    | TryGetSoundCall(trackName: string, soundName: string)
    | GetTrackCall(trackName: string)
    | TryGetTrackCall(trackName: string)
    | PlayCall(trackName: string, soundName: string)
    | PlayKeyCall(key: string)
    | AddTrackCall(ref: TrackRef)
    | AddSoundCall(sound: Sound, trackName: string)
    | AddSoundToNewTrackCall(sound: Sound, ref: TrackRef)

  /** The track object a call passes in exists. */
  predicate CallableOn(objects: set<TrackRef>, c: Call) {
    (c.AddTrackCall? || c.AddSoundToNewTrackCall?) ==> c.ref in objects
  }

  /** The manager's state after one call, whatever it returned or threw. */
  function Apply(r: Registry, c: Call): (r': Registry)
    requires WellFormed(r) && CallableOn(r.objects.Keys, c)
    ensures WellFormed(r') && r'.tracks == r.tracks && r'.objects.Keys == r.objects.Keys
  {
    match c
    case GetSoundCall(t, s) => GetSoundByName(r, t, s).next
    case TryGetSoundCall(t, s) => TryGetSoundByName(r, t, s).next
    case GetTrackCall(t) => GetTrack(r, t).next
    case TryGetTrackCall(t) => TryGetTrack(r, t).next
    case PlayCall(t, s) => Play(r, t, s).next
    case PlayKeyCall(k) => PlayKey(r, k).next
    case AddTrackCall(ref) => AddTrack(r, ref).next
    case AddSoundCall(s, t) => AddSound(r, s, t).next
    case AddSoundToNewTrackCall(s, ref) => AddSoundToNewTrack(r, s, ref).next
  }

  /** `r'` keeps the invariant, a sound table built in `r` is unchanged in
      `r'`, and a track table built in `r` has lost no entry in `r'`. */
  predicate Follows(r: Registry, r': Registry) {
    && Inv(r')
    && (r.soundIndex.Some? ==> r'.soundIndex == r.soundIndex)
    && (r.trackIndex.Some? ==> r'.trackIndex.Some? && IsSubmap(r.trackIndex.value, r'.trackIndex.value))
  }

  lemma LookupsFollow(r: Registry, trackName: string, soundName: string)
    requires Inv(r)
    ensures Follows(r, TryGetSoundByName(r, trackName, soundName).next)
    ensures Follows(r, GetSoundByName(r, trackName, soundName).next)
    ensures Follows(r, TryGetTrack(r, trackName).next)
    ensures Follows(r, GetTrack(r, trackName).next)
  {
    CheckForSoundIndexKeepsInv(r);
    CheckForTrackIndexKeepsInv(r);
  }

  lemma PlaysFollow(r: Registry, trackName: string, soundName: string, key: string)
    requires Inv(r)
    ensures Follows(r, Play(r, trackName, soundName).next)
    ensures Follows(r, PlayKey(r, key).next)
  {
    PlayKeepsInv(r, trackName, soundName);
    if '_' in key {
      PlayKeepsInv(r, SplitKey(key).value.0, SplitKey(key).value.1);
    }
  }

  lemma AddTrackFollows(r: Registry, ref: TrackRef)
    requires Inv(r) && ref in r.objects
    ensures Follows(r, AddTrack(r, ref).next)
  {
    AddTrackKeepsInv(r, ref);
  }

  lemma AddSoundFollows(r: Registry, sound: Sound, trackName: string)
    requires Inv(r)
    ensures Follows(r, AddSound(r, sound, trackName).next)
  {
    CheckForSoundIndexKeepsInv(r);
    AddSoundNeverAdds(r, sound, trackName);
    AddSoundKeepsInv(r, sound, trackName);
  }

  lemma AddSoundToNewTrackFollows(r: Registry, sound: Sound, ref: TrackRef)
    requires Inv(r) && ref in r.objects
    ensures Follows(r, AddSoundToNewTrack(r, sound, ref).next)
  {
    AddTrackFollows(r, ref);
    var a := AddTrack(r, ref);
    if a.result.Success? {
      AddSoundFollows(a.next, sound, r.objects[ref].name);
    }
  }

  /** Every call keeps the invariant; once built, the sound table is never
      changed and the track table never loses an entry. */
  lemma ApplyFollows(r: Registry, c: Call)
    requires Inv(r) && CallableOn(r.objects.Keys, c)
    ensures Follows(r, Apply(r, c))
  {
    match c
    case GetSoundCall(t, s) => LookupsFollow(r, t, s);
    case TryGetSoundCall(t, s) => LookupsFollow(r, t, s);
    case GetTrackCall(t) => LookupsFollow(r, t, "");
    case TryGetTrackCall(t) => LookupsFollow(r, t, "");
    case PlayCall(t, s) => PlaysFollow(r, t, s, "");
    case PlayKeyCall(k) => PlaysFollow(r, "", "", k);
    case AddTrackCall(ref) => AddTrackFollows(r, ref);
    case AddSoundCall(s, t) => AddSoundFollows(r, s, t);
    case AddSoundToNewTrackCall(s, ref) => AddSoundToNewTrackFollows(r, s, ref);
  }

  /** The state after a sequence of calls. */
  function Run(r: Registry, calls: seq<Call>): (r': Registry)
    requires WellFormed(r)
    requires forall k :: 0 <= k < |calls| ==> CallableOn(r.objects.Keys, calls[k])
    ensures WellFormed(r') && r'.tracks == r.tracks && r'.objects.Keys == r.objects.Keys
    decreases |calls|
  {
    if |calls| == 0 then r else Run(Apply(r, calls[0]), calls[1..])
  }

  /** Over any sequence of calls from a reachable state: the invariant
      holds, a built sound table stays exactly as built, and a built track
      table keeps every entry it had. */
  lemma {:induction false} RunKeepsTables(r: Registry, calls: seq<Call>)
    requires Inv(r)
    requires forall k :: 0 <= k < |calls| ==> CallableOn(r.objects.Keys, calls[k])
    decreases |calls|
    ensures Inv(Run(r, calls))
    ensures r.soundIndex.Some? ==> Run(r, calls).soundIndex == r.soundIndex
    ensures r.trackIndex.Some? ==>
      Run(r, calls).trackIndex.Some? && IsSubmap(r.trackIndex.value, Run(r, calls).trackIndex.value)
  {
    if |calls| > 0 {
      ApplyFollows(r, calls[0]);
      RunKeepsTables(Apply(r, calls[0]), calls[1..]);
    }
  }
}
