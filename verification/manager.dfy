/** `ScriptableSFXManager`: the registry of tracks with its two lazily built
    tables, the lookups in both styles (a `Try` lookup reporting a miss
    through its boolean, a direct lookup throwing on it), the two ways to
    play, and the three ways to add.

    C# mutation is modelled functionally: every operation takes the
    manager's state and returns a `Step`, the state afterwards together with
    the value returned or the exception thrown. Track objects are reference
    types shared between `_tracks` and the track table, so they live in
    `objects` and are referred to by `TrackRef`. */
module Manager {
  import opened Outcomes
  import opened Sounds
  import opened Tracks
  import opened Indexes
  import opened CsStrings

  /** `_tracks`, the track objects, the two tables (`None` while still
      `null`) and the number of voices created so far, which is the identity
      the next created voice gets. */
  datatype Registry = Registry(
    tracks: seq<TrackRef>,
    objects: map<TrackRef, Track>,
    soundIndex: Option<SoundIndex>,
    trackIndex: Option<TrackIndex>,
    voicesCreated: nat)

  /** The state after a call, and what the call returned or threw. */
  datatype Step<T> = Step(next: Registry, result: Result<T>)

  /** Every reference the manager holds leads to a track object. */
  predicate WellFormed(r: Registry) {
    && (forall i :: 0 <= i < |r.tracks| ==> r.tracks[i] in r.objects)
    && (r.trackIndex.Some? ==> forall n :: n in r.trackIndex.value ==> r.trackIndex.value[n] in r.objects)
  }

  /** Every voice already created has an identity below `count`. */
  predicate VoiceIdsBelow(objects: map<TrackRef, Track>, count: nat) {
    forall ref :: ref in objects && objects[ref].voice.Some? ==> objects[ref].voice.value.id < count
  }

  /** No two track objects share a voice. */
  predicate VoiceIdsDistinct(objects: map<TrackRef, Track>) {
    forall a, b :: a in objects && b in objects && a != b && objects[a].voice.Some? && objects[b].voice.Some? ==>
      objects[a].voice.value.id != objects[b].voice.value.id
  }

  /** The manager as loaded from its asset: both tables still `null`, and
      `voicesCreated` voices made so far, each on its own track. */
  function Loaded(tracks: seq<TrackRef>, objects: map<TrackRef, Track>, voicesCreated: nat): (r: Registry)
    requires forall i :: 0 <= i < |tracks| ==> tracks[i] in objects
    requires VoiceIdsBelow(objects, voicesCreated) && VoiceIdsDistinct(objects)
    ensures WellFormed(r) && r.soundIndex.None? && r.trackIndex.None?
    ensures r.tracks == tracks && r.objects == objects && r.voicesCreated == voicesCreated
  {
    Registry(tracks, objects, None, None, voicesCreated)
  }

  /** The track objects of `_tracks`, in array order. */
  function TrackValues(r: Registry): (ts: seq<Track>)
    requires WellFormed(r)
    ensures |ts| == |r.tracks|
    ensures forall i :: 0 <= i < |ts| ==> ts[i] == r.objects[r.tracks[i]]
  {
    seq(|r.tracks|, i requires 0 <= i < |r.tracks| && WellFormed(r) => r.objects[r.tracks[i]])
  }

  /** (name, object) for each element of `_tracks`, in array order. */
  function Entries(r: Registry): (es: seq<(string, TrackRef)>)
    requires WellFormed(r)
    ensures |es| == |r.tracks|
    ensures forall i :: 0 <= i < |es| ==> es[i] == (r.objects[r.tracks[i]].name, r.tracks[i])
  {
    seq(|r.tracks|, i requires 0 <= i < |r.tracks| && WellFormed(r) => (r.objects[r.tracks[i]].name, r.tracks[i]))
  }

  /** `GetTracks`: `new List<SFXTrack>(_tracks)` copies the array element by
      element into a list of its own. */
  method GetTracks(r: Registry) returns (list: seq<TrackRef>)
    ensures |list| == |r.tracks|
    ensures forall i :: 0 <= i < |list| ==> list[i] == r.tracks[i]
  {
    list := [];
    var i := 0;
    while i < |r.tracks|
      invariant 0 <= i <= |r.tracks|
      invariant list == r.tracks[..i]
    {
      list := list + [r.tracks[i]];
      i := i + 1;
    }
  }

  /** `CheckForSoundDictionary`: build the sound table if it is still `null`.
      The table is stored even when the build throws part-way. */
  function CheckForSoundIndex(r: Registry): (s: Step<()>)
    requires WellFormed(r)
    ensures WellFormed(s.next) && s.next.soundIndex.Some?
    ensures s.next == r.(soundIndex := s.next.soundIndex)
    ensures r.soundIndex.Some? ==> s == Step(r, Success(()))
    ensures r.soundIndex.None? ==> s.next.soundIndex.value == CreateSoundIndex(TrackValues(r)).index
    ensures s.result.Failure? <==> r.soundIndex.None? && !WellNamed(map[], TrackValues(r))
    ensures s.result.Failure? ==> s.result.error == DuplicateKey
  {
    if r.soundIndex.Some? then Step(r, Success(()))
    else
      var b := CreateSoundIndex(TrackValues(r));
      FillSoundIndexSucceedsIff(map[], TrackValues(r));
      Step(r.(soundIndex := Some(b.index)),
           if b.error.Some? then Failure(b.error.value) else Success(()))
  }

  /** `CheckForTrackDictionary`: build the track table if it is still `null`;
      like the sound table, a partial table is kept when the build throws. */
  function CheckForTrackIndex(r: Registry): (s: Step<()>)
    requires WellFormed(r)
    ensures WellFormed(s.next) && s.next.trackIndex.Some?
    ensures s.next == r.(trackIndex := s.next.trackIndex)
    ensures r.trackIndex.Some? ==> s == Step(r, Success(()))
    ensures r.trackIndex.None? ==> s.next.trackIndex.value == CreateTrackIndex(Entries(r)).index
    ensures s.result.Failure? <==> r.trackIndex.None? && !Distinct(EntryNames(Entries(r)))
    ensures s.result.Failure? ==> s.result.error == DuplicateKey
  {
    if r.trackIndex.Some? then Step(r, Success(()))
    else
      var b := CreateTrackIndex(Entries(r));
      FillTrackIndexSucceedsIff(map[], Entries(r));
      BuiltTrackIndexRefsValid(r);
      Step(r.(trackIndex := Some(b.index)),
           if b.error.Some? then Failure(b.error.value) else Success(()))
  }

  /** Every object the built track table names is one of `_tracks`' objects. */
  lemma BuiltTrackIndexRefsValid(r: Registry)
    requires WellFormed(r)
    ensures forall n :: n in CreateTrackIndex(Entries(r)).index ==> CreateTrackIndex(Entries(r)).index[n] in r.objects
  {
    var es := Entries(r);
    var m := CreateTrackIndex(es).index;
    forall n | n in m
      ensures m[n] in r.objects
    {
      assert m[n] in m.Values;
      var e :| e in es && e.1 == m[n];
    }
  }

  /** `TryGetSoundByName`: `(found, sound)`. A missing track leaves `sound` at
      the `new Sound()` assigned first; a missing sound leaves the `null`
      that `TryGetValue` writes on a miss. Only building the table can throw. */
  function TryGetSoundByName(r: Registry, trackName: string, soundName: string): (s: Step<(bool, Option<Sound>)>)
    requires WellFormed(r)
    ensures s.next == CheckForSoundIndex(r).next
    ensures s.result.Failure? <==> CheckForSoundIndex(r).result.Failure?
    ensures s.result.Failure? ==> s.result.error == DuplicateKey
    ensures s.result.Success? ==>
      var m := s.next.soundIndex.value;
      var (found, sound) := s.result.value;
      && (found <==> trackName in m && soundName in m[trackName])
      && (found ==> sound == Some(m[trackName][soundName]))
      && (trackName !in m ==> sound == Some(NewSound()))
      && (trackName in m && soundName !in m[trackName] ==> sound == None)
  {
    var c := CheckForSoundIndex(r);
    if c.result.Failure? then Step(c.next, Failure(c.result.error))
    else
      var m := c.next.soundIndex.value;
      if trackName !in m then Step(c.next, Success((false, Some(NewSound()))))
      else if soundName !in m[trackName] then Step(c.next, Success((false, None)))
      else Step(c.next, Success((true, Some(m[trackName][soundName]))))
  }

  /** `GetSoundByName`: the direct lookup. It hits exactly when the `Try`
      lookup does, with the same sound, and throws `KeyNotFound` where that
      one reports a miss. */
  function GetSoundByName(r: Registry, trackName: string, soundName: string): (s: Step<Sound>)
    requires WellFormed(r)
    ensures var t := TryGetSoundByName(r, trackName, soundName);
      && s.next == t.next
      && (t.result.Failure? ==> s.result == Failure(t.result.error))
      && (t.result.Success? && t.result.value.0 ==> s.result == Success(t.result.value.1.value))
      && (t.result.Success? && !t.result.value.0 ==> s.result == Failure(KeyNotFound))
  {
    var c := CheckForSoundIndex(r);
    if c.result.Failure? then Step(c.next, Failure(c.result.error))
    else
      var m := c.next.soundIndex.value;
      if trackName !in m || soundName !in m[trackName] then Step(c.next, Failure(KeyNotFound))
      else Step(c.next, Success(m[trackName][soundName]))
  }

  /** `TryGetTrack`: `(found, track)`, the track being `null` on a miss. */
  function TryGetTrack(r: Registry, trackName: string): (s: Step<(bool, Option<TrackRef>)>)
    requires WellFormed(r)
    ensures s.next == CheckForTrackIndex(r).next
    ensures s.result.Failure? <==> CheckForTrackIndex(r).result.Failure?
    ensures s.result.Failure? ==> s.result.error == DuplicateKey
    ensures s.result.Success? ==>
      var m := s.next.trackIndex.value;
      && (s.result.value.0 <==> trackName in m)
      && (s.result.value.0 ==> s.result.value.1 == Some(m[trackName]))
      && (!s.result.value.0 ==> s.result.value.1 == None)
  {
    var c := CheckForTrackIndex(r);
    if c.result.Failure? then Step(c.next, Failure(c.result.error))
    else
      var m := c.next.trackIndex.value;
      if trackName in m then Step(c.next, Success((true, Some(m[trackName]))))
      else Step(c.next, Success((false, None)))
  }

  /** `GetTrack`: hits exactly when `TryGetTrack` does, with the same track,
      and throws `KeyNotFound` where that one reports a miss. */
  function GetTrack(r: Registry, trackName: string): (s: Step<TrackRef>)
    requires WellFormed(r)
    ensures var t := TryGetTrack(r, trackName);
      && s.next == t.next
      && (t.result.Failure? ==> s.result == Failure(t.result.error))
      && (t.result.Success? && t.result.value.0 ==> s.result == Success(t.result.value.1.value))
      && (t.result.Success? && !t.result.value.0 ==> s.result == Failure(KeyNotFound))
  {
    var c := CheckForTrackIndex(r);
    if c.result.Failure? then Step(c.next, Failure(c.result.error))
    else
      var m := c.next.trackIndex.value;
      if trackName !in m then Step(c.next, Failure(KeyNotFound))
      else Step(c.next, Success(m[trackName]))
  }

  /** `Play(trackName, soundName)`: look the sound up, then the track, and
      play the sound on the track only when both lookups hit. Only one track
      object changes, and only then. */
  function Play(r: Registry, trackName: string, soundName: string): (s: Step<()>)
    requires WellFormed(r)
    ensures WellFormed(s.next)
    ensures s.next.tracks == r.tracks && s.next.objects.Keys == r.objects.Keys
    ensures s.next.soundIndex == CheckForSoundIndex(r).next.soundIndex
    ensures s.next.trackIndex == r.trackIndex
         || s.next.trackIndex == CheckForTrackIndex(CheckForSoundIndex(r).next).next.trackIndex
    ensures s.result.Failure? ==> s.result.error == DuplicateKey && s.next.objects == r.objects
    ensures var t := TryGetSoundByName(r, trackName, soundName);
      var g := TryGetTrack(t.next, trackName);
      if t.result.Success? && t.result.value.0 && g.result.Success? && g.result.value.0 then
        var ref := g.result.value.1.value;
        && s.result.Success?
        && s.next.objects == r.objects[ref := PlaySound(r.objects[ref], t.result.value.1.value, r.voicesCreated)]
        && s.next.voicesCreated == r.voicesCreated + (if r.objects[ref].voice.None? then 1 else 0)
      else
        s.next.objects == r.objects && s.next.voicesCreated == r.voicesCreated
  {
    var t := TryGetSoundByName(r, trackName, soundName);
    if t.result.Failure? then Step(t.next, Failure(t.result.error))
    else if !t.result.value.0 then Step(t.next, Success(()))
    else
      var g := TryGetTrack(t.next, trackName);
      if g.result.Failure? then Step(g.next, Failure(g.result.error))
      else if !g.result.value.0 then Step(g.next, Success(()))
      else
        Step(PlayedOn(g.next, g.result.value.1.value, t.result.value.1.value), Success(()))
  }

  /** `track.PlaySound(sound)` on the object `ref`; a voice created on the
      way takes the count as its identity and is counted. */
  function PlayedOn(g: Registry, ref: TrackRef, sound: Sound): Registry
    requires ref in g.objects
  {
    g.(objects := g.objects[ref := PlaySound(g.objects[ref], sound, g.voicesCreated)],
       voicesCreated := g.voicesCreated + (if g.objects[ref].voice.None? then 1 else 0))
  }

  /** The two `Substring` calls of `Play(string)`: the text before the first
      `_` and the text after it. Without a `_`, `IndexOf` gives -1 and
      `Substring(0, -1)` throws. */
  function SplitKey(key: string): (r: Result<(string, string)>)
    ensures r.Failure? <==> '_' !in key
    ensures r.Failure? ==> r.error == ArgumentOutOfRange
    ensures r.Success? ==> r.value.0 + "_" + r.value.1 == key && '_' !in r.value.0
  {
    var i := IndexOf(key, '_');
    match Substring(key, 0, i)
    case Failure(e) => Failure(e)
    case Success(track) =>
      match SubstringFrom(key, i + 1)
      case Failure(e) => Failure(e)
      case Success(sound) =>
        assert key == key[..i] + "_" + key[i + 1..];
        Success((track, sound))
  }

  /** `Play(string track_sound)`: split the key, then play. */
  function PlayKey(r: Registry, key: string): (s: Step<()>)
    requires WellFormed(r)
    ensures '_' !in key ==> s == Step(r, Failure(ArgumentOutOfRange))
    ensures '_' in key ==> s == Play(r, SplitKey(key).value.0, SplitKey(key).value.1)
  {
    match SplitKey(key)
    case Failure(e) => Step(r, Failure(e))
    case Success(parts) => Play(r, parts.0, parts.1)
  }

  /** A joined key splits back into its parts exactly when the track part
      has no `_`; the sound part may contain any number of them. */
  lemma SplitKeyRoundTrip(trackName: string, soundName: string)
    ensures SplitKey(trackName + "_" + soundName) == Success((trackName, soundName)) <==> '_' !in trackName
  {
    var key := trackName + "_" + soundName;
    if '_' !in trackName {
      assert key[|trackName|] == '_' && key[..|trackName|] == trackName;
      assert IndexOf(key, '_') == |trackName|;
      assert key[|trackName| + 1..] == soundName;
    }
  }

  /** `AddTrack`: insert into the track table, throwing on a name already
      there. The sound table and `_tracks` are left alone. */
  function AddTrack(r: Registry, ref: TrackRef): (s: Step<()>)
    requires WellFormed(r) && ref in r.objects
    ensures WellFormed(s.next) && s.next.trackIndex.Some?
    ensures s.next == r.(trackIndex := s.next.trackIndex)
    ensures var c := CheckForTrackIndex(r);
      var name := r.objects[ref].name;
      && (c.result.Failure? ==> s.next == c.next && s.result == Failure(DuplicateKey))
      && (c.result.Success? && name in c.next.trackIndex.value ==>
            s.next == c.next && s.result == Failure(DuplicateKey))
      && (c.result.Success? && name !in c.next.trackIndex.value ==>
            s.result.Success? && s.next.trackIndex.value == c.next.trackIndex.value[name := ref])
  {
    var c := CheckForTrackIndex(r);
    if c.result.Failure? then Step(c.next, Failure(c.result.error))
    else
      var m := c.next.trackIndex.value;
      var name := r.objects[ref].name;
      if name in m then Step(c.next, Failure(DuplicateKey))
      else Step(c.next.(trackIndex := Some(m[name := ref])), Success(()))
  }

  /** `AddSound`, condition as written: the sound table is written only when
      `TryGetTrack` does NOT find the track. */
  function AddSound(r: Registry, sound: Sound, trackName: string): (s: Step<()>)
    requires WellFormed(r)
    ensures WellFormed(s.next)
    ensures s.next.tracks == r.tracks && s.next.objects == r.objects
    ensures s.next.soundIndex.Some?
    ensures var c := CheckForSoundIndex(r);
      && (c.result.Failure? ==> s == Step(c.next, Failure(DuplicateKey)))
      && (c.result.Success? ==> s.next.trackIndex == CheckForTrackIndex(c.next).next.trackIndex)
      && (c.result.Success? && trackName in s.next.trackIndex.value ==> s.next.soundIndex == c.next.soundIndex)
  {
    var c := CheckForSoundIndex(r);
    if c.result.Failure? then Step(c.next, Failure(c.result.error))
    else
      var g := TryGetTrack(c.next, trackName);
      if g.result.Failure? then Step(g.next, Failure(g.result.error))
      else if g.result.value.0 then Step(g.next, Success(()))
      else
        var m := g.next.soundIndex.value;
        if trackName !in m then Step(g.next, Failure(KeyNotFound))
        else if sound.name in m[trackName] then Step(g.next, Failure(DuplicateKey))
        else Step(g.next.(soundIndex := Some(m[trackName := m[trackName][sound.name := sound]])), Success(()))
  }

  /** `AddSoundToNewTrack`: `AddTrack`, then `AddSound` under its name. */
  function AddSoundToNewTrack(r: Registry, sound: Sound, ref: TrackRef): (s: Step<()>)
    requires WellFormed(r) && ref in r.objects
    ensures WellFormed(s.next)
    ensures s.next.tracks == r.tracks && s.next.objects == r.objects
    ensures AddTrack(r, ref).result.Failure? ==> s == AddTrack(r, ref)
    ensures AddTrack(r, ref).result.Success? ==> s == AddSound(AddTrack(r, ref).next, sound, r.objects[ref].name)
  {
    var a := AddTrack(r, ref);
    if a.result.Failure? then a
    else AddSound(a.next, sound, r.objects[ref].name)
  }
}
