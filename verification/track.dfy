/** `SFXTrack`: a named group of sounds sharing one lazily created voice.
    The Unity `AudioSource` (and the `GameObject` carrying it) is modelled as
    the `Voice` record: its identity, the name of its game object, the fields
    the track writes and whether it has been started. */
module Tracks {
  import opened Outcomes
  import opened Sounds

  /** Reference to an `AudioMixerGroup`; `NoGroup` is `null`. */
  datatype MixerGroupRef = NoGroup | Group(id: nat)

  datatype Voice = Voice(
    id: nat,
    objectName: string,
    bypassReverbZones: bool,
    output: MixerGroupRef,
    clip: ClipRef,
    priority: int,
    volume: Float32,
    pitch: Float32,
    loop: bool,
    panStereo: Float32,
    playing: bool)

  datatype Track = Track(
    name: string,
    mixerGroup: MixerGroupRef,
    sounds: seq<Sound>,
    voice: Option<Voice>)

  /** `new SFXTrack { Name = name, AudioMixerGroup = group }`: the sound list
      starts empty and there is no voice yet. */
  function NewTrack(name: string, group: MixerGroupRef): (t: Track)
    ensures t.sounds == [] && t.voice.None?
    ensures t.name == name && t.mixerGroup == group
  {
    Track(name, group, [], None)
  }

  /** Name of the game object created for a track's voice. */
  function VoiceObjectName(trackName: string): (n: string)
    ensures |n| == |trackName| + 12
    ensures n[..6] == "[SFX] " && n[|n| - 6..] == " Track"
    ensures n[6..|n| - 6] == trackName
  {
    "[SFX] " + trackName + " Track"
  }

  /** A freshly added `AudioSource` with the engine's defaults, not yet playing. */
  function NewVoice(id: nat, objectName: string): Voice
  {
    Voice(id, objectName, false, NoGroup, NoClip, DefaultPriority,
          FloatOne, FloatOne, false, FloatZero, false)
  }

  /** `CreateTrackInstance`: a new voice, identified by `freshId`, on a game
      object named after the track. */
  function CreateTrackInstance(t: Track, freshId: nat): (r: Track)
    ensures r.voice.Some? && r.voice.value.id == freshId && !r.voice.value.playing
    ensures r.voice.value.objectName == VoiceObjectName(t.name)
    ensures r.(voice := t.voice) == t
  {
    t.(voice := Some(NewVoice(freshId, VoiceObjectName(t.name))))
  }

  /** `CheckForTrackInstance`: create a voice only when there is none. */
  function CheckForTrackInstance(t: Track, freshId: nat): (r: Track)
    ensures r.voice.Some?
    ensures t.voice.Some? ==> r == t
    ensures t.voice.None? ==> r == CreateTrackInstance(t, freshId)
  {
    if t.voice.Some? then t else CreateTrackInstance(t, freshId)
  }

  /** The voice carries the sound's parameters, routed through `group`,
      with reverb zones bypassed. */
  predicate Configured(v: Voice, group: MixerGroupRef, s: Sound) {
    && v.bypassReverbZones
    && v.output == group
    && v.clip == s.clip
    && v.priority == s.priority
    && v.volume == s.volume
    && v.pitch == s.pitch
    && v.loop == s.loop
    && v.panStereo == s.panStereo
  }

  /** `AssignAudio`: copy the sound's parameters onto the voice, keeping its
      identity and play state. */
  function AssignAudio(v: Voice, group: MixerGroupRef, s: Sound): (w: Voice)
    ensures Configured(w, group, s)
    ensures w.id == v.id && w.objectName == v.objectName && w.playing == v.playing
  {
    v.(bypassReverbZones := true, output := group, clip := s.clip,
       priority := s.priority, volume := s.volume, pitch := s.pitch,
       loop := s.loop, panStereo := s.panStereo)
  }

  /** `PlaySound`: make sure there is a voice, configure it from `s` and
      start it. `freshId` is the identity a newly created voice would get. */
  function PlaySound(t: Track, s: Sound, freshId: nat): (r: Track)
    ensures r.name == t.name && r.mixerGroup == t.mixerGroup && r.sounds == t.sounds
    ensures r.voice.Some? && r.voice.value.playing
    ensures Configured(r.voice.value, t.mixerGroup, s)
    ensures t.voice.Some? ==> r.voice.value.id == t.voice.value.id
                              && r.voice.value.objectName == t.voice.value.objectName
    ensures t.voice.None? ==> r.voice.value.id == freshId
                              && r.voice.value.objectName == VoiceObjectName(t.name)
  {
    var withVoice := CheckForTrackInstance(t, freshId);
    var v := AssignAudio(withVoice.voice.value, t.mixerGroup, s);
    withVoice.(voice := Some(v.(playing := true)))
  }

  /** Playing the sounds of `plays` one after another. */
  function PlayEach(t: Track, plays: seq<Sound>, freshId: nat): Track
    decreases |plays|
  {
    if |plays| == 0 then t else PlayEach(PlaySound(t, plays[0], freshId), plays[1..], freshId)
  }

  /** A second play reuses the first play's voice and overwrites every field
      the first one set. */
  lemma PlaySoundOverwrites(t: Track, s1: Sound, s2: Sound, f1: nat, f2: nat)
    ensures PlaySound(PlaySound(t, s1, f1), s2, f2) == PlaySound(t, s2, f1)
  {
  }

  /** Any run of plays leaves the track exactly as playing only its last
      sound would: one voice, created at most once, configured by the last
      sound. */
  lemma {:induction false} PlayEachIsLastPlay(t: Track, plays: seq<Sound>, freshId: nat)
    requires |plays| > 0
    decreases |plays|
    ensures PlayEach(t, plays, freshId) == PlaySound(t, plays[|plays| - 1], freshId)
  {
    if |plays| > 1 {
      var t1 := PlaySound(t, plays[0], freshId);
      PlayEachIsLastPlay(t1, plays[1..], freshId);
      PlaySoundOverwrites(t, plays[0], plays[|plays| - 1], freshId, freshId);
    }
  }
}
