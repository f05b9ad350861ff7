/** `Sound`: a named clip together with the parameters a track copies onto its
    voice. The `[Range]` attributes of the original are inspector hints: no
    code clamps, so every field holds exactly what was assigned. */
module Sounds {

  /** An IEEE-754 single kept as its bit pattern. Volume, pitch and pan are
      only ever copied, so the model needs no arithmetic on them. */
  datatype Float32 = Float32(bits: bv32)

  /** `0f` */
  const FloatZero: Float32 := Float32(0x0000_0000)
  /** `1f` */
  const FloatOne: Float32 := Float32(0x3F80_0000)

  /** Reference to an `AudioClip` asset; `NoClip` is `null`. */
  datatype ClipRef = NoClip | Clip(id: nat)

  datatype Sound = Sound(
    name: string,
    clip: ClipRef,
    priority: int,
    volume: Float32,
    pitch: Float32,
    panStereo: Float32,
    loop: bool)

  /** Bounds of the inspector slider on `Priority`. */
  const MinPriority: int := 0
  const MaxPriority: int := 256
  const DefaultPriority: int := 128

  predicate PriorityInDeclaredRange(s: Sound) {
    MinPriority <= s.priority <= MaxPriority
  }

  /** `new Sound()`: every field at its initializer. */
  function NewSound(): (s: Sound)
    ensures s.priority == DefaultPriority && PriorityInDeclaredRange(s)
    ensures s.volume == FloatOne && s.pitch == FloatOne && s.panStereo == FloatZero
    ensures !s.loop && s.clip == NoClip
  {
    Sound("", NoClip, DefaultPriority, FloatOne, FloatOne, FloatZero, false)
  }

  /** Assigning `Priority` stores the value as given, in range or not. */
  function SetPriority(s: Sound, p: int): (r: Sound)
    ensures r.priority == p
    ensures PriorityInDeclaredRange(r) <==> MinPriority <= p <= MaxPriority
    ensures r.(priority := s.priority) == s
  {
    s.(priority := p)
  }
}
