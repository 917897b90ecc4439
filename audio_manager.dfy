/** The signal screen's sound: which track the coherence band and status call for, the guard
    and bookkeeping of `playAudio`, and the volume of each track. The audio elements are
    modelled by their loop flag and volume only. */
module AudioManager {
  import SignalEngine

  datatype AudioType = Static | Pulse | Warble | Beep | Distort | NoAudio

  /** What one run of the selection effect does. */
  datatype Decision = Silence | Play(track: AudioType, loop: bool) | KeepPlaying

  /** The selection effect: silence while disabled or not set up; the failure sting on a lost
      signal, every time; otherwise the track of the coherence band, started only when it is
      not already the current one. */
  function Decide(enabled: bool, initialized: bool, status: SignalEngine.Status,
                  coherence: real, current: AudioType): (r: Decision)
    ensures !enabled || !initialized ==> r == Silence
    ensures enabled && initialized && status == SignalEngine.SignalLost ==> r == Play(Distort, false)
  {
    if !enabled || !initialized then Silence
    else if status == SignalEngine.SignalLost then Play(Distort, false)
    else if coherence >= 80.0 then (if current != Beep then Play(Beep, false) else KeepPlaying)
    else
      var target := Band(coherence);
      if target != current then Play(target, true) else KeepPlaying
  }

  /** The looping track of a coherence below 80. */
  function Band(coherence: real): (r: AudioType)
    ensures r in {Static, Pulse, Warble}
  {
    if coherence < 30.0 then Static else if coherence < 60.0 then Pulse else Warble
  }

  /** The bands: static below 30, pulse below 60, warble below 80, one beep from 80 up. */
  lemma DecideBands(status: SignalEngine.Status, coherence: real, current: AudioType)
    requires status != SignalEngine.SignalLost
    ensures var d := Decide(true, true, status, coherence, current);
      && (coherence < 30.0 ==> d == Play(Static, true) || (d == KeepPlaying && current == Static))
      && (30.0 <= coherence < 60.0 ==> d == Play(Pulse, true) || (d == KeepPlaying && current == Pulse))
      && (60.0 <= coherence < 80.0 ==> d == Play(Warble, true) || (d == KeepPlaying && current == Warble))
      && (coherence >= 80.0 ==> d == Play(Beep, false) || (d == KeepPlaying && current == Beep))
  {
  }

  /** A track is started only when it differs from the current one, except the failure
      sting, which is started again on every run. */
  lemma StartsOnlyOnChange(status: SignalEngine.Status, coherence: real, current: AudioType)
    ensures var d := Decide(true, true, status, coherence, current);
      d.Play? && d.track == current ==> d == Play(Distort, false)
  {
  }

  /** Volumes by track: static follows the noise level, the others are fixed; nothing is
      set while no track is current. With the engine's noise level, in [0, 100], every
      volume lies in [0, 1]. */
  function Volume(current: AudioType, noiseLevel: real): (r: real)
    ensures 0.0 <= noiseLevel <= 100.0 ==> 0.0 <= r <= 1.0
    ensures current == Static && noiseLevel == 100.0 ==> r == 1.0
  {
    match current
    case Static => noiseLevel / 100.0
    case Pulse => 0.7
    case Warble => 0.5
    case Beep => 0.5
    case Distort => 0.8
    case NoAudio => 0.0
  }

  /** The hook's state: the current track, the element that plays it and each element's
      loop flag and volume. */
  class Player {
    var enabled: bool
    var initialized: bool
    var currentAudio: AudioType
    var source: AudioType
    var loops: map<AudioType, bool>
    var volumes: map<AudioType, real>

    /** The element playing is the one of the current track, or none. */
    ghost predicate Valid()
      reads this
    {
      source == currentAudio
    }

    constructor (enabled: bool)
      ensures this.enabled == enabled && !initialized
      ensures currentAudio == NoAudio && source == NoAudio && loops == map[] && volumes == map[]
      ensures Valid()
    {
      this.enabled := enabled;
      initialized := false;
      currentAudio := NoAudio;
      source := NoAudio;
      loops := map[];
      volumes := map[];
    }

    /** The `isEnabled` prop changing, as the calibrator's sound toggle does: only the flag
        moves; the elements, once created, stay, and the next selection run silences the
        current track when the flag is off. */
    method SetEnabled(e: bool)
      modifies this
      ensures enabled == e && initialized == old(initialized)
      ensures currentAudio == old(currentAudio) && source == old(source)
      ensures loops == old(loops) && volumes == old(volumes)
      ensures old(Valid()) ==> Valid()
    {
      enabled := e;
    }

    /** The set-up effect: once enabled, the elements are created, the three band tracks
        looping and the others not. */
    method Initialize()
      modifies this
      ensures old(enabled) && !old(initialized) ==>
        initialized && loops == map[Static := true, Pulse := true, Warble := true,
                                    Beep := false, Distort := false]
      ensures !(old(enabled) && !old(initialized)) ==> initialized == old(initialized) && loops == old(loops)
      ensures enabled == old(enabled) && currentAudio == old(currentAudio) && source == old(source)
      ensures volumes == old(volumes)
    {
      if !enabled || initialized {
        return;
      }
      loops := map[Static := true, Pulse := true, Warble := true, Beep := false, Distort := false];
      initialized := true;
    }

    /** `playAudio`: nothing while disabled or for no track; otherwise the previous element
        is stopped and, once the elements exist, the track's loop flag is set, its volume
        put to one half, and it becomes the current track. */
    method PlayAudio(track: AudioType, loop: bool)
      requires Valid()
      modifies this
      ensures enabled && track != NoAudio && initialized ==>
        currentAudio == track && source == track
        && loops == old(loops)[track := loop] && volumes == old(volumes)[track := 0.5]
      ensures !(enabled && track != NoAudio && initialized) ==>
        currentAudio == old(currentAudio) && source == old(source)
        && loops == old(loops) && volumes == old(volumes)
      ensures enabled == old(enabled) && initialized == old(initialized)
      ensures Valid()
    {
      if !enabled || track == NoAudio {
        return;
      }
      if !initialized {
        return;
      }
      loops := loops[track := loop];
      volumes := volumes[track := 0.5];
      source := track;
      currentAudio := track;
    }

    /** One run of the selection effect. */
    method Select(status: SignalEngine.Status, coherence: real)
      requires Valid()
      modifies this
      ensures var d := Decide(old(enabled), old(initialized), status, coherence, old(currentAudio));
        && (d == Silence ==>
              currentAudio == NoAudio && source == NoAudio
              && loops == old(loops) && volumes == old(volumes))
        && (d.Play? ==>
              currentAudio == d.track && source == d.track
              && loops == old(loops)[d.track := d.loop] && volumes == old(volumes)[d.track := 0.5])
        && (d == KeepPlaying ==>
              currentAudio == old(currentAudio) && source == old(source)
              && loops == old(loops) && volumes == old(volumes))
      ensures enabled == old(enabled) && initialized == old(initialized)
      ensures Valid()
    {
      var d := Decide(enabled, initialized, status, coherence, currentAudio);
      match d {
        case Silence =>
          source := NoAudio;
          currentAudio := NoAudio;
        case Play(track, loop) =>
          PlayAudio(track, loop);
        case KeepPlaying =>
      }
    }

    /** The volume effect: the element of the current track, if any, gets its volume. */
    method UpdateVolume(noiseLevel: real)
      requires Valid()
      modifies this
      ensures source != NoAudio ==> volumes == old(volumes)[source := Volume(currentAudio, noiseLevel)]
      ensures source == NoAudio ==> volumes == old(volumes)
      ensures currentAudio == old(currentAudio) && source == old(source) && loops == old(loops)
      ensures enabled == old(enabled) && initialized == old(initialized)
      ensures Valid()
    {
      if source != NoAudio {
        volumes := volumes[source := Volume(currentAudio, noiseLevel)];
      }
    }
  }

  /** Muting while a track plays: the next selection run pauses and drops the element and
      clears the current track, while the elements stay set up. */
  method MuteStopsPlayback(status: SignalEngine.Status, coherence: real) returns (played: AudioType, p: Player)
    ensures played != NoAudio
    ensures !p.enabled && p.initialized && p.currentAudio == NoAudio && p.source == NoAudio
  {
    p := new Player(true);
    p.Initialize();
    p.Select(status, coherence);
    played := p.currentAudio;
    p.SetEnabled(false);
    p.Select(status, coherence);
  }

  /** Once a band track is playing, running the selection again with the same inputs leaves
      it alone; the failure sting does not settle. */
  lemma SelectionSettles(status: SignalEngine.Status, coherence: real, current: AudioType)
    requires status != SignalEngine.SignalLost
    ensures var d := Decide(true, true, status, coherence, current);
      d.Play? ==> Decide(true, true, status, coherence, d.track) == KeepPlaying
    ensures Decide(true, true, SignalEngine.SignalLost, coherence, Distort) == Play(Distort, false)
  {
  }
}
