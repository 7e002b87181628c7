/** The host side of accessibility_watcher.py: the 32-byte report decoder, the
    layer tracker that picks a "layer_up"/"layer_down" sound, the caps-word sound
    selection, the enable gate of `play_sound`, and the layer query command. A
    sound that passes the gate is recorded in the ghost log `played`; audio
    playback itself is not modelled. */
module Watcher {
  import opened Wire

  const LayerUp := "layer_up"
  const LayerDown := "layer_down"
  const CapsWordOn := "caps_word_on"
  const CapsWordOff := "caps_word_off"

  /** The nine keys of the `[EnabledSounds]` section. */
  const SoundNames: set<string> := {
    LayerUp, LayerDown, CapsWordOn, CapsWordOff, "program_start", "program_exit",
    "error", "keyboard_connect", "keyboard_disconnect"
  }

  /** `ENABLED_SOUNDS`: each of the nine names read from the configuration,
      falling back to true when the configuration does not mention it. */
  function EnabledWithFallback(config: map<string, bool>): (enabled: map<string, bool>)
    ensures enabled.Keys == SoundNames
    ensures forall n :: n in SoundNames && n in config ==> enabled[n] == config[n]
    ensures forall n :: n in SoundNames && n !in config ==> enabled[n]
  {
    map n | n in SoundNames :: if n in config then config[n] else true
  }

  /** The enable gate of `play_sound`: the sounds that actually get played. */
  function Audible(enabled: map<string, bool>, sound: Option<string>): (played: seq<string>)
    requires sound.Some? ==> sound.value in enabled
    ensures played == [] || (sound.Some? && played == [sound.value] && enabled[sound.value])
    ensures sound.Some? && enabled[sound.value] ==> played == [sound.value]
  {
    match sound
    case None => []
    case Some(name) => if enabled[name] then [name] else []
  }

  /** A report as `handle_hid_event` dispatches on it. */
  datatype HidEvent =
    | LayerChanged(layer: Byte)
    | CapsWordChanged(state: Byte)
    | CurrentLayer(layer: Byte)

  function TagOf(e: HidEvent): Byte {
    match e
    case LayerChanged(_) => TagLayerChange
    case CapsWordChanged(_) => TagCapsWord
    case CurrentLayer(_) => TagLayerQuery
  }

  function PayloadOf(e: HidEvent): Byte {
    match e
    case LayerChanged(l) => l
    case CapsWordChanged(b) => b
    case CurrentLayer(l) => l
  }

  /** The length check and the tag dispatch of `handle_hid_event`. */
  function Decode(data: seq<Byte>): (e: Option<HidEvent>)
    ensures e.None? <==> |data| != PacketSize || !IsTag(data[0])
    ensures e.Some? ==> data[0] == TagOf(e.value) && data[1] == PayloadOf(e.value)
  {
    if |data| != PacketSize then None
    else if data[0] == TagLayerChange then Some(LayerChanged(data[1]))
    else if data[0] == TagCapsWord then Some(CapsWordChanged(data[1]))
    else if data[0] == TagLayerQuery then Some(CurrentLayer(data[1]))
    else None
  }

  /** The report that carries event `e`. */
  function Encode(e: HidEvent): (p: Packet)
    ensures |p| == PacketSize && IsTag(p[0])
  {
    Report(TagOf(e), PayloadOf(e))
  }

  lemma DecodeEncode(e: HidEvent)
    ensures Decode(Encode(e)) == Some(e)
  {
  }

  /** Every report the decoder accepts whose padding is zero is the encoding of
      what it decodes to. */
  lemma EncodeDecode(data: seq<Byte>)
    requires |data| == PacketSize && IsTag(data[0])
    requires forall i :: 2 <= i < |data| ==> data[i] == 0
    ensures Decode(data).Some? && Encode(Decode(data).value) == data
  {
    ReportDeterminedByHeader(data);
  }

  /** `previous_layer`, `current_layer` and `initial_layer_retrieved`. */
  datatype LayerTracker = LayerTracker(previousLayer: int, currentLayer: int, initialLayerRetrieved: bool)

  const InitialTracker := LayerTracker(-1, -1, false)

  /** Layers are bytes once seen; -1 marks "none yet", and the flag is set exactly
      when a layer has been seen. */
  predicate TrackerValid(t: LayerTracker) {
    && -1 <= t.previousLayer <= 255
    && -1 <= t.currentLayer <= 255
    && (t.initialLayerRetrieved <==> t.currentLayer != -1)
  }

  /** The sound for a move from layer `previous` to layer `current`. */
  function LayerSound(previous: int, current: int): (r: Option<string>)
    ensures r == Some(LayerUp) <==> current > previous
    ensures r == Some(LayerDown) <==> current < previous
    ensures r == None <==> current == previous
  {
    if previous != current then
      if current > previous then Some(LayerUp) else Some(LayerDown)
    else None
  }

  datatype Tracked = Tracked(next: LayerTracker, sound: Option<string>)

  /** `handle_layer_change(layer)`: the new tracker and the sound it chooses. */
  function TrackLayer(t: LayerTracker, layer: Byte): (r: Tracked)
    ensures r.next == LayerTracker(t.currentLayer, layer as int, true)
    ensures !t.initialLayerRetrieved ==> r.sound == None
    ensures t.initialLayerRetrieved ==> r.sound == LayerSound(t.currentLayer, layer as int)
    ensures r.sound.Some? ==> t.initialLayerRetrieved && t.currentLayer != layer as int
    ensures TrackerValid(t) && r.sound.Some? ==> 0 <= t.currentLayer <= 255
  {
    var next := LayerTracker(t.currentLayer, layer as int, true);
    if t.initialLayerRetrieved then Tracked(next, LayerSound(t.currentLayer, layer as int))
    else Tracked(next, None)
  }

  /** Every layer change keeps the tracker invariant. */
  lemma TrackLayerKeepsValid(t: LayerTracker, layer: Byte)
    requires TrackerValid(t)
    ensures TrackerValid(TrackLayer(t, layer).next)
  {
  }

  /** `handle_caps_word(state)`: on for 1, off for 0, nothing otherwise. */
  function CapsWordSound(state: Byte): (r: Option<string>)
    ensures r == Some(CapsWordOn) <==> state == 1
    ensures r == Some(CapsWordOff) <==> state == 0
    ensures r == None <==> state > 1
  {
    if state == 1 then Some(CapsWordOn)
    else if state == 0 then Some(CapsWordOff)
    else None
  }

  datatype Handled = Handled(next: LayerTracker, sound: Option<string>, handled: bool)

  /** `handle_hid_event(data)`: the new tracker, the sound chosen and the return value. */
  function Handle(t: LayerTracker, data: seq<Byte>): (r: Handled)
    ensures r.handled <==> |data| == PacketSize && data[0] == TagLayerQuery
    ensures |data| != PacketSize || !IsTag(data[0]) ==> r == Handled(t, None, false)
    ensures |data| == PacketSize && (data[0] == TagLayerChange || data[0] == TagLayerQuery) ==>
              r.next == TrackLayer(t, data[1]).next && r.sound == TrackLayer(t, data[1]).sound
    ensures |data| == PacketSize && data[0] == TagCapsWord ==>
              r.next == t && r.sound == CapsWordSound(data[1])
  {
    match Decode(data)
    case None => Handled(t, None, false)
    case Some(LayerChanged(l)) =>
      var k := TrackLayer(t, l); Handled(k.next, k.sound, false)
    case Some(CapsWordChanged(b)) => Handled(t, CapsWordSound(b), false)
    case Some(CurrentLayer(l)) =>
      var k := TrackLayer(t, l); Handled(k.next, k.sound, true)
  }

  /** The tracker after handling `reports` in order. */
  function HostRun(t: LayerTracker, reports: seq<Packet>): LayerTracker
    decreases |reports|
  {
    if reports == [] then t
    else Handle(HostRun(t, reports[..|reports| - 1]), reports[|reports| - 1]).next
  }

  /** `data.extend([0] * (n - len(data)))` when `data` is shorter than `n`. */
  function PadTo(data: seq<Byte>, n: nat): (r: seq<Byte>)
    ensures |data| < n ==> |r| == n
    ensures |data| >= n ==> r == data
    ensures r[..|data|] == data
    ensures forall i :: |data| <= i < |r| ==> r[i] == 0
  {
    if |data| < n then data + seq(n - |data|, _ => 0) else data
  }

  /** The command written by `request_current_layer`: `[99] + [0] * 31`, padded to
      32 bytes if shorter (it never is). */
  function QueryCommand(): (cmd: Packet)
    ensures cmd == Report(TagLayerQuery, 0)
  {
    PadTo([TagLayerQuery] + seq(31, _ => 0), PacketSize)
  }

  class AccessibilityWatcher {
    var previousLayer: int
    var currentLayer: int
    var initialLayerRetrieved: bool
    const enabledSounds: map<string, bool>
    ghost var played: seq<string>

    ghost function Layers(): LayerTracker
      reads this
    {
      LayerTracker(previousLayer, currentLayer, initialLayerRetrieved)
    }

    ghost predicate Valid()
      reads this
    {
      SoundNames <= enabledSounds.Keys && TrackerValid(Layers())
    }

    /** `__init__`, given the `[EnabledSounds]` entries the configuration holds. */
    constructor (config: map<string, bool>)
      ensures Valid()
      ensures Layers() == InitialTracker && played == []
      ensures enabledSounds == EnabledWithFallback(config)
    {
      enabledSounds := EnabledWithFallback(config);
      previousLayer := -1;
      currentLayer := -1;
      initialLayerRetrieved := false;
      played := [];
    }

    /** `play_sound(file, enable)`, up to the point where playback would start. */
    method PlaySound(sound: string, enable: bool)
      modifies this`played
      ensures played == old(played) + (if enable then [sound] else [])
    {
      if !enable {
        return;
      }
      played := played + [sound];
    }

    method HandleLayerChange(layer: Byte)
      requires Valid()
      modifies this
      ensures Valid()
      ensures Layers() == TrackLayer(old(Layers()), layer).next
      ensures played == old(played) + Audible(enabledSounds, TrackLayer(old(Layers()), layer).sound)
    {
      previousLayer := currentLayer;
      currentLayer := layer as int;
      if initialLayerRetrieved {
        if previousLayer != currentLayer {
          if currentLayer > previousLayer {
            PlaySound(LayerUp, enabledSounds[LayerUp]);
          } else {
            PlaySound(LayerDown, enabledSounds[LayerDown]);
          }
        }
      } else {
        initialLayerRetrieved := true;
      }
    }

    method HandleCapsWord(state: Byte)
      requires Valid()
      modifies this`played
      ensures played == old(played) + Audible(enabledSounds, CapsWordSound(state))
    {
      if state == 1 {
        PlaySound(CapsWordOn, enabledSounds[CapsWordOn]);
      } else if state == 0 {
        PlaySound(CapsWordOff, enabledSounds[CapsWordOff]);
      }
    }

    method HandleHidEvent(data: seq<Byte>) returns (handled: bool)
      requires Valid()
      modifies this
      ensures Valid()
      ensures handled == Handle(old(Layers()), data).handled
      ensures Layers() == Handle(old(Layers()), data).next
      ensures played == old(played) + Audible(enabledSounds, Handle(old(Layers()), data).sound)
    {
      if |data| != PacketSize {
        return false;
      }
      if IsTag(data[0]) {
        if data[0] == TagLayerChange {
          HandleLayerChange(data[1]);
        } else if data[0] == TagCapsWord {
          HandleCapsWord(data[1]);
        } else if data[0] == TagLayerQuery {
          HandleLayerChange(data[1]);
          return true;
        } else {
          assert false;
        }
      }
      return false;
    }
  }
}
