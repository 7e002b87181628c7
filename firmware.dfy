/** The keyboard-side event notifier of accessibility_events.c: a layer-change
    notifier with a 200-tick debounce, an edge-triggered caps-word notifier and
    the handler for the host's layer query. The three file-scope statics are the
    fields of EventNotifier; each entry point is also given as a pure step
    function on State, which the methods are proved against. */
module Firmware {
  import opened Wire

  /** The firmware's `uint32_t` tick counter. */
  newtype uint32 = x: int | 0 <= x < 0x1_0000_0000

  /** Calls closer together than this (in ticks) are debounced. */
  const DebounceTicks: uint32 := 200
  /** `previous_layer` starts at 255, standing for "no layer reported yet": every
      accepted call compares its layer with it, so a first accepted layer of 255
      is not reported. */
  const NoLayerYet: Byte := 255

  /** `current_time - last_time` in `uint32_t` arithmetic: wraps around modulo 2^32. */
  function Elapsed(now: uint32, last: uint32): (d: uint32)
    ensures (last as int + d as int) % 0x1_0000_0000 == now as int
    ensures last <= now ==> d == now - last
  {
    ((now as int - last as int) % 0x1_0000_0000) as uint32
  }

  /** The three statics: `previous_layer`, `caps_word_state` and `last_time`. */
  datatype State = State(previousLayer: Byte, capsWordState: bool, lastTime: uint32)

  const Init := State(NoLayerYet, false, 0)

  /** The new state and the reports handed to `raw_hid_send`, in order. */
  datatype Step = Step(next: State, emitted: seq<Packet>)

  /** `raw_hid_receive`: only `data[0]` is read; tag 99 is answered with the live layer. */
  function OnReceive(data: seq<Byte>, liveLayer: Byte): (out: seq<Packet>)
    requires |data| >= 1
    ensures data[0] == TagLayerQuery ==> out == [Report(TagLayerQuery, liveLayer)]
    ensures data[0] != TagLayerQuery ==> out == []
  {
    if data[0] == TagLayerQuery then [Report(TagLayerQuery, liveLayer)] else []
  }

  /** `accessibility_send_layer_change(layer)` at tick `now`. */
  function OnLayerChange(s: State, layer: Byte, now: uint32): (r: Step)
    ensures Elapsed(now, s.lastTime) < DebounceTicks ==> r == Step(s, [])
    ensures Elapsed(now, s.lastTime) >= DebounceTicks ==>
              && r.next == s.(previousLayer := layer, lastTime := now)
              && (r.emitted != [] <==> layer != s.previousLayer)
    ensures r.emitted == [] || r.emitted == [Report(TagLayerChange, layer)]
    ensures r.next.capsWordState == s.capsWordState
  {
    if Elapsed(now, s.lastTime) < DebounceTicks then Step(s, [])
    else
      var out := if layer != s.previousLayer then [Report(TagLayerChange, layer)] else [];
      Step(s.(previousLayer := layer, lastTime := now), out)
  }

  /** `accessibility_send_caps_word_on`: reports only an off-to-on edge. */
  function OnCapsWordOn(s: State): (r: Step)
    ensures r.next == s.(capsWordState := true)
    ensures r.emitted != [] <==> !s.capsWordState
    ensures r.emitted == [] || r.emitted == [Report(TagCapsWord, 1)]
  {
    if !s.capsWordState then Step(s.(capsWordState := true), [Report(TagCapsWord, 1)])
    else Step(s, [])
  }

  /** `accessibility_send_caps_word_off`: reports only an on-to-off edge. */
  function OnCapsWordOff(s: State): (r: Step)
    ensures r.next == s.(capsWordState := false)
    ensures r.emitted != [] <==> s.capsWordState
    ensures r.emitted == [] || r.emitted == [Report(TagCapsWord, 0)]
  {
    if s.capsWordState then Step(s.(capsWordState := false), [Report(TagCapsWord, 0)])
    else Step(s, [])
  }

  /** What the notifier's state says about the reports sent so far: every report is
      well formed, `previous_layer` is the last layer reported (255 before the first),
      and `caps_word_state` is true exactly when the last caps-word report said on. */
  ghost predicate Consistent(s: State, sent: seq<Packet>) {
    && (forall i :: 0 <= i < |sent| ==> WellFormed(sent[i]))
    && s.previousLayer == LastPayload(sent, TagLayerChange).GetOr(NoLayerYet)
    && s.capsWordState == (LastPayload(sent, TagCapsWord) == Some(1))
  }

  /** The statics once report `p` has been sent: a layer report moves
      `previous_layer`, a caps-word report moves `caps_word_state`. */
  function Absorb(s: State, p: Packet): State
    requires WellFormed(p)
  {
    if p[0] == TagLayerChange then s.(previousLayer := p[1])
    else if p[0] == TagCapsWord then s.(capsWordState := p[1] == 1)
    else s
  }

  lemma ConsistentAppend(s: State, sent: seq<Packet>, p: Packet)
    requires Consistent(s, sent)
    requires WellFormed(p)
    ensures Consistent(Absorb(s, p), sent + [p])
  {
    LastPayloadAppend(sent, p, TagLayerChange);
    LastPayloadAppend(sent, p, TagCapsWord);
  }

  /** Every entry point keeps the state consistent with what it has sent. */
  lemma {:induction false} LayerChangeKeepsConsistent(s: State, sent: seq<Packet>, layer: Byte, now: uint32)
    requires Consistent(s, sent)
    ensures Consistent(OnLayerChange(s, layer, now).next, sent + OnLayerChange(s, layer, now).emitted)
  {
    var r := OnLayerChange(s, layer, now);
    if Elapsed(now, s.lastTime) < DebounceTicks {
      assert sent + r.emitted == sent;
    } else if layer != s.previousLayer {
      ConsistentAppend(s, sent, Report(TagLayerChange, layer));
    } else {
      assert sent + r.emitted == sent;
    }
  }

  lemma {:induction false} CapsWordKeepsConsistent(s: State, sent: seq<Packet>, on: bool)
    requires Consistent(s, sent)
    ensures var r := if on then OnCapsWordOn(s) else OnCapsWordOff(s);
            Consistent(r.next, sent + r.emitted)
  {
    var r := if on then OnCapsWordOn(s) else OnCapsWordOff(s);
    if r.emitted == [] {
      assert sent + r.emitted == sent;
    } else {
      ConsistentAppend(s, sent, r.emitted[0]);
    }
  }

  lemma {:induction false} ReceiveKeepsConsistent(s: State, sent: seq<Packet>, data: seq<Byte>, liveLayer: Byte)
    requires Consistent(s, sent)
    requires |data| >= 1
    ensures Consistent(s, sent + OnReceive(data, liveLayer))
  {
    var out := OnReceive(data, liveLayer);
    if out == [] {
      assert sent + out == sent;
    } else {
      ConsistentAppend(s, sent, out[0]);
    }
  }

  /** Builds `uint8_t data[32] = {0}` and sets its first two bytes. */
  method NewReport(tag: Byte, payload: Byte) returns (buf: array<Byte>)
    ensures fresh(buf)
    ensures buf[..] == Report(tag, payload)
  {
    buf := new Byte[PacketSize](_ => 0);
    buf[0] := tag;
    buf[1] := payload;
    ReportDeterminedByHeader(buf[..]);
  }

  /** The notifier with its statics as fields; `sent` records what was handed to
      `raw_hid_send`, and `timer_read()` / `get_highest_layer(layer_state)` are
      passed in by the caller. */
  class EventNotifier {
    var previousLayer: Byte
    var capsWordState: bool
    var lastTime: uint32
    ghost var sent: seq<Packet>

    ghost function Statics(): State
      reads this
    {
      State(previousLayer, capsWordState, lastTime)
    }

    ghost predicate Valid()
      reads this
    {
      Consistent(Statics(), sent)
    }

    constructor ()
      ensures Valid()
      ensures Statics() == Init && sent == []
    {
      previousLayer := NoLayerYet;
      capsWordState := false;
      lastTime := 0;
      sent := [];
    }

    /** `raw_hid_receive(data, length)`; `length` is never consulted. */
    method RawHidReceive(data: array<Byte>, length: Byte, liveLayer: Byte)
      requires Valid()
      requires data.Length >= 1
      modifies this
      ensures Valid()
      ensures Statics() == old(Statics())
      ensures sent == old(sent) + OnReceive(data[..], liveLayer)
    {
      if data[0] == TagLayerQuery {
        var response := NewReport(TagLayerQuery, liveLayer);
        sent := sent + [response[..]];
      }
      ReceiveKeepsConsistent(old(Statics()), old(sent), data[..], liveLayer);
    }

    /** `accessibility_send_layer_change(layer)` called when `timer_read()` is `now`. */
    method SendLayerChange(layer: Byte, now: uint32)
      requires Valid()
      modifies this
      ensures Valid()
      ensures Statics() == OnLayerChange(old(Statics()), layer, now).next
      ensures sent == old(sent) + OnLayerChange(old(Statics()), layer, now).emitted
    {
      LayerChangeKeepsConsistent(Statics(), sent, layer, now);
      if Elapsed(now, lastTime) < DebounceTicks {
        return;
      }
      if layer != previousLayer {
        var data := NewReport(TagLayerChange, layer);
        sent := sent + [data[..]];
        previousLayer := layer;
      }
      lastTime := now;
    }

    method SendCapsWordOn()
      requires Valid()
      modifies this
      ensures Valid()
      ensures Statics() == OnCapsWordOn(old(Statics())).next
      ensures sent == old(sent) + OnCapsWordOn(old(Statics())).emitted
    {
      CapsWordKeepsConsistent(Statics(), sent, true);
      if !capsWordState {
        var data := NewReport(TagCapsWord, 1);
        sent := sent + [data[..]];
        capsWordState := true;
      }
    }

    method SendCapsWordOff()
      requires Valid()
      modifies this
      ensures Valid()
      ensures Statics() == OnCapsWordOff(old(Statics())).next
      ensures sent == old(sent) + OnCapsWordOff(old(Statics())).emitted
    {
      CapsWordKeepsConsistent(Statics(), sent, false);
      if capsWordState {
        var data := NewReport(TagCapsWord, 0);
        sent := sent + [data[..]];
        capsWordState := false;
      }
    }
  }
}
