/** Sequences of calls into the firmware notifier, and what they emit. */
module FirmwareTraces {
  import opened Wire
  import opened Firmware

  /** One call into accessibility_events.c, with the inputs the firmware reads
      from outside (the tick count, the live layer) attached. */
  datatype Call =
    | LayerCall(layer: Byte, now: uint32)
    | CapsOnCall
    | CapsOffCall
    | ReceiveCall(data: seq<Byte>, liveLayer: Byte)

  predicate Callable(c: Call) {
    c.ReceiveCall? ==> |c.data| >= 1
  }

  function Apply(s: State, c: Call): Step
    requires Callable(c)
  {
    match c
    case LayerCall(layer, now) => OnLayerChange(s, layer, now)
    case CapsOnCall => OnCapsWordOn(s)
    case CapsOffCall => OnCapsWordOff(s)
    case ReceiveCall(data, liveLayer) => Step(s, OnReceive(data, liveLayer))
  }

  /** The state after `calls`, and every report they sent, in order. */
  function Run(s: State, calls: seq<Call>): Step
    requires forall i :: 0 <= i < |calls| ==> Callable(calls[i])
    decreases |calls|
  {
    if calls == [] then Step(s, [])
    else
      var first := Apply(s, calls[0]);
      var rest := Run(first.next, calls[1..]);
      Step(rest.next, first.emitted + rest.emitted)
  }

  /** Any single call keeps the statics consistent with everything sent. */
  lemma ApplyKeepsConsistent(s: State, sent: seq<Packet>, c: Call)
    requires Callable(c)
    requires Consistent(s, sent)
    ensures Consistent(Apply(s, c).next, sent + Apply(s, c).emitted)
  {
    match c {
      case LayerCall(layer, now) => LayerChangeKeepsConsistent(s, sent, layer, now);
      case CapsOnCall => CapsWordKeepsConsistent(s, sent, true);
      case CapsOffCall => CapsWordKeepsConsistent(s, sent, false);
      case ReceiveCall(data, liveLayer) => ReceiveKeepsConsistent(s, sent, data, liveLayer);
    }
  }

  /** Any sequence of calls keeps the statics consistent with everything sent. */
  lemma {:induction false} RunKeepsConsistent(s: State, sent: seq<Packet>, calls: seq<Call>)
    requires forall i :: 0 <= i < |calls| ==> Callable(calls[i])
    requires Consistent(s, sent)
    ensures Consistent(Run(s, calls).next, sent + Run(s, calls).emitted)
    decreases |calls|
  {
    if calls != [] {
      var first := Apply(s, calls[0]);
      ApplyKeepsConsistent(s, sent, calls[0]);
      RunKeepsConsistent(first.next, sent + first.emitted, calls[1..]);
      var rest := Run(first.next, calls[1..]);
      assert Run(s, calls) == Step(rest.next, first.emitted + rest.emitted);
      assert sent + first.emitted + rest.emitted == sent + (first.emitted + rest.emitted);
    } else {
      assert sent + Run(s, calls).emitted == sent;
    }
  }

  /** Every report emitted from the start-up state is a well-formed 32-byte report
      whose tag is 1, 2 or 99 and whose bytes 2..31 are zero. */
  lemma EmittedReportsWellFormed(calls: seq<Call>)
    requires forall i :: 0 <= i < |calls| ==> Callable(calls[i])
    ensures forall i :: 0 <= i < |Run(Init, calls).emitted| ==> WellFormed(Run(Init, calls).emitted[i])
  {
    RunKeepsConsistent(Init, [], calls);
    assert [] + Run(Init, calls).emitted == Run(Init, calls).emitted;
  }

  predicate LayerCallsOnly(calls: seq<Call>) {
    forall i :: 0 <= i < |calls| ==> calls[i].LayerCall?
  }

  /** Layer-change calls that all land within the debounce window of the
      notifier's `last_time` emit nothing and change nothing. */
  lemma {:induction false} DebouncedCallsAreSilent(s: State, calls: seq<Call>)
    requires LayerCallsOnly(calls)
    requires forall i :: 0 <= i < |calls| ==> Elapsed(calls[i].now, s.lastTime) < DebounceTicks
    ensures Run(s, calls) == Step(s, [])
  {
    if calls != [] {
      DebouncedCallsAreSilent(s, calls[1..]);
    }
  }

  /** Ticks measured from `start` in `uint32_t` arithmetic: when `a` comes no later
      than `b`, the time from `a` to `b` is the difference of their offsets. */
  lemma ElapsedSplits(start: uint32, a: uint32, b: uint32)
    requires Elapsed(a, start) <= Elapsed(b, start)
    ensures Elapsed(b, a) == Elapsed(b, start) - Elapsed(a, start)
  {
    var ea, eb := Elapsed(a, start) as int, Elapsed(b, start) as int;
    var m := 0x1_0000_0000;
    assert a as int == start as int + ea || a as int == start as int + ea - m;
    assert b as int == start as int + eb || b as int == start as int + eb - m;
    assert b as int - a as int == eb - ea || b as int - a as int == eb - ea - m;
  }

  /** A burst of layer-change calls, in tick order and all within 200 ticks of
      `start`, sends at most one report, however many distinct layers it carries.
      Ticks are compared as `uint32_t` offsets from `start`, so the window may
      straddle the counter's wrap-around. */
  lemma {:induction false} BurstEmitsAtMostOnce(s: State, calls: seq<Call>, start: uint32)
    requires LayerCallsOnly(calls)
    requires forall i :: 0 <= i < |calls| ==> Elapsed(calls[i].now, start) < DebounceTicks
    requires forall i, j :: 0 <= i < j < |calls| ==> Elapsed(calls[i].now, start) <= Elapsed(calls[j].now, start)
    ensures |Run(s, calls).emitted| <= 1
  {
    if calls != [] {
      var c := calls[0];
      var first := Apply(s, c);
      if Elapsed(c.now, s.lastTime) < DebounceTicks {
        BurstEmitsAtMostOnce(s, calls[1..], start);
      } else {
        var rest := calls[1..];
        forall i | 0 <= i < |rest|
          ensures Elapsed(rest[i].now, first.next.lastTime) < DebounceTicks
        {
          assert rest[i] == calls[i + 1];
          ElapsedSplits(start, c.now, rest[i].now);
        }
        DebouncedCallsAreSilent(first.next, rest);
      }
    }
  }

  /** The reference behaviour for well-spaced calls: a layer-change report for
      each layer that differs from the last one reported. */
  function ChangesFrom(last: Byte, calls: seq<Call>): seq<Packet>
    requires LayerCallsOnly(calls)
    decreases |calls|
  {
    if calls == [] then []
    else if calls[0].layer != last then
      [Report(TagLayerChange, calls[0].layer)] + ChangesFrom(calls[0].layer, calls[1..])
    else ChangesFrom(last, calls[1..])
  }

  /** When each call comes at least 200 ticks after the previous one, every call
      passes the gate, and a report is sent exactly when the layer differs from the
      previous call's layer. For the first call, the comparison is against the
      `previous_layer` left by earlier calls, or 255 after start-up. */
  lemma {:induction false} SpacedCallsReportEachChange(s: State, calls: seq<Call>)
    requires LayerCallsOnly(calls)
    requires |calls| > 0 ==> Elapsed(calls[0].now, s.lastTime) >= DebounceTicks
    requires forall i :: 0 < i < |calls| ==> Elapsed(calls[i].now, calls[i - 1].now) >= DebounceTicks
    ensures Run(s, calls).emitted == ChangesFrom(s.previousLayer, calls)
    decreases |calls|
  {
    if calls != [] {
      var first := Apply(s, calls[0]);
      var rest := calls[1..];
      forall i | 0 < i < |rest|
        ensures Elapsed(rest[i].now, rest[i - 1].now) >= DebounceTicks
      {
        assert rest[i] == calls[i + 1] && rest[i - 1] == calls[i];
      }
      SpacedCallsReportEachChange(first.next, rest);
    }
  }

  /** The first call past the gate reports any layer but 255; 255 is taken for
      "already reported" and sent nowhere. */
  lemma FirstAcceptedLayer(layer: Byte, now: uint32)
    requires now >= DebounceTicks
    ensures OnLayerChange(Init, layer, now).emitted
            == if layer == NoLayerYet then [] else [Report(TagLayerChange, layer)]
  {
  }

  /** Scenario: layers 3, 3, 7 at ticks 200, 400, 600 after start-up report 3 and 7. */
  lemma LayerScenario()
    ensures Run(Init, [LayerCall(3, 200), LayerCall(3, 400), LayerCall(7, 600)]).emitted
            == [Report(TagLayerChange, 3), Report(TagLayerChange, 7)]
  {
    var calls := [LayerCall(3, 200), LayerCall(3, 400), LayerCall(7, 600)];
    SpacedCallsReportEachChange(Init, calls);
  }

  /** Scenario: since `last_time` starts at 0, a change before tick 200 is dropped. */
  lemma EarlyChangeDropped(layer: Byte, now: uint32)
    requires now < DebounceTicks
    ensures Run(Init, [LayerCall(layer, now)]) == Step(Init, [])
  {
  }

  /** Scenario: a suppressed call does not restart the window; it is measured from
      the last call that passed the gate (tick 300), not from tick 450. */
  lemma WindowMeasuredFromLastAcceptedCall()
    ensures Run(Init, [LayerCall(1, 300), LayerCall(2, 450), LayerCall(2, 550)]).emitted
            == [Report(TagLayerChange, 1), Report(TagLayerChange, 2)]
  {
  }

  /** Scenario: caps word on, on, off, on reports on, off, on. */
  lemma CapsWordScenario()
    ensures Run(Init, [CapsOnCall, CapsOnCall, CapsOffCall, CapsOnCall]).emitted
            == [Report(TagCapsWord, 1), Report(TagCapsWord, 0), Report(TagCapsWord, 1)]
  {
  }

  /** From caps word off, `on, off, off` sends exactly two reports, and `on, on` one. */
  lemma CapsWordEdgesCounted(s: State)
    requires !s.capsWordState
    ensures Run(s, [CapsOnCall, CapsOffCall, CapsOffCall]).emitted
            == [Report(TagCapsWord, 1), Report(TagCapsWord, 0)]
    ensures Run(s, [CapsOnCall, CapsOnCall]).emitted == [Report(TagCapsWord, 1)]
  {
  }

  /** Calling caps-word on (or off) a second time changes and sends nothing. */
  lemma CapsWordIdempotent(s: State)
    ensures var once := OnCapsWordOn(s).next; OnCapsWordOn(once) == Step(once, [])
    ensures var once := OnCapsWordOff(s).next; OnCapsWordOff(once) == Step(once, [])
  {
  }

  /** A layer query is answered with the live layer whatever the statics, even
      right after a debounced layer-change call. */
  lemma QueryIgnoresDebounce(s: State, layer: Byte, now: uint32, data: seq<Byte>, liveLayer: Byte)
    requires |data| >= 1 && data[0] == TagLayerQuery
    requires Elapsed(now, s.lastTime) < DebounceTicks
    ensures Run(s, [LayerCall(layer, now), ReceiveCall(data, liveLayer)])
            == Step(s, [Report(TagLayerQuery, liveLayer)])
  {
    var calls := [LayerCall(layer, now), ReceiveCall(data, liveLayer)];
    assert calls[1..] == [ReceiveCall(data, liveLayer)];
    assert calls[1..][1..] == [];
    assert Run(s, calls[1..]) == Step(s, [Report(TagLayerQuery, liveLayer)]);
  }
}
