/** The two halves together: what the firmware sends is what the watcher
    decodes, and the watcher's layer follows the firmware's. */
module Protocol {
  import opened Wire
  import opened Firmware
  import opened FirmwareTraces
  import opened Watcher

  /** A layer report from `accessibility_send_layer_change`, handled by the
      watcher, sets its current layer to the reported layer. */
  lemma LayerReportRoundTrip(s: State, layer: Byte, now: uint32, t: LayerTracker)
    requires OnLayerChange(s, layer, now).emitted != []
    ensures var p := OnLayerChange(s, layer, now).emitted[0];
            && Decode(p) == Some(LayerChanged(layer))
            && Handle(t, p).next.currentLayer == layer as int
            && !Handle(t, p).handled
  {
  }

  /** A caps-word report reaches the watcher as the matching sound and leaves its
      layers alone. */
  lemma CapsWordRoundTrip(s: State, on: bool, t: LayerTracker)
    requires (if on then OnCapsWordOn(s) else OnCapsWordOff(s)).emitted != []
    ensures var p := (if on then OnCapsWordOn(s) else OnCapsWordOff(s)).emitted[0];
            && Handle(t, p).next == t
            && Handle(t, p).sound == Some(if on then CapsWordOn else CapsWordOff)
  {
  }

  /** The command the watcher writes is the one command the firmware answers;
      its answer is the only report the watcher reports as handled, and it moves
      the watcher to the live layer. */
  lemma QueryRoundTrip(liveLayer: Byte, t: LayerTracker)
    ensures OnReceive(QueryCommand(), liveLayer) == [Report(TagLayerQuery, liveLayer)]
    ensures var reply := OnReceive(QueryCommand(), liveLayer)[0];
            && Handle(t, reply).handled
            && Handle(t, reply).next.currentLayer == liveLayer as int
  {
  }

  /** The firmware answers exactly the reports whose first byte is the query
      command's first byte. */
  lemma OnlyQueryIsAnswered(data: seq<Byte>, liveLayer: Byte)
    requires |data| >= 1
    ensures OnReceive(data, liveLayer) != [] <==> data[0] == QueryCommand()[0]
  {
  }

  /** No report in `ps` is a reply to a layer query. */
  predicate NoReplies(ps: seq<Packet>) {
    forall i :: 0 <= i < |ps| ==> WellFormed(ps[i]) && ps[i][0] != TagLayerQuery
  }

  predicate NoQueries(calls: seq<Call>) {
    forall i :: 0 <= i < |calls| ==> !calls[i].ReceiveCall?
  }

  lemma {:induction false} NoQueriesNoReplies(s: State, calls: seq<Call>)
    requires NoQueries(calls)
    ensures NoReplies(Run(s, calls).emitted)
    decreases |calls|
  {
    if calls != [] {
      var first := Apply(s, calls[0]);
      NoQueriesNoReplies(first.next, calls[1..]);
      var rest := Run(first.next, calls[1..]);
      assert Run(s, calls).emitted == first.emitted + rest.emitted;
      forall i | 0 <= i < |first.emitted + rest.emitted|
        ensures WellFormed((first.emitted + rest.emitted)[i])
        ensures (first.emitted + rest.emitted)[i][0] != TagLayerQuery
      {
        if i >= |first.emitted| {
          assert (first.emitted + rest.emitted)[i] == rest.emitted[i - |first.emitted|];
        }
      }
    }
  }

  /** Fed layer and caps-word reports, the watcher ends on the last layer reported,
      and without a layer report it does not move at all. */
  lemma {:induction false} HostTracksLastLayerReport(t: LayerTracker, ps: seq<Packet>)
    requires NoReplies(ps)
    ensures LastPayload(ps, TagLayerChange).None? ==> HostRun(t, ps) == t
    ensures LastPayload(ps, TagLayerChange).Some? ==>
              && HostRun(t, ps).currentLayer == LastPayload(ps, TagLayerChange).value as int
              && HostRun(t, ps).initialLayerRetrieved
    decreases |ps|
  {
    if ps != [] {
      var pre := ps[..|ps| - 1];
      assert NoReplies(pre) by {
        forall i | 0 <= i < |pre| ensures WellFormed(pre[i]) && pre[i][0] != TagLayerQuery {
          assert pre[i] == ps[i];
        }
      }
      HostTracksLastLayerReport(t, pre);
    }
  }

  /** The payload of the last 32-byte report in `ps` that carries a layer: a
      layer report (tag 1) or a query reply (tag 99). */
  function LastLayerCarried(ps: seq<Packet>): (r: Option<Byte>)
    ensures r.Some? ==> exists i :: 0 <= i < |ps| && |ps[i]| == PacketSize && ps[i][1] == r.value
                                      && (ps[i][0] == TagLayerChange || ps[i][0] == TagLayerQuery)
    decreases |ps|
  {
    if ps == [] then None
    else
      var p := ps[|ps| - 1];
      if |p| == PacketSize && (p[0] == TagLayerChange || p[0] == TagLayerQuery) then Some(p[1])
      else LastLayerCarried(ps[..|ps| - 1])
  }

  /** Fed any reports at all, including query replies and malformed data, the
      watcher ends on the layer carried by the last layer report or query reply;
      with neither it does not move. */
  lemma {:induction false} HostFollowsLastLayerCarried(t: LayerTracker, ps: seq<Packet>)
    ensures LastLayerCarried(ps).None? ==> HostRun(t, ps) == t
    ensures LastLayerCarried(ps).Some? ==>
              && HostRun(t, ps).currentLayer == LastLayerCarried(ps).value as int
              && HostRun(t, ps).initialLayerRetrieved
    decreases |ps|
  {
    if ps != [] {
      var pre, p := ps[..|ps| - 1], ps[|ps| - 1];
      HostFollowsLastLayerCarried(t, pre);
      assert HostRun(t, ps) == Handle(HostRun(t, pre), p).next;
      if !(|p| == PacketSize && (p[0] == TagLayerChange || p[0] == TagLayerQuery)) {
        assert LastLayerCarried(ps) == LastLayerCarried(pre);
        assert HostRun(t, ps) == HostRun(t, pre);
      }
    }
  }

  /** Over any session without layer queries, the watcher's current layer is the
      firmware's `previous_layer`, and before the first layer report the watcher
      has seen nothing while the firmware still holds 255. */
  lemma HostMirrorsFirmware(calls: seq<Call>)
    requires NoQueries(calls)
    ensures var r := Run(Init, calls);
            var host := HostRun(InitialTracker, r.emitted);
            && (host.initialLayerRetrieved ==> host.currentLayer == r.next.previousLayer as int)
            && (!host.initialLayerRetrieved ==> host == InitialTracker && r.next.previousLayer == NoLayerYet)
  {
    var r := Run(Init, calls);
    assert forall i :: 0 <= i < |calls| ==> Callable(calls[i]);
    RunKeepsConsistent(Init, [], calls);
    assert [] + r.emitted == r.emitted;
    NoQueriesNoReplies(Init, calls);
    HostTracksLastLayerReport(InitialTracker, r.emitted);
  }
}
