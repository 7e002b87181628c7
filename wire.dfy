/** The 32-byte raw HID report shared by the firmware and the host watcher:
    byte 0 is the event tag, byte 1 the payload, bytes 2..31 are zero. */
module Wire {

  datatype Option<+T> = None | Some(value: T) {
    function GetOr(default: T): T {
      match this
      case Some(v) => v
      case None => default
    }
  }

  type Byte = bv8
  type Packet = seq<Byte>

  /** Size of every raw HID report, in bytes. */
  const PacketSize: nat := 32

  /** Event tag 1: the active layer changed; payload is the layer. */
  const TagLayerChange: Byte := 1
  /** Event tag 2: caps word changed; payload is 1 for on, 0 for off. */
  const TagCapsWord: Byte := 2
  /** Tag 99: query for the current layer (host to keyboard) and its reply. */
  const TagLayerQuery: Byte := 99

  predicate IsTag(b: Byte) {
    b == TagLayerChange || b == TagCapsWord || b == TagLayerQuery
  }

  /** A fresh zero-filled report carrying `tag` and `payload`. */
  function Report(tag: Byte, payload: Byte): (p: Packet)
    ensures |p| == PacketSize
    ensures p[0] == tag && p[1] == payload
    ensures forall i :: 2 <= i < |p| ==> p[i] == 0
  {
    [tag, payload] + seq(PacketSize - 2, _ => 0)
  }

  /** Every report the firmware emits has this shape. */
  predicate WellFormed(p: Packet) {
    && |p| == PacketSize
    && IsTag(p[0])
    && (p[0] == TagCapsWord ==> p[1] <= 1)
    && (forall i :: 2 <= i < |p| ==> p[i] == 0)
  }

  /** Two reports agree on every byte once they agree on the tag and the payload. */
  lemma {:induction false} ReportDeterminedByHeader(p: Packet)
    requires |p| == PacketSize
    requires forall i :: 2 <= i < |p| ==> p[i] == 0
    ensures p == Report(p[0], p[1])
  {
    var r := Report(p[0], p[1]);
    forall i | 0 <= i < |p|
      ensures p[i] == r[i]
    {
    }
  }

  /** The payload of the last report in `ps` tagged `tag`, if there is one. */
  function LastPayload(ps: seq<Packet>, tag: Byte): (r: Option<Byte>)
    ensures r.Some? ==> exists i :: 0 <= i < |ps| && |ps[i]| >= 2 && ps[i][0] == tag && ps[i][1] == r.value
  {
    if ps == [] then None
    else
      var p := ps[|ps| - 1];
      if |p| >= 2 && p[0] == tag then Some(p[1])
      else LastPayload(ps[..|ps| - 1], tag)
  }

  lemma LastPayloadAppend(ps: seq<Packet>, p: Packet, tag: Byte)
    ensures LastPayload(ps + [p], tag)
            == if |p| >= 2 && p[0] == tag then Some(p[1]) else LastPayload(ps, tag)
  {
    assert (ps + [p])[..|ps|] == ps;
  }
}
