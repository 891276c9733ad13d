/**
 * Inter-node and client messages of node.py (the JSON objects keyed by
 * "type"), and the outbox that stands for the fire-and-forget `send_msg`.
 */
module Messages {
  import opened Config

  datatype Message =
    | Heartbeat(id: int)
    | Election(id: int)
    | ElectionOk(id: int)
    | Coordinator(id: int)
    | Replicate(sql: string, checksum: string, origin: int)
    | ClientQuery(sql: string)
    | GetCoordinator
    | Unrecognized(kind: string)  // any other "type" value

  /** One `send_msg(target, msg)`: delivery failures are swallowed, so a send always "succeeds". */
  datatype Envelope = Envelope(target: NodeInfo, msg: Message)

  /** The sends of one loop that sends `msg` to each of `targets`, in order. */
  function Fanout(targets: seq<NodeInfo>, msg: Message): seq<Envelope>
  {
    seq(|targets|, i requires 0 <= i < |targets| => Envelope(targets[i], msg))
  }

  /** `k` copies of the same traffic, one after the other. */
  function Repeat(traffic: seq<Envelope>, k: nat): seq<Envelope>
  {
    if k == 0 then [] else Repeat(traffic, k - 1) + traffic
  }

  /** Sending to one more target extends the fan-out by exactly that send. */
  lemma FanoutSnoc(targets: seq<NodeInfo>, i: int, msg: Message)
    requires 0 <= i < |targets|
    ensures Fanout(targets[..i + 1], msg) == Fanout(targets[..i], msg) + [Envelope(targets[i], msg)]
  {
  }

  /** A fan-out holds exactly one send of `msg` to each target and nothing else. */
  lemma FanoutMembers(targets: seq<NodeInfo>, msg: Message)
    ensures |Fanout(targets, msg)| == |targets|
    ensures forall e :: e in Fanout(targets, msg) <==> e.msg == msg && e.target in targets
  {
    var f := Fanout(targets, msg);
    forall e: Envelope | e.msg == msg && e.target in targets
      ensures e in f
    {
      var i :| 0 <= i < |targets| && targets[i] == e.target;
      assert f[i] == e;
    }
  }
}
