/**
 * The pure side of the Bully election in node.py: which peers a node knows
 * (`other_nodes`), which of them outrank it (`higher_nodes` in
 * `start_election`), how an ELECTION sender is looked up, and what one run of
 * `start_election` sends and decides.
 */
module Bully {
  import opened Wrappers
  import opened Config
  import opened Messages

  /** `other_nodes`: every configured node whose id is not `self`, in table order. */
  function OtherNodes(nodes: seq<NodeInfo>, self: int): (others: seq<NodeInfo>)
    ensures |others| <= |nodes|
    ensures forall n :: n in others <==> n in nodes && n.id != self
  {
    if nodes == [] then []
    else if nodes[0].id != self then [nodes[0]] + OtherNodes(nodes[1..], self)
    else OtherNodes(nodes[1..], self)
  }

  /** `higher_nodes`: the peers whose id is greater than `self`, in order. */
  function HigherNodes(others: seq<NodeInfo>, self: int): (higher: seq<NodeInfo>)
    ensures |higher| <= |others|
    ensures forall n :: n in higher <==> n in others && n.id > self
  {
    if others == [] then []
    else if others[0].id > self then [others[0]] + HigherNodes(others[1..], self)
    else HigherNodes(others[1..], self)
  }

  /** `next(n for n in nodes_info if n['id'] == id)`: the first node with that id, if any. */
  function FindNode(nodes: seq<NodeInfo>, id: int): (r: Option<NodeInfo>)
    ensures r.None? <==> forall i :: 0 <= i < |nodes| ==> nodes[i].id != id
    ensures r.Some? ==> exists i :: 0 <= i < |nodes| && nodes[i] == r.value && r.value.id == id &&
                                    forall j :: 0 <= j < i ==> nodes[j].id != id
  {
    if nodes == [] then None
    else if nodes[0].id == id then Some(nodes[0])
    else
      var r := FindNode(nodes[1..], id);
      assert r.Some? ==> exists i :: 0 < i < |nodes| && nodes[i] == r.value && r.value.id == id &&
                                     forall j :: 0 <= j < i ==> nodes[j].id != id by {
        if r.Some? {
          var i :| 0 <= i < |nodes| - 1 && nodes[1..][i] == r.value && r.value.id == id &&
                   forall j :: 0 <= j < i ==> nodes[1..][j].id != id;
          assert nodes[i + 1] == r.value;
          assert forall j :: 0 <= j < i + 1 ==> nodes[j].id != id by {
            forall j | 0 <= j < i + 1 ensures nodes[j].id != id {
              if j > 0 { assert nodes[j] == nodes[1..][j - 1]; }
            }
          }
        }
      }
      r
  }

  /**
   * What a node whose peers are `others` sends during one `start_election`:
   * with no higher peer, COORDINATOR to every peer; otherwise ELECTION to each
   * higher peer, followed by a COORDINATOR broadcast only if nothing set the
   * coordinator during the wait (`afterWait` is the coordinator seen after it).
   */
  function ElectionTraffic(others: seq<NodeInfo>, self: int, afterWait: Option<int>): (traffic: seq<Envelope>)
    ensures forall e :: e in traffic ==> e.msg == Election(self) || e.msg == Coordinator(self)
    ensures forall e :: e in traffic && e.msg.Election? ==> e.target in others && e.target.id > self
    ensures forall e :: e in traffic && e.msg.Coordinator? ==> e.target in others
  {
    var higher := HigherNodes(others, self);
    FanoutMembers(higher, Election(self));
    FanoutMembers(others, Coordinator(self));
    if higher == [] then Fanout(others, Coordinator(self))
    else Fanout(higher, Election(self)) + (if afterWait.None? then Fanout(others, Coordinator(self)) else [])
  }

  /**
   * The coordinator a node holds after one `start_election`: always set, and
   * either the node itself or the value seen after the wait.
   */
  function ElectionOutcome(others: seq<NodeInfo>, self: int, afterWait: Option<int>): (outcome: Option<int>)
    ensures outcome.Some?
    ensures outcome == Some(self) || outcome == afterWait
  {
    if HigherNodes(others, self) == [] || afterWait.None? then Some(self) else afterWait
  }

  /**
   * A node that no peer outranks declares itself coordinator whatever the wait
   * would have shown, and announces it to every peer and to nobody else.
   */
  lemma HighestDeclaresItself(others: seq<NodeInfo>, self: int, afterWait: Option<int>)
    requires forall n :: n in others ==> n.id <= self
    ensures ElectionOutcome(others, self, afterWait) == Some(self)
    ensures ElectionTraffic(others, self, afterWait) == Fanout(others, Coordinator(self))
  {
    NoneHigher(others, self);
  }

  lemma {:induction false} NoneHigher(others: seq<NodeInfo>, self: int)
    requires forall n :: n in others ==> n.id <= self
    ensures HigherNodes(others, self) == []
  {
    if others != [] {
      assert others[0] in others;
      NoneHigher(others[1..], self);
    }
  }

  /**
   * A node with a higher peer first sends ELECTION to its higher peers, one
   * send per higher peer in table order, and sends nothing else but a
   * COORDINATOR broadcast; it takes over only if the coordinator is still
   * unset after the wait, and otherwise keeps what the wait showed and
   * announces nothing.
   */
  lemma OutrankedNodeDefers(others: seq<NodeInfo>, self: int, afterWait: Option<int>)
    requires exists n :: n in others && n.id > self
    ensures ElectionOutcome(others, self, afterWait) == if afterWait.None? then Some(self) else afterWait
    ensures forall e :: e in ElectionTraffic(others, self, afterWait) && e.msg.Election? <==>
      e.msg == Election(self) && e.target in others && e.target.id > self
    ensures forall e :: e in ElectionTraffic(others, self, afterWait) && e.msg.Coordinator? <==>
      afterWait.None? && e.msg == Coordinator(self) && e.target in others
    ensures forall e :: e in ElectionTraffic(others, self, afterWait) ==> e.msg.Election? || e.msg.Coordinator?
    ensures |ElectionTraffic(others, self, afterWait)| ==
      |HigherNodes(others, self)| + (if afterWait.None? then |others| else 0)
    ensures ElectionTraffic(others, self, afterWait)[..|HigherNodes(others, self)|] ==
      Fanout(HigherNodes(others, self), Election(self))
  {
    var n :| n in others && n.id > self;
    var higher := HigherNodes(others, self);
    assert n in higher;
    FanoutMembers(higher, Election(self));
    FanoutMembers(others, Coordinator(self));
  }

  /** Filtering out `self` before picking the higher peers changes nothing. */
  lemma {:induction false} HigherAmongOthers(nodes: seq<NodeInfo>, self: int)
    ensures HigherNodes(OtherNodes(nodes, self), self) == HigherNodes(nodes, self)
  {
    if nodes != [] {
      HigherAmongOthers(nodes[1..], self);
      if nodes[0].id != self {
        assert ([nodes[0]] + OtherNodes(nodes[1..], self))[1..] == OtherNodes(nodes[1..], self);
      }
    }
  }

  /** In a run of consecutive ids starting at `lo`, the nodes above `self` are a suffix. */
  lemma {:induction false} HigherInConsecutive(nodes: seq<NodeInfo>, lo: int, self: int)
    requires forall i :: 0 <= i < |nodes| ==> nodes[i].id == lo + i
    requires lo <= self + 1 <= lo + |nodes|
    ensures HigherNodes(nodes, self) == nodes[self + 1 - lo..]
    decreases |nodes|
  {
    if nodes == [] {
    } else if lo > self {
      // every node is above self
      AllHigher(nodes, self);
    } else {
      assert nodes[0].id <= self;
      if |nodes| > 1 {
        assert forall i :: 0 <= i < |nodes[1..]| ==> nodes[1..][i].id == lo + 1 + i;
        HigherInConsecutive(nodes[1..], lo + 1, self);
        assert nodes[1..][self + 1 - (lo + 1)..] == nodes[self + 1 - lo..];
      }
    }
  }

  lemma {:induction false} AllHigher(nodes: seq<NodeInfo>, self: int)
    requires forall i :: 0 <= i < |nodes| ==> nodes[i].id > self
    ensures HigherNodes(nodes, self) == nodes
  {
    if nodes != [] {
      assert forall i :: 0 <= i < |nodes[1..]| ==> nodes[1..][i].id > self;
      AllHigher(nodes[1..], self);
      assert [nodes[0]] + nodes[1..] == nodes;
    }
  }

  /**
   * In a cluster laid out by `gerar_config`, node k finds itself at position k
   * (what `Node.__init__` relies on) and its election goes to exactly the
   * nodes after it; only the last node has no higher peer.
   */
  lemma GeneratedClusterElection(ips: seq<string>, k: int)
    requires 0 <= k < |ips|
    ensures FindNode(ConfigTable(ips), k) == Some(ConfigTable(ips)[k])
    ensures HigherNodes(OtherNodes(ConfigTable(ips), k), k) == ConfigTable(ips)[k + 1..]
    ensures HigherNodes(OtherNodes(ConfigTable(ips), k), k) == [] <==> k == |ips| - 1
  {
    var t := ConfigTable(ips);
    HigherAmongOthers(t, k);
    HigherInConsecutive(t, 0, k);
  }

  /**
   * In a cluster laid out by `gerar_config`, the last node becomes coordinator
   * on every election it runs and announces it to all other nodes; any other
   * node whose higher peers stay silent takes over after sending ELECTION to
   * exactly the nodes after it.
   */
  lemma GeneratedClusterOutcomes(ips: seq<string>, k: int, afterWait: Option<int>)
    requires 0 <= k < |ips|
    ensures k == |ips| - 1 ==>
      ElectionOutcome(OtherNodes(ConfigTable(ips), k), k, afterWait) == Some(k) &&
      ElectionTraffic(OtherNodes(ConfigTable(ips), k), k, afterWait) ==
        Fanout(ConfigTable(ips)[..k], Coordinator(k))
    ensures k < |ips| - 1 ==>
      ElectionOutcome(OtherNodes(ConfigTable(ips), k), k, None) == Some(k) &&
      ElectionTraffic(OtherNodes(ConfigTable(ips), k), k, None) ==
        Fanout(ConfigTable(ips)[k + 1..], Election(k)) + Fanout(OtherNodes(ConfigTable(ips), k), Coordinator(k))
  {
    var t := ConfigTable(ips);
    GeneratedClusterElection(ips, k);
    if k == |ips| - 1 {
      OthersOfLast(t, k);
    }
  }

  /** Dropping the last entry of a table whose ids are positions leaves the others. */
  lemma {:induction false} OthersOfLast(t: seq<NodeInfo>, k: int)
    requires 0 <= k && |t| == k + 1
    requires forall i :: 0 <= i < |t| ==> t[i].id == i
    ensures OtherNodes(t, k) == t[..k]
  {
    OthersBelow(t, k, 0);
    assert t[0..] == t;
  }

  lemma {:induction false} OthersBelow(t: seq<NodeInfo>, k: int, lo: int)
    requires 0 <= lo <= k && |t| == k + 1
    requires forall i :: 0 <= i < |t| ==> t[i].id == i
    ensures OtherNodes(t[lo..], k) == t[lo..k]
    decreases |t| - lo
  {
    if lo == k {
      assert t[lo..][1..] == [];
    } else {
      OthersBelow(t, k, lo + 1);
      assert t[lo..][1..] == t[lo + 1..];
      if lo < k {
        assert t[lo..k] == [t[lo]] + t[lo + 1..k];
      }
    }
  }
}
