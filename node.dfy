/**
 * The `Node` class of node.py with sockets, threads, the lock and MySQL
 * taken away: the outbox records every `send_msg`, the storage log records
 * every statement the local database executes, the clock is the `now`
 * argument, the storage answer is the `storage` argument, and the election
 * wait is the `afterWait` argument (the coordinator seen once the wait is over).
 */
module NodeModel {
  import opened Wrappers
  import opened Config
  import opened Messages
  import opened Replication
  import opened Bully
  import opened Liveness

  /** What `handle_client` writes back on the connection, if anything. */
  datatype Reply =
    | QueryAnswer(result: QueryResult)              // reply to CLIENT_QUERY
    | CoordinatorAnswer(coordinatorId: Option<int>) // {status: success, coordinator_id}

  class Node {
    const nodeId: int
    const nodesInfo: seq<NodeInfo>
    const me: NodeInfo
    const otherNodes: seq<NodeInfo>
    var coordinatorId: Option<int>
    var aliveNodes: map<int, int>
    var outbox: seq<Envelope>
    ghost var storageLog: seq<string>

    ghost predicate Valid()
      reads this
    {
      otherNodes == OtherNodes(nodesInfo, nodeId) && nodeId in aliveNodes
    }

    /**
     * `Node.__init__`: picks its own descriptor by position (Python's negative
     * indices included), marks itself alive, and runs the initial election.
     */
    constructor (nodeId: int, nodesInfo: seq<NodeInfo>, now: int, afterWait: Option<int>)
      requires -|nodesInfo| <= nodeId < |nodesInfo|
      ensures Valid()
      ensures this.nodeId == nodeId && this.nodesInfo == nodesInfo
      ensures me == nodesInfo[if nodeId >= 0 then nodeId else |nodesInfo| + nodeId]
      ensures aliveNodes == map[nodeId := now]
      ensures coordinatorId == ElectionOutcome(otherNodes, nodeId, afterWait)
      ensures outbox == ElectionTraffic(otherNodes, nodeId, afterWait)
      ensures storageLog == []
    {
      this.nodeId := nodeId;
      this.nodesInfo := nodesInfo;
      me := nodesInfo[if nodeId >= 0 then nodeId else |nodesInfo| + nodeId];
      otherNodes := OtherNodes(nodesInfo, nodeId);
      coordinatorId := None;
      aliveNodes := map[nodeId := now];
      outbox := [];
      storageLog := [];
      new;
      StartElection(afterWait);
    }

    /** `send_msg`: a failed delivery is swallowed, so the send is simply recorded. */
    method SendMsg(target: NodeInfo, msg: Message)
      modifies this`outbox
      ensures outbox == old(outbox) + [Envelope(target, msg)]
    {
      outbox := outbox + [Envelope(target, msg)];
    }

    /** `broadcast`: one send to each peer, in table order. */
    method Broadcast(msg: Message)
      modifies this`outbox
      ensures outbox == old(outbox) + Fanout(otherNodes, msg)
    {
      for i := 0 to |otherNodes|
        invariant outbox == old(outbox) + Fanout(otherNodes[..i], msg)
      {
        FanoutSnoc(otherNodes, i, msg);
        SendMsg(otherNodes[i], msg);
      }
      assert otherNodes[..|otherNodes|] == otherNodes;
    }

    /** One round of `send_heartbeat`. */
    method SendHeartbeat()
      modifies this`outbox
      ensures outbox == old(outbox) + Fanout(otherNodes, Heartbeat(nodeId))
    {
      Broadcast(Heartbeat(nodeId));
    }

    /** `start_election`. */
    method StartElection(afterWait: Option<int>)
      modifies this`coordinatorId, this`outbox
      ensures coordinatorId == ElectionOutcome(otherNodes, nodeId, afterWait)
      ensures outbox == old(outbox) + ElectionTraffic(otherNodes, nodeId, afterWait)
    {
      var higher := HigherNodes(otherNodes, nodeId);
      if higher == [] {
        coordinatorId := Some(nodeId);
        Broadcast(Coordinator(nodeId));
      } else {
        for i := 0 to |higher|
          invariant outbox == old(outbox) + Fanout(higher[..i], Election(nodeId))
        {
          FanoutSnoc(higher, i, Election(nodeId));
          SendMsg(higher[i], Election(nodeId));
        }
        assert higher[..|higher|] == higher;
        // the wait: whatever other handlers set meanwhile is what is seen now
        coordinatorId := afterWait;
        if coordinatorId == None {
          coordinatorId := Some(nodeId);
          Broadcast(Coordinator(nodeId));
        }
      }
    }

    /** `execute_query`: run the statement locally and, for a write, broadcast it. */
    method ExecuteQuery(sql: string, storage: StorageOutcome) returns (r: QueryResult)
      modifies this`outbox, this`storageLog
      ensures r == QueryReply(nodeId, sql, storage)
      ensures outbox == old(outbox) + QueryTraffic(otherNodes, nodeId, sql, storage)
      ensures storageLog == old(storageLog) + Executes(sql, storage)
    {
      var isWrite := IsWrite(sql);
      var checksum := Checksum(sql);
      match storage
      case Failed(message) =>
        r := QueryError(nodeId, message);
      case Executed(rows) =>
        storageLog := storageLog + [sql];
        var data: Option<seq<Row>> := None;
        if !isWrite {
          data := Some(rows);
        }
        if isWrite {
          Broadcast(Replicate(sql, checksum, nodeId));
        }
        r := QuerySuccess(nodeId, data);
    }

    /** `execute_replicated_query`: a mismatched checksum or a storage error is only logged. */
    method ExecuteReplicatedQuery(sql: string, checksum: string, origin: int, storage: StorageOutcome)
      modifies this`storageLog
      ensures storageLog == old(storageLog) + ReplicaExecutes(sql, checksum, storage)
    {
      if Checksum(sql) != checksum {
        return;
      }
      match storage
      case Failed(_) =>
      case Executed(_) =>
        storageLog := storageLog + [sql];
    }

    /** The effect of `process_message` on the node's state. */
    twostate predicate Processed(msg: Message, now: int, afterWait: Option<int>, storage: StorageOutcome)
      reads this
    {
      match msg
      case Heartbeat(id) =>
        aliveNodes == old(aliveNodes)[id := now] && coordinatorId == old(coordinatorId) &&
        outbox == old(outbox) && storageLog == old(storageLog)
      case Election(id) =>
        aliveNodes == old(aliveNodes) && storageLog == old(storageLog) &&
        if id < nodeId && FindNode(nodesInfo, id).Some? then
          coordinatorId == ElectionOutcome(otherNodes, nodeId, afterWait) &&
          outbox == old(outbox) + [Envelope(FindNode(nodesInfo, id).value, ElectionOk(nodeId))]
                                + ElectionTraffic(otherNodes, nodeId, afterWait)
        else
          coordinatorId == old(coordinatorId) && outbox == old(outbox)
      case Coordinator(id) =>
        coordinatorId == Some(id) && aliveNodes == old(aliveNodes) &&
        outbox == old(outbox) && storageLog == old(storageLog)
      case Replicate(sql, checksum, _) =>
        storageLog == old(storageLog) + ReplicaExecutes(sql, checksum, storage) &&
        aliveNodes == old(aliveNodes) && coordinatorId == old(coordinatorId) && outbox == old(outbox)
      case _ =>
        aliveNodes == old(aliveNodes) && coordinatorId == old(coordinatorId) &&
        outbox == old(outbox) && storageLog == old(storageLog)
    }

    /** `process_message`: messages of any other type are ignored. */
    method ProcessMessage(msg: Message, now: int, afterWait: Option<int>, storage: StorageOutcome)
      requires Valid()
      modifies this`aliveNodes, this`coordinatorId, this`outbox, this`storageLog
      ensures Valid()
      ensures Processed(msg, now, afterWait, storage)
    {
      match msg
      case Heartbeat(id) =>
        aliveNodes := aliveNodes[id := now];
      case Election(id) =>
        if id < nodeId {
          // `next(...)` raises when the sender is not configured; the handler swallows it
          var sender := FindNode(nodesInfo, id);
          if sender.Some? {
            SendMsg(sender.value, ElectionOk(nodeId));
            StartElection(afterWait);
          }
        }
      case Coordinator(id) =>
        coordinatorId := Some(id);
      case Replicate(sql, checksum, origin) =>
        ExecuteReplicatedQuery(sql, checksum, origin, storage);
      case _ =>
    }

    /**
     * One pass of `monitor_nodes` at time `now`: every expired peer is removed,
     * in some order; removing the current coordinator clears it and runs an
     * election. Returns how many elections ran.
     */
    method MonitorSweep(now: int, afterWait: Option<int>) returns (elections: nat)
      requires Valid()
      modifies this`aliveNodes, this`coordinatorId, this`outbox
      ensures Valid()
      ensures aliveNodes == AfterSweep(old(aliveNodes), nodeId, now)
      ensures elections > 0 <==>
        old(coordinatorId).Some? && old(coordinatorId).value in Expired(old(aliveNodes), nodeId, now)
      ensures elections == 0 ==> coordinatorId == old(coordinatorId)
      ensures elections > 0 ==> coordinatorId == ElectionOutcome(otherNodes, nodeId, afterWait)
      ensures elections <= 2
      ensures elections == 2 ==>
        ElectionOutcome(otherNodes, nodeId, afterWait).value in Expired(old(aliveNodes), nodeId, now)
      ensures outbox == old(outbox) + Repeat(ElectionTraffic(otherNodes, nodeId, afterWait), elections)
    {
      var deadNodes := Expired(aliveNodes, nodeId, now);
      ghost var alive0, c0 := aliveNodes, coordinatorId;
      ghost var outcome := ElectionOutcome(otherNodes, nodeId, afterWait);
      var remaining := deadNodes;
      elections := 0;
      while remaining != {}
        invariant remaining <= deadNodes
        invariant aliveNodes == alive0 - (deadNodes - remaining)
        invariant elections > 0 <==> c0.Some? && c0.value in deadNodes - remaining
        invariant elections == 0 ==> coordinatorId == c0
        invariant elections > 0 ==> coordinatorId == outcome
        invariant elections <= 2
        invariant elections == 2 ==> outcome.value in deadNodes - remaining
        invariant outbox == old(outbox) + Repeat(ElectionTraffic(otherNodes, nodeId, afterWait), elections)
        decreases remaining
      {
        var nid :| nid in remaining;
        aliveNodes := aliveNodes - {nid};
        remaining := remaining - {nid};
        if coordinatorId == Some(nid) {
          coordinatorId := None;
          StartElection(afterWait);
          elections := elections + 1;
        }
      }
    }

    /**
     * `patched_handle_client`, the handler installed at start-up: client
     * queries and coordinator requests are answered on the connection;
     * everything else goes to `process_message`.
     */
    method HandleClient(msg: Message, now: int, afterWait: Option<int>, storage: StorageOutcome)
      returns (reply: Option<Reply>)
      requires Valid()
      modifies this`aliveNodes, this`coordinatorId, this`outbox, this`storageLog
      ensures Valid()
      ensures msg.ClientQuery? ==>
        reply == Some(QueryAnswer(QueryReply(nodeId, msg.sql, storage))) &&
        outbox == old(outbox) + QueryTraffic(otherNodes, nodeId, msg.sql, storage) &&
        storageLog == old(storageLog) + Executes(msg.sql, storage) &&
        aliveNodes == old(aliveNodes) && coordinatorId == old(coordinatorId)
      ensures msg.GetCoordinator? ==>
        reply == Some(CoordinatorAnswer(old(coordinatorId))) &&
        aliveNodes == old(aliveNodes) && coordinatorId == old(coordinatorId) &&
        outbox == old(outbox) && storageLog == old(storageLog)
      ensures !msg.ClientQuery? && !msg.GetCoordinator? ==>
        reply == None && Processed(msg, now, afterWait, storage)
    {
      match msg
      case ClientQuery(sql) =>
        var result := ExecuteQuery(sql, storage);
        reply := Some(QueryAnswer(result));
      case GetCoordinator =>
        reply := Some(CoordinatorAnswer(coordinatorId));
      case _ =>
        ProcessMessage(msg, now, afterWait, storage);
        reply := None;
    }
  }
}
