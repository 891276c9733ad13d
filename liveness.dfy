/**
 * The liveness table of node.py: node id -> time of the last heartbeat,
 * and what one pass of `monitor_nodes` removes from it.
 */
module Liveness {

  /** A peer silent for more than this many time units is declared down. */
  const Timeout: int := 10

  /**
   * The table after one sweep: the own entry and every entry at most
   * `Timeout` old survive, with their times unchanged; every other entry is gone.
   */
  function AfterSweep(alive: map<int, int>, self: int, now: int): (m: map<int, int>)
    ensures self in alive ==> self in m
    ensures forall nid :: nid in m <==> nid in alive && (nid == self || now - alive[nid] <= Timeout)
    ensures forall nid :: nid in m ==> m[nid] == alive[nid]
  {
    map nid | nid in alive && (nid == self || now - alive[nid] <= Timeout) :: alive[nid]
  }

  /**
   * `dead_nodes`: the ids one sweep at time `now` finds dead. They are never
   * the own id, each was silent for more than `Timeout`, and together with the
   * entries the sweep keeps they make up the whole table, without overlap.
   */
  function Expired(alive: map<int, int>, self: int, now: int): (dead: set<int>)
    ensures self !in dead
    ensures forall nid :: nid in dead ==> nid in alive && now - alive[nid] > Timeout
    ensures dead !! AfterSweep(alive, self, now).Keys
    ensures dead + AfterSweep(alive, self, now).Keys == alive.Keys
    ensures alive - dead == AfterSweep(alive, self, now)
  {
    set nid | nid in alive && now - alive[nid] > Timeout && nid != self
  }
}
