# Distributed-database node coordination, modelled in Dafny

This project models the per-node coordination logic of a small distributed
SQL middleware (`node.py`) and the cluster-table generator that configures
it (`configurar.py`). Each node keeps a liveness table of its peers, elects a
coordinator with the Bully algorithm, dispatches inbound messages, classifies
client queries as reads or writes, and fans writes out to every peer as
REPLICATE messages that carry a checksum.

The model is sequential. Everything the node does on the outside world is
turned into state or parameters:

- Every `send_msg` is appended to the node's `outbox` as a (target, message) pair. Failed deliveries are swallowed in the source, so a send always "succeeds".
- Every statement the local database runs is appended to the ghost `storageLog`.
- The storage's answer to a statement is the `storage` argument: it either runs (and yields rows) or raises an error.
- The clock is the integer argument `now`.
- The two-unit election wait is the `afterWait` argument: the value `coordinator_id` holds when the wait ends, whatever concurrent handlers wrote meanwhile.

Modules:

- `Config` (config.dfy): the `gerar_config` table (`id = i`, `port = 5000 + i`, `db_port` cycling through 3309, 3307, 3308), built by a loop.
- `Messages` (messages.dfy): the message kinds as a datatype, outbox envelopes, and the fan-out of one broadcast loop.
- `Replication` (replication.dfy): write classification (a substring test on the upper-cased text), the checksum, and the replies, sends and storage effects of a client query and of a replicated statement.
- `Bully` (bully.dfy): peers, higher peers, sender lookup, and the sends and outcome of one election, with lemmas about clusters laid out by `gerar_config`.
- `Liveness` (liveness.dfy): which entries a sweep expires, and the table it leaves.
- `NodeModel` (node.dfy): the `Node` class. Its methods mutate `coordinatorId`, `aliveNodes`, `outbox` and `storageLog`. Each one is proved against the specification functions above.

Two details of the code shape what the model states:

- Classification is a plain substring test on the upper-cased text (node.py:187), so `SELECT * FROM updates` is a write: its rows are dropped from the reply and it is broadcast to every peer.
- Each node keeps one autocommit connection (node.py:33, 63). The model does not see connections.

## Model

| member | source | states |
|---|---|---|
| Config.ConfigTable | configurar.py:34-49 | one descriptor per address, in order, with `id == i` and `ip == ips[i]`; ports equal 5000 + id and strictly increase; the db port of entry i is 3309, 3307, 3308 for i mod 3 = 0, 1, 2 |
| Config.GerarConfig | configurar.py:19-51 | no configuration exactly when the address list is empty; otherwise the loop builds exactly `ConfigTable(ips)` |
| Messages.FanoutMembers | node.py:83-85 | one broadcast sends the message once to each target, and nothing else |
| Replication.Contains | node.py:187 | the scan that stands for Python's `k in s` is true exactly when `k` occurs in `s` at some position |
| Replication.IsWrite | node.py:187 | a query is a write exactly when some spelling of INSERT, UPDATE, DELETE, CREATE, DROP or ALTER, in any letter case, stands somewhere in its text |
| Replication.KeywordInAnyCase | node.py:187 | any spelling, in any letter case, of one of INSERT/UPDATE/DELETE/CREATE/DROP/ALTER anywhere in the text makes the query a write |
| Replication.WriteShowsKeyword | node.py:187 | conversely, a write shows one of the six keywords, in some case, at some position |
| Replication.ClassificationIgnoresCase | node.py:187 | two statements with the same upper-cased text are classified alike |
| Replication.InsertInAnyCaseIsWrite | node.py:187 | "insert ...", "Insert ..." and "INSERT ..." are all writes |
| Replication.SelectFromUpdatesIsWrite | node.py:187 | a SELECT from a table named `updates` is a write, because the test is a substring test |
| Replication.ReadWithoutKeywordLetters | node.py:187 | text whose upper-cased form has none of the letters I, P, D, A cannot be a write |
| Replication.SelectFromUsersIsRead | test_middleware.py:103-113 | `SELECT * FROM users` is a read |
| Replication.Checksum | node.py:70-71 | the checksum is 32 lowercase hexadecimal characters, the shape of an MD5 hexdigest |
| Replication.ReadQuery | node.py:196-213 | a read that runs returns success, the node's id and the fetched rows, and sends nothing |
| Replication.WriteQuery | node.py:201-213 | a write that runs returns success with no data and sends exactly one REPLICATE{sql, checksum(sql), origin = self} to each peer, and nothing else |
| Replication.FailedQuery | node.py:192-216 | a storage error yields an error reply carrying the node's id and the message, and nothing is broadcast |
| Replication.ReplicationRoundTrip | node.py:201-230 | every REPLICATE a write produces carries that statement and its origin, and passes the receiver's checksum test, so the receiver runs exactly that statement when its storage accepts it |
| Replication.CorruptedReplicateIgnored | node.py:222-225 | a REPLICATE whose checksum differs from the statement's checksum runs nothing on the receiver |
| Bully.OtherNodes | node.py:15 | the peers are exactly the configured nodes whose id differs from the node's own |
| Bully.HigherNodes | node.py:164 | the higher peers are exactly the peers with a larger id |
| Bully.FindNode | node.py:131 | the ELECTION sender lookup finds the first configured node with that id, or nothing exactly when no node has it |
| Bully.ElectionTraffic | node.py:164-183 | an election sends only ELECTION with the node's id to higher peers, and COORDINATOR with the node's id to peers; nothing else |
| Bully.ElectionOutcome | node.py:162-183 | an election always ends with a coordinator set: either the node itself or the value seen after the wait |
| Bully.HighestDeclaresItself | node.py:165-169 | a node that no peer outranks becomes coordinator and announces COORDINATOR to every peer, whatever the wait would have shown |
| Bully.NoneHigher | node.py:164-165 | a node that no peer outranks has no higher peers |
| Bully.OutrankedNodeDefers | node.py:170-183 | an outranked node first sends ELECTION once to each higher peer, in table order, and sends only ELECTION and COORDINATOR messages; the number of sends is the number of higher peers plus, on takeover, the number of peers; it takes over and broadcasts COORDINATOR only if the coordinator is still unset after the wait, and otherwise keeps what the wait showed |
| Bully.HigherAmongOthers | node.py:164 | taking the higher nodes among the peers is the same as taking them among all configured nodes |
| Bully.GeneratedClusterElection | node.py:14-15 | in a table from `gerar_config`, node k finds itself at position k, and its higher peers are exactly the nodes after it; only the last node has none |
| Bully.GeneratedClusterOutcomes | node.py:162-183 | in such a table, the last node always becomes coordinator and announces it to all the others; any other node whose higher peers stay silent sends ELECTION to the nodes after it, then takes over and announces it |
| Liveness.Expired | node.py:153-154 | the expired ids are never the node itself, only peers silent for more than 10 units; they and the entries the sweep keeps split the table with no overlap |
| Liveness.AfterSweep | node.py:152-157 | after a sweep the own entry and every entry at most 10 units old remain, with unchanged times, and every other entry is gone |
| NodeModel.Node.constructor | node.py:11-51 | picks its descriptor by position, starts with only itself alive and no storage activity, and ends in the state of one initial election |
| NodeModel.Node.SendMsg | node.py:73-81 | a send appends exactly one envelope to the outbox |
| NodeModel.Node.Broadcast | node.py:83-85 | a broadcast appends one send per peer, in table order |
| NodeModel.Node.SendHeartbeat | node.py:143-146 | one heartbeat round sends HEARTBEAT with the node's id to every peer |
| NodeModel.Node.StartElection | node.py:162-183 | the coordinator and the outbox afterwards are the election's outcome and sends; the liveness table and storage are untouched |
| NodeModel.Node.ExecuteQuery | node.py:185-216 | the reply, the sends and the storage effect of a client query, as the Replication lemmas characterise them; coordinator and liveness untouched |
| NodeModel.Node.ExecuteReplicatedQuery | node.py:218-232 | the storage runs the statement only when the checksum matches and the storage accepts it; errors change nothing and are not reported |
| NodeModel.Node.ProcessMessage | node.py:121-141 | HEARTBEAT sets the sender's time to `now` and changes nothing else; ELECTION from a configured lower id replies ELECTION_OK to it, then runs an election; ELECTION from an equal or higher id, or from an unconfigured one, changes nothing; COORDINATOR overwrites the coordinator unconditionally; REPLICATE goes to the replica path; other kinds change nothing |
| NodeModel.Node.MonitorSweep | node.py:148-160 | the liveness table becomes `AfterSweep` of the old one (own entry kept); an election runs exactly when the old coordinator expired, leaving the election's outcome as coordinator; otherwise the coordinator is unchanged; at most two elections run, and two only if the outcome names another expired peer |
| NodeModel.Node.HandleClient | node.py:256-278 | CLIENT_QUERY is answered with the query reply; GET_COORDINATOR is answered with the current coordinator and changes no state; every other kind gets no reply and has exactly the `process_message` effect |

## Left out

- Sockets and transport (`run_server`, the accept loop, `recv` buffer sizes, `sendall`, timeouts) are not modelled. A send is an outbox append.
- JSON encoding and decoding are not modelled, so neither are payloads with missing fields, which raise in the source. Messages are a datatype, and any unknown `type` is the `Unrecognized` message.
- The unpatched `handle_client` (node.py:113-119) is not modelled. It is replaced at start-up by `patched_handle_client`, which is modelled as `HandleClient`.
- Threads, the lock and `time.sleep` are not modelled, and neither is the interleaving of handlers. The election wait is the `afterWait` input. The monitor holds the lock while it runs an election, and the model does not capture that.
- Wall-clock floats from `time.time()` are integer ticks. The heartbeat and monitor periods (2 and 5 units) belong to the loops that are left out. Only the 10-unit expiry is modelled.
- MySQL is not modelled: `connect_db` and its retry loop, cursors, autocommit, and the case where `db_conn` is None (the source then raises outside its handler). Storage is the `storage` outcome plus the ghost statement log.
- NodeModel.Node.ExecuteQuery: a read whose `fetchall` fails after the statement ran is treated as a failed execution, so the model logs no statement for it.
- Replication.Checksum: it is a deterministic stand-in with MD5's output shape (32 lowercase hex characters), not MD5 itself. Every proved property holds for any deterministic checksum.
- Upper-casing covers ASCII a-z plus the two single-character Unicode mappings onto ASCII letters (U+0131 to I, U+017F to S). Other Unicode case mappings are left out, including those that lengthen the text.
- NodeModel.Node.MonitorSweep: the contract allows up to two elections, while the source runs at most one per sweep. The source holds the lock across the election wait (node.py:152-160), so the COORDINATOR handler (node.py:135-137) cannot change the coordinator meanwhile, and the election ends with the node itself as coordinator. The lock is left out, so in the model the value seen after the wait may name another expired peer, whose deletion then starts a second election.
- Row values are strings. Column types are not modelled.
- `stop`, `is_running` and the `__main__` blocks of both files are not modelled. Neither is `salvar_arquivo`, which is file I/O.
- Node configuration loading (`load_config`) is not modelled. The constructor takes the parsed node table. Indexing it by id follows Python's rules, including negative indices. An out-of-range id, which raises at start-up in the source, is excluded by the constructor's precondition.
