/**
 * The cluster table written by configurar.py (`gerar_config`): one descriptor
 * per IP address given on the command line, in order.
 */
module Config {
  import opened Wrappers

  /** One entry of the "nodes" list of config.json. */
  datatype NodeInfo = NodeInfo(id: int, ip: string, port: int, dbPort: int)

  /** Node i listens on BasePort + i. */
  const BasePort: int := 5000

  /** Storage ports of the Docker containers, reused cyclically. */
  const DbPorts: seq<int> := [3309, 3307, 3308]

  /** The table `gerar_config` builds for a non-empty list of addresses. */
  function ConfigTable(ips: seq<string>): (t: seq<NodeInfo>)
    ensures |t| == |ips|
    ensures forall i :: 0 <= i < |t| ==> t[i].id == i && t[i].ip == ips[i]
    ensures forall i, j :: 0 <= i < j < |t| ==> t[i].port < t[j].port
    ensures forall i :: 0 <= i < |t| ==> t[i].port == BasePort + t[i].id
    ensures forall i :: 0 <= i < |t| ==> t[i].dbPort == [3309, 3307, 3308][i % 3]
    ensures forall i :: 0 <= i < |t| ==> t[i].dbPort in {3307, 3308, 3309}
    ensures forall i :: 3 <= i < |t| ==> t[i].dbPort == t[i - 3].dbPort
  {
    seq(|ips|, i requires 0 <= i < |ips| => NodeInfo(i, ips[i], BasePort + i, DbPorts[i % |DbPorts|]))
  }

  /**
   * `gerar_config`: an empty address list makes the script stop with an error
   * and no configuration (None); otherwise the table is built by appending one
   * descriptor per address.
   */
  method GerarConfig(ips: seq<string>) returns (r: Option<seq<NodeInfo>>)
    ensures r.None? <==> ips == []
    ensures r.Some? ==> r.value == ConfigTable(ips)
  {
    if ips == [] {
      return None;
    }
    var nodes: seq<NodeInfo> := [];
    for i := 0 to |ips|
      invariant |nodes| == i
      invariant forall j :: 0 <= j < i ==> nodes[j] == ConfigTable(ips)[j]
    {
      var dbPort := DbPorts[i % |DbPorts|];
      nodes := nodes + [NodeInfo(i, ips[i], BasePort + i, dbPort)];
    }
    return Some(nodes);
  }
}
