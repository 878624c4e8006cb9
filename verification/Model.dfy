// The records of internal/model/model.go: a managed proxy, the durable state and the dashboard summary.
module Model {

  datatype Option<+T> = None | Some(value: T)

  datatype Result<+T, +E> = Ok(value: T) | Err(error: E)

  // The source keeps a status as text; any text outside the five it writes is Other.
  datatype Status = Pending | Checking | Live | Failed | Disabled | Other(text: string)

  datatype Proxy = Proxy(
    host: string, port: int, ipv6: string, username: string, password: string,
    enabled: bool, status: Status, lastError: string, lastChecked: nat)

  datatype State = State(
    version: int, publicIPv4: string, iface: string, prefix: string,
    nextPort: int, nextOffset: Uint64, token: string, proxies: seq<Proxy>)

  const STATE_VERSION := 1
  const FIRST_PORT := 10000
  const U64: nat := 0x1_0000_0000_0000_0000

  type Uint64 = n: nat | n < U64

  function NewState(): State {
    State(STATE_VERSION, "", "", "", FIRST_PORT, 1, "", [])
  }

  // What a client of a proxy depends on: everything except the switch and the health fields.
  datatype Identity = Identity(host: string, port: int, ipv6: string, username: string, password: string)

  function Id(p: Proxy): Identity {
    Identity(p.host, p.port, p.ipv6, p.username, p.password)
  }

  function Enabled(ps: seq<Proxy>): (r: seq<Proxy>)
    ensures forall p :: p in r <==> p in ps && p.enabled
  {
    if ps == [] then [] else (if ps[0].enabled then [ps[0]] else []) + Enabled(ps[1..])
  }

  lemma {:induction false} EnabledAppend(a: seq<Proxy>, b: seq<Proxy>)
    ensures Enabled(a + b) == Enabled(a) + Enabled(b)
  {
    if a == [] {
      assert a + b == b;
    } else {
      assert (a + b)[1..] == a[1..] + b;
      EnabledAppend(a[1..], b);
    }
  }

  ghost predicate UniquePorts(ps: seq<Proxy>) {
    forall i, j :: 0 <= i < j < |ps| ==> ps[i].port != ps[j].port
  }

  // Two lists that agree on everything but status, error and time of the last check.
  ghost predicate SameBut(ps: seq<Proxy>, qs: seq<Proxy>) {
    |ps| == |qs| && forall i :: 0 <= i < |ps| ==> Id(ps[i]) == Id(qs[i]) && ps[i].enabled == qs[i].enabled
  }
}
