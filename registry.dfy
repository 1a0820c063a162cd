/**
 * The registry of persistent BLE connections: a map from device address to
 * the managed connection kept for it. The radio is an oracle: every call that
 * the service makes into it is answered by an input of the operation (did the
 * liveness query answer, and what; did connect or disconnect raise). Each
 * operation runs atomically; the registry-wide and per-device locks are not
 * modelled.
 */
module Registry {
  import opened Common

  /** An error raised by the radio stack, kept abstract: its kind (the Python
      exception class) and its message. */
  datatype RadioError = RadioError(kind: string, message: string)

  /** The answer to one liveness query on a client. */
  datatype Liveness = Alive(connected: bool) | QueryRaised

  /** Whether a connect or disconnect call into the radio returned or raised. */
  datatype Call = Returned | Raised(error: RadioError)

  /** The radio's answers during one `connect_persistent`: the liveness query
      made first, the connect call, and the liveness query made after it. */
  datatype ConnectProbe = ConnectProbe(before: Liveness, connect: Call, after: Liveness)

  /** The radio's answers during one `disconnect`. */
  datatype DisconnectProbe = DisconnectProbe(before: Liveness, disconnect: Call)

  /** The outcome of `connect_persistent`: the boolean it returns, or the error
      it re-raises. */
  datatype Reply = Answered(ok: bool) | Failed(error: RadioError)

  /** What the registry keeps per address besides the client (which is the
      oracle): the last name the device was connected under. */
  datatype ManagedConnection = ManagedConnection(lastName: Option<string>)

  /** `name or last_name`: a present, non-empty name wins. */
  function NameOr(name: Option<string>, last: Option<string>): (r: Option<string>)
    ensures name.Some? && name.value != "" ==> r == name
    ensures name.None? || name.value == "" ==> r == last
  {
    if name.Some? && name.value != "" then name else last
  }

  /** The reply `connect_persistent` gives for a given behaviour of the radio:
      already live means `true` without connecting; a raising connect is
      re-raised; otherwise the liveness after connecting is the answer. */
  function ConnectReply(probe: ConnectProbe): Reply {
    if probe.before == Alive(true) then Answered(true)
    else if probe.connect.Raised? then Failed(probe.connect.error)
    else Answered(probe.after == Alive(true))
  }

  /** The registry after one `connect_persistent` on `address`: an address
      whose connect raised is gone; otherwise the address is registered, under
      `name` if it was absent and under `name or last_name` if it was present.
      No other address is touched. */
  function ConnectEffect(m: map<string, ManagedConnection>, address: string, name: Option<string>,
                         probe: ConnectProbe): (r: map<string, ManagedConnection>)
    ensures ConnectReply(probe).Failed? <==> address !in r
    ensures r - {address} == m - {address}
    ensures address in r ==>
      r[address].lastName == (if address in m then NameOr(name, m[address].lastName) else name)
  {
    if ConnectReply(probe).Failed? then m - {address}
    else m[address := ManagedConnection(if address in m then NameOr(name, m[address].lastName) else name)]
  }

  class ConnectionManager {
    var connections: map<string, ManagedConnection>

    constructor ()
      ensures connections == map[]
    {
      connections := map[];
    }

    /** Is the device at `address` connected? `live` is the client's answer
        when asked; an untracked address, or a query that raises, is `false`. */
    method IsConnected(address: string, live: Liveness) returns (b: bool)
      ensures b <==> address in connections && live == Alive(true)
    {
      if address !in connections {
        return false;
      }
      match live
      case Alive(c) => b := c;
      case QueryRaised => b := false;
    }

    /** The tracked addresses, each once. */
    method GetConnections() returns (addrs: seq<string>)
      ensures |addrs| == |connections|
      ensures forall a :: a in addrs <==> a in connections
      ensures forall i, j :: 0 <= i < j < |addrs| ==> addrs[i] != addrs[j]
    {
      addrs := [];
      var rest := connections.Keys;
      while rest != {}
        invariant rest <= connections.Keys
        invariant forall a :: a in addrs <==> a in connections && a !in rest
        invariant forall i, j :: 0 <= i < j < |addrs| ==> addrs[i] != addrs[j]
        invariant |addrs| + |rest| == |connections|
        decreases rest
      {
        var a :| a in rest;
        addrs := addrs + [a];
        rest := rest - {a};
      }
    }

    /** Connects to `address` and keeps the connection. An absent address is
        registered first, under `name`; a device that is already live only has
        its name refreshed; a connect that raises unregisters the address and
        re-raises; otherwise the answer is the liveness after connecting, and
        the address stays registered whatever that answer is. */
    method ConnectPersistent(address: string, name: Option<string>, probe: ConnectProbe)
      returns (r: Reply)
      modifies this
      ensures r == ConnectReply(probe)
      ensures connections == ConnectEffect(old(connections), address, name, probe)
      ensures probe.before == Alive(true) ==> r == Answered(true)
      ensures r.Failed? ==> connections == old(connections) - {address}
      ensures !r.Failed? ==>
        address in connections
        && connections - {address} == old(connections) - {address}
        && connections[address].lastName ==
             (if address in old(connections) then NameOr(name, old(connections)[address].lastName)
              else name)
    {
      if address !in connections {
        connections := connections[address := ManagedConnection(name)];
      }
      var live := IsConnected(address, probe.before);
      if live {
        connections := connections[address := ManagedConnection(NameOr(name, connections[address].lastName))];
        return Answered(true);
      }
      match probe.connect
      case Raised(e) =>
        connections := connections - {address};
        return Failed(e);
      case Returned =>
        connections := connections[address := ManagedConnection(NameOr(name, connections[address].lastName))];
        var liveAfter := IsConnected(address, probe.after);
        return Answered(liveAfter);
    }

    /** Disconnects `address` and forgets it. Reports whether it was live just
        before; a failing disconnect call is ignored and the address is removed
        all the same. An untracked address gives `false` and changes nothing. */
    method Disconnect(address: string, probe: DisconnectProbe) returns (was: bool)
      modifies this
      ensures address !in old(connections) ==> !was && connections == old(connections)
      ensures address in old(connections) ==> was == (probe.before == Alive(true))
      ensures connections == old(connections) - {address}
    {
      if address !in connections {
        assert connections - {address} == connections;
        return false;
      }
      was := IsConnected(address, probe.before);
      match probe.disconnect {
        case Returned =>
        case Raised(_) =>  // swallowed: the entry is removed all the same
      }
      connections := connections - {address};
    }

    /** Disconnects every tracked address, each independently; afterwards the
        registry is empty. `radio` gives the answers for each address. */
    method DisconnectAll(radio: string -> DisconnectProbe)
      modifies this
      ensures connections == map[]
    {
      var addrs := GetConnections();
      for i := 0 to |addrs|
        invariant forall a :: a in connections ==> a in addrs[i..]
      {
        assert addrs[i..] == [addrs[i]] + addrs[i + 1..];
        var _ := Disconnect(addrs[i], radio(addrs[i]));
      }
      assert connections.Keys == {};
    }
  }
}
