/**
 The gateway's connection registry: a map from user to a list of connections, changed by connect,
 heartbeat, stale cleanup and disconnect, and walked by the two broadcast loops. A connection's
 outgoing channel is the sequence of what has been sent into it.
 */
module Gateway {
  import opened Sequences

  type UserId = nat
  type DeviceId = string
  type ConversationId = nat

  /** One handled socket. Two sockets may carry the same user and device. */
  type SessionId = nat

  /** Seconds after its last heartbeat at which a connection is stale. */
  const TIMEOUT := 60

  /** A chat message as forwarded by its sender's gateway; `body` stands for the encrypted payload. */
  datatype Envelope = Envelope(senderId: UserId, conversationId: ConversationId, messageId: nat, body: string)

  datatype Outgoing = Chat(message: Envelope) | TypingIndicator(conversationId: ConversationId, isTyping: bool)

  datatype Connection = Connection(
    session: SessionId,
    userId: UserId,
    deviceId: DeviceId,
    lastHeartbeat: int,
    sent: seq<Outgoing>)

  type Registry = map<UserId, seq<Connection>>

  function ConnectionsOf(reg: Registry, u: UserId): seq<Connection> {
    if u in reg then reg[u] else []
  }

  function Register(reg: Registry, c: Connection): Registry {
    reg[c.userId := ConnectionsOf(reg, c.userId) + [c]]
  }

  /** Index of the first connection of device `d`, or the length. */
  function FirstOf(conns: seq<Connection>, d: DeviceId): (i: nat)
    ensures i <= |conns|
    ensures i < |conns| ==> conns[i].deviceId == d
    ensures forall j :: 0 <= j < i ==> conns[j].deviceId != d
  {
    FirstWhere(conns, (c: Connection) => c.deviceId == d)
  }

  /** A heartbeat renews the first connection of its device, and only that one. */
  function Touch(conns: seq<Connection>, d: DeviceId, now: int): seq<Connection> {
    var i := FirstOf(conns, d);
    if i < |conns| then conns[i := conns[i].(lastHeartbeat := now)] else conns
  }

  function Heartbeat(reg: Registry, u: UserId, d: DeviceId, now: int): Registry {
    if u in reg then reg[u := Touch(reg[u], d, now)] else reg
  }

  function FreshOnly(conns: seq<Connection>, now: int): seq<Connection> {
    Filter(conns, (c: Connection) => now - c.lastHeartbeat < TIMEOUT)
  }

  function OtherDevices(conns: seq<Connection>, d: DeviceId): seq<Connection> {
    Filter(conns, (c: Connection) => c.deviceId != d)
  }

  function CleanStale(reg: Registry, now: int): Registry {
    map u | u in reg && FreshOnly(reg[u], now) != [] :: FreshOnly(reg[u], now)
  }

  /** The disconnect step removes every connection of the device, and the key with the last of them. */
  function Unregister(reg: Registry, u: UserId, d: DeviceId): Registry {
    if u !in reg then reg
    else if OtherDevices(reg[u], d) == [] then map v | v in reg && v != u :: reg[v]
    else reg[u := OtherDevices(reg[u], d)]
  }

  /** Sends into each listed channel except those of `sender`. */
  function Push(conns: seq<Connection>, item: Outgoing, sender: UserId): (r: seq<Connection>)
    ensures |r| == |conns|
    ensures forall i :: 0 <= i < |conns| ==>
      r[i] == if conns[i].userId == sender then conns[i] else conns[i].(sent := conns[i].sent + [item])
  {
    if conns == [] then []
    else
      var c := conns[|conns| - 1];
      Push(conns[..|conns| - 1], item, sender)
        + [if c.userId == sender then c else c.(sent := c.sent + [item])]
  }

  function SendTo(reg: Registry, u: UserId, item: Outgoing, sender: UserId): Registry {
    if u in reg then reg[u := Push(reg[u], item, sender)] else reg
  }

  /** The registry object. The maps and lists below are its fields, updated in place by each handler. */
  class ConnectionRegistry {
    var connections: Registry

    constructor ()
      ensures connections == map[]
    {
      connections := map[];
    }

    /** The new connection comes last in its user's list; every other list stays. */
    method Connect(session: SessionId, u: UserId, d: DeviceId, now: int)
      modifies this
      ensures connections == Register(old(connections), Connection(session, u, d, now, []))
      ensures u in connections && connections[u]
           == (if u in old(connections) then old(connections)[u] else []) + [Connection(session, u, d, now, [])]
      ensures connections - {u} == old(connections) - {u}
    {
      if u !in connections {
        connections := connections[u := []];
      }
      connections := connections[u := connections[u] + [Connection(session, u, d, now, [])]];
    }

    /**
     Every other user's list stays, and so does every connection of the user's but the first one of the
     device, of which the time of the last heartbeat changes and nothing else.
     */
    method ReceiveHeartbeat(u: UserId, d: DeviceId, now: int)
      modifies this
      ensures connections == Heartbeat(old(connections), u, d, now)
      ensures connections.Keys == old(connections).Keys && connections - {u} == old(connections) - {u}
      ensures u in connections ==> |connections[u]| == |old(connections)[u]|
      ensures u in connections ==> forall i :: 0 <= i < |connections[u]| ==>
        var was := old(connections)[u][i];
        connections[u][i] ==
          if was.deviceId == d && (forall j :: 0 <= j < i ==> old(connections)[u][j].deviceId != d)
          then Connection(was.session, was.userId, was.deviceId, now, was.sent) else was
    {
      if u in connections {
        var conns := connections[u];
        for i := 0 to |conns|
          invariant connections == old(connections)
          invariant forall j :: 0 <= j < i ==> conns[j].deviceId != d
        {
          if conns[i].deviceId == d {
            assert FirstOf(conns, d) == i;
            connections := connections[u := conns[i := conns[i].(lastHeartbeat := now)]];
            break;
          }
        }
      }
    }

    /** A connection stays exactly when its last heartbeat is under a minute old; no user keeps an empty list. */
    method CleanupStaleConnections(now: int)
      modifies this
      ensures connections == CleanStale(old(connections), now)
      ensures forall u, c :: c in ConnectionsOf(connections, u) <==>
        c in ConnectionsOf(old(connections), u) && now - c.lastHeartbeat < TIMEOUT
      ensures forall u :: u in connections ==> connections[u] != []
    {
      connections := map u | u in connections && FreshOnly(connections[u], now) != [] :: FreshOnly(connections[u], now);
    }

    /** The whole block of the handler's last step, as the one atomic change it is meant to be. */
    method Disconnect(u: UserId, d: DeviceId)
      modifies this
      ensures connections == Unregister(old(connections), u, d)
      ensures connections - {u} == old(connections) - {u}
      ensures forall c :: c in ConnectionsOf(connections, u) <==>
        c in ConnectionsOf(old(connections), u) && c.deviceId != d
      ensures u in connections ==> connections[u] != []
    {
      if u in connections {
        connections := connections[u := OtherDevices(connections[u], d)];
        if connections[u] == [] {
          connections := map v | v in connections && v != u :: connections[v];
        }
      }
    }

    /** Walks the map in whatever order it yields its keys. */
    method BroadcastMessage(e: Envelope)
      modifies this
      ensures connections.Keys == old(connections).Keys
      ensures forall u :: u in connections ==> connections[u] == Push(old(connections)[u], Chat(e), e.senderId)
    {
      var rest := connections.Keys;
      while rest != {}
        invariant rest <= connections.Keys == old(connections).Keys
        invariant forall u :: u in connections ==>
          connections[u] == if u in rest then old(connections)[u] else Push(old(connections)[u], Chat(e), e.senderId)
        decreases rest
      {
        var u :| u in rest;
        SendToUser(u, Chat(e), e.senderId);
        rest := rest - {u};
      }
    }

    method BroadcastTyping(v: ConversationId, isTyping: bool, sender: UserId)
      modifies this
      ensures connections.Keys == old(connections).Keys
      ensures forall u :: u in connections ==>
        connections[u] == if u == sender then old(connections)[u]
                          else SendAll(old(connections)[u], TypingIndicator(v, isTyping))
    {
      var rest := connections.Keys;
      while rest != {}
        invariant rest <= connections.Keys == old(connections).Keys
        invariant forall u :: u in connections ==>
          connections[u] == if u in rest || u == sender then old(connections)[u]
                            else SendAll(old(connections)[u], TypingIndicator(v, isTyping))
        decreases rest
      {
        var u :| u in rest;
        if u != sender {
          connections := connections[u := SendAll(connections[u], TypingIndicator(v, isTyping))];
        }
        rest := rest - {u};
      }
    }

    /** The inner loop of the message broadcast, over one user's connections. */
    method SendToUser(u: UserId, item: Outgoing, sender: UserId)
      requires u in connections
      modifies this
      ensures connections == SendTo(old(connections), u, item, sender)
    {
      var conns := connections[u];
      var after: seq<Connection> := [];
      for i := 0 to |conns|
        invariant connections == old(connections)
        invariant after == Push(conns[..i], item, sender)
      {
        var conn := conns[i];
        assert conns[..i + 1][..i] == conns[..i];
        if conn.userId != sender {
          after := after + [conn.(sent := conn.sent + [item])];
        } else {
          after := after + [conn];
        }
      }
      assert conns[..|conns|] == conns;
      connections := connections[u := after];
    }
  }

  function SendAll(conns: seq<Connection>, item: Outgoing): seq<Connection> {
    seq(|conns|, i requires 0 <= i < |conns| => conns[i].(sent := conns[i].sent + [item]))
  }

  /** Under the registry's invariant, checking the key against the sender is checking each connection. */
  lemma TypingIsPush(conns: seq<Connection>, u: UserId, item: Outgoing, sender: UserId)
    requires forall c :: c in conns ==> c.userId == u
    ensures Push(conns, item, sender) == if u == sender then conns else SendAll(conns, item)
  {
    assert forall i :: 0 <= i < |conns| ==> conns[i] in conns;
  }
}
