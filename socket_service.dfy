/** The presence map and real-time emission (src/services/socketService.ts):
    which sockets each user has open, which user each socket belongs to,
    and the events sent to them. Delivery itself is recorded as a log. */
module Sockets {
  import opened Common
  import opened Alarms

  type SocketId = string

  /** `userSockets`: user id to the ids of that user's open sockets. */
  type UserSockets = map<int, set<SocketId>>

  /** `socketUserMap`: socket id to its user id. */
  type SocketUsers = map<SocketId, int>

  /** What an event carries: an alarm, or the `{ id }` of a deleted one. */
  datatype Payload = AlarmData(alarm: Alarm) | DeletedId(id: int)

  /** One emission: to one socket, or a broadcast to every socket. */
  datatype Delivery =
    | ToSocket(socketId: SocketId, event: string, payload: Payload)
    | ToEveryone(event: string, payload: Payload)

  /** The two maps describe the same relation, no user entry is empty, and
      user 0 (falsy, refused on connect) has none. */
  ghost predicate Consistent(us: UserSockets, su: SocketUsers)
  {
    && (forall s :: s in su ==> su[s] in us && s in us[su[s]])
    && (forall u, s :: u in us && s in us[u] ==> s in su && su[s] == u)
    && (forall u :: u in us ==> us[u] != {} && u != 0)
  }

  /** The map updates of a connection by `userId` on socket `s`. */
  function ConnectMaps(us: UserSockets, su: SocketUsers, s: SocketId, userId: int): (r: (UserSockets, SocketUsers))
    ensures r.0.Keys == us.Keys + {userId} && r.1.Keys == su.Keys + {s}
    ensures r.0[userId] == (if userId in us then us[userId] else {}) + {s} && r.1[s] == userId
    ensures forall u :: u in us && u != userId ==> r.0[u] == us[u]
    ensures forall t :: t in su && t != s ==> r.1[t] == su[t]
  {
    var set_ := if userId in us then us[userId] else {};
    (us[userId := set_ + {s}], su[s := userId])
  }

  /** The map updates of the `disconnect` handler of socket `s`. */
  function DisconnectMaps(us: UserSockets, su: SocketUsers, s: SocketId): (r: (UserSockets, SocketUsers))
    ensures s !in su || su[s] == 0 ==> r == (us, su)
    ensures s in su && su[s] != 0 ==> r.1 == su - {s}
    ensures s in su && su[s] != 0 && su[s] in us ==>
              var u := su[s];
              (us[u] - {s} == {} ==> r.0 == us - {u}) && (us[u] - {s} != {} ==> r.0 == us[u := us[u] - {s}])
  {
    if s !in su || su[s] == 0 then (us, su)
    else
      var u := su[s];
      var us' := if u in us then (if us[u] - {s} == {} then us - {u} else us[u := us[u] - {s}]) else us;
      (us', su - {s})
  }

  /** Connecting a new socket keeps the maps consistent. */
  lemma ConnectConsistent(us: UserSockets, su: SocketUsers, s: SocketId, userId: int)
    requires Consistent(us, su) && s !in su && userId != 0
    ensures Consistent(ConnectMaps(us, su, s, userId).0, ConnectMaps(us, su, s, userId).1)
  {
    var (us', su') := ConnectMaps(us, su, s, userId);
    forall u, t | u in us' && t in us'[u] ensures t in su' && su'[t] == u {
      if t != s {
        assert u in us && t in us[u];
      }
    }
  }

  /** Disconnecting keeps the maps consistent. */
  lemma DisconnectConsistent(us: UserSockets, su: SocketUsers, s: SocketId)
    requires Consistent(us, su)
    ensures Consistent(DisconnectMaps(us, su, s).0, DisconnectMaps(us, su, s).1)
  {
    var (us', su') := DisconnectMaps(us, su, s);
    if s in su && su[s] != 0 {
      forall t | t in su' ensures su'[t] in us' && t in us'[su'[t]] {
        assert t in su && su[t] in us && t in us[su[t]];
        if su[t] == su[s] {
          assert t in us[su[s]] - {s};
        }
      }
      forall u, t | u in us' && t in us'[u] ensures t in su' && su'[t] == u {
        assert u in us && t in us[u];
      }
    }
  }

  /** Disconnecting a socket undoes its connection. */
  lemma DisconnectUndoesConnect(us: UserSockets, su: SocketUsers, s: SocketId, userId: int)
    requires Consistent(us, su) && s !in su && userId != 0
    ensures DisconnectMaps(ConnectMaps(us, su, s, userId).0, ConnectMaps(us, su, s, userId).1, s) == (us, su)
  {
    var (us', su') := ConnectMaps(us, su, s, userId);
    var (us'', su'') := DisconnectMaps(us', su', s);
    assert su'' == su;
    if userId in us {
      assert s !in us[userId];
      assert us'[userId] - {s} == us[userId];
      assert us'' == us;
    } else {
      assert us'[userId] - {s} == {};
      assert us'' == us;
    }
  }

  /** `getConnectedUsers`: each connected user's number of open sockets. */
  function ConnectedUsers(us: UserSockets): (m: map<int, nat>)
    ensures m.Keys == us.Keys
    ensures forall u :: u in m ==> m[u] == |us[u]|
  {
    map u | u in us :: |us[u]|
  }

  /** In consistent maps every connected user has at least one socket, and
      connecting a new socket adds one to its user's count and changes no
      other user's count. */
  lemma ConnectCounts(us: UserSockets, su: SocketUsers, s: SocketId, userId: int)
    requires Consistent(us, su) && s !in su && userId != 0
    ensures forall u :: u in ConnectedUsers(us) ==> ConnectedUsers(us)[u] >= 1
    ensures var c := ConnectedUsers(ConnectMaps(us, su, s, userId).0);
      && c[userId] == (if userId in us then |us[userId]| else 0) + 1
      && forall u :: u in us && u != userId ==> c[u] == ConnectedUsers(us)[u]
  {
    forall u | u in us ensures |us[u]| >= 1 {
      var t :| t in us[u];
    }
    if userId in us {
      assert s !in us[userId];
    }
  }

  /** The claims of a verified access token. */
  datatype Claims = Claims(userId: Option<int>, deviceId: Option<string>)

  /** What the handshake attaches to the socket. */
  datatype Identity = Identity(userId: Option<int>, deviceId: string)

  predicate StartsWith(s: string, prefix: string)
  {
    |prefix| <= |s| && s[..|prefix|] == prefix
  }

  /** The token of an `auth.token` header, without a leading "Bearer ". */
  function BearerToken(header: Option<string>): (t: Option<string>)
    ensures header.Some? && StartsWith(header.value, "Bearer ") ==> t == Some(header.value[7..])
    ensures (header.None? || !StartsWith(header.value, "Bearer ")) ==> t == header
  {
    if header.Some? && StartsWith(header.value, "Bearer ") then Some(header.value[7..]) else header
  }

  /** `setupSocketAuth`'s middleware: a missing or empty token and an invalid
      one are refused; the device id from the query wins over the token's;
      with neither the connection is refused. `verify` stands for the JWT
      check. */
  function AuthenticateHandshake(header: Option<string>, queryDeviceId: Option<string>,
                                 verify: string -> Option<Claims>): (r: Result<Identity>)
    ensures r.Ok? <==> (Truthy(BearerToken(header)) && verify(BearerToken(header).value).Some?
                        && (Truthy(queryDeviceId) || Truthy(verify(BearerToken(header).value).value.deviceId)))
    ensures r.Ok? ==> r.value.userId == verify(BearerToken(header).value).value.userId
    ensures r.Ok? && Truthy(queryDeviceId) ==> r.value.deviceId == queryDeviceId.value
    ensures r.Ok? && !Truthy(queryDeviceId) ==> Some(r.value.deviceId) == verify(BearerToken(header).value).value.deviceId
    ensures !Truthy(BearerToken(header)) ==> r == Err("Authentication error: No token provided")
  {
    var token := BearerToken(header);
    if !Truthy(token) then Err("Authentication error: No token provided")
    else
      match verify(token.value)
      case None => Err("Authentication error: Invalid token")
      case Some(claims) =>
        if Truthy(queryDeviceId) then Ok(Identity(claims.userId, queryDeviceId.value))
        else if Truthy(claims.deviceId) then Ok(Identity(claims.userId, claims.deviceId.value))
        else Err("Authentication error: No deviceId provided")
  }

  /** The sockets `emitToUser` sends to: the user's, less the originating one. */
  function Targets(us: UserSockets, userId: int, origin: Option<SocketId>): set<SocketId>
  {
    if userId in us then us[userId] - (if origin.Some? then {origin.value} else {}) else {}
  }

  /** `out` holds exactly one emission of `event` with `payload` to each
      socket of `hit`. */
  ghost predicate EmitsTo(out: seq<Delivery>, hit: set<SocketId>, event: string, payload: Payload)
  {
    forall d :: d in out <==> d.ToSocket? && d.socketId in hit && d.event == event && d.payload == payload
  }

  /** One more emission to a socket not yet reached. */
  lemma EmitsToOneMore(out: seq<Delivery>, hit: set<SocketId>, s: SocketId, event: string, payload: Payload)
    requires EmitsTo(out, hit, event, payload)
    ensures EmitsTo(out + [ToSocket(s, event, payload)], hit + {s}, event, payload)
  {
    var out' := out + [ToSocket(s, event, payload)];
    forall d ensures d in out' <==> d.ToSocket? && d.socketId in hit + {s} && d.event == event && d.payload == payload {
      assert d in out' <==> d in out || d == ToSocket(s, event, payload);
    }
  }

  /** Taking one more socket out of `remaining` reaches it unless it is
      excluded. */
  lemma ReachedOneMore(targets: set<SocketId>, excluded: set<SocketId>, remaining: set<SocketId>,
                       hit: set<SocketId>, s: SocketId)
    requires hit == (targets - remaining) - excluded && remaining <= targets && s in remaining
    ensures s !in hit && |hit + {s}| == |hit| + 1
    ensures s !in excluded ==> hit + {s} == (targets - (remaining - {s})) - excluded
    ensures s in excluded ==> hit == (targets - (remaining - {s})) - excluded
  {
  }

  /** The `forEach` of `emitToUser`: one emission per socket of `targets`
      outside `excluded`, in no particular order, and their number. */
  method SendEach(targets: set<SocketId>, excluded: set<SocketId>, event: string, payload: Payload)
    returns (out: seq<Delivery>, count: nat)
    ensures count == |targets - excluded| && |out| == count
    ensures forall d :: d in out <==>
              d.ToSocket? && d.socketId in targets - excluded && d.event == event && d.payload == payload
  {
    var remaining := targets;
    var hit: set<SocketId> := {};
    out := [];
    count := 0;
    while remaining != {}
      invariant remaining <= targets
      invariant hit == (targets - remaining) - excluded
      invariant count == |hit| && |out| == count
      invariant EmitsTo(out, hit, event, payload)
      decreases remaining
    {
      var s :| s in remaining;
      ReachedOneMore(targets, excluded, remaining, hit, s);
      if s !in excluded {
        EmitsToOneMore(out, hit, s, event, payload);
        out := out + [ToSocket(s, event, payload)];
        hit := hit + {s};
        count := count + 1;
      }
      remaining := remaining - {s};
    }
    assert hit == targets - excluded;
  }

  /** What `emitToUser` appends to the log `before` to give `after`: nothing
      when the server is not configured, and otherwise one emission to each
      target socket. */
  ghost predicate EmittedToUser(before: seq<Delivery>, after: seq<Delivery>, configured: bool, us: UserSockets,
                                userId: int, event: string, payload: Payload, origin: Option<SocketId>)
  {
    && |before| <= |after| && after[..|before|] == before
    && (!configured ==> after == before)
    && (configured ==> |after| == |before| + |Targets(us, userId, origin)|)
    && (configured ==> forall d :: d in after[|before|..] <==>
          d.ToSocket? && d.socketId in Targets(us, userId, origin) && d.event == event && d.payload == payload)
  }

  class SocketRegistry {
    var userSockets: UserSockets
    var socketUserMap: SocketUsers
    var ioConfigured: bool
    /** Every emission so far, in order. */
    var sent: seq<Delivery>

    ghost predicate Valid()
      reads this
    {
      Consistent(userSockets, socketUserMap)
    }

    constructor ()
      ensures Valid() && userSockets == map[] && socketUserMap == map[] && !ioConfigured && sent == []
    {
      userSockets := map[];
      socketUserMap := map[];
      ioConfigured := false;
      sent := [];
    }

    /** `configureIoInstance`. */
    method Configure()
      modifies this
      ensures ioConfigured && userSockets == old(userSockets) && socketUserMap == old(socketUserMap)
      ensures sent == old(sent)
    {
      ioConfigured := true;
    }

    /** The connection half of `handleSocketConnection`. A socket without a
        truthy user id or device id is refused and changes nothing. Socket
        ids are fresh per connection. */
    method Connect(socketId: SocketId, userId: Option<int>, deviceId: Option<string>) returns (accepted: bool)
      requires Valid() && socketId !in socketUserMap
      modifies this
      ensures Valid()
      ensures accepted <==> userId.Some? && userId.value != 0 && Truthy(deviceId)
      ensures accepted ==> (userSockets, socketUserMap) == ConnectMaps(old(userSockets), old(socketUserMap), socketId, userId.value)
      ensures !accepted ==> userSockets == old(userSockets) && socketUserMap == old(socketUserMap)
      ensures sent == old(sent) && ioConfigured == old(ioConfigured)
    {
      if userId.None? || userId.value == 0 || !Truthy(deviceId) {
        return false;
      }
      var u := userId.value;
      ConnectConsistent(userSockets, socketUserMap, socketId, u);
      var sockets := if u in userSockets then userSockets[u] else {};
      userSockets := userSockets[u := sockets + {socketId}];
      socketUserMap := socketUserMap[socketId := u];
      accepted := true;
    }

    /** The `disconnect` handler. */
    method Disconnect(socketId: SocketId)
      requires Valid()
      modifies this
      ensures Valid()
      ensures (userSockets, socketUserMap) == DisconnectMaps(old(userSockets), old(socketUserMap), socketId)
      ensures sent == old(sent) && ioConfigured == old(ioConfigured)
    {
      DisconnectConsistent(userSockets, socketUserMap, socketId);
      if socketId in socketUserMap && socketUserMap[socketId] != 0 {
        var u := socketUserMap[socketId];
        if u in userSockets {
          var remaining := userSockets[u] - {socketId};
          if remaining == {} {
            userSockets := userSockets - {u};
          } else {
            userSockets := userSockets[u := remaining];
          }
        }
        socketUserMap := socketUserMap - {socketId};
      }
    }

    /** `emitToUser`: one emission per socket of the user other than the
        originating one, in no particular order; nothing when the server is
        not configured. Returns how many were sent. */
    method EmitToUser(userId: int, event: string, payload: Payload, origin: Option<SocketId>) returns (count: nat)
      modifies this
      ensures userSockets == old(userSockets) && socketUserMap == old(socketUserMap) && ioConfigured == old(ioConfigured)
      ensures EmittedToUser(old(sent), sent, ioConfigured, userSockets, userId, event, payload, origin)
      ensures count == |sent| - |old(sent)|
    {
      count := 0;
      if !ioConfigured {
        return;
      }
      if userId !in userSockets || userSockets[userId] == {} {
        return;
      }
      var out;
      out, count := SendEach(userSockets[userId], if origin.Some? then {origin.value} else {}, event, payload);
      sent := sent + out;
      assert sent[|old(sent)|..] == out;
    }

    /** `emitToAll`: with an originating socket, one emission to every other
        connected socket, so as many as there are; without one, a single
        broadcast. */
    method EmitToAll(event: string, payload: Payload, origin: Option<SocketId>)
      modifies this
      ensures userSockets == old(userSockets) && socketUserMap == old(socketUserMap) && ioConfigured == old(ioConfigured)
      ensures |old(sent)| <= |sent| && sent[..|old(sent)|] == old(sent)
      ensures !ioConfigured ==> sent == old(sent)
      ensures ioConfigured && !Truthy(origin) ==> sent == old(sent) + [ToEveryone(event, payload)]
      ensures ioConfigured && Truthy(origin) ==> forall d :: d in sent[|old(sent)|..] <==>
                d.ToSocket? && d.socketId in socketUserMap && Some(d.socketId) != origin && d.event == event && d.payload == payload
      ensures ioConfigured && Truthy(origin) ==> |sent| - |old(sent)| == |socketUserMap.Keys - {origin.value}|
    {
      if !ioConfigured {
        return;
      }
      if !Truthy(origin) {
        sent := sent + [ToEveryone(event, payload)];
        return;
      }
      var out, count := SendEach(socketUserMap.Keys, {origin.value}, event, payload);
      sent := sent + out;
      assert sent[|old(sent)|..] == out;
    }
  }
}
