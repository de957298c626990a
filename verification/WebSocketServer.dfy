/** src/modules/events/websocket/server/WebSocket.server.ts: connect, reconnect and disconnect events,
    the stored subscription of each socket and the room of those that listen to new connections. */
module WebSocketServer {
  import opened Options
  import opened SubscriptionEntity
  import opened SubscriptionService

  /** A connected socket has its one document and is in the room exactly when the document says it
      listens; no other socket has either. */
  ghost predicate RoomsOk(s: Store, connected: set<string>, room: set<string>) {
    && Coherent(s) && room <= connected
    && (forall id | id in connected :: HasDoc(s, id))
    && (forall o | o in s.docs :: DocOk(s.docs[o], connected, room))
  }

  ghost predicate DocOk(e: Entity, connected: set<string>, room: set<string>) {
    && e.subscriptionId.Str? && e.subscriptionId.s in connected
    && (e.newConnectionsListen <==> e.subscriptionId.s in room)
  }

  /** What updateConnection saves: the client's object with the socket's id put in. */
  function ReconnectData(id: string, data: Raw): Raw {
    Obj(Fields(data)["subscriptionId" := Str(id)])
  }

  function Nested(data: Raw): map<string, Raw> {
    Fields(Field(Fields(data), "listen")) + Fields(Field(Fields(data), "dataValues"))
  }

  /** The id put in is the one stored unless a nested part of the client's object has another. */
  lemma NestedIdWins(id: string, data: Raw, now: int)
    requires id != ""
    ensures Build(ReconnectData(id, data), now).subscriptionId == Str(id) <==>
            "subscriptionId" !in Nested(data) || Nested(data)["subscriptionId"] == Str(id)
  {
    var top := Fields(data)["subscriptionId" := Str(id)];
    assert Field(top, "listen") == Field(Fields(data), "listen")
           && Field(top, "dataValues") == Field(Fields(data), "dataValues");
    assert Values(ReconnectData(id, data)) == top + Nested(data);
  }

  lemma SavedRooms(s: Store, connected: set<string>, room: set<string>, id: string, e: Entity, o: string)
    requires Coherent(s) && room <= connected && IsEntity(e) && IsTarget(s, id, o) && e.subscriptionId == Str(id)
    requires forall i | i in connected && i != id :: HasDoc(s, i)
    requires forall p | p in s.docs :: DocOk(s.docs[p], connected, room)
    ensures RoomsOk(Saved(s, id, e, o), connected + {id}, if e.newConnectionsListen then room + {id} else room - {id})
  {
    var t := Saved(s, id, e, o);
    SaveIsCoherentIff(s, id, e, o);
    assert IsDocOf(t, o, id);
    forall i | i in connected && i != id ensures HasDoc(t, i) {
      var p :| p in s.docs && IsDocOf(s, p, i);
      assert IsDocOf(t, p, i);
    }
    SaveKeepsDocs(s, id, e, o);
    forall p | p in t.docs && p != o
      ensures DocOk(t.docs[p], connected + {id}, if e.newConnectionsListen then room + {id} else room - {id})
    {
      assert DocOk(s.docs[p], connected, room) && t.docs[p].subscriptionId != t.docs[o].subscriptionId;
    }
  }

  lemma MisnamedSaveBreaks(s: Store, connected: set<string>, room: set<string>, id: string, e: Entity, o: string)
    requires Coherent(s) && IsEntity(e) && IsTarget(s, id, o) && e.subscriptionId != Str(id)
    ensures !RoomsOk(Saved(s, id, e, o), connected, room)
  {
    SaveIsCoherentIff(s, id, e, o);
  }

  lemma ReconnectedRooms(s: Store, connected: set<string>, room: set<string>, id: string, e: Entity, o: string)
    requires RoomsOk(s, connected, room) && id in connected && IsEntity(e) && IsTarget(s, id, o)
    ensures RoomsOk(Saved(s, id, e, o), connected, if e.newConnectionsListen then room + {id} else room - {id}) <==>
            e.subscriptionId == Str(id)
  {
    if e.subscriptionId == Str(id) {
      SavedRooms(s, connected, room, id, e, o);
      assert connected + {id} == connected;
    } else {
      MisnamedSaveBreaks(s, connected, if e.newConnectionsListen then room + {id} else room - {id}, id, e, o);
    }
  }

  /** A reconnect message with a nested id of its own breaks the agreement in every consistent state. */
  lemma NestedIdBreaks(s: Store, connected: set<string>, room: set<string>, id: string, other: string, now: int,
                       o: string)
    requires RoomsOk(s, connected, room) && id in connected && IsTarget(s, id, o) && id != "" && other != id
    ensures var data := Obj(map["dataValues" := Obj(map["subscriptionId" := Str(other)])]);
            var e := Build(ReconnectData(id, data), now);
            && IsJson(data) && e.subscriptionId == Str(other)
            && !RoomsOk(Saved(s, id, e, o), connected, if e.newConnectionsListen then room + {id} else room - {id})
  {
    var data := Obj(map["dataValues" := Obj(map["subscriptionId" := Str(other)])]);
    var payload := ReconnectData(id, data);
    NestedIsJson(id, other);
    assert Fields(payload)["dataValues"] == Obj(map["subscriptionId" := Str(other)]);
    assert Values(payload)["subscriptionId"] == Str(other);
    BuildIsEntity(payload, now);
    ReconnectedRooms(s, connected, room, id, Build(payload, now), o);
  }

  lemma NestedIsJson(id: string, other: string)
    ensures var data := Obj(map["dataValues" := Obj(map["subscriptionId" := Str(other)])]);
            IsJson(data) && IsJson(ReconnectData(id, data))
  {
    assert IsJson(Obj(map["subscriptionId" := Str(other)]));
  }

  lemma StrangerHasNoDoc(s: Store, connected: set<string>, room: set<string>, id: string)
    requires RoomsOk(s, connected, room) && id !in connected
    ensures !HasDoc(s, id)
  {
    forall o | o in s.docs ensures !IsDocOf(s, o, id) {
      assert DocOk(s.docs[o], connected, room);
    }
  }

  lemma FirstEntity(id: string, now: int)
    ensures var data := Obj(map["subscriptionId" := Str(id)]); var e := Build(data, now);
            && IsJson(data) && IsEntity(e)
            && e == Entity(Undefined, Str(id), Null, Some(now), Null, false)
  {
    var data := Obj(map["subscriptionId" := Str(id)]);
    assert Values(data) == map["subscriptionId" := Str(id)];
    BuildIsEntity(data, now);
  }

  /** What a new socket's first save does. */
  lemma FirstRooms(s: Store, connected: set<string>, room: set<string>, id: string, e: Entity, o: string)
    requires RoomsOk(s, connected, room) && id !in connected && o !in s.docs
    requires IsEntity(e) && e.subscriptionId == Str(id) && !e.newConnectionsListen
    ensures !HasDoc(s, id) && RoomsOk(Saved(s, id, e, o), connected + {id}, room)
  {
    StrangerHasNoDoc(s, connected, room, id);
    SavedRooms(s, connected, room, id, e, o);
    assert room - {id} == room;
  }

  lemma DeletedRooms(s: Store, connected: set<string>, room: set<string>, id: string, t: Store)
    requires RoomsOk(s, connected, room) && Coherent(t)
    requires t.docs == map o | o in s.docs && !IsDocOf(s, o, id) :: s.docs[o]
    ensures RoomsOk(t, connected - {id}, room - {id})
  {
    forall i | i in connected - {id} ensures HasDoc(t, i) {
      var p :| p in s.docs && IsDocOf(s, p, i);
      assert IsDocOf(t, p, i);
    }
    forall p | p in t.docs ensures DocOk(t.docs[p], connected - {id}, room - {id}) {
      assert DocOk(s.docs[p], connected, room);
    }
  }

  class Server {
    const service: Service
    var connected: set<string>
    var newConnections: set<string>
    /** The ids announced on the events queue, oldest first. */
    var dispatched: seq<string>

    constructor (service: Service)
      requires service.Contents() == Store(map[], map[])
      ensures this.service == service && connected == {} && newConnections == {} && dispatched == [] && Valid()
    {
      this.service, connected, newConnections, dispatched := service, {}, {}, [];
    }

    ghost predicate Valid()
      reads this, service
    {
      RoomsOk(service.Contents(), connected, newConnections)
    }

    /** handleConnection, for a socket id not in use. */
    method HandleConnection(id: string, now: int, newId: string)
      requires Valid() && id !in connected && newId !in service.docs
      modifies this, service
      ensures Valid() && connected == old(connected) + {id} && newConnections == old(newConnections)
      ensures service.docs == old(service.docs)[newId := Entity(Undefined, Str(id), Null, Some(now), Null, false)]
      ensures dispatched == old(dispatched) + [id]
    {
      var data := Obj(map["subscriptionId" := Str(id)]);
      FirstEntity(id, now);
      FirstRooms(service.Contents(), connected, newConnections, id, Build(data, now), newId);
      var _, _ := service.Save(id, data, now, newId);
      connected, dispatched := connected + {id}, dispatched + [id];
    }

    /** handleReconnect; data is what the message parses to. It keeps rooms and documents in step
        exactly when the stored id is the socket's. */
    method HandleReconnect(id: string, data: Raw, now: int, newId: string)
      requires Valid() && id in connected && newId !in service.docs
      requires IsJson(data)
      modifies this`newConnections, service
      ensures !data.Obj? ==> service.Contents() == old(service.Contents()) && newConnections == old(newConnections)
      ensures data.Obj? ==>
                newConnections == if Build(ReconnectData(id, data), now).newConnectionsListen
                  then old(newConnections) + {id} else old(newConnections) - {id}
      ensures Valid() <==> !data.Obj? || Build(ReconnectData(id, data), now).subscriptionId == Str(id)
    {
      if data.Obj? {
        ghost var s := service.Contents();
        var payload := ReconnectData(id, data);
        BuildIsEntity(payload, now);
        var subscription, o := service.Save(id, payload, now, newId);
        ReconnectedRooms(s, connected, newConnections, id, Build(payload, now), o);
        if subscription.newConnectionsListen {
          newConnections := newConnections + {id};
        } else {
          newConnections := newConnections - {id};
        }
      }
    }

    method HandleDisconnect(id: string)
      requires Valid()
      modifies this, service
      ensures Valid() && connected == old(connected) - {id} && newConnections == old(newConnections) - {id}
      ensures dispatched == old(dispatched)
      ensures !HasDoc(service.Contents(), id)
      ensures service.docs ==
              map o | o in old(service.docs) && !IsDocOf(old(service.Contents()), o, id) :: old(service.docs)[o]
    {
      ghost var s := service.Contents();
      newConnections := newConnections - {id};
      var _ := service.Delete(id);
      DeletedRooms(s, connected, old(newConnections), id, service.Contents());
      connected := connected - {id};
    }
  }
}
