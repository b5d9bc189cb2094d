/**
 * The connection registry (`piSocketManager`): a map from client name to
 * socket id kept together with its reverse.  The module that implements it,
 * pi-Communicator.js, is not part of this model; its behaviour is the assumed
 * contract stated here:
 *   - AddSocket overwrites: the newest registration of a name wins, and the
 *     stale entries it displaces (the name's previous socket id, the id's
 *     previous name) are dropped from both directions;
 *   - RemoveSocket of an id that is not registered changes nothing.
 */
module Registry {
  import opened Protocol

  /** The two directions of the registry as a value. */
  datatype Bimap = Bimap(byName: map<Name, SocketId>, byId: map<SocketId, Name>)
  {
    /** Each direction is the inverse of the other. */
    ghost predicate Valid() {
      && (forall n :: n in byName ==> byName[n] in byId && byId[byName[n]] == n)
      && (forall i :: i in byId ==> byId[i] in byName && byName[byId[i]] == i)
    }

    /** `getNameFromSocketId` */
    function NameOf(id: SocketId): Option<Name> {
      if id in byId then Some(byId[id]) else None
    }

    /** `getSocketIdFromName` */
    function IdOf(name: Name): Option<SocketId> {
      if name in byName then Some(byName[name]) else None
    }

    /** `addSocket(name, id)` under the overwrite contract. */
    function Add(name: Name, id: SocketId): (r: Bimap)
      requires Valid()
      ensures r.Valid()
      ensures r.IdOf(name) == Some(id) && r.NameOf(id) == Some(name)
      // the socket the name had before no longer resolves to anything
      ensures name in byName && byName[name] != id ==> r.NameOf(byName[name]) == None
      // the name the id had before is no longer registered
      ensures id in byId && byId[id] != name ==> r.IdOf(byId[id]) == None
      // every other registration is untouched
      ensures forall n :: n in byName && n != name && byName[n] != id ==> r.IdOf(n) == Some(byName[n])
      ensures r.byName.Keys == (byName.Keys - (if id in byId then {byId[id]} else {})) + {name}
      ensures r.byId.Keys == (byId.Keys - (if name in byName then {byName[name]} else {})) + {id}
    {
      var names := if id in byId then byName - {byId[id]} else byName;
      var ids := if name in byName then byId - {byName[name]} else byId;
      Bimap(names[name := id], ids[id := name])
    }

    /** `removeSocket(id)`: forget the id and the name it stood for. */
    function Remove(id: SocketId): (r: Bimap)
      requires Valid()
      ensures r.Valid()
      ensures r.NameOf(id) == None
      ensures id !in byId ==> r == this
      ensures id in byId ==> r.IdOf(byId[id]) == None && r.byName.Keys == byName.Keys - {byId[id]}
      ensures r.byId.Keys == byId.Keys - {id}
      ensures forall n :: n in r.byName ==> n in byName && r.byName[n] == byName[n]
    {
      if id in byId then Bimap(byName - {byId[id]}, byId - {id}) else this
    }
  }

  /** `names` lists every element of `s` exactly once, in some order. */
  ghost predicate Enumerates(names: seq<Name>, s: set<Name>) {
    && (forall n :: n in names <==> n in s)
    && (forall i, j :: 0 <= i < j < |names| ==> names[i] != names[j])
  }

  /** The registry object the server shares between all its handlers. */
  class PiSocketManager {
    var byName: map<Name, SocketId>
    var byId: map<SocketId, Name>

    function Model(): Bimap
      reads this
    {
      Bimap(byName, byId)
    }

    ghost predicate Valid()
      reads this
    {
      Model().Valid()
    }

    constructor ()
      ensures Valid() && Model() == Bimap(map[], map[])
    {
      byName, byId := map[], map[];
    }

    method AddSocket(name: Name, id: SocketId)
      requires Valid()
      modifies this
      ensures Valid()
      ensures Model() == old(Model()).Add(name, id)
    {
      var names, ids := byName, byId;
      if id in byId {
        names := names - {byId[id]};
      }
      if name in byName {
        ids := ids - {byName[name]};
      }
      byName, byId := names[name := id], ids[id := name];
    }

    method RemoveSocket(id: SocketId)
      requires Valid()
      modifies this
      ensures Valid()
      ensures Model() == old(Model()).Remove(id)
    {
      if id in byId {
        byName, byId := byName - {byId[id]}, byId - {id};
      }
    }

    method GetNameFromSocketId(id: SocketId) returns (name: Option<Name>)
      ensures name == Model().NameOf(id)
    {
      name := if id in byId then Some(byId[id]) else None;
    }

    method GetSocketIdFromName(name: Name) returns (id: Option<SocketId>)
      ensures id == Model().IdOf(name)
    {
      id := if name in byName then Some(byName[name]) else None;
    }

    /** `getAllSocketsName`: a snapshot of the registered names. */
    method GetAllSocketsName() returns (names: seq<Name>)
      ensures Enumerates(names, byName.Keys)
      ensures |names| == |byName|
    {
      names := [];
      var rest := byName.Keys;
      while rest != {}
        invariant rest <= byName.Keys
        invariant forall n :: n in names <==> n in byName.Keys - rest
        invariant forall i, j :: 0 <= i < j < |names| ==> names[i] != names[j]
        invariant |names| + |rest| == |byName.Keys|
        decreases |rest|
      {
        var n :| n in rest;
        assert n !in names;
        names := names + [n];
        rest := rest - {n};
      }
    }
  }
}
