/**
 * The Orka server's bridge between the UI and the client sockets
 * (server.js).  Every socket.io and IPC handler is one method; a handler runs
 * as one atomic step, reads or updates the registry, and appends what it does
 * to `log`.  A forced `disconnect()` is the action `Disconnect(id)`; the
 * transport's resulting 'disconnect' event is the separate step OnDisconnect.
 */
module Server {
  import opened Protocol
  import opened Registry
  import opened StatusLog

  /** The socket ids that `DisconnectAll` shuts, in the order of `names`. */
  function DisconnectAll(names: seq<Name>, byName: map<Name, SocketId>): seq<Action>
    requires forall k :: 0 <= k < |names| ==> names[k] in byName
  {
    if names == [] then []
    else DisconnectAll(names[..|names| - 1], byName) + [Disconnect(byName[names[|names| - 1]])]
  }

  lemma DisconnectAllStep(names: seq<Name>, i: nat, byName: map<Name, SocketId>)
    requires i < |names|
    requires forall k :: 0 <= k < |names| ==> names[k] in byName
    ensures DisconnectAll(names[..i + 1], byName) == DisconnectAll(names[..i], byName) + [Disconnect(byName[names[i]])]
  {
    assert names[..i + 1][..i] == names[..i];
  }

  class Hub {
    /** `piSocketManager` */
    const sockets: PiSocketManager
    /** The ids of the sockets socket.io holds open (`io.sockets.connected`). */
    var connected: set<SocketId>
    /** Everything the server has sent to the UI, to sockets and to the settings store. */
    var log: seq<Action>

    /**
     * The registry's two directions agree, every registered socket is open,
     * and the UI was last told that every registered name is connected, with
     * no "disconnected" before a "connected" for any name.
     */
    ghost predicate Valid()
      reads this, sockets
    {
      && sockets.Valid()
      && sockets.byId.Keys <= connected
      && StatusConsistent(log, sockets.byName.Keys)
    }

    constructor ()
      ensures Valid() && fresh(sockets)
      ensures sockets.Model() == Bimap(map[], map[]) && connected == {} && log == []
    {
      sockets := new PiSocketManager();
      connected := {};
      log := [];
    }

    /**
     * io.on('connection'): a socket without `client_name` is closed at once
     * (before its 'disconnect' handler is attached); a socket with one,
     * even the empty string, is registered and announced as connected.
     * A socket previously registered under the same name is displaced but
     * not closed.
     */
    method OnConnection(id: SocketId, clientName: Option<Name>)
      requires Valid()
      requires id !in connected  // socket.io gives every new connection a fresh id
      modifies this`connected, this`log, sockets
      ensures Valid()
      ensures clientName.None? ==>
        && unchanged(sockets) && connected == old(connected)
        && log == old(log) + [Disconnect(id)]
      ensures clientName.Some? ==>
        && sockets.Model() == old(sockets.Model()).Add(clientName.value, id)
        && connected == old(connected) + {id}
        && log == old(log) + [ConnectionStatus(clientName.value, true)]
    {
      if clientName.None? {
        AppendQuiet(log, sockets.byName.Keys, Disconnect(id));
        log := log + [Disconnect(id)];
      } else {
        var name := clientName.value;
        connected := connected + {id};
        sockets.AddSocket(name, id);
        AppendConnected(log, old(sockets.byName.Keys), name);
        log := log + [ConnectionStatus(name, true)];
      }
    }

    /**
     * socket.on('disconnect'): announce the socket's name as disconnected if
     * it has one, then unregister the socket unconditionally.
     */
    method OnDisconnect(id: SocketId)
      requires Valid()
      modifies this`connected, this`log, sockets
      ensures Valid()
      ensures connected == old(connected) - {id}
      ensures sockets.Model() == old(sockets.Model()).Remove(id)
      ensures id in old(sockets.byId) ==> log == old(log) + [ConnectionStatus(old(sockets.byId[id]), false)]
      ensures id !in old(sockets.byId) ==> log == old(log)
    {
      var name := sockets.GetNameFromSocketId(id);
      if name.Some? {
        AppendDisconnected(log, sockets.byName.Keys, name.value);
        log := log + [ConnectionStatus(name.value, false)];
      }
      sockets.RemoveSocket(id);
      connected := connected - {id};
    }

    /**
     * socket.on('stats'): forward the statistics under the sender's name, or
     * close a sender that is not registered.
     */
    method OnStats(id: SocketId, data: Payload)
      requires Valid()
      modifies this`log
      ensures Valid() && unchanged(sockets)
      ensures id in sockets.byId ==> log == old(log) + [Stats(sockets.byId[id], data)]
      ensures id !in sockets.byId ==> log == old(log) + [Disconnect(id)]
    {
      var name := sockets.GetNameFromSocketId(id);
      var a := if name.Some? then Stats(name.value, data) else Disconnect(id);
      AppendQuiet(log, sockets.byName.Keys, a);
      log := log + [a];
    }

    /** socket.on('output'): forward under whatever name the sender has, possibly none. */
    method OnOutput(id: SocketId, data: Payload)
      requires Valid()
      modifies this`log
      ensures Valid() && unchanged(sockets)
      ensures log == old(log) + [Output(sockets.Model().NameOf(id), data)]
    {
      var name := sockets.GetNameFromSocketId(id);
      AppendQuiet(log, sockets.byName.Keys, Output(name, data));
      log := log + [Output(name, data)];
    }

    /** socket.on('alert'): forward under whatever name the sender has, possibly none. */
    method OnAlert(id: SocketId, data: Payload)
      requires Valid()
      modifies this`log
      ensures Valid() && unchanged(sockets)
      ensures log == old(log) + [Alert(sockets.Model().NameOf(id), data)]
    {
      var name := sockets.GetNameFromSocketId(id);
      AppendQuiet(log, sockets.byName.Keys, Alert(name, data));
      log := log + [Alert(name, data)];
    }

    /** socket.on('systemInfo'): forward under whatever name the sender has, possibly none. */
    method OnSystemInfo(id: SocketId, data: Payload)
      requires Valid()
      modifies this`log
      ensures Valid() && unchanged(sockets)
      ensures log == old(log) + [SystemInfo(sockets.Model().NameOf(id), data)]
    {
      var name := sockets.GetNameFromSocketId(id);
      AppendQuiet(log, sockets.byName.Keys, SystemInfo(name, data));
      log := log + [SystemInfo(name, data)];
    }

    /**
     * ipcMain 'Command': emit the command on the socket registered for the
     * name; drop it when the name is not registered.  The socket looked up is
     * always open, so `io.sockets.connected[socketId]` is never undefined.
     */
    method Command(name: Name, command: Payload)
      requires Valid()
      modifies this`log
      ensures Valid() && unchanged(sockets)
      ensures name in sockets.byName ==>
        && sockets.byName[name] in connected
        && log == old(log) + [EmitCommand(sockets.byName[name], command)]
      ensures name !in sockets.byName ==> log == old(log)
    {
      var socketId := sockets.GetSocketIdFromName(name);
      if socketId.Some? {
        assert socketId.value in sockets.byId;
        AppendQuiet(log, sockets.byName.Keys, EmitCommand(socketId.value, command));
        log := log + [EmitCommand(socketId.value, command)];
      }
    }

    /**
     * ipcMain 'piRemoved': unregister the client's socket, forget the client
     * in the settings, then close the socket if it is open.  Because the
     * mapping is gone before the close, the socket's later 'disconnect'
     * event announces nothing.
     */
    method PiRemoved(item: Name)
      requires Valid()
      modifies this`log, sockets
      ensures Valid() && connected == old(connected)
      ensures item !in old(sockets.byName) ==>
        && unchanged(sockets)
        && log == old(log) + [RemoveClient(item)]
      ensures item in old(sockets.byName) ==>
        var id := old(sockets.byName[item]);
        && sockets.Model() == old(sockets.Model()).Remove(id)
        && id !in sockets.byId
        && item !in sockets.byName
        && log == old(log) + [RemoveClient(item), Disconnect(id)]
    {
      var sockId := sockets.GetSocketIdFromName(item);
      var open := sockId.Some? && sockId.value in connected;
      // removeSocket(undefined) finds nothing to remove
      if sockId.Some? {
        sockets.RemoveSocket(sockId.value);
      }
      AppendQuiet(log, sockets.byName.Keys, RemoveClient(item));
      log := log + [RemoveClient(item)];
      if open {
        AppendQuiet(log, sockets.byName.Keys, Disconnect(sockId.value));
        log := log + [Disconnect(sockId.value)];
      }
    }

    /** ipcMain 'piAdded': dial the new client and record it in the settings. */
    method PiAdded(name: Name, ip: Payload, port: Payload, connectionSettings: Payload)
      requires Valid()
      modifies this`log
      ensures Valid() && unchanged(sockets)
      ensures log == old(log) + [Dial(ip, port, name, connectionSettings), AddClient(name, ip, port)]
    {
      AppendQuiet(log, sockets.byName.Keys, Dial(ip, port, name, connectionSettings));
      log := log + [Dial(ip, port, name, connectionSettings)];
      AppendQuiet(log, sockets.byName.Keys, AddClient(name, ip, port));
      log := log + [AddClient(name, ip, port)];
    }

    /** ipcMain 'connect': dial a known client; registration waits for its handshake. */
    method ConnectClient(name: Name, ip: Payload, port: Payload, connectionSettings: Payload)
      requires Valid()
      modifies this`log
      ensures Valid() && unchanged(sockets)
      ensures log == old(log) + [Dial(ip, port, name, connectionSettings)]
    {
      AppendQuiet(log, sockets.byName.Keys, Dial(ip, port, name, connectionSettings));
      log := log + [Dial(ip, port, name, connectionSettings)];
    }

    /** ipcMain 'disconnect': close the client's socket if it has one; the registry is untouched. */
    method DisconnectClient(name: Name)
      requires Valid()
      modifies this`log
      ensures Valid() && unchanged(sockets)
      ensures name in sockets.byName ==> log == old(log) + [Disconnect(sockets.byName[name])]
      ensures name !in sockets.byName ==> log == old(log)
    {
      var sockId := sockets.GetSocketIdFromName(name);
      if sockId.Some? && sockId.value in connected {
        AppendQuiet(log, sockets.byName.Keys, Disconnect(sockId.value));
        log := log + [Disconnect(sockId.value)];
      }
    }

    /** Disconnect the socket of each name in `names`, in that order. */
    method DisconnectEach(names: seq<Name>)
      requires Valid()
      requires forall k :: 0 <= k < |names| ==> names[k] in sockets.byName
      modifies this`log
      ensures Valid() && unchanged(sockets)
      ensures log == old(log) + DisconnectAll(names, sockets.byName)
    {
      var i := 0;
      while i < |names|
        invariant 0 <= i <= |names|
        invariant log == old(log) + DisconnectAll(names[..i], sockets.byName)
        invariant StatusConsistent(log, sockets.byName.Keys)
      {
        var sockId := sockets.GetSocketIdFromName(names[i]);
        // the registered socket is open: `io.sockets.connected[...]` is defined
        assert sockId.Some? && sockId.value in connected;
        AppendQuiet(log, sockets.byName.Keys, Disconnect(sockId.value));
        DisconnectAllStep(names, i, sockets.byName);
        log := log + [Disconnect(sockId.value)];
        i := i + 1;
      }
      assert names[..|names|] == names;
    }

    /**
     * ipcMain 'quit': close the socket of every name registered at this
     * moment, each once, then quit the application.  The registry is left to
     * the sockets' own 'disconnect' events.
     */
    method Quit()
      requires Valid()
      modifies this`log
      ensures Valid() && unchanged(sockets)
      ensures exists names ::
        (Enumerates(names, sockets.byName.Keys) &&
         log == old(log) + DisconnectAll(names, sockets.byName) + [AppQuit])
    {
      var names := sockets.GetAllSocketsName();
      DisconnectEach(names);
      AppendQuiet(log, sockets.byName.Keys, AppQuit);
      log := log + [AppQuit];
      assert Enumerates(names, sockets.byName.Keys);
    }
  }
}
