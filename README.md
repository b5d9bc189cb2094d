# Orka server: connection registry and event routing

The Orka server sits between the Orka UI and a fleet of remote clients
("pis"). Clients connect over socket.io and say who they are with a
`client_name` handshake parameter. The server keeps a registry that maps each
name to the id of its current socket, and the reverse (`piSocketManager`). It
routes the clients' `stats`, `output`, `alert` and `systemInfo` events to the
UI under the sender's name. It routes the UI's `Command`s to the socket
registered for a name. It also handles the UI's `piRemoved`, `piAdded`,
`connect`, `disconnect` and `quit` requests.

This project models that core of `server.js` as a small state machine:

- `protocol.dfy` holds the names, socket ids and opaque payloads. It also
  holds `Action`, one constructor per outgoing effect: a UI notification, a
  command emitted on a socket, a forced disconnect, a dial, a settings write,
  and the application quit.
- `registry.dfy` models the registry. `Bimap` is the pair of maps as a value,
  with `Add` and `Remove` specified on it. `PiSocketManager` is the object the
  handlers share; its methods are proved against `Bimap`.
- `status_log.dfy` reads the action log the way the UI does. `LastStatus` is
  what the UI was last told about a name. `TeardownOrdered` says that no
  "disconnected" notification comes before a "connected" one for the same
  name. The lemmas show which appends keep these facts.
- `server.dfy` holds the class `Hub`, with one method per handler. Its
  invariant `Valid()` has three parts:
  - the registry's two directions are inverse to each other;
  - every registered socket is open;
  - the UI was last told "connected" for every registered name, and the
    status log is teardown-ordered.
  Every handler preserves `Valid()`, and its `ensures` give the new registry
  and the exact actions it appends.
- `scenarios.dfy` drives a `Hub` through reconnection, anonymous connections,
  routing of commands and removal. Each scenario's `ensures` is the complete
  log the server produces.

Each handler is one atomic step. A forced `socket.disconnect()` is recorded as
the action `Disconnect(id)`. The transport's resulting `'disconnect'` event is
the separate step `OnDisconnect(id)`.

The registry's module, `pi-Communicator.js`, is not part of this model. Its
behaviour is an assumed contract, stated as `Bimap.Add` and `Bimap.Remove`:
- `addSocket(name, id)` overwrites, so the newest registration of a name
  wins. The entries it displaces are dropped from both directions: the
  name's previous socket id and the id's previous name.
- `removeSocket(id)` of an id that is not registered changes nothing.

Several proved facts rest on this purge of stale entries, not on `server.js`:
- `Bimap.Valid`, the invariant that the two directions are inverse;
- a displaced socket resolves to no name. So its output, alerts and system
  information are forwarded with no name, statistics it still sends get it
  disconnected, and its later close announces nothing.

If `addSocket` only overwrote the two entries, the displaced id would still
map to the name. Its statistics would be forwarded under that name, and its
close would announce the name "disconnected" while the newer socket is live.

`server.js` behaves as follows:
- Only an absent `client_name` is rejected. The empty string is accepted as a
  name.
- A socket displaced by a newer registration of its name is not closed by the
  server. Each registration announces "connected", so a reconnect produces two
  "connected" notifications. See `Scenarios.ReconnectScenario`.
- A `stats` event from an unregistered socket is not only dropped. The socket
  is also disconnected.

## Model

| member | source | states |
|---|---|---|
| Registry.Bimap.Add | server.js:55 | After `addSocket(name, id)`, the name resolves to `id` and `id` resolves to the name: the newest registration wins. The name's previous socket no longer resolves to any name. The id's previous name is no longer registered. Every other registration is untouched, and the two directions stay inverse. |
| Registry.Bimap.Remove | server.js:70 | After `removeSocket(id)`, `id` resolves to no name, and the name it stood for is unregistered. Other names keep their sockets, and the directions stay inverse. For an unknown id the registry is unchanged. |
| Registry.PiSocketManager.AddSocket | server.js:55 | The shared registry object becomes `Bimap.Add` of its previous contents. |
| Registry.PiSocketManager.RemoveSocket | server.js:154 | The shared registry object becomes `Bimap.Remove` of its previous contents. |
| Registry.PiSocketManager.GetNameFromSocketId | server.js:64-66 | Returns `Bimap.NameOf(id)` of the registry: the name registered for the socket id, or nothing exactly when the id is unregistered. |
| Registry.PiSocketManager.GetSocketIdFromName | server.js:143 | Returns `Bimap.IdOf(name)` of the registry: the socket id registered for the name, or nothing exactly when the name is unregistered. |
| Registry.PiSocketManager.GetAllSocketsName | server.js:208 | Returns every registered name exactly once, as many names as there are registrations. |
| StatusLog.LastStatusAppend | server.js:57-60 | Appending an action changes what the UI was last told about the action's own name only, and only when the action is a status notification. |
| StatusLog.LastConnectedWasAnnounced | server.js:57-60 | A name the UI was last told is connected was announced as connected at some earlier position of the log. |
| StatusLog.AppendKeepsOrder | server.js:63-69 | A "disconnected" notification for a name last announced as connected keeps every "disconnected" after a "connected" for its name. |
| StatusLog.AppendQuiet | server.js:94-97 | Actions other than status notifications keep the log teardown-ordered and do not change what the UI believes about any registered name. |
| StatusLog.AppendConnected | server.js:54-60 | Announcing a name as connected keeps the log consistent with a registry that now includes that name. |
| StatusLog.AppendDisconnected | server.js:63-70 | Announcing a registered name as disconnected keeps the log teardown-ordered and consistent with a registry without that name. |
| Server.Hub.constructor | server.js:19-22 | The server starts with an empty registry, no open sockets and no actions. |
| Server.Hub.OnConnection | server.js:50-61 | A connection without `client_name` is disconnected. The registry is unchanged and no status is sent. A connection with a name, even an empty one, is registered as `Bimap.Add(name, id)`. Exactly one `connected: true` notification for that name is sent. The invariant is preserved. |
| Server.Hub.OnDisconnect | server.js:63-71 | A `connected: false` notification is sent if and only if the socket id resolves to a name, and it carries that name. The id is then unregistered unconditionally, which is a no-op for anonymous or already removed sockets. |
| Server.Hub.OnStats | server.js:88-101 | From a registered socket, `{name, data}` is forwarded with `data` unchanged. From an unregistered socket nothing is forwarded and the socket is disconnected. The registry is unchanged. |
| Server.Hub.OnOutput | server.js:107-112 | The output is always forwarded unchanged. The name is the lookup result and may be absent. The registry is unchanged. |
| Server.Hub.OnAlert | server.js:118-124 | The alert message is always forwarded unchanged. The name is the lookup result and may be absent. The registry is unchanged. |
| Server.Hub.OnSystemInfo | server.js:130-135 | The system information is always forwarded unchanged. The name is the lookup result and may be absent. The registry is unchanged. |
| Server.Hub.Command | server.js:142-147 | The command is emitted verbatim on exactly the socket registered for the name, and that socket is open. For an unknown name nothing is sent and the state is unchanged. |
| Server.Hub.PiRemoved | server.js:149-158 | The client's mapping is removed before its socket is disconnected, so the id no longer resolves when it closes. The client is removed from the settings in every case. An unknown name leaves the registry unchanged. |
| Server.Hub.PiAdded | server.js:160-171 | A dial to the new client is issued and the client is added to the settings. The registry is unchanged. |
| Server.Hub.ConnectClient | server.js:200-205 | A dial to the client is issued. The registry is unchanged. |
| Server.Hub.DisconnectClient | server.js:191-198 | Only the socket registered for the name is disconnected. An unknown name does nothing. The registry is unchanged. |
| Server.Hub.DisconnectEach | server.js:210-212 | Disconnects the socket of each given registered name, in the given order, each one open. The registry is unchanged. |
| Server.Hub.Quit | server.js:207-217 | The socket of every name registered at that moment is disconnected, once each, in the order of a snapshot of the names, and then the application quits. The registry is unchanged. |
| Scenarios.ReconnectScenario | server.js:50-112 | A client reconnecting under its name on a new socket is announced "connected" twice. Its old socket is not closed by the registration. Under the registry's purge contract the old socket resolves to no name: its output is forwarded with no name, it is disconnected when it sends statistics, and its close announces nothing. |
| Scenarios.CommandScenario | server.js:142-147 | A command for a connected client reaches its socket. A command for an unknown name is dropped. The client's close is announced. |
| Scenarios.AnonymousScenario | server.js:50-61 | A nameless connection is disconnected without any announcement. The empty name is accepted, and an alert is forwarded under it. |
| Scenarios.RemovalScenario | server.js:149-158 | After a client is removed, its socket's close announces nothing, and a command for it is dropped. |

## Left out

- The Electron window, fullscreen, developer tools, `open-url` and `minimize` (server.js:24-49, 223-234) are left out as user-interface plumbing. `contents` is assumed to exist when a handler runs.
- The settings pass-through handlers for lists, tasks, notifications, server options and reset (server.js:173-190, 240-273) are left out. They only call into settings.js, which is not part of this model.
- settings.js and pi-Communicator.js are not part of this model. Their effects appear only as the actions `AddClient`, `RemoveClient` and `Dial` and as the registry contract above. The connection settings read by `piAdded` and `connect` are a parameter.
- The outbound dial `connectToPi` is a network client. It is recorded as a `Dial` action with no registry effect.
- The 100 ms grace delay before `app.quit()` is left out (server.js:214-216). `Quit` appends `AppQuit` directly after the disconnects. Together with the separate `OnDisconnect` step below, this puts `AppQuit` in the log before every "disconnected" notification that quit's disconnects cause. In `server.js` each of those handlers (server.js:63-71) runs synchronously and notifies the UI before the delayed `app.quit()` (server.js:215).
- The console logging of `stats` from unregistered clients and of alerts (server.js:91, 119) is left out as output to a console.
- socket.io runs the `'disconnect'` handler synchronously inside `socket.disconnect()`. Here it is the separate, later step `OnDisconnect`, and a socket stays in `connected` until that step runs.
- The asynchrony and concurrency of callbacks are left out. Each handler is an atomic, sequential step.
- socket.io's id generator is left out. A new connection is assumed to carry an id that no open socket has; this is the one precondition of `OnConnection` beyond the invariant.
