/**
 * Values exchanged by the Orka server: client names, socket ids, opaque
 * payloads, and the actions the server performs towards the UI, the client
 * sockets and the settings store.
 */
module Protocol {

  /** A value that may be absent, standing for JavaScript's `undefined`/`null`. */
  datatype Option<T> = None | Some(value: T)

  /** The logical name a client claims in its handshake (`client_name`). */
  type Name = string

  /** The transport id socket.io gives a connection (`socket.id`). */
  type SocketId = string

  /** Any JavaScript value the server passes along without looking inside it. */
  type Payload = string

  /**
   * One outgoing effect of a handler.  The server's observable behaviour is the
   * sequence of these it produces.
   */
  datatype Action =
      /** `contents.send('setPiConnectionStatus', {name, connected})` */
    | ConnectionStatus(name: Name, connected: bool)
      /** `contents.send('stats', {name, data})` */
    | Stats(name: Name, data: Payload)
      /** `contents.send('output', {name, output})`; the name may be null */
    | Output(from: Option<Name>, output: Payload)
      /** `contents.send('alert', {name, message})`; the name may be null */
    | Alert(from: Option<Name>, message: Payload)
      /** `contents.send('systemInfo', {name, data})`; the name may be null */
    | SystemInfo(from: Option<Name>, data: Payload)
      /** `emit('Command', command)` on the socket with this id */
    | EmitCommand(socket: SocketId, command: Payload)
      /** `disconnect()` on the socket with this id */
    | Disconnect(socket: SocketId)
      /** `connectToPi(ip, port, {name, settings})`: an outbound dial */
    | Dial(ip: Payload, port: Payload, name: Name, settings: Payload)
      /** `settings.addClient(name, {ip, port})` */
    | AddClient(name: Name, ip: Payload, port: Payload)
      /** `settings.removeClient(name)` */
    | RemoveClient(name: Name)
      /** `app.quit()`, scheduled after the shutdown grace delay */
    | AppQuit
}
