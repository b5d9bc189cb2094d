/**
 * Client code that drives a Hub through the situations the server is built
 * for, using nothing but the handlers' contracts.  Each method's ensures is
 * the complete log the server produces.
 */
module Scenarios {
  import opened Protocol
  import opened Registry
  import opened Server

  /**
   * A client connects on socket "A", reports statistics, then reconnects on
   * "B" before "A" is closed.  The server announces "connected" twice and
   * does not close "A" itself.  Under the registry's contract, "A" no longer
   * resolves to a name once "B" registers: its output is forwarded with no
   * name, it is closed when it still sends statistics, and its going away
   * is not announced.
   */
  method ReconnectScenario() returns (log: seq<Action>)
    ensures log == [
      ConnectionStatus("agent1", true),
      Stats("agent1", "{cpu:10}"),
      ConnectionStatus("agent1", true),
      Output(None, "ls"),
      Disconnect("A")
    ]
  {
    var hub := new Hub();
    hub.OnConnection("A", Some("agent1"));
    hub.OnStats("A", "{cpu:10}");
    hub.OnConnection("B", Some("agent1"));
    assert hub.sockets.byId == map["B" := "agent1"];
    hub.OnOutput("A", "ls");
    hub.OnStats("A", "{cpu:11}");
    hub.OnDisconnect("A");
    log := hub.log;
  }

  /**
   * Commands reach the socket registered for the name and are dropped for a
   * name nobody registered; the client's disconnection is announced.
   */
  method CommandScenario() returns (log: seq<Action>)
    ensures log == [
      ConnectionStatus("agent1", true),
      EmitCommand("A", "run"),
      ConnectionStatus("agent1", false)
    ]
  {
    var hub := new Hub();
    hub.OnConnection("A", Some("agent1"));
    assert hub.sockets.byName == map["agent1" := "A"];
    hub.Command("agent1", "run");
    assert "ghost" !in hub.sockets.byName;
    hub.Command("ghost", "{run:x}");
    hub.OnDisconnect("A");
    log := hub.log;
  }

  /**
   * A connection without a name is closed before any of its events are
   * handled, and nothing is announced for it; an empty name is a name like
   * any other.
   */
  method AnonymousScenario() returns (log: seq<Action>)
    ensures log == [
      Disconnect("C"),
      ConnectionStatus("", true),
      Alert(Some(""), "cpu high")
    ]
  {
    var hub := new Hub();
    hub.OnConnection("C", None);
    hub.OnConnection("D", Some(""));
    hub.OnAlert("D", "cpu high");
    log := hub.log;
  }

  /**
   * The operator removes a connected client: the mapping goes first, so the
   * socket's own 'disconnect' event announces nothing, and a later command
   * for the client is dropped.
   */
  method RemovalScenario() returns (log: seq<Action>)
    ensures log == [
      ConnectionStatus("agent1", true),
      RemoveClient("agent1"),
      Disconnect("A")
    ]
  {
    var hub := new Hub();
    hub.OnConnection("A", Some("agent1"));
    hub.PiRemoved("agent1");
    hub.OnDisconnect("A");
    hub.Command("agent1", "run");
    log := hub.log;
  }
}
