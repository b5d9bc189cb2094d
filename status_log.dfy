/**
 * What the UI is told about connection status, read off the action log.
 * The UI learns who is connected only from `setPiConnectionStatus`
 * notifications, so these predicates say what it believes and when a
 * notification is well placed.
 */
module StatusLog {
  import opened Protocol

  /** The last connection status the log announced for `n`, if any. */
  function LastStatus(log: seq<Action>, n: Name): Option<bool>
    decreases |log|
  {
    if log == [] then None
    else
      var a := log[|log| - 1];
      if a.ConnectionStatus? && a.name == n then Some(a.connected)
      else LastStatus(log[..|log| - 1], n)
  }

  /** Some action before position `k` announced `n` as connected. */
  ghost predicate AnnouncedBefore(log: seq<Action>, n: Name, k: nat)
    requires k <= |log|
  {
    exists j :: 0 <= j < k && log[j] == ConnectionStatus(n, true)
  }

  /** Every "disconnected" notification follows a "connected" one for the same name. */
  ghost predicate TeardownOrdered(log: seq<Action>) {
    forall i :: 0 <= i < |log| && log[i].ConnectionStatus? && !log[i].connected ==>
      AnnouncedBefore(log, log[i].name, i)
  }

  /**
   * The log is well ordered, and the UI was last told that every name in
   * `registered` is connected.
   */
  ghost predicate StatusConsistent(log: seq<Action>, registered: set<Name>) {
    && TeardownOrdered(log)
    && forall n :: n in registered ==> LastStatus(log, n) == Some(true)
  }

  /** Appending one action changes the last status of its own name only. */
  lemma LastStatusAppend(log: seq<Action>, a: Action, n: Name)
    ensures LastStatus(log + [a], n) ==
      if a.ConnectionStatus? && a.name == n then Some(a.connected) else LastStatus(log, n)
  {
  }

  /** A name last announced as connected was announced as connected at some point. */
  lemma {:induction false} LastConnectedWasAnnounced(log: seq<Action>, n: Name)
    requires LastStatus(log, n) == Some(true)
    ensures AnnouncedBefore(log, n, |log|)
    decreases |log|
  {
    var k := |log| - 1;
    if log[k] == ConnectionStatus(n, true) {
      assert 0 <= k < |log|;
    } else {
      var prefix := log[..k];
      LastConnectedWasAnnounced(prefix, n);
      var j :| 0 <= j < k && prefix[j] == ConnectionStatus(n, true);
      assert log[j] == prefix[j];
    }
  }

  /** A "disconnected" notification for a name last announced connected keeps the order. */
  lemma AppendKeepsOrder(log: seq<Action>, a: Action)
    requires TeardownOrdered(log)
    requires a.ConnectionStatus? && !a.connected ==> LastStatus(log, a.name) == Some(true)
    ensures TeardownOrdered(log + [a])
  {
    var log' := log + [a];
    forall i | 0 <= i < |log'| && log'[i].ConnectionStatus? && !log'[i].connected
      ensures AnnouncedBefore(log', log'[i].name, i)
    {
      if i < |log| {
        assert log'[i] == log[i];
        var j :| 0 <= j < i && log[j] == ConnectionStatus(log[i].name, true);
        assert log'[j] == log[j];
      } else {
        LastConnectedWasAnnounced(log, a.name);
        var j :| 0 <= j < |log| && log[j] == ConnectionStatus(a.name, true);
        assert log'[j] == log[j];
      }
    }
  }

  /** Actions other than status notifications leave what the UI believes unchanged. */
  lemma AppendQuiet(log: seq<Action>, registered: set<Name>, a: Action)
    requires StatusConsistent(log, registered)
    requires !a.ConnectionStatus?
    ensures StatusConsistent(log + [a], registered)
  {
    AppendKeepsOrder(log, a);
    forall n | n in registered ensures LastStatus(log + [a], n) == Some(true) {
      LastStatusAppend(log, a, n);
    }
  }

  /** Announcing `n` as connected makes it consistent to register `n`. */
  lemma AppendConnected(log: seq<Action>, registered: set<Name>, n: Name)
    requires StatusConsistent(log, registered)
    ensures StatusConsistent(log + [ConnectionStatus(n, true)], registered + {n})
  {
    var a := ConnectionStatus(n, true);
    AppendKeepsOrder(log, a);
    forall m | m in registered + {n} ensures LastStatus(log + [a], m) == Some(true) {
      LastStatusAppend(log, a, m);
    }
  }

  /** Announcing a registered `n` as disconnected is well ordered, and consistent with unregistering it. */
  lemma AppendDisconnected(log: seq<Action>, registered: set<Name>, n: Name)
    requires StatusConsistent(log, registered)
    requires n in registered
    ensures StatusConsistent(log + [ConnectionStatus(n, false)], registered - {n})
  {
    var a := ConnectionStatus(n, false);
    AppendKeepsOrder(log, a);
    forall m | m in registered - {n} ensures LastStatus(log + [a], m) == Some(true) {
      LastStatusAppend(log, a, m);
    }
  }
}
