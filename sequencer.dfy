/** The shutdown protocol run against the tmux session of one server. */
module Sequencer {
  import opened Effects

  /** Number of one-second sleeps between the stop command and the extra Enter. */
  const STOP_WAITS: nat := 15

  /** How the session behaves, as the two `tmux has-session` checks see it. */
  datatype SessionFate =
    | NoSession       // the first check fails
    | ExitsAfterStop  // present at the first check, gone at the second
    | OutlivesStop    // present at both checks

  /** `n` one-second sleeps. */
  function Waits(n: nat): seq<Action>
  {
    seq(n, _ => Sleep(1))
  }

  /** One more pass of the wait loop adds one one-second sleep at the end. */
  lemma WaitsGrow(n: nat)
    ensures Waits(n + 1) == Waits(n) + [Sleep(1)]
  {
    assert forall k :: 0 <= k < n + 1 ==> Waits(n + 1)[k] == (Waits(n) + [Sleep(1)])[k];
  }

  /** The actions `shutdown_server` issues for session `id`. */
  function Protocol(id: string, fate: SessionFate): (log: seq<Action>)
    ensures log != [] && log[0] == HasSession(id)
    ensures |log| == 1 <==> fate == NoSession
    ensures fate != NoSession ==> log[|log| - 1] == PowerOff
  {
    if fate == NoSession then [HasSession(id)]
    else
      [HasSession(id), SendStop(id)] + Waits(STOP_WAITS) + [SendEnter(id), HasSession(id)]
      + (if fate == OutlivesStop then [KillSession(id)] else [])
      + [PowerOff]
  }

  /** A stop action was attempted: the stop command went to the session. */
  predicate Attempted(log: seq<Action>)
  {
    exists i :: 0 <= i < |log| && log[i].SendStop?
  }

  /** Stops the server in session `session`, kills the session if it
      outlives the stop command, then powers the host off. As written it
      reports `false` whether or not it acted. */
  method ShutdownServer(session: string, fate: SessionFate) returns (result: bool, log: seq<Action>)
    ensures log == Protocol(session, fate)
    ensures !result
  {
    log := [HasSession(session)];
    var present := fate != NoSession;
    if present {
      log := log + [SendStop(session)];
      for k := 0 to STOP_WAITS
        invariant log == [HasSession(session), SendStop(session)] + Waits(k)
      {
        WaitsGrow(k);
        log := log + [Sleep(1)];
      }
      log := log + [SendEnter(session), HasSession(session)];
      var stillPresent := fate == OutlivesStop;
      if stillPresent {
        log := log + [KillSession(session)];
      }
      log := log + [PowerOff];
    }
    result := false;
  }

  /** Without a session only the existence check runs: no keys are sent,
      nothing is killed and the host is not powered off. */
  lemma AbsentSessionOnlyChecks(id: string)
    ensures Protocol(id, NoSession) == [HasSession(id)]
    ensures !Attempted(Protocol(id, NoSession))
    ensures PowerOff !in Protocol(id, NoSession)
  {
  }

  /** With a session the protocol runs in this order: check, stop, fifteen
      one-second sleeps, Enter, re-check, a kill only if the session is
      still there, and power-off last. */
  lemma PresentSessionLayout(id: string, fate: SessionFate)
    requires fate != NoSession
    ensures var log := Protocol(id, fate);
      && |log| == (if fate == OutlivesStop then 21 else 20)
      && log[0] == HasSession(id)
      && log[1] == SendStop(id)
      && (forall k :: 2 <= k < 2 + STOP_WAITS ==> log[k] == Sleep(1))
      && log[17] == SendEnter(id)
      && log[18] == HasSession(id)
      && (fate == OutlivesStop ==> log[19] == KillSession(id))
      && log[|log| - 1] == PowerOff
  {
  }

  /** The session is killed exactly when it outlives the stop command, and
      the kill comes before the power-off. */
  lemma KillOnlyIfOutlives(id: string, fate: SessionFate)
    ensures KillSession(id) in Protocol(id, fate) <==> fate == OutlivesStop
    ensures var log := Protocol(id, fate);
      forall i, j | 0 <= i < |log| && 0 <= j < |log| && log[i].KillSession? && log[j] == PowerOff :: i < j
  {
    var log := Protocol(id, fate);
    if fate != NoSession {
      PresentSessionLayout(id, fate);
      assert forall k :: 0 <= k < |log| && log[k].KillSession? ==> k == 19 && fate == OutlivesStop;
      assert forall k :: 0 <= k < |log| && log[k] == PowerOff ==> k == |log| - 1;
    }
  }

  /** The host is powered off exactly when the session existed, whether or not
      it had to be killed, and power-off is issued once. */
  lemma PowerOffIffSession(id: string, fate: SessionFate)
    ensures PowerOff in Protocol(id, fate) <==> fate != NoSession
    ensures forall i :: 0 <= i < |Protocol(id, fate)| - 1 ==> Protocol(id, fate)[i] != PowerOff
  {
    if fate != NoSession {
      PresentSessionLayout(id, fate);
    }
  }

  /** Stop was attempted exactly when the session existed, yet the result
      `ShutdownServer` reports is always false: the result does not say
      whether a stop was attempted. */
  lemma ResultDoesNotReportAttempt(id: string, fate: SessionFate)
    ensures Attempted(Protocol(id, fate)) <==> fate != NoSession
  {
    if fate != NoSession {
      assert Protocol(id, fate)[1].SendStop?;
    } else {
      AbsentSessionOnlyChecks(id);
    }
  }
}
