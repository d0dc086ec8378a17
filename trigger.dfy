/** The per-server idle trigger: a server is shut down on the second
    consecutive poll that raises the shutdown trigger. */
module Trigger {

  /** What one poll does to a server whose trigger flag is `armed`. */
  datatype Decision =
    | Disarm    // players online or query failed: flag cleared
    | Arm       // first idle poll: flag set
    | Shutdown  // second idle poll in a row: shut down and unregister

  /** The branch the poll loop takes for one server, given its flag and this
      poll's trigger. */
  function Decide(armed: bool, trigger: bool): (d: Decision)
    ensures d == Disarm <==> !trigger
    ensures d == Arm <==> trigger && !armed
    ensures d == Shutdown <==> trigger && armed
  {
    if !trigger then Disarm
    else if armed == trigger then Shutdown
    else Arm
  }

  /** The life of one server over a run of polls: still registered with a
      flag, or shut down at the poll with the given index. */
  datatype Fate = Running(armed: bool) | ShutDownAt(poll: nat)

  function Later(f: Fate): Fate
  {
    match f
    case Running(_) => f
    case ShutDownAt(k) => ShutDownAt(k + 1)
  }

  /** Runs the trigger machine of one server from flag `armed` over the
      triggers of its successive polls; it stops at the first shutdown. */
  function Track(armed: bool, triggers: seq<bool>): (f: Fate)
    ensures f.ShutDownAt? ==> f.poll < |triggers|
    decreases |triggers|
  {
    if triggers == [] then Running(armed)
    else
      match Decide(armed, triggers[0])
      case Shutdown => ShutDownAt(0)
      case Disarm => Later(Track(false, triggers[1..]))
      case Arm => Later(Track(true, triggers[1..]))
  }

  /** The first poll decides; the rest of the run starts from the flag it leaves. */
  lemma TrackCons(armed: bool, trigger: bool, triggers: seq<bool>)
    ensures Track(armed, [trigger] + triggers) ==
      if trigger && armed then ShutDownAt(0) else Later(Track(trigger, triggers))
  {
    assert ([trigger] + triggers)[1..] == triggers;
  }

  /** Poll `k` is idle and so was the poll before it (or, for the first poll,
      the flag was already armed when watching began). */
  predicate IdlePair(armed: bool, triggers: seq<bool>, k: nat)
    requires k < |triggers|
  {
    triggers[k] && (if k == 0 then armed else triggers[k - 1])
  }

  /** Reference characterisation of Track: a server is shut down exactly at the
      first idle pair; otherwise it runs on and its flag is the last trigger. */
  lemma {:induction false} TrackIsFirstIdlePair(armed: bool, triggers: seq<bool>)
    ensures Track(armed, triggers).ShutDownAt? <==>
              exists k :: 0 <= k < |triggers| && IdlePair(armed, triggers, k)
    ensures Track(armed, triggers).ShutDownAt? ==>
              var k := Track(armed, triggers).poll;
              IdlePair(armed, triggers, k) &&
              forall j :: 0 <= j < k ==> !IdlePair(armed, triggers, j)
    ensures Track(armed, triggers).Running? ==>
              Track(armed, triggers).armed == if triggers == [] then armed else triggers[|triggers| - 1]
    decreases |triggers|
  {
    if triggers != [] {
      var rest := triggers[1..];
      var next := triggers[0];
      if !(triggers[0] && armed) {
        TrackIsFirstIdlePair(next, rest);
        assert Track(armed, triggers) == Later(Track(next, rest));
        forall k | 0 <= k < |rest|
          ensures IdlePair(next, rest, k) == IdlePair(armed, triggers, k + 1)
        {
        }
        assert !IdlePair(armed, triggers, 0);
        if exists k :: 0 <= k < |triggers| && IdlePair(armed, triggers, k) {
          var k :| 0 <= k < |triggers| && IdlePair(armed, triggers, k);
          assert IdlePair(next, rest, k - 1);
        }
        if Track(armed, triggers).ShutDownAt? {
          var k := Track(armed, triggers).poll;
          forall j | 0 <= j < k
            ensures !IdlePair(armed, triggers, j)
          {
            if j > 0 {
              assert !IdlePair(next, rest, j - 1);
            }
          }
        }
      } else {
        assert IdlePair(armed, triggers, 0);
      }
    }
  }

  /** Polls that are never idle (players online or failed queries) never shut
      a server down, and leave its flag cleared. */
  lemma NeverIdleNeverShutDown(armed: bool, triggers: seq<bool>)
    requires forall k :: 0 <= k < |triggers| ==> !triggers[k]
    ensures Track(armed, triggers) == Running(if triggers == [] then armed else false)
  {
    TrackIsFirstIdlePair(armed, triggers);
  }

  /** Two idle polls in a row shut a server down, at the second one at the latest. */
  lemma TwoIdlePollsShutDown(armed: bool, triggers: seq<bool>, k: nat)
    requires 0 < k < |triggers| && triggers[k - 1] && triggers[k]
    ensures Track(armed, triggers).ShutDownAt?
    ensures Track(armed, triggers).poll <= k
  {
    assert IdlePair(armed, triggers, k);
    TrackIsFirstIdlePair(armed, triggers);
  }

  /** A non-idle poll after an idle one clears the flag instead of shutting down. */
  lemma NonIdleDisarms(armed: bool, triggers: seq<bool>)
    requires Track(armed, triggers).Running?
    ensures Track(armed, triggers + [false]) == Running(false)
  {
    TrackIsFirstIdlePair(armed, triggers);
    TrackIsFirstIdlePair(armed, triggers + [false]);
    assert forall k :: 0 <= k < |triggers| ==> IdlePair(armed, triggers + [false], k) == IdlePair(armed, triggers, k);
  }
}
