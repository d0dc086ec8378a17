# Idle-shutdown watchdog for Minecraft servers

This project is a Dafny model of `autoshutdown.py`, a watchdog that powers a host off once its
Minecraft servers are idle. At start the script sleeps for a grace period. It then polls every
registered server once per cycle. The status query of a server yields a *shutdown trigger*:
it is raised when nobody is online, and cleared when players are online or the query fails.
Each server carries a flag that remembers whether its previous poll was idle.

- A non-idle poll clears the flag.
- A first idle poll sets the flag.
- An idle poll with the flag already set runs the shutdown protocol on the server's tmux
  session and removes the server from the registry.

The shutdown protocol runs these steps in order:

1. Check that the session exists.
2. Send `/stop`.
3. Wait fifteen seconds, one second at a time.
4. Send an extra Enter.
5. Check again, and kill the session if it is still there.
6. Power the host off.

A cycle polls a snapshot of the names taken when it starts, in insertion order. When a cycle
leaves the registry empty the program returns. Otherwise it sleeps for the interval and polls
again.

The model is six modules:

- `Effects` (`effects.dfy`): the actions the watchdog issues (status queries, tmux commands,
  power-off and sleeps) and the two timing constants.
- `PlayerQuery` (`player_query.dfy`): how one query result becomes the shutdown trigger.
- `Trigger` (`trigger.dfy`): the per-server decision and the trigger machine over a run of
  polls, characterised independently as "shut down at the first pair of consecutive idle
  polls".
- `Sequencer` (`sequencer.dfy`): the shutdown protocol. It is a method that builds the action
  log step by step, proved equal to a specification function. Lemmas about that function give
  the order of the steps and when each happens.
- `Names` (`names.dfy`): the dictionary's key order, and how popping a key changes it.
- `Poller` (`poller.dfy`): the registry and the specification of one cycle and of a run of
  cycles. It also holds the class `Watchdog`, whose fields are the server dictionary, its key
  order and the action log. The methods of `Watchdog` update those fields in place, as the
  script updates its global dictionary.

The outside world enters as input:

- Each cycle is a function from server name to an `Observation`. An observation holds the
  query result and how the server's tmux session behaves if it is shut down.
- A run is a finite sequence of cycles.

## Source and documentation differ

The model follows the code.

- `shutdown_server` returns `False` on every path (autoshutdown.py:66). Its docstring says it
  returns `True` when a stop was attempted (autoshutdown.py:36). In the model,
  `ShutdownServer` always returns `false`.
  Whether a stop was attempted can be read from the action log instead:
  `Sequencer.ResultDoesNotReportAttempt` proves that a stop is attempted exactly when the
  session exists. The result is never read by its caller (autoshutdown.py:105), so the
  discrepancy changes no other behaviour.
- The docstring of `get_player_count` (autoshutdown.py:72) describes a tuple with an exit
  code. The code returns the trigger as a boolean, which is what the model returns.
- The module docstring (autoshutdown.py:2-14) describes a command-line player counter. No such
  behaviour exists in the code.

## Model

| member | source | states |
|---|---|---|
| PlayerQuery.ShutdownTrigger | autoshutdown.py:69-89 | a query that reports nobody online raises the trigger; one that reports players clears it; a failed query never raises it |
| Trigger.Decide | autoshutdown.py:101-110 | the three branches of the loop body are exclusive and exhaustive: clear on a non-idle poll, arm on a first idle poll, shut down on an idle poll with the flag set |
| Trigger.Track | autoshutdown.py:98-110 | one server's trigger machine over successive polls; a shutdown happens at one of the polls given |
| Trigger.TrackCons | autoshutdown.py:101-110 | the first poll either shuts the server down at once or hands its flag on to the rest of the run |
| Trigger.TrackIsFirstIdlePair | autoshutdown.py:98-110 | a server is shut down if and only if two consecutive polls are idle (the first poll pairs with the initial flag); the shutdown is at the first such pair; a server still running holds the trigger of its latest poll |
| Trigger.NeverIdleNeverShutDown | autoshutdown.py:101-102 | polls that only see players or failed queries never shut a server down, and leave its flag clear |
| Trigger.TwoIdlePollsShutDown | autoshutdown.py:104-110 | two idle polls in a row shut a server down, at the second of them at the latest |
| Trigger.NonIdleDisarms | autoshutdown.py:101-102 | a non-idle poll (players online or a failed query) after an armed poll clears the flag rather than shutting down |
| Names.Keep | autoshutdown.py:98-107 | the names of the insertion order that are still registered: exactly those names, none twice, never more than before |
| Names.KeepAppend | autoshutdown.py:98-107 | keeping the registered names works part by part over a concatenation, so the kept names stay in the order they had |
| Names.Without | autoshutdown.py:107 | popping a key removes exactly that name from the key order, none twice; popping an absent name changes nothing |
| Names.WithoutCuts | autoshutdown.py:107 | popping a name listed once at position k gives the key order with that one position cut out, every other name in its place in the order |
| Names.WithoutKeep | autoshutdown.py:107 | popping a name from the order of the registered names gives the order of the registered names minus that one |
| Names.KeepAll | autoshutdown.py:98 | when every name is registered, the key order is the whole snapshot |
| Sequencer.Protocol | autoshutdown.py:43-64 | the actions of the shutdown protocol: it always starts with the existence check; that check is its only action exactly when there is no session; with a session its last action is the power-off |
| Sequencer.WaitsGrow | autoshutdown.py:50-51 | each pass of the wait loop adds one one-second sleep at the end |
| Sequencer.ShutdownServer | autoshutdown.py:30-66 | the method issues exactly the protocol's action log for its session, and returns false on every path |
| Sequencer.AbsentSessionOnlyChecks | autoshutdown.py:43-66 | without a session only the existence check runs: no stop, no kill, no power-off |
| Sequencer.PresentSessionLayout | autoshutdown.py:43-64 | with a session the log is, in order: check, stop, fifteen one-second sleeps, Enter, re-check, a kill only if the session outlived the stop, and power-off last; 20 or 21 actions |
| Sequencer.KillOnlyIfOutlives | autoshutdown.py:57-61 | the session is killed if and only if it is still there at the re-check, and the kill comes before the power-off |
| Sequencer.PowerOffIffSession | autoshutdown.py:63-64 | the host is powered off if and only if the session existed, whether or not it had to be killed, and only as the last action |
| Sequencer.ResultDoesNotReportAttempt | autoshutdown.py:30-66 | a stop is attempted if and only if the session exists, which the always-false result does not report |
| Poller.Configured | autoshutdown.py:27 | the configured registry: one server, "minecraft", at its address, flag clear; its key order lists it once |
| Poller.Next | autoshutdown.py:101-110 | the entry after one poll: removed exactly when the flag was set and the poll is idle; otherwise the same address with the flag set to this poll's trigger |
| Poller.Segment | autoshutdown.py:99-107 | one poll's actions start with the query at the entry's address; the query is the only action exactly when the server stays; the host is powered off exactly when the poll shuts the server down and its session existed |
| Poller.Segments | autoshutdown.py:98-107 | polling the first k snapshotted names issues at least one action per name |
| Poller.Visit | autoshutdown.py:100-110 | polling one name changes at most that name's entry; every other name keeps its entry |
| Poller.Sweep | autoshutdown.py:98-110 | polling the first k names of the snapshot leaves names outside the snapshot and names not yet polled with their entries, and adds no name |
| Poller.Cycle | autoshutdown.py:98-110 | a cycle leaves a registry whose key order lists each remaining name once, and whose names are among those before it |
| Poller.Watched | autoshutdown.py:95-118 | a run of cycles keeps the registry well formed, never adds a name, and runs no more cycles than it is given |
| Poller.PollBranches | autoshutdown.py:100-110 | per branch: a non-idle poll clears the flag and only queries; a first idle poll sets it and only queries; an idle poll with the flag set queries, runs the shutdown protocol on the server's own name and removes the entry |
| Poller.SweepAt | autoshutdown.py:98-110 | each snapshotted name meets the fate its own entry at the start of the cycle and its own query give it, whatever was removed before it |
| Poller.SweepExtend | autoshutdown.py:98-110 | polling the next name of the snapshot: its entry is still the one it had when the cycle started, the log grows by its actions, and the key order loses it exactly when it is removed |
| Poller.ProtocolQueriesNothing | autoshutdown.py:30-66 | the shutdown protocol issues no status query |
| Poller.SegmentQueries | autoshutdown.py:99-107 | one poll queries its server once, at its address |
| Poller.Addresses | autoshutdown.py:98-99 | the addresses of the first k snapshotted names, in snapshot order |
| Poller.SegmentsQueries | autoshutdown.py:98-107 | polling the first k names queries exactly their addresses, once each, in snapshot order |
| Poller.CycleQueriesEachOnce | autoshutdown.py:98-110 | a cycle queries every registered server exactly once, in insertion order, at the address it had when the cycle started |
| Poller.CycleAt | autoshutdown.py:98-110 | after a cycle a server is gone if and only if it was armed and its poll was idle; otherwise its flag is its poll's trigger and its address is unchanged; no name is added |
| Poller.SegmentEndsWithoutSleep | autoshutdown.py:99-107 | a poll's actions end with its query or with the protocol's last step, never with the interval sleep |
| Poller.CycleEndsWithoutSleep | autoshutdown.py:98-113 | a cycle over a non-empty registry ends with an action of its last server, not a sleep |
| Poller.WatchedReturnsIffEmpty | autoshutdown.py:113-118 | the loop returns if and only if a cycle leaves the registry empty; while servers remain it runs every cycle it is given |
| Poller.WatchedSleepsOnlyBetweenCycles | autoshutdown.py:113-118 | when the loop returns there is no sleep after the last cycle; while it runs on, each cycle is followed by the interval sleep |
| Poller.WatchedFollowsTrack | autoshutdown.py:95-118 | across cycles each server follows its own trigger machine: removed at its first pair of consecutive idle polls, otherwise still registered at the same address with the trigger of its latest poll |
| Poller.ConfiguredStopsAfterTwoIdlePolls | autoshutdown.py:27-118 | the configured server, idle at its first two polls, is shut down by the second and the loop returns after exactly two cycles with an empty registry |
| Poller.Watchdog.constructor | autoshutdown.py:27 | the watchdog starts from any well-formed registry it is given, with nothing issued yet |
| Poller.Watchdog.Poll | autoshutdown.py:99-110 | the loop body for one name updates the dictionary as one poll does, pops the name from the key order exactly when it removes the entry, and appends the poll's actions |
| Poller.Watchdog.PollEach | autoshutdown.py:98-110 | the loop over the snapshot leaves the dictionary, key order and action log that polling the whole snapshot specifies |
| Poller.Watchdog.PollCycle | autoshutdown.py:98-110 | one cycle in place: the new dictionary, key order and log are those of the cycle specification, and the registry stays well formed |
| Poller.Watchdog.Round | autoshutdown.py:98-118 | a cycle, then report whether the registry is empty, sleeping the interval only when it is not |
| Poller.Watchdog.Watch | autoshutdown.py:95-118 | the loop in place over the given cycles: final registry, log, whether it returned and how many cycles it ran are those of the run specification |
| Poller.Watchdog.Launch | autoshutdown.py:121-123 | program start: the grace-period sleep, then the loop |
| Poller.Start | autoshutdown.py:27-123 | the script as a program: a watchdog built on the configured registry sleeps the grace period and runs the loop; whether it returned, how many cycles it ran and its actions are those of the run specification on the configured registry |

## Left out

- The status query itself (mcstatus `JavaServer.lookup` and `status()`, autoshutdown.py:76-77) is a network call. It enters the model as a `QueryResult` input, either a player count or a failure.
- PlayerQuery.ShutdownTrigger: the player count is any integer, and the trigger is raised only for exactly zero, as the code's comparison with 0 does.
- The `subprocess.run` calls to `tmux` and `sudo shutdown` are not modelled as processes. Each becomes an action in the log. The session's behaviour enters as the input `SessionFate`, which records whether it exists at the first check and whether it is still there at the second. No other return code is looked at. The power-off result is ignored, as `check=False` does. When `tmux` or `sudo` is missing, `subprocess.run` raises `FileNotFoundError` (autoshutdown.py:43, 64). Nothing catches it, so the script stops with that exception. The model has no such path: every command in it completes.
- Sleeps are actions in the log, carrying their duration in seconds. No time passes in the model.
- Every `print`, including the error message on stderr (autoshutdown.py:47, 55, 61, 81, 84, 88, 96, 114), is left out: they are output only.
- The `TERMINATE` constant (autoshutdown.py:25) is never read.
- The module docstring's command-line interface and exit status (autoshutdown.py:2-14) have no code behind them.
- Poller.Watched: the `while True` loop (autoshutdown.py:95) is modelled over a finite sequence of cycle outcomes. A run that uses them all up without emptying the registry ends with `stopped` false, and means the loop is still going. Nontermination while players stay online is not modelled.
- Python's `KeyError` for a name missing from the dictionary cannot arise. The snapshot lists each key once, and only the name being polled is popped, so `Visit` requires the name to be registered.
- The global variable and its aliasing are not modelled: the dictionary is a field of one `Watchdog` object, and entries are values rather than shared mutable lists.
