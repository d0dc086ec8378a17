/** The poll loop: the server registry, one poll cycle over a snapshot of its
    names, and the run of cycles that ends once no server is left. */
module Poller {
  import opened Effects
  import opened Names
  import opened PlayerQuery
  import opened Trigger
  import opened Sequencer

  /** One registered server: its status address and its shutdown trigger flag. */
  datatype Entry = Entry(address: string, armed: bool)

  /** What the outside world does to one server in one cycle: the result of its
      status query, and how its session behaves should it be shut down. */
  datatype Observation = Observation(query: QueryResult, session: SessionFate)

  /** The server dictionary: entries by name, and its keys in insertion order. */
  datatype Registry = Registry(servers: map<string, Entry>, order: seq<string>)

  /** The order lists each registered name exactly once. */
  ghost predicate WellFormed(reg: Registry)
  {
    NoDup(reg.order) && forall n :: n in reg.order <==> n in reg.servers
  }

  /** The servers configured at program start: one server, "minecraft", its
      flag clear. */
  function Configured(): (reg: Registry)
    ensures WellFormed(reg) && |reg.order| == 1
  {
    Registry(map["minecraft" := Entry("35.214.110.227:25565", false)], ["minecraft"])
  }

  /** The entry of a server after one poll, or None once the poll has shut it
      down and removed it. */
  datatype Option<T> = None | Some(value: T)

  /** The branch the loop takes for a server with entry `e` whose query
      returned `obs.query`. */
  function Next(e: Entry, obs: Observation): (r: Option<Entry>)
    ensures r.None? <==> e.armed && ShutdownTrigger(obs.query)
    ensures r.Some? ==> r.value == e.(armed := ShutdownTrigger(obs.query))
  {
    match Decide(e.armed, ShutdownTrigger(obs.query))
    case Disarm => Some(e.(armed := false))
    case Arm => Some(e.(armed := true))
    case Shutdown => None
  }

  /** The actions one poll of `name` issues, given its entry when it is polled:
      the status query, then the shutdown protocol on the server's own name if
      this poll shuts it down. */
  function Segment(e: Entry, name: string, obs: Observation): (log: seq<Action>)
    ensures log != [] && log[0] == Query(e.address)
    ensures |log| == 1 <==> Next(e, obs).Some?
    ensures PowerOff in log <==> Next(e, obs).None? && obs.session != NoSession
  {
    if Next(e, obs).None? then [Query(e.address)] + Protocol(name, obs.session)
    else [Query(e.address)]
  }

  /** The entries after polling one snapshotted name; no other entry changes. */
  function Visit(servers: map<string, Entry>, name: string, obs: Observation): (r: map<string, Entry>)
    requires name in servers
    ensures forall m {:trigger m in r} :: m != name ==> (m in r <==> m in servers)
    ensures forall m {:trigger r[m]} :: m != name && m in servers ==> r[m] == servers[m]
  {
    match Next(servers[name], obs)
    case Some(e) => servers[name := e]
    case None => servers - {name}
  }

  /** The entries after polling the first `k` names of the snapshot `snap`
      one after the other, `observe` giving each name's query result and
      session behaviour. Names outside the snapshot and names not yet polled
      keep their entries, and no name is added. */
  function Sweep(servers: map<string, Entry>, snap: seq<string>, k: nat, observe: string -> Observation): (r: map<string, Entry>)
    requires k <= |snap| && NoDup(snap) && forall n :: n in snap ==> n in servers
    ensures forall m {:trigger m in r} :: m !in snap ==> (m in r <==> m in servers)
    ensures forall m {:trigger r[m]} :: m !in snap && m in servers ==> r[m] == servers[m]
    ensures forall j :: k <= j < |snap| ==> snap[j] in r && r[snap[j]] == servers[snap[j]]
    ensures r.Keys <= servers.Keys
    decreases k
  {
    if k == 0 then servers
    else
      var prev := Sweep(servers, snap, k - 1, observe);
      assert forall j :: k <= j < |snap| ==> snap[j] != snap[k - 1];
      Visit(prev, snap[k - 1], observe(snap[k - 1]))
  }

  /** The actions of polling the first `k` names of `snap` in order, each
      segment computed from the name's entry in `servers`. */
  function Segments(servers: map<string, Entry>, snap: seq<string>, k: nat, observe: string -> Observation): (log: seq<Action>)
    requires k <= |snap| && forall n :: n in snap ==> n in servers
    ensures |log| >= k
    decreases k
  {
    if k == 0 then []
    else
      var name := snap[k - 1];
      Segments(servers, snap, k - 1, observe) + Segment(servers[name], name, observe(name))
  }

  /** The registry after one poll cycle, and the actions the cycle issued. */
  datatype Polled = Polled(registry: Registry, actions: seq<Action>)

  /** One poll cycle over the snapshot of the names at its start, in insertion
      order. Its actions are each name's segment computed from the entries at
      the start of the cycle: polling and removing one name never alters what
      happens to the names after it. */
  function Cycle(reg: Registry, observe: string -> Observation): (p: Polled)
    requires WellFormed(reg)
    ensures WellFormed(p.registry)
    ensures p.registry.servers.Keys <= reg.servers.Keys
  {
    var s := Sweep(reg.servers, reg.order, |reg.order|, observe);
    Polled(Registry(s, Keep(reg.order, s.Keys)), Segments(reg.servers, reg.order, |reg.order|, observe))
  }

  /** Where a run of poll cycles leaves the registry, the actions it issued,
      whether it returned because the registry became empty, and how many
      cycles it ran. */
  datatype Run = Run(registry: Registry, actions: seq<Action>, stopped: bool, ran: nat)

  /** The poll loop over the outcomes of `cycles`: after each cycle it returns
      if the registry is empty and otherwise sleeps INTERVAL_SECONDS. Once
      `cycles` is used up the run is still going. */
  function Watched(reg: Registry, cycles: seq<string -> Observation>): (w: Run)
    requires WellFormed(reg)
    ensures WellFormed(w.registry)
    ensures w.registry.servers.Keys <= reg.servers.Keys
    ensures w.ran <= |cycles|
    decreases |cycles|
  {
    if cycles == [] then Run(reg, [], false, 0)
    else
      var p := Cycle(reg, cycles[0]);
      if |p.registry.servers| == 0 then Run(p.registry, p.actions, true, 1)
      else
        var rest := Watched(p.registry, cycles[1..]);
        Run(rest.registry, p.actions + [Sleep(INTERVAL_SECONDS)] + rest.actions, rest.stopped, rest.ran + 1)
  }

  /** The shutdown triggers `name` sees in successive cycles. */
  function Triggers(cycles: seq<string -> Observation>, name: string): seq<bool>
  {
    seq(|cycles|, k requires 0 <= k < |cycles| => ShutdownTrigger(cycles[k](name).query))
  }

  /** The addresses queried by a run of actions, in order. */
  function Queried(log: seq<Action>): seq<string>
  {
    if log == [] then []
    else (if log[0].Query? then [log[0].address] else []) + Queried(log[1..])
  }

  /** The three branches of one poll. A non-idle poll clears the flag; a first
      idle poll sets it and shuts nothing down; an idle poll with the flag set
      runs the shutdown protocol on the server's own name and removes it. */
  lemma PollBranches(servers: map<string, Entry>, name: string, obs: Observation)
    requires name in servers
    ensures var e, r, log := servers[name], Visit(servers, name, obs), Segment(servers[name], name, obs);
      && (!ShutdownTrigger(obs.query) ==>
            name in r && r[name] == e.(armed := false) && log == [Query(e.address)])
      && (ShutdownTrigger(obs.query) && !e.armed ==>
            name in r && r[name] == e.(armed := true) && log == [Query(e.address)])
      && (ShutdownTrigger(obs.query) && e.armed ==>
            name !in r && log == [Query(e.address)] + Protocol(name, obs.session))
  {
  }

  /** Each snapshotted name meets the same fate as if it were polled alone: what
      happens to it depends only on its own entry at the start of the cycle and
      its own observation, however many other names were removed before it. */
  lemma {:induction false} SweepAt(servers: map<string, Entry>, snap: seq<string>, k: nat, observe: string -> Observation, j: nat)
    requires k <= |snap| && NoDup(snap) && forall n :: n in snap ==> n in servers
    requires j < k
    ensures var n := snap[j];
      var r, next := Sweep(servers, snap, k, observe), Next(servers[n], observe(n));
      && (n in r <==> next.Some?)
      && (n in r ==> r[n] == next.value)
    decreases k
  {
    if j < k - 1 {
      SweepAt(servers, snap, k - 1, observe, j);
      assert snap[j] != snap[k - 1];
    }
  }

  /** Polling the next name of the snapshot: its entry is still the one it
      had when the cycle started; the log grows by that name's segment, and
      the key order loses the name exactly when the poll removes it. This is
      the step of the poll cycle's loop. */
  lemma SweepExtend(servers: map<string, Entry>, log0: seq<Action>, snap: seq<string>, observe: string -> Observation, i: nat)
    requires NoDup(snap) && forall n :: n in snap ==> n in servers
    requires i < |snap|
    ensures var prev, name := Sweep(servers, snap, i, observe), snap[i];
      && name in prev && prev[name] == servers[name]
      && var next := Visit(prev, name, observe(name));
      && Sweep(servers, snap, i + 1, observe) == next
      && log0 + Segments(servers, snap, i + 1, observe) ==
           log0 + Segments(servers, snap, i, observe) + Segment(servers[name], name, observe(name))
      && Keep(snap, next.Keys) ==
           if name in next then Keep(snap, prev.Keys) else Without(Keep(snap, prev.Keys), name)
  {
    var prev, name := Sweep(servers, snap, i, observe), snap[i];
    var next := Visit(prev, name, observe(name));
    Assoc(log0, Segments(servers, snap, i, observe), Segment(servers[name], name, observe(name)));
    if name !in next {
      assert next.Keys == prev.Keys - {name};
      WithoutKeep(snap, prev.Keys, name);
    } else {
      assert next.Keys == prev.Keys;
    }
  }

  lemma {:induction false} QueriedConcat(a: seq<Action>, b: seq<Action>)
    ensures Queried(a + b) == Queried(a) + Queried(b)
  {
    if a == [] {
      assert a + b == b;
    } else {
      assert (a + b)[0] == a[0];
      assert (a + b)[1..] == a[1..] + b;
      QueriedConcat(a[1..], b);
    }
  }

  lemma {:induction false} QueriedNone(log: seq<Action>)
    requires forall i :: 0 <= i < |log| ==> !log[i].Query?
    ensures Queried(log) == []
  {
    if log != [] {
      QueriedNone(log[1..]);
    }
  }

  /** The shutdown protocol issues no status query. */
  lemma ProtocolQueriesNothing(id: string, fate: SessionFate)
    ensures Queried(Protocol(id, fate)) == []
  {
    if fate != NoSession {
      PresentSessionLayout(id, fate);
    }
    QueriedNone(Protocol(id, fate));
  }

  /** One poll queries its server once, at its entry's address. */
  lemma SegmentQueries(e: Entry, name: string, obs: Observation)
    ensures Queried(Segment(e, name, obs)) == [e.address]
  {
    QueriedConcat([Query(e.address)], Protocol(name, obs.session));
    ProtocolQueriesNothing(name, obs.session);
    assert Queried([Query(e.address)]) == [e.address];
  }

  /** The addresses of the first `k` names of `snap`, in snapshot order, as
      their entries in `servers` give them. */
  function Addresses(servers: map<string, Entry>, snap: seq<string>, k: nat): (r: seq<string>)
    requires k <= |snap| && forall n :: n in snap ==> n in servers
    ensures |r| == k && forall j :: 0 <= j < k ==> r[j] == servers[snap[j]].address
    decreases k
  {
    if k == 0 then [] else Addresses(servers, snap, k - 1) + [servers[snap[k - 1]].address]
  }

  /** Polling the first `k` names of a snapshot queries every one of them
      exactly once, in snapshot order, at the address its entry had when the
      cycle started. */
  lemma {:induction false} SegmentsQueries(servers: map<string, Entry>, snap: seq<string>, k: nat, observe: string -> Observation)
    requires k <= |snap| && forall n :: n in snap ==> n in servers
    ensures Queried(Segments(servers, snap, k, observe)) == Addresses(servers, snap, k)
    decreases k
  {
    if k != 0 {
      var name := snap[k - 1];
      SegmentsQueries(servers, snap, k - 1, observe);
      QueriedConcat(Segments(servers, snap, k - 1, observe), Segment(servers[name], name, observe(name)));
      SegmentQueries(servers[name], name, observe(name));
    }
  }

  /** One cycle queries every registered server exactly once, in the
      registry's insertion order. */
  lemma CycleQueriesEachOnce(reg: Registry, observe: string -> Observation)
    requires WellFormed(reg)
    ensures var q := Queried(Cycle(reg, observe).actions);
      |q| == |reg.order| && forall k :: 0 <= k < |reg.order| ==> q[k] == reg.servers[reg.order[k]].address
  {
    SegmentsQueries(reg.servers, reg.order, |reg.order|, observe);
  }

  /** One cycle, name by name: a server leaves the registry exactly when this
      poll is its second idle one in a row; otherwise its flag becomes this
      poll's trigger and its address is unchanged. No name is added. */
  lemma CycleAt(reg: Registry, observe: string -> Observation, n: string)
    requires WellFormed(reg)
    ensures var r := Cycle(reg, observe).registry.servers;
      && (n in r ==> n in reg.servers)
      && (n in reg.servers ==>
            var e := reg.servers[n];
            var trigger := ShutdownTrigger(observe(n).query);
            && (n in r <==> !(trigger && e.armed))
            && (n in r ==> r[n] == e.(armed := trigger)))
  {
    if n in reg.servers {
      var j :| 0 <= j < |reg.order| && reg.order[j] == n;
      SweepAt(reg.servers, reg.order, |reg.order|, observe, j);
    }
  }

  /** One poll's actions end with its query or with the last protocol step,
      never with a sleep between cycles. */
  lemma SegmentEndsWithoutSleep(e: Entry, name: string, obs: Observation)
    ensures var log := Segment(e, name, obs);
      log != [] && log[|log| - 1] != Sleep(INTERVAL_SECONDS)
  {
    if obs.session != NoSession {
      PresentSessionLayout(name, obs.session);
    }
  }

  /** A cycle over a non-empty registry ends with an action of its last name,
      never with a sleep between cycles. */
  lemma CycleEndsWithoutSleep(reg: Registry, observe: string -> Observation)
    requires WellFormed(reg) && reg.order != []
    ensures var log := Cycle(reg, observe).actions;
      log != [] && log[|log| - 1] != Sleep(INTERVAL_SECONDS)
  {
    var last := reg.order[|reg.order| - 1];
    SegmentEndsWithoutSleep(reg.servers[last], last, observe(last));
  }

  /** One unfolding of the poll loop: a cycle, then either return or sleep and go on. */
  lemma WatchedUnfold(reg: Registry, cycles: seq<string -> Observation>)
    requires WellFormed(reg) && cycles != []
    ensures var p, w := Cycle(reg, cycles[0]), Watched(reg, cycles);
      if |p.registry.servers| == 0 then
        w.registry == p.registry && w.actions == p.actions && w.stopped && w.ran == 1
      else
        var rest := Watched(p.registry, cycles[1..]);
        && w.registry == rest.registry
        && w.actions == p.actions + [Sleep(INTERVAL_SECONDS)] + rest.actions
        && w.stopped == rest.stopped && w.ran == rest.ran + 1
  {
  }

  lemma {:induction false} WatchedReturnsIffEmpty(reg: Registry, cycles: seq<string -> Observation>)
    requires WellFormed(reg)
    ensures var w := Watched(reg, cycles);
      && (w.stopped ==> 0 < w.ran && |w.registry.servers| == 0)
      && (!w.stopped ==> w.ran == |cycles| && (0 < w.ran ==> |w.registry.servers| != 0))
    decreases |cycles|
  {
    if cycles != [] {
      WatchedUnfold(reg, cycles);
      var p := Cycle(reg, cycles[0]);
      if |p.registry.servers| != 0 {
        WatchedReturnsIffEmpty(p.registry, cycles[1..]);
      }
    }
  }

  /** When the loop returns it does so straight after the cycle that emptied
      the registry, with no sleep after it; while it runs on, every cycle is
      followed by a sleep of INTERVAL_SECONDS. */
  lemma {:induction false} WatchedSleepsOnlyBetweenCycles(reg: Registry, cycles: seq<string -> Observation>)
    requires WellFormed(reg)
    ensures var w := Watched(reg, cycles);
      && (w.stopped ==> w.actions == [] || w.actions[|w.actions| - 1] != Sleep(INTERVAL_SECONDS))
      && (!w.stopped && 0 < w.ran ==> w.actions != [] && w.actions[|w.actions| - 1] == Sleep(INTERVAL_SECONDS))
    decreases |cycles|
  {
    if cycles != [] {
      WatchedUnfold(reg, cycles);
      var p := Cycle(reg, cycles[0]);
      if |p.registry.servers| == 0 {
        if reg.order != [] {
          CycleEndsWithoutSleep(reg, cycles[0]);
        }
      } else {
        WatchedSleepsOnlyBetweenCycles(p.registry, cycles[1..]);
        var rest := Watched(p.registry, cycles[1..]);
        if rest.stopped {
          WatchedUnfold(p.registry, cycles[1..]);
          assert p.registry.order != [];
          assert cycles[1..][0] == cycles[1];
          CycleEndsWithoutSleep(p.registry, cycles[1]);
        }
        LastOfAppend(p.actions + [Sleep(INTERVAL_SECONDS)], rest.actions);
      }
    }
  }

  lemma LastOfAppend(a: seq<Action>, b: seq<Action>)
    requires a != []
    ensures a + b != [] && (a + b)[|a + b| - 1] == if b == [] then a[|a| - 1] else b[|b| - 1]
  {
  }

  lemma TriggersCons(cycles: seq<string -> Observation>, r: nat, n: string)
    requires r < |cycles|
    ensures Triggers(cycles[..r + 1], n) == [ShutdownTrigger(cycles[0](n).query)] + Triggers(cycles[1..][..r], n)
  {
  }

  /** One unfolding of the poll loop, registry and cycle count only. */
  lemma WatchedUnfoldRegistry(reg: Registry, cycles: seq<string -> Observation>)
    requires WellFormed(reg) && cycles != []
    ensures var p, w := Cycle(reg, cycles[0]), Watched(reg, cycles);
      if |p.registry.servers| == 0 then w.registry == p.registry && w.ran == 1
      else w.registry == Watched(p.registry, cycles[1..]).registry && w.ran == Watched(p.registry, cycles[1..]).ran + 1
  {
  }

  /** A first poll that shuts the server down: it is gone after the run, and
      its trigger machine stops at that poll. */
  lemma FollowsTrackNow(reg: Registry, cycles: seq<string -> Observation>, n: string)
    requires WellFormed(reg) && n in reg.servers && cycles != []
    requires ShutdownTrigger(cycles[0](n).query) && reg.servers[n].armed
    ensures var w := Watched(reg, cycles);
      n !in w.registry.servers && Track(reg.servers[n].armed, Triggers(cycles[..w.ran], n)).ShutDownAt?
  {
    var w := Watched(reg, cycles);
    var p := Cycle(reg, cycles[0]);
    WatchedUnfoldRegistry(reg, cycles);
    CycleAt(reg, cycles[0], n);
    assert n !in p.registry.servers;
    assert w.registry.servers.Keys <= p.registry.servers.Keys;
    TriggersCons(cycles, w.ran - 1, n);
    TrackCons(true, true, Triggers(cycles[1..][..w.ran - 1], n));
  }

  /** A first poll that keeps the server: the rest of the run decides its
      fate, starting from the flag this poll set. */
  lemma FollowsTrackLater(reg: Registry, cycles: seq<string -> Observation>, n: string)
    requires WellFormed(reg) && n in reg.servers && cycles != []
    requires !(ShutdownTrigger(cycles[0](n).query) && reg.servers[n].armed)
    ensures var p, t0 := Cycle(reg, cycles[0]).registry, ShutdownTrigger(cycles[0](n).query);
      var w, rest := Watched(reg, cycles), Watched(p, cycles[1..]);
      && n in p.servers && p.servers[n] == reg.servers[n].(armed := t0)
      && w.registry == rest.registry
      && Track(reg.servers[n].armed, Triggers(cycles[..w.ran], n)) == Later(Track(t0, Triggers(cycles[1..][..rest.ran], n)))
  {
    var p := Cycle(reg, cycles[0]);
    var t0 := ShutdownTrigger(cycles[0](n).query);
    WatchedUnfoldRegistry(reg, cycles);
    CycleAt(reg, cycles[0], n);
    assert n in p.registry.servers;
    var rest := Watched(p.registry, cycles[1..]);
    TriggersCons(cycles, rest.ran, n);
    TrackCons(reg.servers[n].armed, t0, Triggers(cycles[1..][..rest.ran], n));
  }

  /** Across cycles each server follows its own trigger machine: it is shut down
      at its first pair of consecutive idle polls and otherwise stays registered
      at the same address, its flag the trigger of its latest poll. */
  lemma {:induction false} WatchedFollowsTrack(reg: Registry, cycles: seq<string -> Observation>, n: string)
    requires WellFormed(reg) && n in reg.servers
    ensures var w := Watched(reg, cycles);
      var f := Track(reg.servers[n].armed, Triggers(cycles[..w.ran], n));
      && (f.Running? ==> n in w.registry.servers && w.registry.servers[n] == reg.servers[n].(armed := f.armed))
      && (f.ShutDownAt? ==> n !in w.registry.servers)
    decreases |cycles|
  {
    var w := Watched(reg, cycles);
    var e := reg.servers[n];
    if cycles == [] {
      assert Triggers(cycles[..w.ran], n) == [];
    } else if ShutdownTrigger(cycles[0](n).query) && e.armed {
      FollowsTrackNow(reg, cycles, n);
    } else {
      var p := Cycle(reg, cycles[0]).registry;
      FollowsTrackLater(reg, cycles, n);
      WatchedFollowsTrack(p, cycles[1..], n);
      var later := Track(ShutdownTrigger(cycles[0](n).query), Triggers(cycles[1..][..Watched(p, cycles[1..]).ran], n));
      if later.Running? {
        assert p.servers[n].(armed := later.armed) == e.(armed := later.armed);
      }
    }
  }

  /** The configured server whose first two polls both find nobody online is
      armed by the first, shut down by the second, and the loop then returns:
      it runs exactly two cycles. */
  lemma ConfiguredStopsAfterTwoIdlePolls(cycles: seq<string -> Observation>)
    requires 2 <= |cycles|
    requires cycles[0]("minecraft").query == Online(0) && cycles[1]("minecraft").query == Online(0)
    ensures Watched(Configured(), cycles).stopped
    ensures Watched(Configured(), cycles).ran == 2
    ensures Watched(Configured(), cycles).registry.servers == map[]
  {
    var reg, n := Configured(), "minecraft";
    var p := Cycle(reg, cycles[0]);
    WatchedUnfold(reg, cycles);
    CycleAt(reg, cycles[0], n);
    assert n in p.registry.servers;
    var q := Cycle(p.registry, cycles[1]);
    assert cycles[1..][0] == cycles[1];
    WatchedUnfold(p.registry, cycles[1..]);
    CycleAt(p.registry, cycles[1], n);
    assert q.registry.servers.Keys <= {n};
    assert q.registry.servers == map[];
  }

  lemma Assoc(a: seq<Action>, b: seq<Action>, c: seq<Action>)
    ensures a + b + c == a + (b + c)
  {
  }

  lemma AppendAssoc(a: seq<Action>, b: seq<Action>, c: seq<Action>, d: seq<Action>)
    ensures a + b + c + d == a + (b + c + d)
  {
  }

  /** The running watchdog: the global server dictionary, and the log of
      every action it has issued. */
  class Watchdog {
    var servers: map<string, Entry>
    var order: seq<string>
    var actions: seq<Action>

    function Registered(): Registry
      reads this
    {
      Registry(servers, order)
    }

    ghost predicate Valid()
      reads this
    {
      WellFormed(Registered())
    }

    /** The configured servers, before any poll. */
    constructor (initial: Registry)
      requires WellFormed(initial)
      ensures Valid() && Registered() == initial && actions == []
    {
      servers, order, actions := initial.servers, initial.order, [];
    }

    /** The loop body for one snapshotted name: query it, then clear its flag,
        shut it down and pop it, or set its flag. */
    method Poll(name: string, obs: Observation)
      requires name in servers
      modifies this
      ensures servers == Visit(old(servers), name, obs)
      ensures actions == old(actions) + Segment(old(servers)[name], name, obs)
      ensures name in servers ==> servers.Keys == old(servers).Keys && order == old(order)
      ensures name !in servers ==> servers.Keys == old(servers).Keys - {name} && order == Without(old(order), name)
    {
      var entry := servers[name];
      var polled := [Query(entry.address)];
      actions := actions + polled;
      var trigger := ShutdownTrigger(obs.query);
      if !trigger {
        servers := servers[name := entry.(armed := false)];
      } else if entry.armed == trigger {
        var _, log := ShutdownServer(name, obs.session);
        Assoc(old(actions), polled, log);
        actions := actions + log;
        servers := servers - {name};
        order := Without(order, name);
      } else {
        servers := servers[name := entry.(armed := trigger)];
      }
    }

    /** One pass of the loop body over a snapshot of the registered names. */
    method PollCycle(observe: string -> Observation)
      requires Valid()
      modifies this
      ensures Valid()
      ensures var c := Cycle(old(Registered()), observe);
        servers == c.registry.servers && order == c.registry.order && actions == old(actions) + c.actions
    {
      var snapshot := order;
      KeepAll(snapshot, servers.Keys);
      PollEach(snapshot, observe);
    }

    /** The `for` loop over the snapshot `snapshot` of the names taken when the
        cycle starts: each name is polled with the entry it has then. */
    method PollEach(snapshot: seq<string>, observe: string -> Observation)
      requires NoDup(snapshot) && forall n :: n in snapshot ==> n in servers
      requires order == Keep(snapshot, servers.Keys)
      modifies this
      ensures servers == Sweep(old(servers), snapshot, |snapshot|, observe)
      ensures actions == old(actions) + Segments(old(servers), snapshot, |snapshot|, observe)
      ensures order == Keep(snapshot, servers.Keys)
    {
      ghost var servers0, log0 := servers, actions;
      var i := 0;
      while i < |snapshot|
        invariant 0 <= i <= |snapshot|
        invariant servers == Sweep(servers0, snapshot, i, observe)
        invariant actions == log0 + Segments(servers0, snapshot, i, observe)
        invariant order == Keep(snapshot, servers.Keys)
      {
        var name := snapshot[i];
        SweepExtend(servers0, log0, snapshot, observe, i);
        Poll(name, observe(name));
        i := i + 1;
      }
    }

    /** One iteration of the `while True` loop: a poll cycle, then report
        whether the registry is empty, or else sleep until the next cycle. */
    method Round(observe: string -> Observation) returns (empty: bool)
      requires Valid()
      modifies this
      ensures var p := Cycle(old(Registered()), observe);
        && Registered() == p.registry
        && empty == (|p.registry.servers| == 0)
        && actions == old(actions) + p.actions + (if empty then [] else [Sleep(INTERVAL_SECONDS)])
    {
      PollCycle(observe);
      empty := |servers| == 0;
      if !empty {
        actions := actions + [Sleep(INTERVAL_SECONDS)];
      }
    }

    /** The `while True` loop over the outcomes of `cycles`: returns after a
        cycle that empties the registry, otherwise sleeps between cycles. */
    method Watch(cycles: seq<string -> Observation>) returns (stopped: bool, ran: nat)
      requires Valid()
      modifies this
      ensures Valid()
      ensures var w := Watched(old(Registered()), cycles);
        && Registered() == w.registry && actions == old(actions) + w.actions
        && stopped == w.stopped && ran == w.ran
    {
      stopped, ran := false, 0;
      while ran < |cycles|
        invariant Valid() && ran <= |cycles|
        invariant var w, rest := Watched(old(Registered()), cycles), Watched(Registered(), cycles[ran..]);
          && w.registry == rest.registry && w.stopped == rest.stopped && w.ran == ran + rest.ran
          && old(actions) + w.actions == actions + rest.actions
      {
        ghost var before, logged := Registered(), actions;
        ghost var p := Cycle(before, cycles[ran]);
        assert cycles[ran..][0] == cycles[ran] && cycles[ran..][1..] == cycles[ran + 1..];
        WatchedUnfold(before, cycles[ran..]);
        var empty := Round(cycles[ran]);
        ran := ran + 1;
        if empty {
          stopped := true;
          return;
        }
        AppendAssoc(logged, p.actions, [Sleep(INTERVAL_SECONDS)], Watched(Registered(), cycles[ran..]).actions);
      }
    }

    /** Program start: sleep GRACE_PERIOD_SECONDS, then run the poll loop. */
    method Launch(cycles: seq<string -> Observation>) returns (stopped: bool, ran: nat)
      requires Valid()
      modifies this
      ensures Valid()
      ensures var w := Watched(old(Registered()), cycles);
        && Registered() == w.registry
        && actions == old(actions) + [Sleep(GRACE_PERIOD_SECONDS)] + w.actions
        && stopped == w.stopped && ran == w.ran
    {
      actions := actions + [Sleep(GRACE_PERIOD_SECONDS)];
      stopped, ran := Watch(cycles);
    }
  }

  /** The script run as a program: a watchdog over the configured servers
      sleeps the grace period, then runs the poll loop. */
  method Start(cycles: seq<string -> Observation>) returns (stopped: bool, ran: nat, actions: seq<Action>)
    ensures var w := Watched(Configured(), cycles);
      && stopped == w.stopped && ran == w.ran
      && actions == [Sleep(GRACE_PERIOD_SECONDS)] + w.actions
  {
    var watchdog := new Watchdog(Configured());
    stopped, ran := watchdog.Launch(cycles);
    actions := watchdog.actions;
  }
}
