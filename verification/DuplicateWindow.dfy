/** Rejecting hashes seen recently: admission and the sweep that forgets old ones. */
module DuplicateWindow {
  import opened Common

  /** window_useconds_. */
  const WINDOW: nat := 20_000_000

  datatype Stamp = Stamp(hash: string, time: nat)

  /** Hashes seen, and when, oldest first. */
  datatype Recent = Recent(hashes: set<string>, queue: seq<Stamp>)

  function Admit(r: Recent, hash: string, now: nat): Recent {
    if hash in r.hashes then r else Recent(r.hashes + {hash}, r.queue + [Stamp(hash, now)])
  }

  predicate Expired(r: Recent, time: nat) { r.queue != [] && r.queue[0].time + WINDOW < time }

  /** One turn of the sweep's loop, under the lock. */
  function SweepOne(r: Recent, time: nat): Recent {
    if Expired(r, time) then Recent(r.hashes - {r.queue[0].hash}, r.queue[1..]) else r
  }

  function Sweep(r: Recent, time: nat): Recent
    decreases |r.queue|
  {
    if Expired(r, time) then Sweep(SweepOne(r, time), time) else r
  }

  class DuplicateManager {
    var proposed: Recent
    var executed: Recent
    var executedSeq: map<string, int>

    /** Sequence numbers are kept for exactly the executed hashes held. */
    ghost predicate Valid()
      reads this
    {
      executedSeq.Keys == executed.hashes
    }

    constructor ()
      ensures Valid() && proposed == executed == Recent({}, []) && executedSeq == map[]
    {
      proposed, executed, executedSeq := Recent({}, []), Recent({}, []), map[];
    }

    method CheckAndAddProposed(hash: string, now: nat) returns (seen: bool)
      requires Valid()
      modifies this`proposed
      ensures Valid() && seen == (hash in old(proposed).hashes) && proposed == Admit(old(proposed), hash, now)
    {
      if hash in proposed.hashes { return true; }
      proposed := Recent(proposed.hashes + {hash}, proposed.queue + [Stamp(hash, now)]);
      seen := false;
    }

    method CheckAndAddExecuted(hash: string, seqNum: int, now: nat) returns (seen: bool)
      requires Valid()
      modifies this`executed, this`executedSeq
      ensures Valid() && seen == (hash in old(executed).hashes) && executed == Admit(old(executed), hash, now)
      ensures executedSeq == if seen then old(executedSeq) else old(executedSeq)[hash := seqNum]
    {
      if hash in executed.hashes { return true; }
      executed := Recent(executed.hashes + {hash}, executed.queue + [Stamp(hash, now)]);
      executedSeq := executedSeq[hash := seqNum];
      seen := false;
    }

    /** 0 stands for not executed. */
    method CheckIfExecuted(hash: string) returns (seqNum: int)
      requires Valid()
      ensures seqNum == if hash in executed.hashes then executedSeq[hash] else 0
    {
      if hash in executed.hashes { seqNum := executedSeq[hash]; } else { seqNum := 0; }
    }

    /** A round of the sweep thread; executed sequence numbers go with their hashes. */
    method UpdateRecentHash(time: nat)
      requires Valid()
      modifies this
      ensures Valid() && proposed == Sweep(old(proposed), time) && executed == Sweep(old(executed), time)
      ensures executedSeq == map h | h in old(executedSeq) && h in executed.hashes :: old(executedSeq)[h]
    {
      while Expired(proposed, time)
        invariant Sweep(proposed, time) == Sweep(old(proposed), time)
        invariant executed == old(executed) && executedSeq == old(executedSeq)
        decreases |proposed.queue|
      {
        proposed := Recent(proposed.hashes - {proposed.queue[0].hash}, proposed.queue[1..]);
      }
      while Expired(executed, time)
        invariant Sweep(executed, time) == Sweep(old(executed), time) && proposed == Sweep(old(proposed), time)
        invariant executedSeq.Keys == executed.hashes <= old(executedSeq).Keys
        invariant forall h :: h in executedSeq ==> executedSeq[h] == old(executedSeq)[h]
        decreases |executed.queue|
      {
        var hash := executed.queue[0].hash;
        executed := Recent(executed.hashes - {hash}, executed.queue[1..]);
        executedSeq := executedSeq - {hash};
      }
    }
  }

  // ---------------------------------------------------------------- runs

  /** Threads check hashes and the sweep turns, in any order; the clock is read when they do. */
  datatype Event = Check(hash: string) | Turn(time: nat)

  /** log: what was admitted, in order. */
  datatype Trace = Trace(recent: Recent, clock: nat, log: seq<Stamp>)

  /** The clock never runs back, and a sweep for some time starts after that time. */
  predicate Allowed(t: Trace, e: Event, now: nat) { t.clock <= now && (e.Turn? ==> e.time <= now) }

  function Next(t: Trace, e: Event, now: nat): Trace {
    match e
    case Check(h) =>
      Trace(Admit(t.recent, h, now), now, if h in t.recent.hashes then t.log else t.log + [Stamp(h, now)])
    case Turn(time) => Trace(SweepOne(t.recent, time), now, t.log)
  }

  function Run(events: seq<(Event, nat)>): Trace {
    if events == [] then Trace(Recent({}, []), 0, [])
    else Next(Run(events[..|events| - 1]), events[|events| - 1].0, events[|events| - 1].1)
  }

  ghost predicate Legal(events: seq<(Event, nat)>) {
    events == [] ||
    var init, last := events[..|events| - 1], events[|events| - 1];
    Legal(init) && Allowed(Run(init), last.0, last.1)
  }

  /** The set is what the queue holds, each hash once and in the order of time. */
  ghost predicate QueueOk(r: Recent) {
    && (forall i :: 0 <= i < |r.queue| ==> r.queue[i].hash in r.hashes)
    && (forall h :: h in r.hashes ==> exists i :: 0 <= i < |r.queue| && r.queue[i].hash == h)
    && (forall i, j :: 0 <= i < j < |r.queue| ==>
        r.queue[i].hash != r.queue[j].hash && r.queue[i].time <= r.queue[j].time)
  }

  /** What was admitted is still held, or lies more than the window back. */
  ghost predicate LogOk(t: Trace) {
    && (forall i :: 0 <= i < |t.log| ==> t.log[i].time <= t.clock)
    && (forall i :: 0 <= i < |t.recent.queue| ==> t.recent.queue[i] in t.log)
    && (forall i :: 0 <= i < |t.log| ==> t.log[i] in t.recent.queue || t.log[i].time + WINDOW < t.clock)
    && (forall i, j :: 0 <= i < j < |t.log| && t.log[i].hash == t.log[j].hash ==>
        t.log[i].time + WINDOW < t.log[j].time)
  }

  ghost predicate Inv(t: Trace) { QueueOk(t.recent) && LogOk(t) }

  lemma AdmitKeepsQueue(r: Recent, h: string, now: nat)
    requires QueueOk(r) && h !in r.hashes && forall i :: 0 <= i < |r.queue| ==> r.queue[i].time <= now
    ensures QueueOk(Admit(r, h, now))
  {
    var s := Admit(r, h, now);
    forall k | k in s.hashes ensures exists i :: 0 <= i < |s.queue| && s.queue[i].hash == k {
      if k == h {
        assert s.queue[|r.queue|].hash == k;
      } else {
        var i :| 0 <= i < |r.queue| && r.queue[i].hash == k;
        assert s.queue[i].hash == k;
      }
    }
  }

  lemma CheckKeepsLog(t: Trace, h: string, now: nat)
    requires LogOk(t) && t.clock <= now && h !in t.recent.hashes
    requires forall i :: 0 <= i < |t.recent.queue| ==> t.recent.queue[i].hash != h
    ensures LogOk(Next(t, Check(h), now))
  {
    forall i | 0 <= i < |t.log| && t.log[i].hash == h ensures t.log[i].time + WINDOW < now {
      assert t.log[i] !in t.recent.queue;
    }
  }

  lemma CheckKeeps(t: Trace, h: string, now: nat)
    requires Inv(t) && t.clock <= now
    ensures Inv(Next(t, Check(h), now))
  {
    if h !in t.recent.hashes {
      forall i | 0 <= i < |t.recent.queue| ensures t.recent.queue[i].time <= now { assert t.recent.queue[i] in t.log; }
      AdmitKeepsQueue(t.recent, h, now);
      CheckKeepsLog(t, h, now);
    }
  }

  lemma TurnKeeps(t: Trace, time: nat, now: nat)
    requires Inv(t) && t.clock <= now && time <= now
    ensures Inv(Next(t, Turn(time), now))
  {
    SweepOneKeeps(t.recent, time);
    if Expired(t.recent, time) { TurnKeepsLog(t, time, now); }
  }

  lemma TurnKeepsLog(t: Trace, time: nat, now: nat)
    requires LogOk(t) && t.clock <= now && time <= now && Expired(t.recent, time)
    ensures LogOk(Next(t, Turn(time), now))
  {
    var q, u := t.recent.queue, Next(t, Turn(time), now);
    forall i | 0 <= i < |t.log| ensures t.log[i] in u.recent.queue || t.log[i].time + WINDOW < now {
      if t.log[i] in q && t.log[i] != q[0] {
        var j :| 0 <= j < |q| && q[j] == t.log[i];
        assert u.recent.queue[j - 1] == t.log[i];
      }
    }
  }

  lemma {:induction false} RunKeeps(events: seq<(Event, nat)>)
    requires Legal(events)
    ensures Inv(Run(events))
  {
    if events != [] {
      var init, last := events[..|events| - 1], events[|events| - 1];
      RunKeeps(init);
      match last.0
      case Check(h) => CheckKeeps(Run(init), h, last.1);
      case Turn(time) => TurnKeeps(Run(init), time, last.1);
    }
  }

  /** In every run, two admissions of the same hash lie more than the window apart. */
  lemma NoDuplicateInWindow(events: seq<(Event, nat)>, i: nat, j: nat)
    requires Legal(events) && i < j < |Run(events).log| && Run(events).log[i].hash == Run(events).log[j].hash
    ensures Run(events).log[j].time - Run(events).log[i].time > WINDOW
  {
    RunKeeps(events);
  }

  /** A finished sweep keeps exactly the hashes stamped within the window. */
  lemma {:induction false} SweepExact(r: Recent, time: nat)
    requires QueueOk(r)
    ensures QueueOk(Sweep(r, time))
    ensures forall i :: 0 <= i < |r.queue| ==>
            (r.queue[i].hash in Sweep(r, time).hashes <==> r.queue[i].time + WINDOW >= time)
    decreases |r.queue|
  {
    if Expired(r, time) {
      var s := SweepOne(r, time);
      SweepOneKeeps(r, time);
      SweepExact(s, time);
      forall i | 0 <= i < |r.queue|
        ensures r.queue[i].hash in Sweep(r, time).hashes <==> r.queue[i].time + WINDOW >= time
      {
        if i > 0 { assert s.queue[i - 1] == r.queue[i]; } else { SweepOnlyRemoves(s, time, r.queue[0].hash); }
      }
    }
  }

  lemma SweepOneKeeps(r: Recent, time: nat)
    requires QueueOk(r)
    ensures QueueOk(SweepOne(r, time))
  {
    if Expired(r, time) {
      var s := SweepOne(r, time);
      forall k | k in s.hashes ensures exists i :: 0 <= i < |s.queue| && s.queue[i].hash == k {
        var i :| 0 <= i < |r.queue| && r.queue[i].hash == k;
        assert s.queue[i - 1].hash == k;
      }
    }
  }

  lemma {:induction false} SweepOnlyRemoves(r: Recent, time: nat, h: string)
    requires h !in r.hashes
    ensures h !in Sweep(r, time).hashes
    decreases |r.queue|
  {
    if Expired(r, time) { SweepOnlyRemoves(SweepOne(r, time), time, h); }
  }

  // ---------------------------------------------------------------- exactly what is admitted

  /** The latest time the sweep has turned for. */
  function LatestTurn(events: seq<(Event, nat)>): nat {
    if events == [] then 0
    else
      var before, e := LatestTurn(events[..|events| - 1]), events[|events| - 1].0;
      if e.Turn? && e.time > before then e.time else before
  }

  /** Whatever is no longer held was stamped more than the window before that time. */
  ghost predicate DroppedOld(t: Trace, time: nat) {
    forall i :: 0 <= i < |t.log| ==> t.log[i] in t.recent.queue || t.log[i].time + WINDOW < time
  }

  lemma StepDropsOld(t: Trace, e: Event, now: nat, before: nat, after: nat)
    requires DroppedOld(t, before) && before <= after && (e.Turn? ==> e.time <= after)
    ensures DroppedOld(Next(t, e, now), after)
  {
    var u := Next(t, e, now);
    forall i | 0 <= i < |u.log| ensures u.log[i] in u.recent.queue || u.log[i].time + WINDOW < after {
      if i < |t.log| && t.log[i] in t.recent.queue && e.Turn? && Expired(t.recent, e.time) {
        var j :| 0 <= j < |t.recent.queue| && t.recent.queue[j] == t.log[i];
        if j > 0 { assert u.recent.queue[j - 1] == u.log[i]; }
      }
    }
  }

  lemma {:induction false} RunDropsOld(events: seq<(Event, nat)>)
    requires Legal(events)
    ensures DroppedOld(Run(events), LatestTurn(events))
  {
    if events != [] {
      var init, last := events[..|events| - 1], events[|events| - 1];
      RunDropsOld(init);
      StepDropsOld(Run(init), last.0, last.1, LatestTurn(init), LatestTurn(events));
    }
  }

  lemma HeldIff(t: Trace, time: nat, h: string)
    requires Inv(t) && DroppedOld(t, time) && !Expired(t.recent, time)
    ensures h in t.recent.hashes <==>
            exists i :: 0 <= i < |t.log| && t.log[i].hash == h && t.log[i].time + WINDOW >= time
  {
    if h in t.recent.hashes {
      var j :| 0 <= j < |t.recent.queue| && t.recent.queue[j].hash == h;
      assert t.recent.queue[0].time <= t.recent.queue[j].time;
      assert t.recent.queue[j] in t.log;
      var i :| 0 <= i < |t.log| && t.log[i] == t.recent.queue[j];
      assert t.log[i].time + WINDOW >= time;
    }
    if i :| 0 <= i < |t.log| && t.log[i].hash == h && t.log[i].time + WINDOW >= time {
      assert t.log[i] in t.recent.queue;
    }
  }

  /**
   * Once the sweep has finished for a time, a check is refused exactly when its hash was admitted
   * within the window before that time or since; otherwise it is admitted and stamped.
   */
  lemma AdmittedIff(events: seq<(Event, nat)>, h: string, now: nat)
    requires Legal(events) && !Expired(Run(events).recent, LatestTurn(events))
    ensures var t, u := Run(events), Next(Run(events), Check(h), now);
            if exists i :: 0 <= i < |t.log| && t.log[i].hash == h && t.log[i].time + WINDOW >= LatestTurn(events)
            then u.log == t.log && u.recent == t.recent
            else u.log == t.log + [Stamp(h, now)] && h in u.recent.hashes
  {
    RunKeeps(events);
    RunDropsOld(events);
    HeldIff(Run(events), LatestTurn(events), h);
  }

  /** A hash that was never admitted is never refused. */
  lemma FirstIsAdmitted(events: seq<(Event, nat)>, h: string, now: nat)
    requires Legal(events) && forall i :: 0 <= i < |Run(events).log| ==> Run(events).log[i].hash != h
    ensures Next(Run(events), Check(h), now).log == Run(events).log + [Stamp(h, now)]
  {
    RunKeeps(events);
    var t := Run(events);
    forall j | 0 <= j < |t.recent.queue| ensures t.recent.queue[j].hash != h {
      assert t.recent.queue[j] in t.log;
    }
  }
}
