/**
 The ring of 1024 slots that makes parallel execute threads run their batches one
 after another.  A slot is 0 (never used), 1 (registered) or 3 (finished).
 */
module ExecutionRing {

  const SLOTS := 1024

  function Slot(n: nat): (i: nat)
    ensures i < SLOTS
  {
    n % SLOTS
  }

  /** RegisterExecute's assertion about the slot it overwrites: unused, or all bits of 3 set. */
  predicate Reusable(b: nat) { b == 0 || b == 3 }

  /** WaitForExecute's condition on the predecessor's slot: bit 2 set, or unused. */
  predicate Open(b: nat) { (b / 2) % 2 == 1 || b == 0 }

  /** The ring as the source holds it. */
  class Ring {
    var blucket: array<nat>

    ghost predicate Valid()
      reads this
    {
      blucket.Length == SLOTS
    }

    constructor ()
      ensures Valid() && fresh(blucket) && forall i :: 0 <= i < SLOTS ==> blucket[i] == 0
    {
      blucket := new nat[SLOTS](_ => 0);
    }

    method RegisterExecute(n: nat) returns (asserted: bool)
      requires Valid()
      modifies blucket
      ensures asserted == Reusable(old(blucket[Slot(n)]))
      ensures blucket[..] == old(blucket[..])[Slot(n) := 1]
    {
      var idx := n % SLOTS;
      asserted := blucket[idx] == 0 || blucket[idx] == 3;
      blucket[idx] := 1;
    }

    method MayExecute(n: nat) returns (ok: bool)
      requires Valid() && n >= 1
      ensures ok == Open(blucket[Slot(n - 1)])
    {
      var preIdx := (n - 1 + SLOTS) % SLOTS;
      ok := (blucket[preIdx] / 2) % 2 == 1 || blucket[preIdx] == 0;
    }

    method FinishExecute(n: nat)
      requires Valid()
      modifies blucket
      ensures blucket[..] == old(blucket[..])[Slot(n) := 3]
    {
      blucket[n % SLOTS] := 3;
    }
  }

  // ---------------------------------------------------------------- runs

  /** `registered` batches carry the numbers 1..registered; `starts` and `finishes` record the order of events. */
  datatype State = State(bucket: seq<nat>, registered: nat, starts: seq<nat>, finishes: seq<nat>)

  datatype Action = Register | Begin(n: nat) | Finish(n: nat)

  /** The constructor's state: every slot zero, nothing registered. */
  ghost predicate Fresh(s: State) {
    && |s.bucket| == SLOTS && (forall i :: 0 <= i < SLOTS ==> s.bucket[i] == 0)
    && s.registered == 0 && s.starts == [] && s.finishes == []
  }

  /** At most `threads` batches are registered and unfinished at any time: one per execute thread. */
  predicate Enabled(s: State, threads: nat, a: Action) {
    |s.bucket| == SLOTS &&
    match a
    case Register => s.registered + 1 - |s.finishes| <= threads
    case Begin(n) => 1 <= n <= s.registered && n !in s.starts && Open(s.bucket[Slot(n - 1)])
    case Finish(n) => n in s.starts && n !in s.finishes
  }

  function Next(s: State, a: Action): (t: State)
    requires |s.bucket| == SLOTS
    ensures |t.bucket| == SLOTS
  {
    match a
    case Register => s.(bucket := s.bucket[Slot(s.registered + 1) := 1], registered := s.registered + 1)
    case Begin(n) => s.(starts := s.starts + [n])
    case Finish(n) => s.(bucket := s.bucket[Slot(n) := 3], finishes := s.finishes + [n])
  }

  function Run(init: State, trace: seq<Action>): (s: State)
    requires |init.bucket| == SLOTS
    ensures |s.bucket| == SLOTS
  {
    if trace == [] then init else Next(Run(init, trace[..|trace| - 1]), trace[|trace| - 1])
  }

  ghost predicate Legal(init: State, threads: nat, trace: seq<Action>) {
    if trace == [] then Fresh(init)
    else
      var before := trace[..|trace| - 1];
      Legal(init, threads, before) && |init.bucket| == SLOTS && Enabled(Run(init, before), threads, trace[|trace| - 1])
  }

  ghost predicate Counts(s: seq<nat>) { forall i :: 0 <= i < |s| ==> s[i] == i + 1 }

  ghost predicate Inv(s: State) {
    && |s.bucket| == SLOTS
    && Counts(s.starts) && Counts(s.finishes)
    && |s.finishes| <= |s.starts| <= |s.finishes| + 1
    && |s.starts| <= s.registered <= |s.finishes| + SLOTS
    && (forall n :: s.registered - SLOTS < n <= s.registered && n >= 1 ==>
          s.bucket[Slot(n)] == if n <= |s.finishes| then 3 else 1)
    && (forall n :: s.registered < n <= SLOTS ==> s.bucket[Slot(n)] == 0)
  }

  lemma SlotsDiffer(m: nat, n: nat)
    requires m < n < m + SLOTS
    ensures Slot(m) != Slot(n)
  {
  }

  lemma CountsIn(s: seq<nat>, n: nat)
    requires Counts(s)
    ensures n in s <==> 1 <= n <= |s|
  {
    if 1 <= n <= |s| { assert s[n - 1] == n; }
  }

  lemma RegisterStep(s: State, threads: nat)
    requires Inv(s) && threads <= SLOTS && Enabled(s, threads, Register)
    ensures Inv(Next(s, Register))
    ensures Reusable(s.bucket[Slot(s.registered + 1)])
  {
    var t := Next(s, Register);
    var m := s.registered + 1;
    if m > SLOTS { assert Slot(m) == Slot(m - SLOTS); }
    forall n | m - SLOTS < n <= m && n >= 1 ensures t.bucket[Slot(n)] == if n <= |t.finishes| then 3 else 1 {
      if n < m { SlotsDiffer(n, m); }
    }
    forall n | m < n <= SLOTS ensures t.bucket[Slot(n)] == 0 { SlotsDiffer(m, n); }
  }

  /** The slot a waiting batch looks at tells the truth about its predecessor, unless it was reused. */
  lemma OpenMeansFinished(s: State, n: nat)
    requires Inv(s) && 1 <= n <= s.registered && n > |s.finishes|
    ensures Open(s.bucket[Slot(n - 1)]) <==> n == |s.finishes| + 1 && s.registered < |s.finishes| + SLOTS
  {
    if n == 1 {
      if s.registered < SLOTS { assert Slot(SLOTS) == Slot(0); }
      else { assert s.registered == SLOTS && Slot(SLOTS) == Slot(0); }
    } else if n - 1 > s.registered - SLOTS {
      assert s.bucket[Slot(n - 1)] == if n - 1 <= |s.finishes| then 3 else 1;
    } else {
      assert n - 1 == s.registered - SLOTS && Slot(s.registered) == Slot(n - 1);
    }
  }

  lemma BeginStep(s: State, threads: nat, n: nat)
    requires Inv(s) && Enabled(s, threads, Begin(n))
    ensures Inv(Next(s, Begin(n)))
    ensures n == |s.finishes| + 1 == |s.starts| + 1
  {
    CountsIn(s.starts, n);
    OpenMeansFinished(s, n);
  }

  lemma FinishStep(s: State, threads: nat, n: nat)
    requires Inv(s) && Enabled(s, threads, Finish(n))
    ensures Inv(Next(s, Finish(n)))
  {
    CountsIn(s.starts, n);
    CountsIn(s.finishes, n);
    var t := Next(s, Finish(n));
    forall m | s.registered - SLOTS < m <= s.registered && m >= 1
      ensures t.bucket[Slot(m)] == if m <= |t.finishes| then 3 else 1
    {
      if m < n { SlotsDiffer(m, n); } else if n < m { SlotsDiffer(n, m); }
    }
    forall m | s.registered < m <= SLOTS ensures t.bucket[Slot(m)] == 0 { SlotsDiffer(n, m); }
  }

  lemma {:induction false} InvReached(init: State, threads: nat, trace: seq<Action>)
    requires threads <= SLOTS && Legal(init, threads, trace)
    ensures Inv(Run(init, trace))
  {
    if trace != [] {
      var p, a := Run(init, trace[..|trace| - 1]), trace[|trace| - 1];
      InvReached(init, threads, trace[..|trace| - 1]);
      match a
      case Register => RegisterStep(p, threads);
      case Begin(n) => BeginStep(p, threads, n);
      case Finish(n) => FinishStep(p, threads, n);
    }
  }

  /** With up to 1024 execute threads batches run strictly one after another, in number order: batch n
      starts only when 1, ..., n - 1 have all finished and none after it has started. */
  lemma SerialExecution(init: State, threads: nat, trace: seq<Action>, n: nat)
    requires threads <= SLOTS && Legal(init, threads, trace)
    ensures var s := Run(init, trace);
            Counts(s.starts) && Counts(s.finishes) && |s.finishes| <= |s.starts| <= |s.finishes| + 1
    ensures var s := Run(init, trace); Enabled(s, threads, Begin(n)) ==> n == |s.finishes| + 1 == |s.starts| + 1
  {
    InvReached(init, threads, trace);
    if Enabled(Run(init, trace), threads, Begin(n)) { BeginStep(Run(init, trace), threads, n); }
  }

  /** Registering never finds an unfinished batch in its slot: the source's assertion holds. */
  lemma RegisterAssertHolds(init: State, threads: nat, trace: seq<Action>)
    requires threads <= SLOTS && Legal(init, threads, trace) && Enabled(Run(init, trace), threads, Register)
    ensures Reusable(Run(init, trace).bucket[Slot(Run(init, trace).registered + 1)])
  {
    InvReached(init, threads, trace);
    RegisterStep(Run(init, trace), threads);
  }

  /** Some batch can begin or finish. */
  ghost predicate CanProgress(s: State, threads: nat) {
    exists n: nat :: Enabled(s, threads, Begin(n)) || Enabled(s, threads, Finish(n))
  }

  /** A registered batch gets to run exactly while the ring has a free slot: with 1024 batches outstanding
      the oldest one waits on the slot that the newest has taken over, and nothing moves again. */
  lemma ProgressIff(init: State, threads: nat, trace: seq<Action>)
    requires threads <= SLOTS && Legal(init, threads, trace)
    requires |Run(init, trace).finishes| < Run(init, trace).registered
    ensures var s := Run(init, trace);
            CanProgress(s, threads) <==> |s.starts| > |s.finishes| || s.registered - |s.finishes| < SLOTS
  {
    InvReached(init, threads, trace);
    var s := Run(init, trace);
    hide Run, Legal, Slot;
    var n := |s.finishes| + 1;
    CountsIn(s.starts, n);
    CountsIn(s.finishes, n);
    if |s.starts| > |s.finishes| {
      assert Enabled(s, threads, Finish(n));
    } else if s.registered - |s.finishes| < SLOTS {
      OpenMeansFinished(s, n);
      assert Enabled(s, threads, Begin(n));
    } else {
      forall m: nat ensures !Enabled(s, threads, Begin(m)) && !Enabled(s, threads, Finish(m)) {
        CountsIn(s.starts, m);
        CountsIn(s.finishes, m);
        if 1 <= m <= s.registered && m > |s.finishes| { OpenMeansFinished(s, m); }
      }
    }
  }

  lemma {:induction false} OutstandingBound(init: State, threads: nat, trace: seq<Action>)
    requires Legal(init, threads, trace)
    ensures Run(init, trace).registered <= |Run(init, trace).finishes| + threads
  {
    if trace != [] {
      OutstandingBound(init, threads, trace[..|trace| - 1]);
    }
  }

  /** Fewer than 1024 threads never deadlock. */
  lemma NoDeadlock(init: State, threads: nat, trace: seq<Action>)
    requires threads < SLOTS && Legal(init, threads, trace) && |Run(init, trace).finishes| < Run(init, trace).registered
    ensures CanProgress(Run(init, trace), threads)
  {
    OutstandingBound(init, threads, trace);
    ProgressIff(init, threads, trace);
  }

  function Registers(k: nat): (t: seq<Action>)
    ensures |t| == k && forall i :: 0 <= i < k ==> t[i] == Register
  {
    if k == 0 then [] else Registers(k - 1) + [Register]
  }

  lemma {:induction false} AllRegister(init: State, k: nat)
    requires k <= SLOTS && Fresh(init)
    ensures Legal(init, SLOTS, Registers(k))
    ensures var s := Run(init, Registers(k)); s.registered == k && s.starts == [] && s.finishes == []
  {
    if k > 0 {
      AllRegister(init, k - 1);
      var t := Registers(k);
      assert t[..k - 1] == Registers(k - 1);
    }
  }

  /** With 1024 threads the deadlock is real: it is reached when all of them register first. */
  lemma DeadlockAtFullRing(init: State)
    requires Fresh(init)
    ensures Legal(init, SLOTS, Registers(SLOTS)) && !CanProgress(Run(init, Registers(SLOTS)), SLOTS)
  {
    AllRegister(init, SLOTS);
    ProgressIff(init, SLOTS, Registers(SLOTS));
  }
}
