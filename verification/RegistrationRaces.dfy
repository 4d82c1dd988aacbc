/**
 The ring when batches register in any order: taking a batch off the queue and registering it are
 two steps, so one thread can register batch n before another has registered batch n - 1.
 */
module RegistrationRaces {
  import R = ExecutionRing

  datatype State = State(bucket: seq<nat>, registered: set<nat>, started: set<nat>, finished: set<nat>)

  datatype Action = Register(n: nat) | Begin(n: nat) | Finish(n: nat)

  ghost predicate Fresh(s: State) {
    && |s.bucket| == R.SLOTS && (forall i :: 0 <= i < R.SLOTS ==> s.bucket[i] == 0)
    && s.registered == s.started == s.finished == {}
  }

  /** A registration whose assertion fails ends the process: there is no step for it. */
  ghost predicate Enabled(s: State, a: Action) {
    |s.bucket| == R.SLOTS &&
    match a
    case Register(n) => n >= 1 && n !in s.registered && R.Reusable(s.bucket[R.Slot(n)])
    case Begin(n) => n in s.registered && n !in s.started && n >= 1 && R.Open(s.bucket[R.Slot(n - 1)])
    case Finish(n) => n in s.started && n !in s.finished
  }

  function Next(s: State, a: Action): (t: State)
    requires |s.bucket| == R.SLOTS
    ensures |t.bucket| == R.SLOTS
  {
    match a
    case Register(n) => s.(bucket := s.bucket[R.Slot(n) := 1], registered := s.registered + {n})
    case Begin(n) => s.(started := s.started + {n})
    case Finish(n) => s.(bucket := s.bucket[R.Slot(n) := 3], finished := s.finished + {n})
  }

  function Run(init: State, trace: seq<Action>): (s: State)
    requires |init.bucket| == R.SLOTS
    ensures |s.bucket| == R.SLOTS
  {
    if trace == [] then init else Next(Run(init, trace[..|trace| - 1]), trace[|trace| - 1])
  }

  ghost predicate Legal(init: State, trace: seq<Action>) {
    if trace == [] then Fresh(init)
    else
      var before := trace[..|trace| - 1];
      Legal(init, before) && |init.bucket| == R.SLOTS && Enabled(Run(init, before), trace[|trace| - 1])
  }

  /** A batch that has registered and not finished, in the given slot. */
  predicate Holds(s: State, i: nat, n: nat) { n in s.registered && n !in s.finished && R.Slot(n) == i }

  ghost predicate Free(s: State, i: nat) { forall n :: !Holds(s, i, n) }

  /** A slot shows 1 exactly while a batch holds it, and no two hold one slot. */
  ghost predicate Inv(s: State) {
    && |s.bucket| == R.SLOTS && s.finished <= s.started <= s.registered && 0 !in s.registered
    && (forall i :: 0 <= i < R.SLOTS ==> s.bucket[i] in {0, 1, 3} && (s.bucket[i] == 1 <==> !Free(s, i)))
    && (forall i, m, n :: Holds(s, i, m) && Holds(s, i, n) ==> m == n)
  }

  lemma RegisterStep(s: State, n: nat)
    requires Inv(s) && Enabled(s, Register(n))
    ensures Inv(Next(s, Register(n)))
  {
    hide R.Slot;
    var t := Next(s, Register(n));
    assert Free(s, R.Slot(n)) && Holds(t, R.Slot(n), n);
    forall i, m | Holds(t, i, m) ensures m == n || Holds(s, i, m) {}
    forall i | 0 <= i < R.SLOTS && i != R.Slot(n) ensures Free(t, i) <==> Free(s, i) {
      forall m ensures Holds(t, i, m) <==> Holds(s, i, m) {}
    }
  }

  lemma FinishStep(s: State, n: nat)
    requires Inv(s) && Enabled(s, Finish(n))
    ensures Inv(Next(s, Finish(n)))
  {
    hide R.Slot;
    var t := Next(s, Finish(n));
    assert Holds(s, R.Slot(n), n);
    forall i, m ensures Holds(t, i, m) <==> Holds(s, i, m) && m != n {}
    assert Free(t, R.Slot(n));
    forall i | 0 <= i < R.SLOTS && i != R.Slot(n) ensures Free(t, i) <==> Free(s, i) {
      forall m ensures Holds(t, i, m) <==> Holds(s, i, m) {}
    }
  }

  lemma BeginStep(s: State, n: nat)
    requires Inv(s) && Enabled(s, Begin(n))
    ensures Inv(Next(s, Begin(n)))
  {
    hide R.Slot;
    var t := Next(s, Begin(n));
    forall i, m ensures Holds(t, i, m) <==> Holds(s, i, m) {}
    forall i ensures Free(t, i) <==> Free(s, i) {}
  }

  lemma {:induction false} InvReached(init: State, trace: seq<Action>)
    requires Legal(init, trace)
    ensures Inv(Run(init, trace))
  {
    if trace == [] {
      FreshInv(init);
    } else {
      hide Inv, Next;
      var p, a := Run(init, trace[..|trace| - 1]), trace[|trace| - 1];
      InvReached(init, trace[..|trace| - 1]);
      match a
      case Register(n) => RegisterStep(p, n);
      case Begin(n) => BeginStep(p, n);
      case Finish(n) => FinishStep(p, n);
    }
  }

  lemma FreshInv(s: State)
    requires Fresh(s)
    ensures Inv(s)
  {
    forall i, n ensures !Holds(s, i, n) {}
  }

  /** A slot is open to the next batch, and to the next registration, exactly when nobody holds it. */
  lemma ShowsFree(s: State, i: nat)
    requires Inv(s) && i < R.SLOTS
    ensures (R.Open(s.bucket[i]) <==> Free(s, i)) && (R.Reusable(s.bucket[i]) <==> Free(s, i))
  {
    assert s.bucket[i] in {0, 1, 3};
  }

  lemma RegisteredNumbers(s: State, n: nat)
    requires Inv(s) && n in s.registered
    ensures n >= 1 && s.finished <= s.registered
  {}

  /**
   * In every run a registered batch may begin exactly when every batch registered in its predecessor's
   * slot has finished.
   */
  lemma BeginIff(init: State, trace: seq<Action>, n: nat)
    requires Legal(init, trace) && n in Run(init, trace).registered && n !in Run(init, trace).started
    ensures var s := Run(init, trace);
            n >= 1 && (Enabled(s, Begin(n)) <==>
                         forall m :: m in s.registered && R.Slot(m) == R.Slot(n - 1) ==> m in s.finished)
  {
    InvReached(init, trace);
    var s := Run(init, trace);
    hide Inv, Run, R.Slot, R.Open, Legal;
    RegisteredNumbers(s, n);
    ShowsFree(s, R.Slot(n - 1));
    assert Free(s, R.Slot(n - 1)) <==>
        forall m :: m in s.registered && R.Slot(m) == R.Slot(n - 1) ==> m in s.finished by {
      assert forall m :: Holds(s, R.Slot(n - 1), m) <==>
                         m in s.registered && R.Slot(m) == R.Slot(n - 1) && m !in s.finished;
    }
  }

  /** The registration assertion holds exactly when every batch registered in the slot has finished. */
  lemma AssertHoldsIff(init: State, trace: seq<Action>, n: nat)
    requires Legal(init, trace)
    ensures var s := Run(init, trace);
            R.Reusable(s.bucket[R.Slot(n)]) <==>
                forall m :: m in s.registered && R.Slot(m) == R.Slot(n) ==> m in s.finished
  {
    InvReached(init, trace);
    var s := Run(init, trace);
    hide Inv, Run, R.Slot, R.Reusable, Legal;
    ShowsFree(s, R.Slot(n));
    assert Free(s, R.Slot(n)) <==> forall m :: m in s.registered && R.Slot(m) == R.Slot(n) ==> m in s.finished by {
      assert forall m :: Holds(s, R.Slot(n), m) <==> m in s.registered && R.Slot(m) == R.Slot(n) && m !in s.finished;
    }
  }

  lemma SameSlot(m: nat, n: nat)
    requires m < n && R.Slot(m) == R.Slot(n)
    ensures m + R.SLOTS <= n
  {
  }

  /**
   * While all outstanding batches are within 1023 of its predecessor, that one alone decides whether a
   * batch may begin.
   */
  lemma BeginNearbyIff(init: State, trace: seq<Action>, n: nat)
    requires Legal(init, trace) && n in Run(init, trace).registered && n !in Run(init, trace).started
    requires var s := Run(init, trace);
             forall m :: m in s.registered && m !in s.finished ==> n - R.SLOTS <= m < n + R.SLOTS - 1
    ensures var s := Run(init, trace);
            n >= 1 && (Enabled(s, Begin(n)) <==> n - 1 in s.finished || n - 1 !in s.registered)
  {
    BeginIff(init, trace, n);
    var s := Run(init, trace);
    hide Run, R.Slot, Legal, Enabled;
    forall m | m in s.registered && R.Slot(m) == R.Slot(n - 1) && m !in s.finished ensures m == n - 1 {
      if m < n - 1 { SameSlot(m, n - 1); } else if m > n - 1 { SameSlot(n - 1, m); }
    }
  }

  /** Every batch after the first begins behind its finished predecessor. */
  ghost predicate Serial(init: State, trace: seq<Action>)
    requires |init.bucket| == R.SLOTS
  {
    trace == [] ||
    var before, a := trace[..|trace| - 1], trace[|trace| - 1];
    Serial(init, before) && (a.Begin? && a.n >= 2 ==> a.n - 1 in Run(init, before).finished)
  }

  /** No batch begins before its predecessor has registered. */
  ghost predicate NoneEarly(init: State, trace: seq<Action>)
    requires |init.bucket| == R.SLOTS
  {
    trace == [] ||
    var before, a := trace[..|trace| - 1], trace[|trace| - 1];
    NoneEarly(init, before) && (a.Begin? && a.n >= 2 ==> a.n - 1 in Run(init, before).registered)
  }

  /** Execution is serial exactly when no batch begins before its predecessor has registered. */
  lemma {:induction false} SerialIff(init: State, trace: seq<Action>)
    requires Legal(init, trace) && |init.bucket| == R.SLOTS
    ensures Serial(init, trace) <==> NoneEarly(init, trace)
  {
    hide Next, Inv, R.Slot;
    if trace != [] {
      var before, a := trace[..|trace| - 1], trace[|trace| - 1];
      SerialIff(init, before);
      if a.Begin? && a.n >= 2 {
        BeginIff(init, before, a.n);
        InvReached(init, before);
        RegisteredNumbers(Run(init, before), a.n);
      }
    }
  }

  /** Registered numbers without a hole below any of them. */
  ghost predicate InOrder(init: State, trace: seq<Action>)
    requires |init.bucket| == R.SLOTS
  {
    trace == [] ||
    var before, a := trace[..|trace| - 1], trace[|trace| - 1];
    InOrder(init, before) && (a.Register? && a.n >= 2 ==> a.n - 1 in Run(init, before).registered)
  }

  lemma {:induction false} InOrderNoHole(init: State, trace: seq<Action>, n: nat)
    requires |init.bucket| == R.SLOTS && Legal(init, trace)
    requires InOrder(init, trace) && n in Run(init, trace).registered && n >= 2
    ensures n - 1 in Run(init, trace).registered
  {
    if trace != [] {
      var before := trace[..|trace| - 1];
      if n in Run(init, before).registered { InOrderNoHole(init, before, n); }
    }
  }

  /** Registering in number order is enough. */
  lemma {:induction false} InOrderIsSerial(init: State, trace: seq<Action>)
    requires |init.bucket| == R.SLOTS && Legal(init, trace) && InOrder(init, trace)
    ensures NoneEarly(init, trace) && Serial(init, trace)
  {
    if trace != [] {
      var before, a := trace[..|trace| - 1], trace[|trace| - 1];
      InOrderIsSerial(init, before);
      if a.Begin? && a.n >= 2 { InOrderNoHole(init, before, a.n); }
    }
    SerialIff(init, trace);
  }

  /** A legal run in which batch 2 registers and begins first, and batch 1 then runs beside it. */
  lemma SecondBeginsFirst(init: State)
    requires Fresh(init)
    ensures var trace := [Register(2), Begin(2), Register(1), Begin(1)];
            Legal(init, trace) && !Serial(init, trace) && Run(init, trace).started == {1, 2}
                && Run(init, trace).finished == {}
  {
    var t1, t2, t3, t4 := [Register(2)], [Register(2), Begin(2)], [Register(2), Begin(2), Register(1)],
                          [Register(2), Begin(2), Register(1), Begin(1)];
    assert t4[..3] == t3 && t3[..2] == t2 && t2[..1] == t1 && t1[..0] == [];
    var s1 := Next(init, Register(2));
    assert Run(init, t1) == s1 && Legal(init, t1);
    var s2 := Next(s1, Begin(2));
    assert Run(init, t2) == s2 && Legal(init, t2);
    var s3 := Next(s2, Register(1));
    assert Run(init, t3) == s3 && Legal(init, t3);
    assert !Serial(init, t2);
    assert !Serial(init, t3);
    assert s3.bucket[R.Slot(0)] == 0;
    assert Legal(init, t4);
    assert Run(init, t4) == Next(s3, Begin(1));
    assert Run(init, t4).started == {1, 2};
  }

  /**
   * Farther apart it does not: here batch 2 cannot begin although batch 1 has not registered, nor could
   * batch 1 register.
   */
  lemma FarApartBlocks(init: State)
    requires Fresh(init)
    ensures var trace := [Register(1025), Register(2)];
            Legal(init, trace) && 1 !in Run(init, trace).registered
            && !Enabled(Run(init, trace), Begin(2)) && !Enabled(Run(init, trace), Register(1))
  {
    var trace := [Register(1025), Register(2)];
    assert R.Slot(1025) == 1 && R.Slot(1) == 1 && R.Slot(2) == 2;
    assert trace[..1] == [Register(1025)] && [Register(1025)][..0] == [];
    var s := Next(init, Register(1025));
    assert Run(init, [Register(1025)]) == s && Legal(init, [Register(1025)]);
    assert Legal(init, trace) && Run(init, trace) == Next(s, Register(2));
  }
}
