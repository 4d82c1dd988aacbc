/**
 The ordering thread: commits arrive in any order, with gaps, repeats and stale
 sequence numbers, and are handed to execution as 1, 2, 3, ...
 */
module CommitOrdering {
  import opened Common

  datatype Request = Request(seqNum: nat, body: string)

  /** `candidates_`, `next_execute_seq_` and everything pushed to the execute queue so far. */
  datatype Stage = Stage(candidates: map<nat, Request>, next: nat, emitted: seq<Request>)

  const Start := Stage(map[], 1, [])

  /** The smallest key of the ordered map, which is what `begin()` points at. */
  predicate IsBegin(m: map<nat, Request>, k: nat) {
    k in m && forall j :: j in m ==> k <= j
  }

  /** AddNewData: `insert` keeps an entry that is already there. */
  function Insert(st: Stage, r: Request): Stage {
    if st.next > r.seqNum || r.seqNum in st.candidates then st
    else st.(candidates := st.candidates[r.seqNum := r])
  }

  function Drain(st: Stage): Stage
    decreases |st.candidates|
  {
    if !IsBegin(st.candidates, st.next) then st
    else
      var rest := st.candidates - {st.next};
      assert st.candidates.Keys == rest.Keys + {st.next};
      Drain(Stage(rest, st.next + 1, st.emitted + [st.candidates[st.next]]))
  }

  /** One pass of the ordering loop over a popped message (None: the pop timed out).  A stale
      message skips the draining, which finds nothing to do anyway. */
  function Pass(st: Stage, message: Option<Request>): Stage {
    if message.None? then Drain(st)
    else if st.next > message.value.seqNum then st
    else Drain(Insert(st, message.value))
  }

  function Run(messages: seq<Option<Request>>): Stage {
    if messages == [] then Start else Pass(Run(messages[..|messages| - 1]), messages[|messages| - 1])
  }

  /** The ordering stage as the source holds it. */
  class OrderingStage {
    var candidates: map<nat, Request>
    var nextExecuteSeq: nat
    var executeQueue: seq<Request>

    ghost function Abs(): Stage
      reads this
    {
      Stage(candidates, nextExecuteSeq, executeQueue)
    }

    constructor ()
      ensures Abs() == Start
    {
      candidates, nextExecuteSeq, executeQueue := map[], 1, [];
    }

    method AddNewData(message: Request)
      modifies this`candidates
      ensures candidates == if message.seqNum in old(candidates) then old(candidates)
                            else old(candidates)[message.seqNum := message]
    {
      if message.seqNum !in candidates {
        candidates := candidates[message.seqNum := message];
      }
    }

    method GetNextData() returns (r: Option<Request>)
      modifies this`candidates
      ensures r.Some? <==> IsBegin(old(candidates), nextExecuteSeq)
      ensures r.None? ==> candidates == old(candidates)
      ensures r.Some? ==> r.value == old(candidates)[nextExecuteSeq] && candidates == old(candidates) - {nextExecuteSeq}
    {
      if !IsBegin(candidates, nextExecuteSeq) { return None; }
      r := Some(candidates[nextExecuteSeq]);
      candidates := candidates - {nextExecuteSeq};
    }

    method OrderMessage(message: Option<Request>)
      modifies this
      ensures Abs() == Pass(old(Abs()), message)
    {
      if message.Some? {
        if nextExecuteSeq > message.value.seqNum { return; }
        AddNewData(message.value);
      }
      while true
        invariant Drain(Abs()) == Pass(old(Abs()), message)
        decreases |candidates|
      {
        ghost var before := candidates;
        var r := GetNextData();
        if r.None? { break; }
        assert before.Keys == candidates.Keys + {nextExecuteSeq};
        executeQueue := executeQueue + [r.value];
        nextExecuteSeq := nextExecuteSeq + 1;
      }
    }
  }

  // ---------------------------------------------------------------- what an arrival order determines

  /** The first message popped with sequence number `n`. */
  function First(messages: seq<Option<Request>>, n: nat): Option<Request> {
    if messages == [] then None
    else
      var earlier := First(messages[..|messages| - 1], n);
      var last := messages[|messages| - 1];
      if earlier.Some? then earlier
      else if last.Some? && last.value.seqNum == n then last else None
  }

  /** `log` is the longest gap-free log from 1 on, each entry the first arrival for its number. */
  ghost predicate IsLogOf(messages: seq<Option<Request>>, log: seq<Request>) {
    && (forall i :: 0 <= i < |log| ==> First(messages, i + 1) == Some(log[i]))
    && First(messages, |log| + 1).None?
  }

  ghost predicate StageOk(messages: seq<Option<Request>>, st: Stage) {
    && st.next == |st.emitted| + 1
    && (forall i :: 0 <= i < |st.emitted| ==> First(messages, i + 1) == Some(st.emitted[i]))
    && (forall n :: n in st.candidates ==> n >= st.next && First(messages, n) == Some(st.candidates[n]))
    && (forall n :: n >= st.next && First(messages, n).Some? ==> n in st.candidates)
  }

  lemma {:induction false} DrainOk(messages: seq<Option<Request>>, st: Stage)
    requires StageOk(messages, st)
    ensures StageOk(messages, Drain(st))
    ensures Drain(st).next !in Drain(st).candidates
    decreases |st.candidates|
  {
    if IsBegin(st.candidates, st.next) {
      var rest := st.candidates - {st.next};
      assert st.candidates.Keys == rest.Keys + {st.next};
      DrainOk(messages, Stage(rest, st.next + 1, st.emitted + [st.candidates[st.next]]));
    }
  }

  lemma FirstOfExtended(before: seq<Option<Request>>, m: Option<Request>, n: nat)
    ensures First(before + [m], n) ==
            if First(before, n).Some? then First(before, n)
            else if m.Some? && m.value.seqNum == n then m else None
  {
    assert (before + [m])[..|before|] == before;
  }

  lemma {:induction false} RunOk(messages: seq<Option<Request>>)
    ensures StageOk(messages, Run(messages))
    ensures Run(messages).next !in Run(messages).candidates
  {
    if messages != [] {
      var before, m := messages[..|messages| - 1], messages[|messages| - 1];
      RunOk(before);
      assert messages == before + [m];
      forall n: nat ensures First(messages, n) == if First(before, n).Some? then First(before, n)
                            else if m.Some? && m.value.seqNum == n then m else None {
        FirstOfExtended(before, m, n);
      }
      var st := Run(before);
      if m.None? {
        DrainOk(messages, st);
      } else if st.next <= m.value.seqNum {
        DrainOk(messages, Insert(st, m.value));
      } else if m.value.seqNum >= 1 {
        assert First(before, m.value.seqNum) == Some(st.emitted[m.value.seqNum - 1]);
      }
    }
  }

  /** Whatever the arrival order, the emitted log is the gap-free log of first arrivals, numbered 1, 2, 3, ... */
  lemma EmitsInSequence(messages: seq<Option<Request>>)
    ensures IsLogOf(messages, Run(messages).emitted)
    ensures forall i :: 0 <= i < |Run(messages).emitted| ==> Run(messages).emitted[i].seqNum == i + 1
  {
    RunOk(messages);
    var log := Run(messages).emitted;
    forall i | 0 <= i < |log| ensures log[i].seqNum == i + 1 { FirstIsArrival(messages, i + 1); }
  }

  lemma {:induction false} FirstIsArrival(messages: seq<Option<Request>>, n: nat)
    ensures First(messages, n).Some? ==> First(messages, n) in messages && First(messages, n).value.seqNum == n
    ensures First(messages, n).None? ==> forall m :: m in messages && m.Some? ==> m.value.seqNum != n
  {
    if messages != [] { FirstIsArrival(messages[..|messages| - 1], n); }
  }

  /** The two replicas never saw different requests under one sequence number. */
  ghost predicate Agree(a: seq<Option<Request>>, b: seq<Option<Request>>) {
    forall x, y :: x in a && y in b && x.Some? && y.Some? && x.value.seqNum == y.value.seqNum ==> x == y
  }

  /** Replicas whose commits agree per sequence number emit logs one of which is a prefix of the other. */
  lemma LogsArePrefixes(a: seq<Option<Request>>, b: seq<Option<Request>>)
    requires Agree(a, b)
    ensures Run(a).emitted <= Run(b).emitted || Run(b).emitted <= Run(a).emitted
  {
    EmitsInSequence(a);
    EmitsInSequence(b);
    var la, lb := Run(a).emitted, Run(b).emitted;
    forall i | 0 <= i < |la| && i < |lb| ensures la[i] == lb[i] {
      FirstIsArrival(a, i + 1);
      FirstIsArrival(b, i + 1);
    }
  }

  /** Two replicas that agree and received the same requests, in whatever orders, emit the same log. */
  lemma Confluence(a: seq<Option<Request>>, b: seq<Option<Request>>)
    requires Agree(a, b)
    requires forall m: Option<Request> :: m.Some? ==> (m in a <==> m in b)
    ensures Run(a).emitted == Run(b).emitted
  {
    LogsArePrefixes(a, b);
    EmitsInSequence(a);
    EmitsInSequence(b);
    var la, lb := Run(a).emitted, Run(b).emitted;
    if |la| < |lb| {
      assert First(b, |la| + 1) == Some(lb[|la|]);
      FirstIsArrival(a, |la| + 1);
      FirstIsArrival(b, |la| + 1);
      assert false;
    } else if |lb| < |la| {
      assert First(a, |lb| + 1) == Some(la[|lb|]);
      FirstIsArrival(a, |lb| + 1);
      FirstIsArrival(b, |lb| + 1);
      assert false;
    }
  }
}
