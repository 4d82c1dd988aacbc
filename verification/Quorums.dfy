/** Quorum sizes, what two quorums share, and the client's vote count. */
module Quorums {
  import opened Common

  // ---------------------------------------------------------------- sizes

  /** GetMaxMaliciousReplicaNum, for at least one replica. */
  function MaxFaulty(n: nat): nat
    requires n >= 1
  {
    (n - 1) / 3
  }

  function MinDataReceive(n: nat): nat
    requires n >= 1
  {
    2 * MaxFaulty(n) + 1
  }

  function MinClientReceive(n: nat): nat
    requires n >= 1
  {
    MaxFaulty(n) + 1
  }

  /** Replicas a, a + 1, ..., b - 1. */
  function Interval(a: nat, b: nat): (r: set<nat>)
    ensures forall x :: x in r <==> a <= x < b
    ensures |r| == if a <= b then b - a else 0
    decreases b
  {
    if b <= a then {} else Interval(a, b - 1) + {b - 1}
  }

  lemma OverlapSize<T>(a: set<T>, b: set<T>, all: set<T>)
    requires a <= all && b <= all
    ensures |a * b| >= |a| + |b| - |all|
  {
    assert |a + b| == |a| + |b| - |a * b|;
    SubsetSize(a + b, all);
  }

  lemma NotCovered<T>(a: set<T>, b: set<T>)
    requires |a| > |b|
    ensures exists x :: x in a && x !in b
  {
    if forall x :: x in a ==> x in b { SubsetSize(a, b); }
  }

  ghost predicate IsQuorum(q: set<nat>, n: nat)
    requires n >= 1
  {
    q <= Interval(0, n) && |q| >= MinDataReceive(n)
  }

  ghost predicate MeetOutside(a: set<nat>, b: set<nat>, faulty: set<nat>) {
    exists x :: x in a && x in b && x !in faulty
  }

  /** Two data quorums and a choice of faulty replicas that covers all they share. */
  ghost predicate Conflict(n: nat, a: set<nat>, b: set<nat>, faulty: set<nat>)
    requires n >= 1
  {
    && IsQuorum(a, n) && IsQuorum(b, n) && faulty <= Interval(0, n) && |faulty| <= MaxFaulty(n)
    && !MeetOutside(a, b, faulty)
  }

  lemma NoConflict(n: nat, a: set<nat>, b: set<nat>, faulty: set<nat>)
    requires n >= 1 && n == 3 * MaxFaulty(n) + 1
    ensures !Conflict(n, a, b, faulty)
  {
    if IsQuorum(a, n) && IsQuorum(b, n) && |faulty| <= MaxFaulty(n) {
      OverlapSize(a, b, Interval(0, n));
      NotCovered(a * b, faulty);
    }
  }

  lemma SomeConflict(n: nat)
    requires n >= 1 && n >= 3 * MaxFaulty(n) + 2
    ensures exists a, b, faulty :: Conflict(n, a, b, faulty)
  {
    var q := MinDataReceive(n);
    var a, b, faulty := Interval(0, q), Interval(n - q, n), Interval(n - q, q);
    assert Conflict(n, a, b, faulty);
  }

  /** Any two data quorums share a non-faulty replica for n = 3f + 1 replicas, and for no other number. */
  lemma QuorumsMeetIff(n: nat)
    requires n >= 1
    ensures (forall a, b, faulty :: !Conflict(n, a, b, faulty)) <==> n % 3 == 1
  {
    if n % 3 == 1 {
      forall a, b, faulty ensures !Conflict(n, a, b, faulty) { NoConflict(n, a, b, faulty); }
    } else {
      SomeConflict(n);
    }
  }

  // ---------------------------------------------------------------- the client's read

  datatype Reply = Reply(replica: nat, text: string)

  function Votes(replies: seq<Reply>, text: string): nat {
    if replies == [] then 0
    else Votes(replies[..|replies| - 1], text) + (if replies[|replies| - 1].text == text then 1 else 0)
  }

  function Voters(replies: seq<Reply>, text: string): set<nat> {
    set i | 0 <= i < |replies| && replies[i].text == text :: replies[i].replica
  }

  ghost predicate OneEach(replies: seq<Reply>) {
    forall i, j :: 0 <= i < j < |replies| ==> replies[i].replica != replies[j].replica
  }

  /** The reply that last completed a count, if one did. */
  function Final(replies: seq<Reply>, needed: nat): Option<string> {
    if replies == [] then None
    else
      var last := replies[|replies| - 1].text;
      if Votes(replies, last) == needed then Some(last) else Final(replies[..|replies| - 1], needed)
  }

  function CountOf(count: map<string, nat>, text: string): nat { if text in count then count[text] else 0 }

  ghost predicate Counted(count: map<string, nat>, replies: seq<Reply>) {
    forall t :: CountOf(count, t) == Votes(replies, t)
  }

  lemma CountedMore(count: map<string, nat>, replies: seq<Reply>, reply: Reply)
    requires Counted(count, replies)
    ensures Counted(count[reply.text := CountOf(count, reply.text) + 1], replies + [reply])
  {
    var more := count[reply.text := CountOf(count, reply.text) + 1];
    assert (replies + [reply])[..|replies|] == replies;
    forall t ensures CountOf(more, t) == Votes(replies + [reply], t) {
      assert CountOf(count, t) == Votes(replies, t);
    }
  }

  /** GetTxn's shared state, updated by the reply threads one at a time under a lock. */
  class TxnRead {
    const needed: nat
    var recvCount: map<string, nat>
    var finalStr: string
    var success: bool
    ghost var replies: seq<Reply>

    ghost predicate Valid()
      reads this
    {
      && Counted(recvCount, replies)
      && (if success then Some(finalStr) else None) == Final(replies, needed)
    }

    constructor (n: nat)
      requires n >= 1
      ensures Valid() && needed == MinClientReceive(n) && replies == []
    {
      needed := MinClientReceive(n);
      recvCount, finalStr, success, replies := map[], "", false, [];
    }

    method OnReply(reply: Reply)
      requires Valid()
      modifies this
      ensures Valid() && replies == old(replies) + [reply]
    {
      CountedMore(recvCount, replies, reply);
      recvCount := recvCount[reply.text := CountOf(recvCount, reply.text) + 1];
      replies := replies + [reply];
      assert replies[..|replies| - 1] == old(replies);
      assert CountOf(recvCount, reply.text) == Votes(replies, reply.text);
      if recvCount[reply.text] == needed {
        finalStr := reply.text;
        success := true;
      }
    }
  }

  lemma {:induction false} VotesAreVoters(replies: seq<Reply>, text: string)
    requires OneEach(replies)
    ensures |Voters(replies, text)| == Votes(replies, text)
  {
    if replies != [] {
      var init, last := replies[..|replies| - 1], replies[|replies| - 1];
      VotesAreVoters(init, text);
      var more := if last.text == text then {last.replica} else {};
      assert Voters(replies, text) == Voters(init, text) + more by {
        assert forall i :: 0 <= i < |init| ==> replies[i] == init[i];
        assert last == replies[|replies| - 1];
      }
      assert last.replica !in Voters(init, text);
    }
  }

  lemma {:induction false} FinalHasVotes(replies: seq<Reply>, needed: nat)
    requires Final(replies, needed).Some?
    ensures Votes(replies, Final(replies, needed).value) >= needed
  {
    var init, last := replies[..|replies| - 1], replies[|replies| - 1].text;
    if Votes(replies, last) != needed { FinalHasVotes(init, needed); }
  }

  /** Whatever the faulty replicas answer, the text a client takes was sent by a correct one. */
  lemma ReadIsCorrect(n: nat, replies: seq<Reply>, faulty: set<nat>)
    requires n >= 1 && OneEach(replies) && |faulty| <= MaxFaulty(n) && Final(replies, MinClientReceive(n)).Some?
    ensures exists i :: 0 <= i < |replies| && replies[i].replica !in faulty
                        && replies[i].text == Final(replies, MinClientReceive(n)).value
  {
    var text := Final(replies, MinClientReceive(n)).value;
    FinalHasVotes(replies, MinClientReceive(n));
    VotesAreVoters(replies, text);
    NotCovered(Voters(replies, text), faulty);
  }

  lemma {:induction false} FinalAppears(replies: seq<Reply>, needed: nat, text: string)
    requires needed >= 1 && Votes(replies, text) >= needed
    ensures Final(replies, needed).Some?
  {
    var init, last := replies[..|replies| - 1], replies[|replies| - 1].text;
    if Votes(replies, last) != needed { FinalAppears(init, needed, text); }
  }

  /**
   * When the correct replicas answer alike, the client takes their answer, and takes it as soon
   * as f + 1 of them have been heard.
   */
  lemma ReadAgrees(n: nat, replies: seq<Reply>, faulty: set<nat>, answer: string)
    requires n >= 1 && OneEach(replies) && |faulty| <= MaxFaulty(n)
    requires forall i :: 0 <= i < |replies| && replies[i].replica !in faulty ==> replies[i].text == answer
    ensures Final(replies, MinClientReceive(n)).Some? ==> Final(replies, MinClientReceive(n)) == Some(answer)
    ensures Votes(replies, answer) >= MinClientReceive(n) ==> Final(replies, MinClientReceive(n)) == Some(answer)
  {
    if Votes(replies, answer) >= MinClientReceive(n) { FinalAppears(replies, MinClientReceive(n), answer); }
    if Final(replies, MinClientReceive(n)).Some? { ReadIsCorrect(n, replies, faulty); }
  }

  // ---------------------------------------------------------------- why f + 1 replies

  function Lies(n: nat, text: string): (r: seq<Reply>)
    ensures |r| == n && forall i :: 0 <= i < n ==> r[i] == Reply(i, text)
  {
    seq(n, i requires 0 <= i < n => Reply(i, text))
  }

  lemma {:induction false} LiesAgree(n: nat, text: string)
    ensures Votes(Lies(n, text), text) == n
  {
    if n > 0 {
      LiesAgree(n - 1, text);
      assert Lies(n, text)[..n - 1] == Lies(n - 1, text);
    }
  }

  /** The client's count is the least that is safe: with any smaller one, faulty replicas alone decide the read. */
  lemma ClientCountIsLeast(n: nat, needed: nat, text: string)
    requires n >= 1 && 1 <= needed < MinClientReceive(n)
    ensures var replies := Lies(needed, text);
            && OneEach(replies) && |Voters(replies, text)| <= MaxFaulty(n)
            && (forall i :: 0 <= i < |replies| ==> replies[i].replica < n) && Final(replies, needed) == Some(text)
  {
    var replies := Lies(needed, text);
    LiesAgree(needed, text);
    assert Voters(replies, text) == Interval(0, needed) by {
      forall x | x in Interval(0, needed) ensures x in Voters(replies, text) { assert replies[x].replica == x; }
    }
  }
}
