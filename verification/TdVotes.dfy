/** Collecting votes: what certificates can form for one slot, over every interleaving of the collecting threads. */
module TdVotes {
  import opened Common
  import opened TdHotstuff

  datatype Ballot = Ballot(view: nat, hash: string)

  /**
   * A vote as sent: the signer it names, the replica whose key signed the hash, and whether that signature
   * verifies.
   */
  datatype Certificate = Certificate(rank: Rank, hash: string, signer: int, key: int, valid: bool)

  datatype QC = QC(rank: Rank, hash: string, signers: set<int>)
  datatype Vote = Ignored | Counted | Formed(qc: QC) | Aborted

  function BallotOf(c: Certificate): Ballot { Ballot(c.rank.view, c.hash) }

  // ---------------------------------------------------------------- the collector

  datatype Tally = Tally(voters: map<Ballot, set<int>>, weight: map<Ballot, nat>, min: Rank, done: set<int>)

  function NoVotes(): Tally { Tally(map[], map[], Rank(0, 0), {}) }

  function VotersOf(t: Tally, b: Ballot): set<int> { if b in t.voters then t.voters[b] else {} }

  function WeightOf(t: Tally, b: Ballot): nat { if b in t.weight then t.weight[b] else 0 }

  function DoneKey(r: Rank): int { r.view * 100000 + r.slot }

  /** The fast path: a known signer, and a slot above the last formed one that is not marked done. */
  predicate Passes(weights: seq<nat>, t: Tally, c: Certificate) {
    1 <= c.signer <= |weights| && !AtMost(c.rank, t.min) && DoneKey(c.rank) !in t.done
  }

  /** Drops what was collected two views back. */
  function Forget(t: Tally, view: nat): Tally {
    if view <= 2 then t
    else Tally(map b | b in t.voters && b.view != view - 2 :: t.voters[b],
               map b | b in t.weight && b.view != view - 2 :: t.weight[b],
               t.min,
               set k | k in t.done && k >= (view - 2) * 100000)
  }

  function Add(weights: seq<nat>, t: Tally, c: Certificate): Tally
    requires 1 <= c.signer <= |weights|
  {
    var b := BallotOf(c);
    t.(voters := t.voters[b := VotersOf(t, b) + {c.signer}],
       weight := t.weight[b := WeightOf(t, b) + weights[c.signer - 1]])
  }

  predicate Counts(weights: seq<nat>, t: Tally, c: Certificate) {
    WeightOf(t, BallotOf(c)) < Threshold(Total(weights)) && c.signer !in VotersOf(t, BallotOf(c))
  }

  predicate Completes(weights: seq<nat>, t: Tally, c: Certificate)
    requires 1 <= c.signer <= |weights|
  {
    Counts(weights, t, c) && WeightOf(t, BallotOf(c)) + weights[c.signer - 1] >= Threshold(Total(weights))
  }

  function CertificateFor(t: Tally, c: Certificate): QC { QC(c.rank, c.hash, VotersOf(t, BallotOf(c)) + {c.signer}) }

  function Count(weights: seq<nat>, t: Tally, c: Certificate): Tally
    requires 1 <= c.signer <= |weights|
  {
    if !Counts(weights, t, c) then t
    else if !Completes(weights, t, c) then Add(weights, t, c)
    else Forget(Add(weights, t, c).(min := c.rank, done := t.done + {DoneKey(c.rank)}), c.rank.view)
  }

  /** The running weight of a ballot is the weight of its distinct voters. */
  ghost predicate Weighed(weights: seq<nat>, t: Tally) {
    t.voters.Keys == t.weight.Keys && forall b :: b in t.voters ==> t.weight[b] == Weight(weights, t.voters[b])
  }

  lemma WeighedBallot(weights: seq<nat>, t: Tally, b: Ballot)
    requires Weighed(weights, t)
    ensures WeightOf(t, b) == Weight(weights, VotersOf(t, b))
  {
    WeightOfNone(weights);
  }

  lemma AddWeighed(weights: seq<nat>, t: Tally, c: Certificate)
    requires Weighed(weights, t) && 1 <= c.signer <= |weights| && Counts(weights, t, c)
    ensures Weighed(weights, Add(weights, t, c))
    ensures Completes(weights, t, c) ==> IsQuorum(weights, CertificateFor(t, c).signers)
  {
    hide Weight, Total;
    WeighedBallot(weights, t, BallotOf(c));
    WeightOfOneMore(weights, VotersOf(t, BallotOf(c)), c.signer);
  }

  lemma CountWeighed(weights: seq<nat>, t: Tally, c: Certificate)
    requires Weighed(weights, t) && 1 <= c.signer <= |weights|
    ensures Weighed(weights, Count(weights, t, c))
  {
    hide Weight, Total, Counts, Completes, Add;
    if Counts(weights, t, c) { AddWeighed(weights, t, c); }
  }

  /**
   * Counting a vote adds its signer to its own ballot; a certificate drops the ballots of two views
   * back, and every other ballot keeps its voters.
   */
  lemma VotersAfter(weights: seq<nat>, t: Tally, c: Certificate, b: Ballot)
    requires 1 <= c.signer <= |weights|
    ensures VotersOf(Count(weights, t, c), b)
            == if Completes(weights, t, c) && c.rank.view > 2 && b.view == c.rank.view - 2 then {}
               else VotersOf(t, b) + if Counts(weights, t, c) && b == BallotOf(c) then {c.signer} else {}
  {
    hide Total, Threshold;
  }

  class VoteCollector {
    const weights: seq<nat>
    var receive: map<Ballot, set<int>>
    var receivedWeight: map<Ballot, nat>
    var min: Rank
    var qcDone: set<int>

    function Abs(): Tally
      reads this
    {
      Tally(receive, receivedWeight, min, qcDone)
    }

    ghost predicate Valid()
      reads this
    {
      Weighed(weights, Abs())
    }

    constructor (weights: seq<nat>)
      ensures Valid() && this.weights == weights && Abs() == NoVotes()
    {
      this.weights := weights;
      receive, receivedWeight, min, qcDone := map[], map[], Rank(0, 0), {};
    }

    /** The part under the second mutex. */
    method Screen(cert: Certificate) returns (passes: bool)
      ensures passes == Passes(weights, Abs(), cert)
    {
      if !(1 <= cert.signer <= |weights|) { return false; }
      if cert.rank.view < min.view || (cert.rank.view == min.view && cert.rank.slot <= min.slot) { return false; }
      passes := DoneKey(cert.rank) !in qcDone;
    }

    /** The part under the first mutex, once the signature has verified. */
    method CountVote(cert: Certificate) returns (r: Vote)
      requires Valid() && 1 <= cert.signer <= |weights|
      modifies this
      ensures Valid() && Abs() == Count(weights, old(Abs()), cert)
      ensures r == if !Counts(weights, old(Abs()), cert) then Ignored
                   else if !Completes(weights, old(Abs()), cert) then Counted
                   else Formed(CertificateFor(old(Abs()), cert))
      ensures r.Formed? ==> IsQuorum(weights, r.qc.signers)
    {
      hide Weight, Total, Weighed, Forget;
      CountWeighed(weights, Abs(), cert);
      var b := BallotOf(cert);
      if b in receivedWeight && receivedWeight[b] >= Threshold(Total(weights)) { return Ignored; }
      if b in receive && cert.signer in receive[b] { return Ignored; }
      AddWeighed(weights, Abs(), cert);
      var voters := (if b in receive then receive[b] else {}) + {cert.signer};
      var weight := (if b in receivedWeight then receivedWeight[b] else 0) + weights[cert.signer - 1];
      receive, receivedWeight := receive[b := voters], receivedWeight[b := weight];
      if weight < Threshold(Total(weights)) { return Counted; }
      min, qcDone := cert.rank, qcDone + {DoneKey(cert.rank)};
      DropOld(cert.rank.view);
      r := Formed(QC(cert.rank, cert.hash, voters));
    }

    method DropOld(view: nat)
      modifies this`receive, this`receivedWeight, this`qcDone
      ensures Abs() == Forget(old(Abs()), view)
    {
      if view > 2 {
        qcDone := set k | k in qcDone && k >= (view - 2) * 100000;
        receive := map b | b in receive && b.view != view - 2 :: receive[b];
        receivedWeight := map b | b in receivedWeight && b.view != view - 2 :: receivedWeight[b];
      }
    }

    /** One certificate from receipt to count, no other thread in between. */
    method ReceiveCertificate(cert: Certificate) returns (r: Vote)
      requires Valid()
      modifies this
      ensures Valid()
      ensures !Passes(weights, old(Abs()), cert) ==> r == Ignored && Abs() == old(Abs())
      ensures Passes(weights, old(Abs()), cert) && !cert.valid ==> r == Aborted && Abs() == old(Abs())
      ensures Passes(weights, old(Abs()), cert) && cert.valid ==> Abs() == Count(weights, old(Abs()), cert)
      ensures r.Formed? ==> cert.valid && r.qc == CertificateFor(old(Abs()), cert) && IsQuorum(weights, r.qc.signers)
    {
      var passes := Screen(cert);
      if !passes { return Ignored; }
      if !cert.valid { return Aborted; }
      r := CountVote(cert);
    }
  }

  // ---------------------------------------------------------------- runs of the collecting threads

  /**
   * A thread screens a certificate, verifies it, and later counts it; a thread that meets a bad signature
   * ends the process.
   */
  datatype Step = Screen(cert: Certificate) | Tallied(cert: Certificate)

  datatype State = State(tally: Tally, pending: multiset<Certificate>, formed: seq<QC>)

  predicate Enabled(weights: seq<nat>, s: State, e: Step) {
    if e.Screen? then Passes(weights, s.tally, e.cert) ==> e.cert.valid
    else e.cert in s.pending && 1 <= e.cert.signer <= |weights|
  }

  function Next(weights: seq<nat>, s: State, e: Step): State
    requires Enabled(weights, s, e)
  {
    if e.Screen? then if Passes(weights, s.tally, e.cert) then s.(pending := s.pending + multiset{e.cert}) else s
    else State(Count(weights, s.tally, e.cert),
               s.pending - multiset{e.cert},
               if Completes(weights, s.tally, e.cert) then s.formed + [CertificateFor(s.tally, e.cert)] else s.formed)
  }

  predicate Legal(weights: seq<nat>, steps: seq<Step>)
    decreases |steps|, 0
  {
    steps == [] ||
    (Legal(weights, steps[..|steps| - 1]) && Enabled(weights, Run(weights, steps[..|steps| - 1]), steps[|steps| - 1]))
  }

  function Run(weights: seq<nat>, steps: seq<Step>): State
    requires Legal(weights, steps)
    decreases |steps|, 1
  {
    if steps == [] then State(NoVotes(), multiset{}, [])
    else Next(weights, Run(weights, steps[..|steps| - 1]), steps[|steps| - 1])
  }

  /** The certificates that reached the collector. */
  function Sent(steps: seq<Step>): set<Certificate> {
    if steps == [] then {}
    else
      var before, e := Sent(steps[..|steps| - 1]), steps[|steps| - 1];
      if e.Screen? then before + {e.cert} else before
  }

  ghost predicate Backed(sent: set<Certificate>, b: Ballot, id: int) {
    exists c :: c in sent && c.valid && BallotOf(c) == b && c.signer == id
  }

  ghost predicate BackedBallot(sent: set<Certificate>, b: Ballot, ids: set<int>) {
    forall id :: id in ids ==> Backed(sent, b, id)
  }

  ghost predicate TallyBacked(sent: set<Certificate>, t: Tally) {
    forall b :: b in t.voters ==> BackedBallot(sent, b, t.voters[b])
  }

  ghost predicate PendingBacked(weights: seq<nat>, sent: set<Certificate>, pending: multiset<Certificate>) {
    forall c :: c in pending ==> c in sent && c.valid && 1 <= c.signer <= |weights|
  }

  /** A quorum of named signers, each by a verified certificate for that view and hash. */
  ghost predicate Sound(weights: seq<nat>, sent: set<Certificate>, qc: QC) {
    IsQuorum(weights, qc.signers) && BackedBallot(sent, Ballot(qc.rank.view, qc.hash), qc.signers)
  }

  ghost predicate AllSound(weights: seq<nat>, sent: set<Certificate>, formed: seq<QC>) {
    forall i :: 0 <= i < |formed| ==> Sound(weights, sent, formed[i])
  }

  ghost predicate Inv(weights: seq<nat>, sent: set<Certificate>, s: State) {
    && Weighed(weights, s.tally) && TallyBacked(sent, s.tally) && PendingBacked(weights, sent, s.pending)
    && AllSound(weights, sent, s.formed)
  }

  lemma CountBacked(weights: seq<nat>, sent: set<Certificate>, t: Tally, c: Certificate)
    requires Weighed(weights, t) && TallyBacked(sent, t) && c in sent && c.valid && 1 <= c.signer <= |weights|
    ensures TallyBacked(sent, Count(weights, t, c))
    ensures Completes(weights, t, c) ==> Sound(weights, sent, CertificateFor(t, c))
  {
    hide Weight, Total, Weighed, IsQuorum;
    assert Backed(sent, BallotOf(c), c.signer);
    assert BackedBallot(sent, BallotOf(c), VotersOf(t, BallotOf(c)) + {c.signer});
    if Counts(weights, t, c) { AddWeighed(weights, t, c); }
  }

  lemma MoreSent(weights: seq<nat>, sent: set<Certificate>, more: set<Certificate>, s: State)
    requires Inv(weights, sent, s) && sent <= more
    ensures Inv(weights, more, s)
  {
    forall b, ids | BackedBallot(sent, b, ids) ensures BackedBallot(more, b, ids) {
      forall id | id in ids ensures Backed(more, b, id) {
        var c :| c in sent && c.valid && BallotOf(c) == b && c.signer == id;
        assert c in more;
      }
    }
  }

  lemma InvStep(weights: seq<nat>, sent: set<Certificate>, s: State, e: Step)
    requires Inv(weights, sent, s) && Enabled(weights, s, e) && (e.Screen? ==> e.cert in sent)
    ensures Inv(weights, sent, Next(weights, s, e))
  {
    hide Weight, Total, Weighed, TallyBacked, Sound, Count, Completes;
    if e.Tallied? {
      CountWeighed(weights, s.tally, e.cert);
      CountBacked(weights, sent, s.tally, e.cert);
    }
  }

  /** In every run, every certificate formed stands on verified votes of a quorum. */
  lemma {:induction false} InvRun(weights: seq<nat>, steps: seq<Step>)
    requires Legal(weights, steps)
    ensures Inv(weights, Sent(steps), Run(weights, steps))
  {
    if steps != [] {
      var before, e := steps[..|steps| - 1], steps[|steps| - 1];
      hide Inv, Next, Enabled;
      InvRun(weights, before);
      MoreSent(weights, Sent(before), Sent(steps), Run(weights, before));
      InvStep(weights, Sent(steps), Run(weights, before), e);
    }
  }

  // ---------------------------------------------------------------- one thread at a time

  /** Every certificate is counted before the next is screened. */
  predicate Serial(weights: seq<nat>, steps: seq<Step>)
    requires Legal(weights, steps)
  {
    steps == [] ||
    var before, e := steps[..|steps| - 1], steps[|steps| - 1];
    Serial(weights, before) && (e.Screen? ==> Run(weights, before).pending == multiset{})
  }

  ghost predicate Rising(formed: seq<QC>) {
    forall i, j :: 0 <= i < j < |formed| ==> !AtMost(formed[j].rank, formed[i].rank)
  }

  /** Whatever is pending is above all that has formed. */
  ghost predicate Ahead(s: State) {
    && |s.pending| <= 1 && (forall c :: c in s.pending ==> !AtMost(c.rank, s.tally.min))
    && Rising(s.formed) && (forall i :: 0 <= i < |s.formed| ==> AtMost(s.formed[i].rank, s.tally.min))
  }

  lemma AheadStep(weights: seq<nat>, s: State, e: Step)
    requires Ahead(s) && Enabled(weights, s, e) && (e.Screen? ==> s.pending == multiset{})
    ensures Ahead(Next(weights, s, e))
  {
    hide Weight, Total, Counts;
    if e.Tallied? {
      assert s.pending == multiset{e.cert} + (s.pending - multiset{e.cert});
      assert (s.pending - multiset{e.cert}) == multiset{};
    }
  }

  /** One at a time, a collector's certificates rise, so no slot gets two, whoever voted for what. */
  lemma {:induction false} SerialRises(weights: seq<nat>, steps: seq<Step>)
    requires Legal(weights, steps) && Serial(weights, steps)
    ensures Ahead(Run(weights, steps)) && Rising(Run(weights, steps).formed)
  {
    if steps != [] {
      var before := steps[..|steps| - 1];
      hide Next, Enabled;
      SerialRises(weights, before);
      AheadStep(weights, Run(weights, before), steps[|steps| - 1]);
    }
  }

  // ---------------------------------------------------------------- closed slots

  /** A slot with a certificate is marked done until one has formed more than two views later. */
  ghost predicate Closed(s: State) {
    forall i ::
      (&& 0 <= i < |s.formed|
       && forall j :: i < j < |s.formed| ==> s.formed[j].rank.view <= s.formed[i].rank.view + 2)
      ==> DoneKey(s.formed[i].rank) in s.tally.done
  }

  lemma FormClosed(weights: seq<nat>, t: Tally, c: Certificate, r: Rank)
    requires 1 <= c.signer <= |weights| && Completes(weights, t, c)
    requires r == c.rank || (DoneKey(r) in t.done && c.rank.view <= r.view + 2)
    ensures DoneKey(r) in Count(weights, t, c).done
  {
    hide Total, Threshold;
  }

  lemma ClosedStep(weights: seq<nat>, s: State, e: Step)
    requires Closed(s) && Enabled(weights, s, e)
    ensures Closed(Next(weights, s, e))
  {
    hide Total, Threshold, DoneKey, Passes;
    var t := Next(weights, s, e);
    if e.Tallied? && Completes(weights, s.tally, e.cert) {
      var n := |s.formed|;
      hide Count;
      forall i | 0 <= i <= n && (forall j :: i < j <= n ==> t.formed[j].rank.view <= t.formed[i].rank.view + 2)
        ensures DoneKey(t.formed[i].rank) in t.tally.done
      {
        if i < n {
          assert t.formed[n].rank.view <= t.formed[i].rank.view + 2;
          assert forall j :: i < j < n ==> t.formed[j] == s.formed[j];
          assert DoneKey(s.formed[i].rank) in s.tally.done;
        }
        FormClosed(weights, s.tally, e.cert, t.formed[i].rank);
      }
    }
  }

  lemma {:induction false} AlwaysClosed(weights: seq<nat>, steps: seq<Step>)
    requires Legal(weights, steps)
    ensures Closed(Run(weights, steps))
  {
    if steps != [] {
      var before := steps[..|steps| - 1];
      hide Next, Enabled, Closed;
      AlwaysClosed(weights, before);
      ClosedStep(weights, Run(weights, before), steps[|steps| - 1]);
    }
  }

  /** No vote for a slot that has its certificate is let through, until one has formed more than two views later. */
  lemma FormedSlotIsClosed(weights: seq<nat>, steps: seq<Step>, i: nat, c: Certificate)
    requires Legal(weights, steps) && i < |Run(weights, steps).formed| && c.rank == Run(weights, steps).formed[i].rank
    requires var formed := Run(weights, steps).formed;
             forall j :: i < j < |formed| ==> formed[j].rank.view <= formed[i].rank.view + 2
    ensures !Passes(weights, Run(weights, steps).tally, c)
  {
    AlwaysClosed(weights, steps);
  }

  // ---------------------------------------------------------------- who votes

  /** The replica took the proposal when it arrived, and so signed its hash. */
  ghost predicate Voted(events: seq<Event>, p: Proposal) {
    exists n :: 0 <= n < |events| && VotedAt(events, n, p)
  }

  predicate VotedAt(events: seq<Event>, n: nat, p: Proposal)
    requires n < |events|
  {
    events[n] == Proposed(p) && Accepts(RunEvents(events[..n]), p)
  }

  /** What every replica received, replica 1 first. */
  type Histories = seq<seq<Event>>

  ghost predicate VotedBy(histories: Histories, id: int, p: Proposal) {
    1 <= id <= |histories| && Voted(histories[id - 1], p)
  }

  ghost function Supporters(histories: Histories, faulty: set<int>, p: Proposal): (r: set<int>)
    ensures forall id :: id in r <==> id in faulty || VotedBy(histories, id, p)
  {
    faulty + set id | id in Between(0, |histories|) && VotedBy(histories, id, p)
  }

  /** A vote in the name of id, signed by itself or by somebody else. */
  function CertificateOf(p: Proposal, id: int, author: Option<int>): Certificate {
    Certificate(p.rank, p.hash, id, if author.Some? then author.value else id, true)
  }

  /** The vote of a replica that took a proposal, as that replica sent it. */
  ghost predicate AsSent(histories: Histories, c: Certificate) {
    exists p :: VotedBy(histories, c.key, p) && c == CertificateOf(p, c.key, None)
  }

  /**
   * A signature covers the hash only: it is that of a faulty replica, or of one that took a proposal with
   * that hash.
   */
  ghost predicate Signed(histories: Histories, faulty: set<int>, c: Certificate) {
    c.key in faulty || exists p :: VotedBy(histories, c.key, p) && p.hash == c.hash
  }

  /** A vote that verifies is as it was sent, or put together around any such signature by a faulty replica. */
  ghost predicate Honest(histories: Histories, faulty: set<int>, c: Certificate) {
    c.valid ==> AsSent(histories, c) || (faulty != {} && Signed(histories, faulty, c))
  }

  ghost predicate AllHonest(histories: Histories, faulty: set<int>, sent: set<Certificate>) {
    forall c :: c in sent ==> Honest(histories, faulty, c)
  }

  /** Votes name the replica that signed them. The code does not ask for this. */
  predicate Named(sent: set<Certificate>) { forall c :: c in sent && c.valid ==> c.key == c.signer }

  /** No other proposal that was voted for has this one's hash. */
  ghost predicate Names(histories: Histories, p: Proposal) {
    forall id, other :: VotedBy(histories, id, other) && other.hash == p.hash ==> other == p
  }

  ghost predicate FormedFor(s: State, p: Proposal) {
    exists i :: 0 <= i < |s.formed| && s.formed[i].rank == p.rank && s.formed[i].hash == p.hash
  }

  lemma NamedSupports(histories: Histories, faulty: set<int>, c: Certificate, p: Proposal)
    requires Honest(histories, faulty, c) && c.valid && c.key == c.signer && c.hash == p.hash && Names(histories, p)
    ensures c.signer in Supporters(histories, faulty, p)
  {
    if AsSent(histories, c) {
      var other :| VotedBy(histories, c.key, other) && c == CertificateOf(other, c.key, None);
      assert other == p;
    } else if c.key !in faulty {
      var other :| VotedBy(histories, c.key, other) && other.hash == c.hash;
      assert other == p;
    }
  }

  /** Without faulty replicas every vote names its signer. */
  lemma NoneFaultyNamed(histories: Histories, sent: set<Certificate>)
    requires AllHonest(histories, {}, sent)
    ensures Named(sent)
  {
    forall c | c in sent && c.valid ensures c.key == c.signer {
      assert Honest(histories, {}, c);
    }
  }

  lemma BackersSupport(histories: Histories, faulty: set<int>, sent: set<Certificate>, p: Proposal, ids: set<int>)
    requires AllHonest(histories, faulty, sent) && Named(sent) && Names(histories, p)
    requires BackedBallot(sent, Ballot(p.rank.view, p.hash), ids)
    ensures ids <= Supporters(histories, faulty, p)
  {
    hide Honest, Names;
    forall id | id in ids ensures id in Supporters(histories, faulty, p) {
      assert Backed(sent, Ballot(p.rank.view, p.hash), id);
      var c :| c in sent && c.valid && BallotOf(c) == Ballot(p.rank.view, p.hash) && c.signer == id;
      NamedSupports(histories, faulty, c, p);
    }
  }

  lemma FormedHasQuorum(weights: seq<nat>, histories: Histories, faulty: set<int>, steps: seq<Step>, p: Proposal)
    requires Legal(weights, steps) && AllHonest(histories, faulty, Sent(steps)) && Named(Sent(steps))
    requires Names(histories, p) && FormedFor(Run(weights, steps), p)
    ensures IsQuorum(weights, Supporters(histories, faulty, p))
  {
    hide Run, Legal;
    InvRun(weights, steps);
    var s, sent := Run(weights, steps), Sent(steps);
    var i :| 0 <= i < |s.formed| && s.formed[i].rank == p.rank && s.formed[i].hash == p.hash;
    assert Sound(weights, sent, s.formed[i]);
    BackersSupport(histories, faulty, sent, p, s.formed[i].signers);
    WeightMonotone(weights, s.formed[i].signers, Supporters(histories, faulty, p), |weights|);
  }

  /** No certificate forms where nobody has any weight. */
  lemma FormedHasWeight(weights: seq<nat>, steps: seq<Step>, p: Proposal)
    requires Legal(weights, steps) && FormedFor(Run(weights, steps), p)
    ensures Total(weights) >= 1
  {
    hide Run, Legal;
    InvRun(weights, steps);
    var s := Run(weights, steps);
    var i :| 0 <= i < |s.formed| && s.formed[i].rank == p.rank && s.formed[i].hash == p.hash;
    assert Sound(weights, Sent(steps), s.formed[i]);
    QuorumHasWeight(weights, s.formed[i].signers);
  }

  lemma QuorumHasWeight(weights: seq<nat>, signers: set<int>)
    requires IsQuorum(weights, signers)
    ensures Total(weights) >= 1
  {
    WeightsAdd(weights, signers, signers, |weights|);
    assert signers + signers == signers;
  }

  // ---------------------------------------------------------------- a run that forms what it can

  lemma RunMore(weights: seq<nat>, before: seq<Step>, e: Step)
    requires Legal(weights, before) && Enabled(weights, Run(weights, before), e)
    ensures Legal(weights, before + [e]) && Run(weights, before + [e]) == Next(weights, Run(weights, before), e)
    ensures Sent(before + [e]) == Sent(before) + if e.Screen? then {e.cert} else {}
  {
    assert (before + [e])[..|before|] == before;
  }

  predicate VoteFor(p: Proposal, ids: set<int>, author: Option<int>, c: Certificate) {
    c.signer in ids && c == CertificateOf(p, c.signer, author)
  }

  lemma {:induction false} ScreenVotes(weights: seq<nat>, before: seq<Step>, p: Proposal, ids: set<int>,
                                      author: Option<int>, k: nat)
    returns (steps: seq<Step>)
    requires Legal(weights, before) && p.rank.view >= 1 && k <= |weights|
    requires Run(weights, before).tally == NoVotes() && Run(weights, before).formed == []
    ensures Legal(weights, steps) && Run(weights, steps).tally == NoVotes() && Run(weights, steps).formed == []
    ensures Run(weights, before).pending <= Run(weights, steps).pending
    ensures forall id :: id in ids && 1 <= id <= k ==> CertificateOf(p, id, author) in Run(weights, steps).pending
    ensures forall c :: c in Sent(steps) ==> c in Sent(before) || VoteFor(p, ids, author, c)
  {
    hide Run, Legal, Sent;
    if k == 0 { return before; }
    steps := ScreenVotes(weights, before, p, ids, author, k - 1);
    if k in ids {
      var e := Screen(CertificateOf(p, k, author));
      RunMore(weights, steps, e);
      steps := steps + [e];
    }
  }

  function BallotFor(p: Proposal): Ballot { Ballot(p.rank.view, p.hash) }

  /** The ballot holds the votes of ids up to k, or its certificate has formed. */
  ghost predicate Reached(weights: seq<nat>, s: State, p: Proposal, ids: set<int>, k: nat)
    requires k <= |weights|
  {
    if WeightUpTo(weights, ids, k) >= Threshold(Total(weights)) then FormedFor(s, p)
    else
      && VotersOf(s.tally, BallotFor(p)) <= Between(0, k)
      && WeightOf(s.tally, BallotFor(p)) == WeightUpTo(weights, ids, k)
  }

  /** The other proposal's votes and ballot are as they were. */
  ghost predicate Apart(s: State, t: State, p: Proposal, k: nat) {
    && (forall c: Certificate :: c.hash != p.hash || c.signer > k ==> t.pending[c] == s.pending[c])
    && (forall b: Ballot :: b.view == p.rank.view && b != BallotFor(p) && b !in s.tally.voters ==> b !in t.tally.voters)
    && (forall b: Ballot :: b.view == p.rank.view && b != BallotFor(p) && b !in s.tally.weight ==> b !in t.tally.weight)
    && s.formed <= t.formed
  }

  lemma CountOne(weights: seq<nat>, s: State, p: Proposal, ids: set<int>, author: Option<int>, k: nat)
    requires 1 <= k <= |weights| && CertificateOf(p, k, author) in s.pending
    requires k in ids && Reached(weights, s, p, ids, k - 1)
    ensures var t := Next(weights, s, Tallied(CertificateOf(p, k, author)));
            Reached(weights, t, p, ids, k) && Apart(s, t, p, k)
  {
    hide Total, Threshold;
    var c := CertificateOf(p, k, author);
    var t := Next(weights, s, Tallied(c));
    var before := WeightUpTo(weights, ids, k - 1);
    assert s.formed <= t.formed;
    if before >= Threshold(Total(weights)) {
      var i :| 0 <= i < |s.formed| && s.formed[i].rank == p.rank && s.formed[i].hash == p.hash;
      assert t.formed[i] == s.formed[i];
    } else if Completes(weights, s.tally, c) {
      assert t.formed[|s.formed|].rank == p.rank;
    }
  }

  lemma ReachedNone(weights: seq<nat>, s: State, p: Proposal, ids: set<int>)
    requires BallotFor(p) !in s.tally.voters && BallotFor(p) !in s.tally.weight
    ensures Reached(weights, s, p, ids, 0)
  {}

  lemma ReachedSkips(weights: seq<nat>, s: State, p: Proposal, ids: set<int>, k: nat)
    requires 1 <= k <= |weights| && k !in ids && Reached(weights, s, p, ids, k - 1)
    ensures Reached(weights, s, p, ids, k)
  {}

  lemma ApartTwice(r: State, s: State, t: State, p: Proposal, k: nat)
    requires k >= 1 && Apart(r, s, p, k - 1) && Apart(s, t, p, k)
    ensures Apart(r, t, p, k)
  {}

  lemma {:induction false} CountVotes(weights: seq<nat>, before: seq<Step>, p: Proposal, ids: set<int>,
                                      author: Option<int>, k: nat)
    returns (steps: seq<Step>)
    requires Legal(weights, before) && k <= |weights|
    requires forall id :: id in ids && 1 <= id <= k ==> CertificateOf(p, id, author) in Run(weights, before).pending
    requires BallotFor(p) !in Run(weights, before).tally.voters && BallotFor(p) !in Run(weights, before).tally.weight
    ensures Legal(weights, steps) && Sent(steps) == Sent(before)
    ensures Reached(weights, Run(weights, steps), p, ids, k) && Apart(Run(weights, before), Run(weights, steps), p, k)
  {
    hide Run, Legal, Sent, Next, Reached;
    if k == 0 {
      steps := before;
      ReachedNone(weights, Run(weights, before), p, ids);
    } else {
      steps := CountVotes(weights, before, p, ids, author, k - 1);
      var r, s := Run(weights, before), Run(weights, steps);
      if k !in ids {
        ReachedSkips(weights, s, p, ids, k);
      } else {
        var e := Tallied(CertificateOf(p, k, author));
        assert s.pending[e.cert] == r.pending[e.cert];
        RunMore(weights, steps, e);
        CountOne(weights, s, p, ids, author, k);
        steps := steps + [e];
        ApartTwice(r, s, Run(weights, steps), p, k);
      }
    }
  }

  lemma BothForm(weights: seq<nat>, p: Proposal, q: Proposal, forP: set<int>, forQ: set<int>, author: Option<int>)
    returns (steps: seq<Step>)
    requires p.rank == q.rank && p.rank.view >= 1 && p.hash != q.hash
    requires IsQuorum(weights, forP) && IsQuorum(weights, forQ)
    ensures Legal(weights, steps) && FormedFor(Run(weights, steps), p) && FormedFor(Run(weights, steps), q)
    ensures forall c :: c in Sent(steps) ==> VoteFor(p, forP, author, c) || VoteFor(q, forQ, author, c)
  {
    var n := |weights|;
    var screenedP := ScreenVotes(weights, [], p, forP, author, n);
    var screened := ScreenVotes(weights, screenedP, q, forQ, author, n);
    hide Run, Legal, Sent, WeightUpTo, Threshold;
    var countedP := CountVotes(weights, screened, p, forP, author, n);
    steps := CountVotes(weights, countedP, q, forQ, author, n);
    var s, t := Run(weights, countedP), Run(weights, steps);
    var i :| 0 <= i < |s.formed| && s.formed[i].rank == p.rank && s.formed[i].hash == p.hash;
    assert t.formed[i] == s.formed[i];
  }

  // ---------------------------------------------------------------- certificates for one slot

  ghost predicate BothFormed(weights: seq<nat>, histories: Histories, faulty: set<int>, steps: seq<Step>,
                             p: Proposal, q: Proposal)
  {
    && Legal(weights, steps) && AllHonest(histories, faulty, Sent(steps))
    && FormedFor(Run(weights, steps), p) && FormedFor(Run(weights, steps), q)
  }

  /** The key of one faulty replica is enough for both certificates of a slot: it signs, and names everybody else. */
  lemma OneKeyForms(weights: seq<nat>, histories: Histories, faulty: set<int>, key: int, p: Proposal, q: Proposal)
    returns (steps: seq<Step>)
    requires Total(weights) >= 1 && key in faulty
    requires p.rank == q.rank && p.rank.view >= 1 && p.hash != q.hash
    ensures BothFormed(weights, histories, faulty, steps, p, q)
    ensures forall c :: c in Sent(steps) ==> c.key == key
  {
    var all := Between(0, |weights|);
    EveryoneUpTo(weights, |weights|);
    steps := BothForm(weights, p, q, all, all, Some(key));
    hide Run, Legal, Sent;
    forall c | c in Sent(steps) ensures c.key == key && Honest(histories, faulty, c) {
      assert VoteFor(p, all, Some(key), c) || VoteFor(q, all, Some(key), c);
    }
  }

  /** Everybody votes for what they support, in their own name. */
  lemma SupportersForm(weights: seq<nat>, histories: Histories, faulty: set<int>, p: Proposal, q: Proposal)
    returns (steps: seq<Step>)
    requires p.rank == q.rank && p.rank.view >= 1 && p.hash != q.hash
    requires IsQuorum(weights, Supporters(histories, faulty, p)) && IsQuorum(weights, Supporters(histories, faulty, q))
    ensures BothFormed(weights, histories, faulty, steps, p, q) && Named(Sent(steps))
  {
    var forP, forQ := Supporters(histories, faulty, p), Supporters(histories, faulty, q);
    steps := BothForm(weights, p, q, forP, forQ, None);
    hide Run, Legal, Sent;
    forall c | c in Sent(steps) ensures Honest(histories, faulty, c) && c.key == c.signer {
      if VoteFor(p, forP, None, c) {
        assert c == CertificateOf(p, c.key, None);
      } else {
        assert VoteFor(q, forQ, None, c) && c == CertificateOf(q, c.key, None);
      }
    }
  }

  /**
   * A collector can form certificates for two proposals of one slot exactly when some replica is
   * faulty and there is any weight at all, or a quorum supports each.
   */
  lemma BothFormIff(weights: seq<nat>, histories: Histories, faulty: set<int>, p: Proposal, q: Proposal)
    requires p.rank == q.rank && p.rank.view >= 1 && p.hash != q.hash && Names(histories, p) && Names(histories, q)
    ensures (exists steps :: BothFormed(weights, histories, faulty, steps, p, q)) <==>
            || (faulty != {} && Total(weights) >= 1)
            || (&& IsQuorum(weights, Supporters(histories, faulty, p))
                && IsQuorum(weights, Supporters(histories, faulty, q)))
  {
    hide IsQuorum, Run, Legal, Sent, Total;
    if steps :| BothFormed(weights, histories, faulty, steps, p, q) {
      FormedHasWeight(weights, steps, p);
      if faulty == {} {
        NoneFaultyNamed(histories, Sent(steps));
        FormedHasQuorum(weights, histories, faulty, steps, p);
        FormedHasQuorum(weights, histories, faulty, steps, q);
      }
    }
    if key :| key in faulty && Total(weights) >= 1 {
      var steps := OneKeyForms(weights, histories, faulty, key, p, q);
    } else if && IsQuorum(weights, Supporters(histories, faulty, p))
              && IsQuorum(weights, Supporters(histories, faulty, q)) {
      var steps := SupportersForm(weights, histories, faulty, p, q);
    }
  }

  ghost predicate BothFormedNamed(weights: seq<nat>, histories: Histories, faulty: set<int>, steps: seq<Step>,
                                  p: Proposal, q: Proposal)
  {
    BothFormed(weights, histories, faulty, steps, p, q) && Named(Sent(steps))
  }

  /** Were votes let through only in the name of their signer, exactly the second condition would remain. */
  lemma BothFormNamedIff(weights: seq<nat>, histories: Histories, faulty: set<int>, p: Proposal, q: Proposal)
    requires p.rank == q.rank && p.rank.view >= 1 && p.hash != q.hash && Names(histories, p) && Names(histories, q)
    ensures (exists steps :: BothFormedNamed(weights, histories, faulty, steps, p, q)) <==>
            && IsQuorum(weights, Supporters(histories, faulty, p))
            && IsQuorum(weights, Supporters(histories, faulty, q))
  {
    hide IsQuorum, Run, Legal, Sent;
    if steps :| BothFormedNamed(weights, histories, faulty, steps, p, q) {
      FormedHasQuorum(weights, histories, faulty, steps, p);
      FormedHasQuorum(weights, histories, faulty, steps, q);
    }
    if IsQuorum(weights, Supporters(histories, faulty, p)) && IsQuorum(weights, Supporters(histories, faulty, q)) {
      var steps := SupportersForm(weights, histories, faulty, p, q);
      assert BothFormedNamed(weights, histories, faulty, steps, p, q);
    }
  }

  /**
   * For collectors that let votes through only in the name of their signer: while the replicas that are
   * faulty or took both proposals weigh at most a third, no two form certificates for both, and neither
   * does one.
   */
  lemma OneCertificatePerSlot(weights: seq<nat>, histories: Histories, faulty: set<int>,
                              one: seq<Step>, other: seq<Step>, p: Proposal, q: Proposal)
    requires Legal(weights, one) && AllHonest(histories, faulty, Sent(one)) && Named(Sent(one))
    requires Legal(weights, other) && AllHonest(histories, faulty, Sent(other)) && Named(Sent(other))
    requires Names(histories, p) && Names(histories, q)
    requires 3 * Weight(weights, Supporters(histories, faulty, p) * Supporters(histories, faulty, q)) <= Total(weights)
    ensures !(FormedFor(Run(weights, one), p) && FormedFor(Run(weights, other), q))
  {
    hide IsQuorum, Run, Legal, Sent;
    if FormedFor(Run(weights, one), p) && FormedFor(Run(weights, other), q) {
      FormedHasQuorum(weights, histories, faulty, one, p);
      FormedHasQuorum(weights, histories, faulty, other, q);
      QuorumsOverlap(weights, Supporters(histories, faulty, p), Supporters(histories, faulty, q));
    }
  }

  /** Without faulty replicas the code needs no such check: two certificates take a third that took both proposals. */
  lemma OneCertificateIfNoneFaulty(weights: seq<nat>, histories: Histories, one: seq<Step>, other: seq<Step>,
                                   p: Proposal, q: Proposal)
    requires Legal(weights, one) && AllHonest(histories, {}, Sent(one))
    requires Legal(weights, other) && AllHonest(histories, {}, Sent(other))
    requires Names(histories, p) && Names(histories, q)
    requires 3 * Weight(weights, Supporters(histories, {}, p) * Supporters(histories, {}, q)) <= Total(weights)
    ensures !(FormedFor(Run(weights, one), p) && FormedFor(Run(weights, other), q))
  {
    hide Run, Legal, Sent, Weight, Total;
    NoneFaultyNamed(histories, Sent(one));
    NoneFaultyNamed(histories, Sent(other));
    OneCertificatePerSlot(weights, histories, {}, one, other, p, q);
  }

  /** Nothing keeps a replica from voting twice in a slot: having taken p it takes q on the same certificate. */
  lemma TakesBoth(s: Replica, p: Proposal, q: Proposal)
    requires Accepts(s, p) && q.hashOk && q.qcOk == p.qcOk && q.rank == p.rank && q.qc == p.qc
    ensures Accepts(Receive(s, p), q)
  {}

  /** Two proposals of one slot sent to everyone: all vote for both, and both certificates form. */
  lemma TwoCertificates(weights: seq<nat>, p: Proposal, q: Proposal) returns (steps: seq<Step>)
    requires Total(weights) >= 1
    requires p.rank == q.rank && p.rank.view >= 1 && p.qc == q.qc && p.hash != q.hash
    requires p.hashOk && q.hashOk && p.qcOk && q.qcOk
    ensures BothFormed(weights, seq(|weights|, _ => [Proposed(p), Proposed(q)]), {}, steps, p, q)
  {
    var histories := seq(|weights|, _ => [Proposed(p), Proposed(q)]);
    var all := Between(0, |weights|);
    BothVoted(p, q);
    EveryoneUpTo(weights, |weights|);
    assert Supporters(histories, {}, p) == all == Supporters(histories, {}, q);
    steps := SupportersForm(weights, histories, {}, p, q);
  }

  lemma BothVoted(p: Proposal, q: Proposal)
    requires p.rank == q.rank && p.qc == q.qc && p.hashOk && q.hashOk && p.qcOk && q.qcOk
    ensures Voted([Proposed(p), Proposed(q)], p) && Voted([Proposed(p), Proposed(q)], q)
  {
    var events := [Proposed(p), Proposed(q)];
    assert events[..0] == [] && events[..1] == [Proposed(p)] && events[..1][..0] == [];
    assert Accepts(RunEvents(events[..0]), p);
    assert RunEvents(events[..1]) == Receive(Fresh(), p);
    TakesBoth(Fresh(), p, q);
    assert VotedAt(events, 0, p) && VotedAt(events, 1, q);
  }

  // ---------------------------------------------------------------- checking a received certificate

  lemma CountBelow(ids: set<int>, k: nat)
    ensures k == 0 ==> |ids * Between(0, k)| == 0
    ensures k > 0 ==> |ids * Between(0, k)| == |ids * Between(0, k - 1)| + if k in ids then 1 else 0
  {
    if k == 0 {
      assert ids * Between(0, 0) == {};
    } else if k in ids {
      assert ids * Between(0, k) == ids * Between(0, k - 1) + {k};
    } else {
      assert ids * Between(0, k) == ids * Between(0, k - 1);
    }
  }

  lemma OneMoreTimes(a: nat, m: nat)
    ensures (a + 1) * m == a * m + m
  {}

  lemma {:induction false} WeightAtMost(weights: seq<nat>, ids: set<int>, k: nat)
    requires k <= |weights|
    ensures WeightUpTo(weights, ids, k) <= |ids * Between(0, k)| * MaxWeight(weights)
  {
    hide Between, MaxWeight;
    CountBelow(ids, k);
    if k > 0 {
      WeightAtMost(weights, ids, k - 1);
      OneMoreTimes(|ids * Between(0, k - 1)|, MaxWeight(weights));
    }
  }

  lemma CeilingAtMost(threshold: nat, m: nat, count: nat)
    requires m >= 1 && threshold <= count * m
    ensures (threshold + m - 1) / m <= count
  {
    assert threshold + m - 1 < (count + 1) * m;
    QuotientBelow(threshold + m - 1, m, count + 1);
  }

  lemma QuotientBelow(x: nat, m: nat, bound: nat)
    requires m >= 1 && x < bound * m
    ensures x / m < bound
  {
    var r := x / m;
    assert r * m <= x;
    if r >= bound { TimesGrows(bound, r, m); }
  }

  lemma TimesGrows(a: nat, b: nat, m: nat)
    requires a <= b
    ensures a * m <= b * m
  {}

  lemma QuorumCount(weights: seq<nat>, signers: set<int>)
    requires IsQuorum(weights, signers)
    ensures |signers * Between(0, |weights|)| >= MinSignatures(weights)
  {
    WeightAtMost(weights, signers, |weights|);
    hide MaxWeight, Total;
    CeilingAtMost(Threshold(Total(weights)), MaxWeight(weights), |signers * Between(0, |weights|)|);
  }

  /** The signatures a formed certificate carries, one for each named signer, in ascending order. */
  function SignaturesUpTo(keyOf: int -> int, signers: set<int>, k: nat): (r: seq<Signature>)
    ensures |r| == |signers * Between(0, k)| && forall i :: 0 <= i < |r| ==> r[i].valid
  {
    CountBelow(signers, k);
    if k == 0 then []
    else
      var before := SignaturesUpTo(keyOf, signers, k - 1);
      if k in signers then before + [Signature(keyOf(k), true)] else before
  }

  /** Every certificate a collector forms passes the check a receiver makes of it, whichever keys signed its votes. */
  lemma FormedVerifies(weights: seq<nat>, steps: seq<Step>, i: nat, keyOf: int -> int)
    requires Legal(weights, steps) && i < |Run(weights, steps).formed|
    ensures VerifyQC(weights, SignaturesUpTo(keyOf, Run(weights, steps).formed[i].signers, |weights|))
  {
    hide Run, Legal, Sent, MinSignatures, IsQuorum;
    InvRun(weights, steps);
    var qc := Run(weights, steps).formed[i];
    assert Sound(weights, Sent(steps), qc);
    QuorumCount(weights, qc.signers);
  }

  /** The replicas whose keys signed. */
  function KeysOf(signatures: seq<Signature>): (r: set<int>)
    ensures forall i :: 0 <= i < |signatures| ==> signatures[i].key in r
    ensures forall k :: k in r ==> exists i :: 0 <= i < |signatures| && signatures[i].key == k
  {
    set i | 0 <= i < |signatures| :: signatures[i].key
  }

  /** Signatures that verify come from known replicas. */
  ghost predicate KnownKeys(weights: seq<nat>, signatures: seq<Signature>) {
    forall i :: 0 <= i < |signatures| && signatures[i].valid ==> 1 <= signatures[i].key <= |weights|
  }

  ghost predicate AcceptedIsQuorum(weights: seq<nat>) {
    forall signatures :: KnownKeys(weights, signatures) && VerifyQC(weights, signatures) ==>
      IsQuorum(weights, KeysOf(signatures))
  }

  /** One signature repeated often enough is accepted, since nothing asks for different ones. */
  lemma RepeatedVerifies(weights: seq<nat>, key: int)
    ensures var signatures := seq(MinSignatures(weights), _ => Signature(key, true));
            VerifyQC(weights, signatures) && signatures != [] && KeysOf(signatures) == {key}
  {
    var n := MinSignatures(weights);
    var signatures := seq(n, _ => Signature(key, true));
    SomeSignature(weights);
    assert signatures[0].key == key;
    assert KeysOf(signatures) == {key};
  }

  lemma SomeSignature(weights: seq<nat>)
    ensures MinSignatures(weights) >= 1
  {
    var m := MaxWeight(weights);
    var x := Threshold(Total(weights)) + m - 1;
    assert x >= m && x == (x / m) * m + x % m;
  }

  /** So what is accepted is signed by a quorum exactly when every single replica is one. */
  lemma AcceptedIsQuorumIff(weights: seq<nat>)
    ensures AcceptedIsQuorum(weights) <==> forall key :: 1 <= key <= |weights| ==> IsQuorum(weights, {key})
  {
    if AcceptedIsQuorum(weights) {
      forall key | 1 <= key <= |weights| ensures IsQuorum(weights, {key}) {
        RepeatedVerifies(weights, key);
        assert KnownKeys(weights, seq(MinSignatures(weights), _ => Signature(key, true)));
      }
    }
    if forall key :: 1 <= key <= |weights| ==> IsQuorum(weights, {key}) {
      forall signatures: seq<Signature> | KnownKeys(weights, signatures) && VerifyQC(weights, signatures)
        ensures IsQuorum(weights, KeysOf(signatures))
      {
        SomeSignature(weights);
        var key := signatures[0].key;
        assert signatures[0].valid && IsQuorum(weights, {key});
        WeightMonotone(weights, {key}, KeysOf(signatures), |weights|);
      }
    }
  }

  /** Two replicas that could certify alone would leave the whole less than its parts. */
  lemma NeverForTwo(weights: seq<nat>)
    requires |weights| >= 2
    ensures !AcceptedIsQuorum(weights)
  {
    AcceptedIsQuorumIff(weights);
    if IsQuorum(weights, {1}) && IsQuorum(weights, {2}) {
      QuorumsOverlap(weights, {1}, {2});
      assert {1} * {2} == {};
      WeightOfNone(weights);
    }
  }
}
