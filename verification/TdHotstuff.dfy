/** Trust-weighted HotStuff: weighted quorums, leader election by weight, and the one-phase commit rule. */
module TdHotstuff {
  import opened Common

  // ---------------------------------------------------------------- weights

  /** Weight of the replicas of a set among the first k; replica ids start at 1. */
  function WeightUpTo(weights: seq<nat>, ids: set<int>, k: nat): nat
    requires k <= |weights|
  {
    if k == 0 then 0 else WeightUpTo(weights, ids, k - 1) + (if k in ids then weights[k - 1] else 0)
  }

  function Weight(weights: seq<nat>, ids: set<int>): nat { WeightUpTo(weights, ids, |weights|) }

  function Prefix(weights: seq<nat>, k: nat): nat
    requires k <= |weights|
  {
    if k == 0 then 0 else Prefix(weights, k - 1) + weights[k - 1]
  }

  function Total(weights: seq<nat>): nat { Prefix(weights, |weights|) }

  function Threshold(total: nat): nat { (2 * total) / 3 + 1 }

  /** A certificate's signers: known replicas that weigh enough. */
  predicate IsQuorum(weights: seq<nat>, signers: set<int>) { Weight(weights, signers) >= Threshold(Total(weights)) }

  lemma {:induction false} WeightsAdd(weights: seq<nat>, a: set<int>, b: set<int>, k: nat)
    requires k <= |weights|
    ensures WeightUpTo(weights, a, k) + WeightUpTo(weights, b, k)
            == WeightUpTo(weights, a + b, k) + WeightUpTo(weights, a * b, k)
    ensures WeightUpTo(weights, a + b, k) <= Prefix(weights, k)
  {
    if k > 0 { WeightsAdd(weights, a, b, k - 1); }
  }

  /** Any two quorums share replicas that weigh more than a third of the whole. */
  lemma QuorumsOverlap(weights: seq<nat>, a: set<int>, b: set<int>)
    requires IsQuorum(weights, a) && IsQuorum(weights, b)
    ensures 3 * Weight(weights, a * b) > Total(weights)
  {
    WeightsAdd(weights, a, b, |weights|);
  }

  /** The replicas numbered above lo, up to hi. */
  function Between(lo: nat, hi: nat): (r: set<int>)
    ensures forall id :: id in r <==> lo < id <= hi
  {
    if hi <= lo then {} else Between(lo, hi - 1) + {hi}
  }

  function Ones(n: nat): seq<nat> { seq(n, _ => 1) }

  lemma {:induction false} OnesUpTo(n: nat, lo: nat, hi: nat, k: nat)
    requires k <= n && lo <= hi
    ensures WeightUpTo(Ones(n), Between(lo, hi), k) == (if k <= lo then 0 else if k <= hi then k - lo else hi - lo)
    ensures Prefix(Ones(n), k) == k
  {
    if k > 0 { OnesUpTo(n, lo, hi, k - 1); }
  }

  /** For no smaller threshold do all weights have that property: equal weights already lose it. */
  lemma ThresholdIsLeast(total: nat, threshold: nat)
    requires threshold < Threshold(total)
    ensures exists weights, a, b ::
              && Total(weights) == total && Weight(weights, a) >= threshold && Weight(weights, b) >= threshold
              && 3 * Weight(weights, a * b) <= total
  {
    var weights, a, b := Ones(total), Between(0, threshold), Between(total - threshold, total);
    OnesUpTo(total, 0, threshold, total);
    OnesUpTo(total, total - threshold, total, total);
    if 2 * threshold <= total {
      assert a * b == {};
      WeightUpToNone(weights, total);
    } else {
      assert a * b == Between(total - threshold, threshold);
      OnesUpTo(total, total - threshold, threshold, total);
    }
    assert Total(weights) == total && Weight(weights, a) >= threshold && Weight(weights, b) >= threshold;
  }

  lemma {:induction false} EveryoneUpTo(weights: seq<nat>, k: nat)
    requires k <= |weights|
    ensures WeightUpTo(weights, Between(0, |weights|), k) == Prefix(weights, k)
  {
    if k > 0 { EveryoneUpTo(weights, k - 1); }
  }

  /** The correct replicas reach the threshold by themselves exactly when the others weigh under a third. */
  lemma CorrectReachIff(weights: seq<nat>, faulty: set<int>)
    requires faulty <= Between(0, |weights|)
    ensures IsQuorum(weights, Between(0, |weights|) - faulty) <==> 3 * Weight(weights, faulty) < Total(weights)
  {
    var all := Between(0, |weights|);
    EveryoneUpTo(weights, |weights|);
    WeightsAdd(weights, all - faulty, faulty, |weights|);
    assert (all - faulty) + faulty == all && (all - faulty) * faulty == {};
    WeightUpToNone(weights, |weights|);
  }

  lemma {:induction false} WeightUpToOneMore(weights: seq<nat>, ids: set<int>, id: int, k: nat)
    requires k <= |weights| && id !in ids && id >= 1
    ensures WeightUpTo(weights, ids + {id}, k) == WeightUpTo(weights, ids, k) + (if id <= k then weights[id - 1] else 0)
  {
    if k > 0 { WeightUpToOneMore(weights, ids, id, k - 1); }
  }

  lemma WeightOfOneMore(weights: seq<nat>, ids: set<int>, id: int)
    requires id !in ids && 1 <= id <= |weights|
    ensures Weight(weights, ids + {id}) == Weight(weights, ids) + weights[id - 1]
  {
    WeightUpToOneMore(weights, ids, id, |weights|);
  }

  lemma {:induction false} WeightUpToNone(weights: seq<nat>, k: nat)
    requires k <= |weights|
    ensures WeightUpTo(weights, {}, k) == 0
  {
    if k > 0 { WeightUpToNone(weights, k - 1); }
  }

  lemma WeightOfNone(weights: seq<nat>)
    ensures Weight(weights, {}) == 0
  {
    WeightUpToNone(weights, |weights|);
  }

  lemma {:induction false} WeightMonotone(weights: seq<nat>, a: set<int>, b: set<int>, k: nat)
    requires k <= |weights| && a <= b
    ensures WeightUpTo(weights, a, k) <= WeightUpTo(weights, b, k)
  {
    if k > 0 { WeightMonotone(weights, a, b, k - 1); }
  }

  // ---------------------------------------------------------------- leaders

  function BigEndian(bytes: seq<int>): nat
    requires forall i :: 0 <= i < |bytes| ==> 0 <= bytes[i] < 256
  {
    if bytes == [] then 0 else BigEndian(bytes[..|bytes| - 1]) * 256 + bytes[|bytes| - 1]
  }

  /** The first four bytes of a digest, most significant first. */
  function HashValue(digest: seq<int>): nat
    requires forall i :: 0 <= i < |digest| ==> 0 <= digest[i] < 256
  {
    BigEndian(if |digest| > 4 then digest[..4] else digest)
  }

  /** The value of four bytes, most significant first. */
  lemma FourBytes(digest: seq<int>)
    requires |digest| >= 4 && forall i :: 0 <= i < |digest| ==> 0 <= digest[i] < 256
    ensures HashValue(digest) == ((digest[0] * 256 + digest[1]) * 256 + digest[2]) * 256 + digest[3]
    ensures HashValue(digest) < 0x1_0000_0000
  {
    var four := digest[..4];
    assert four[..3] == digest[..3] && four[..3][..2] == digest[..2];
    assert four[..3][..2][..1] == digest[..1] && four[..3][..2][..1][..0] == [];
    assert BigEndian(digest[..1]) == BigEndian([]) * 256 + digest[0];
    assert BigEndian(digest[..2]) == BigEndian(digest[..1]) * 256 + digest[1];
    assert BigEndian(digest[..3]) == BigEndian(digest[..2]) * 256 + digest[2];
  }

  /** Every position below a total of 32 bits is hit by some digest. */
  lemma EveryPositionHit(total: nat, position: nat) returns (digest: seq<int>)
    requires position < total <= 0x1_0000_0000
    ensures |digest| == 4 && (forall i :: 0 <= i < |digest| ==> 0 <= digest[i] < 256)
    ensures HashValue(digest) % total == position
  {
    hide HashValue;
    var high := position / 256;
    var higher := high / 256;
    digest := [higher / 256, higher % 256, high % 256, position % 256];
    FourBytes(digest);
    Rejoined(position);
    SmallRemainder(position, total);
  }

  lemma Rejoined(x: nat)
    ensures ((x / 256 / 256 / 256 * 256 + x / 256 / 256 % 256) * 256 + x / 256 % 256) * 256 + x % 256 == x
  {
    var high := x / 256;
    var higher := high / 256;
    assert higher / 256 * 256 + higher % 256 == higher && higher * 256 + high % 256 == high;
  }

  lemma SmallRemainder(x: nat, m: nat)
    requires x < m
    ensures x % m == x
  {}

  /** Replica k + 1 owns the positions from Prefix(k) up to Prefix(k + 1). */
  predicate Owns(weights: seq<nat>, k: nat, position: nat)
    requires k < |weights|
  {
    Prefix(weights, k) <= position < Prefix(weights, k + 1)
  }

  lemma {:induction false} PrefixGrows(weights: seq<nat>, j: nat, k: nat)
    requires j <= k <= |weights|
    ensures Prefix(weights, j) <= Prefix(weights, k)
  {
    if j < k { PrefixGrows(weights, j, k - 1); }
  }

  lemma {:induction false} SomeOwner(weights: seq<nat>, position: nat, k: nat)
    requires k <= |weights| && position < Prefix(weights, k)
    ensures exists i :: 0 <= i < k && Owns(weights, i, position)
  {
    if position < Prefix(weights, k - 1) {
      SomeOwner(weights, position, k - 1);
    } else {
      assert Owns(weights, k - 1, position);
    }
  }

  lemma OneOwner(weights: seq<nat>, position: nat, i: nat, j: nat)
    requires i < |weights| && j < |weights| && Owns(weights, i, position) && Owns(weights, j, position)
    ensures i == j
  {
    if i < j { PrefixGrows(weights, i + 1, j); }
    if j < i { PrefixGrows(weights, j + 1, i); }
  }

  /** Every position has one owner, and each replica owns as many as its weight. */
  lemma LeaderShares(weights: seq<nat>, k: nat, position: nat)
    requires k < |weights| && position < Total(weights)
    ensures exists i :: 0 <= i < |weights| && Owns(weights, i, position)
    ensures Owns(weights, k, position) <==> position in Positions(Prefix(weights, k), Prefix(weights, k + 1))
    ensures |Positions(Prefix(weights, k), Prefix(weights, k + 1))| == weights[k]
    ensures Prefix(weights, k + 1) <= Total(weights)
  {
    SomeOwner(weights, position, |weights|);
    PrefixGrows(weights, k + 1, |weights|);
  }

  function Positions(from: nat, upTo: nat): (r: set<nat>)
    requires from <= upTo
    ensures |r| == upTo - from && forall p :: p in r <==> from <= p < upTo
    decreases upTo
  {
    if from == upTo then {} else Positions(from, upTo - 1) + {upTo - 1}
  }

  class LeaderElection {
    const weights: seq<nat>
    /** SHA-256 of the epoch and a view. */
    const digest: int -> seq<int>
    const prefix: seq<nat>
    var cache: map<int, int>

    ghost predicate Bytes() {
      forall v, i :: 0 <= i < |digest(v)| ==> 0 <= digest(v)[i] < 256
    }

    /** Cached leaders own the position their view falls on. */
    ghost predicate Valid()
      reads this
    {
      && Bytes() && Total(weights) >= 1
      && |prefix| == |weights| + 1 && (forall k :: 0 <= k < |prefix| ==> prefix[k] == Prefix(weights, k))
      && forall v :: v in cache ==> IsLeader(v, cache[v])
    }

    ghost predicate IsLeader(view: int, leader: int)
      requires Bytes() && Total(weights) >= 1
    {
      1 <= leader <= |weights| && Owns(weights, leader - 1, HashValue(digest(view)) % Total(weights))
    }

    constructor (weights: seq<nat>, digest: int -> seq<int>)
      requires Total(weights) >= 1 && forall v, i :: 0 <= i < |digest(v)| ==> 0 <= digest(v)[i] < 256
      ensures Valid() && this.weights == weights && this.digest == digest
    {
      this.weights, this.digest, cache := weights, digest, map[];
      var sums: seq<nat> := [0];
      for k := 0 to |weights|
        invariant |sums| == k + 1 && forall j :: 0 <= j <= k ==> sums[j] == Prefix(weights, j)
      {
        sums := sums + [sums[k] + weights[k]];
      }
      prefix := sums;
    }

    /** The same for every replica: whoever owns the position the view's digest falls on. */
    method VRFLeader(view: int) returns (leader: int)
      requires Valid()
      modifies this`cache
      ensures Valid() && IsLeader(view, leader)
    {
      hide Prefix, HashValue;
      if view in cache { return cache[view]; }
      var position := HashValue(digest(view)) % prefix[|weights|];
      SomeOwner(weights, position, |weights|);
      leader := 1;
      for i := 0 to |weights|
        invariant forall j :: 0 <= j < i ==> !Owns(weights, j, position)
        invariant cache == old(cache)
      {
        if prefix[i] <= position < prefix[i + 1] {
          leader := i + 1;
          break;
        }
      }
      cache := cache[view := leader];
    }
  }

  // ---------------------------------------------------------------- received certificates

  /** The largest weight, and 1 if all are smaller. */
  function MaxWeight(weights: seq<nat>): (m: nat)
    ensures m >= 1 && forall i :: 0 <= i < |weights| ==> weights[i] <= m
    ensures m == 1 || exists i :: 0 <= i < |weights| && weights[i] == m
  {
    if weights == [] then 1
    else
      var m, w := MaxWeight(weights[..|weights| - 1]), weights[|weights| - 1];
      if w > m then w else m
  }

  function MinSignatures(weights: seq<nat>): nat {
    (Threshold(Total(weights)) + MaxWeight(weights) - 1) / MaxWeight(weights)
  }

  /** Whose key signed, and whether that verifies for the certificate's hash. */
  datatype Signature = Signature(key: int, valid: bool)

  /**
   * What is asked of a received certificate: signatures that verify, and enough of them if all were of the
   * largest weight.
   */
  predicate VerifyQC(weights: seq<nat>, signatures: seq<Signature>) {
    (forall i :: 0 <= i < |signatures| ==> signatures[i].valid) && |signatures| >= MinSignatures(weights)
  }

  // ---------------------------------------------------------------- one-phase commit

  /** Place in the order of proposals: views, and slots within a view. */
  datatype Rank = Rank(view: nat, slot: nat)

  predicate AtMost(a: Rank, b: Rank) { a.view < b.view || (a.view == b.view && a.slot <= b.slot) }

  /** A proposal extends the block its certificate is for; whether its hash and that certificate verify is given. */
  datatype Proposal = Proposal(hash: string, prehash: string, rank: Rank, qc: Rank, hashOk: bool, qcOk: bool)

  /** A proposal as it arrives, with the signatures of its certificate. */
  datatype Message = Message(hash: string, prehash: string, rank: Rank, qc: Rank, hashOk: bool,
                             signatures: seq<Signature>)

  function Checked(weights: seq<nat>, m: Message): Proposal {
    Proposal(m.hash, m.prehash, m.rank, m.qc, m.hashOk, VerifyQC(weights, m.signatures))
  }

  datatype Replica = Replica(blocks: map<string, Proposal>, generic: Rank, lock: Rank, log: seq<Proposal>)

  function Fresh(): Replica { Replica(map[], Rank(0, 0), Rank(0, 0), []) }

  /** The first view is taken on trust; later ones must carry a verified certificate no older than the lock. */
  predicate Accepts(s: Replica, p: Proposal) { p.hashOk && (p.rank.view == 1 || (AtMost(s.lock, p.qc) && p.qcOk)) }

  /** A proposal locks its certificate and commits its parent, if that is at hand. */
  function AddProposalTo(s: Replica, p: Proposal): Replica {
    var newer := AtMost(s.generic, p.qc);
    var parent := p.prehash in s.blocks;
    Replica((if parent then s.blocks - {p.prehash} else s.blocks)[p.hash := p],
            if newer then p.qc else s.generic,
            if newer then p.qc else s.lock,
            if parent then s.log + [s.blocks[p.prehash]] else s.log)
  }

  function Receive(s: Replica, p: Proposal): Replica { if Accepts(s, p) then AddProposalTo(s, p) else s }

  /** A certificate formed here moves the generic certificate forward. */
  function AddQCTo(s: Replica, qc: Rank): Replica {
    if s.generic.view == 0 || !AtMost(qc, s.generic) then s.(generic := qc) else s
  }

  class ProposalManager {
    const weights: seq<nat>
    var blocks: map<string, Proposal>
    var generic: Rank
    var lock: Rank
    ghost var log: seq<Proposal>

    ghost function Abs(): Replica
      reads this
    {
      Replica(blocks, generic, lock, log)
    }

    constructor (weights: seq<nat>)
      ensures this.weights == weights && Abs() == Fresh()
    {
      this.weights := weights;
      blocks, generic, lock, log := map[], Rank(0, 0), Rank(0, 0), [];
    }

    method CheckQC(signatures: seq<Signature>) returns (ok: bool)
      ensures ok == VerifyQC(weights, signatures)
    {
      var validCount := 0;
      for i := 0 to |signatures|
        invariant validCount == i && forall j :: 0 <= j < i ==> signatures[j].valid
      {
        if !signatures[i].valid { return false; }
        validCount := validCount + 1;
      }
      var maxWeight := Largest();
      var minSigs := (Threshold(Total(weights)) + maxWeight - 1) / maxWeight;
      ok := validCount >= minSigs;
    }

    method Largest() returns (m: nat)
      ensures m == MaxWeight(weights)
    {
      m := 1;
      for i := 0 to |weights|
        invariant m == MaxWeight(weights[..i])
      {
        assert weights[..i + 1][..i] == weights[..i];
        if weights[i] > m { m := weights[i]; }
      }
      assert weights[..|weights|] == weights;
    }

    method ReceiveProposal(m: Message) returns (voted: bool, committed: Option<Proposal>)
      modifies this
      ensures Abs() == Receive(old(Abs()), Checked(weights, m))
      ensures voted <==>
              && m.hashOk
              && (|| m.rank.view == 1
                  || (&& (old(lock).view < m.qc.view || (old(lock).view == m.qc.view && old(lock).slot <= m.qc.slot))
                      && (forall i :: 0 <= i < |m.signatures| ==> m.signatures[i].valid)
                      && |m.signatures| >= MinSignatures(weights)))
      ensures !voted ==> blocks == old(blocks) && generic == old(generic) && lock == old(lock) && log == old(log)
      ensures log == old(log) + (if committed.Some? then [committed.value] else [])
    {
      hide MinSignatures;
      committed := None;
      if !m.hashOk { return false, None; }
      if m.rank.view != 1 {
        if !AtMost(lock, m.qc) { return false, None; }
        var qcOk := CheckQC(m.signatures);
        if !qcOk { return false, None; }
      }
      if AtMost(generic, m.qc) { generic, lock := m.qc, m.qc; }
      if m.prehash in blocks {
        committed := Some(blocks[m.prehash]);
        log := log + [blocks[m.prehash]];
        blocks := blocks - {m.prehash};
      }
      blocks := blocks[m.hash := Checked(weights, m)];
      voted := true;
    }

    method AddQC(qc: Rank)
      modifies this
      ensures Abs() == AddQCTo(old(Abs()), qc)
    {
      if generic.view == 0 || generic.view < qc.view || (generic.view == qc.view && generic.slot < qc.slot) {
        generic := qc;
      }
    }
  }

  datatype Event = Proposed(proposal: Proposal) | Certified(qc: Rank)

  function RunEvents(events: seq<Event>): Replica {
    if events == [] then Fresh()
    else
      var s, e := RunEvents(events[..|events| - 1]), events[|events| - 1];
      if e.Proposed? then Receive(s, e.proposal) else AddQCTo(s, e.qc)
  }

  ghost predicate Ordered(s: Replica) { AtMost(s.lock, s.generic) && (s.generic.view == 0 ==> s.generic.slot == 0) }

  /** Certificates are for views from 1 on; only the absent one is (0, 0). */
  ghost predicate Proper(events: seq<Event>) {
    forall i :: 0 <= i < |events| ==>
      var r := if events[i].Proposed? then events[i].proposal.qc else events[i].qc;
      r.view >= 1 || (r == Rank(0, 0) && events[i].Proposed?)
  }

  lemma {:induction false} StaysOrdered(events: seq<Event>)
    requires Proper(events)
    ensures Ordered(RunEvents(events))
  {
    if events != [] {
      StaysOrdered(events[..|events| - 1]);
    }
  }

  /** Whatever arrives, the lock never moves back. */
  lemma {:induction false} LockNeverFalls(events: seq<Event>, n: nat)
    requires Proper(events) && n <= |events|
    ensures AtMost(RunEvents(events[..n]).lock, RunEvents(events).lock)
    decreases |events|
  {
    if n == |events| {
      assert events[..n] == events;
    } else {
      var init := events[..|events| - 1];
      assert init[..n] == events[..n];
      LockNeverFalls(init, n);
      StaysOrdered(init);
    }
  }

  /** The certificates a replica has seen: those formed here and those of the proposals it took. */
  ghost predicate Seen(events: seq<Event>, i: nat, qc: Rank)
    requires i < |events|
  {
    events[i] == Certified(qc) ||
    (events[i].Proposed? && events[i].proposal.qc == qc && Accepts(RunEvents(events[..i]), events[i].proposal))
  }

  /** The generic certificate is the newest a replica has seen, or none. */
  lemma {:induction false} GenericIsNewest(events: seq<Event>)
    requires Proper(events)
    ensures var g := RunEvents(events).generic;
            && (forall i, qc :: 0 <= i < |events| && Seen(events, i, qc) ==> AtMost(qc, g))
            && (g == Rank(0, 0) || exists i :: 0 <= i < |events| && Seen(events, i, g))
  {
    if events != [] {
      var n := |events| - 1;
      var init := events[..n];
      GenericIsNewest(init);
      StaysOrdered(init);
      assert forall i :: 0 <= i < n ==> init[i] == events[i] && init[..i] == events[..i];
      assert forall i, qc :: 0 <= i < n ==> (Seen(init, i, qc) <==> Seen(events, i, qc));
      NewestStep(RunEvents(init), events[n]);
      var g, before := RunEvents(events).generic, RunEvents(init).generic;
      if g != before {
        assert Seen(events, n, g);
      } else if g != Rank(0, 0) {
        var i :| 0 <= i < n && Seen(init, i, g);
        assert Seen(events, i, g);
      }
    }
  }

  /** One event leaves the generic certificate or replaces it by a newer or equal one that came with it. */
  lemma NewestStep(s: Replica, e: Event)
    requires Ordered(s)
    requires var r := if e.Proposed? then e.proposal.qc else e.qc; r.view >= 1 || (r == Rank(0, 0) && e.Proposed?)
    ensures var t, r := (if e.Proposed? then Receive(s, e.proposal) else AddQCTo(s, e.qc)),
                        (if e.Proposed? then e.proposal.qc else e.qc);
            && AtMost(s.generic, t.generic) && (t.generic == s.generic || t.generic == r)
            && (e.Certified? || Accepts(s, e.proposal) ==> AtMost(r, t.generic))
            && (e.Proposed? && !Accepts(s, e.proposal) ==> t == s)
  {}

  // ---------------------------------------------------------------- following a chain

  /** Verified proposals, each extending the one before and carrying its certificate; ranks rise along the chain. */
  ghost predicate IsChain(c: seq<Proposal>) {
    && (forall i :: 0 <= i < |c| ==> c[i].hashOk && (c[i].rank.view == 1 || c[i].qcOk))
    && (forall i, j :: 0 <= i < j < |c| ==> c[i].hash != c[j].hash && !AtMost(c[j].qc, c[i].qc))
    && (forall i :: 0 <= i < |c| - 1 ==> c[i + 1].prehash == c[i].hash && c[i + 1].qc == c[i].rank)
    && (forall i :: 0 <= i < |c| ==> c[0].prehash != c[i].hash)
  }

  /** All but the last are past the first view. */
  predicate PastFirstView(c: seq<Proposal>) { forall i :: 0 <= i < |c| - 1 ==> c[i].rank.view != 1 }

  /** Proposals of the chain by position, in any order, any number of times, some perhaps never. */
  ghost predicate Within(c: seq<Proposal>, arrivals: seq<nat>) {
    forall t :: 0 <= t < |arrivals| ==> arrivals[t] < |c|
  }

  function Follow(c: seq<Proposal>, arrivals: seq<nat>): Replica
    requires Within(c, arrivals)
  {
    if arrivals == [] then Fresh()
    else Receive(Follow(c, arrivals[..|arrivals| - 1]), c[arrivals[|arrivals| - 1]])
  }

  /** The furthest position seen, -1 before any. */
  function Furthest(arrivals: seq<nat>): int {
    if arrivals == [] then -1
    else
      var before, last := Furthest(arrivals[..|arrivals| - 1]), arrivals[|arrivals| - 1];
      if last > before then last else before
  }

  /** A position is committed when the next one arrives while it is the furthest. */
  function Commits(arrivals: seq<nat>): seq<nat> {
    if arrivals == [] then []
    else
      var init, last := arrivals[..|arrivals| - 1], arrivals[|arrivals| - 1];
      if Furthest(init) >= 0 && last == Furthest(init) + 1 then Commits(init) + [Furthest(init)] else Commits(init)
  }

  /** Of the chain, a follower holds the furthest proposal and nothing beyond it or just before it. */
  ghost predicate Tracks(c: seq<Proposal>, m: int, s: Replica) {
    && -1 <= m < |c| && (forall j :: m < j < |c| ==> c[j].hash !in s.blocks) && (c != [] ==> c[0].prehash !in s.blocks)
    && (m == -1 ==> s.lock == s.generic == Rank(0, 0))
    && (m >= 0 ==> && s.lock == s.generic == c[m].qc && c[m].hash in s.blocks && s.blocks[c[m].hash] == c[m]
                   && (m >= 1 ==> c[m - 1].hash !in s.blocks))
  }

  lemma TracksStep(c: seq<Proposal>, m: int, k: nat, s: Replica)
    requires IsChain(c) && k < |c| && Tracks(c, m, s) && (c[k].rank.view == 1 ==> k >= m)
    ensures Tracks(c, if k > m then k else m, Receive(s, c[k]))
    ensures Receive(s, c[k]).log == if m >= 0 && k == m + 1 then s.log + [c[m]] else s.log
  {
    if k > 0 { assert c[k].prehash == c[k - 1].hash; }
  }

  lemma TracksFresh(c: seq<Proposal>)
    ensures Tracks(c, -1, Fresh())
  {}

  /** No first-view proposal arrives once a later one has. */
  ghost predicate Orderly(c: seq<Proposal>, arrivals: seq<nat>)
    requires Within(c, arrivals)
  {
    arrivals == [] ||
    var init, last := arrivals[..|arrivals| - 1], arrivals[|arrivals| - 1];
    Orderly(c, init) && (c[last].rank.view == 1 ==> last >= Furthest(init))
  }

  function Pick(c: seq<Proposal>, positions: seq<nat>): seq<Proposal>
    requires Within(c, positions)
  {
    seq(|positions|, t requires 0 <= t < |positions| => c[positions[t]])
  }

  lemma {:induction false} CommitsBelow(arrivals: seq<nat>)
    ensures forall t :: 0 <= t < |Commits(arrivals)| ==> Commits(arrivals)[t] < Furthest(arrivals)
    ensures forall t, u :: 0 <= t < u < |Commits(arrivals)| ==> Commits(arrivals)[t] < Commits(arrivals)[u]
  {
    if arrivals != [] { CommitsBelow(arrivals[..|arrivals| - 1]); }
  }

  lemma {:induction false} FurthestWithin(c: seq<Proposal>, arrivals: seq<nat>)
    requires Within(c, arrivals)
    ensures Furthest(arrivals) < |c|
  {
    if arrivals != [] { FurthestWithin(c, arrivals[..|arrivals| - 1]); }
  }

  /**
   * A replica that only follows commits the chain's proposals in chain order and none twice:
   * position i exactly when i + 1 arrives while i is the furthest seen.
   */
  lemma {:induction false} FollowerCommits(c: seq<Proposal>, arrivals: seq<nat>)
    requires IsChain(c) && Within(c, arrivals) && Orderly(c, arrivals)
    ensures Within(c, Commits(arrivals)) && Follow(c, arrivals).log == Pick(c, Commits(arrivals))
    ensures forall t, u :: 0 <= t < u < |Commits(arrivals)| ==> Commits(arrivals)[t] < Commits(arrivals)[u]
    ensures Tracks(c, Furthest(arrivals), Follow(c, arrivals))
  {
    hide IsChain, Tracks, Receive;
    CommitsBelow(arrivals);
    FurthestWithin(c, arrivals);
    if arrivals == [] {
      TracksFresh(c);
    } else {
      var init, last := arrivals[..|arrivals| - 1], arrivals[|arrivals| - 1];
      FollowerCommits(c, init);
      TracksStep(c, Furthest(init), last, Follow(c, init));
    }
  }

  lemma {:induction false} CommittedPositions(arrivals: seq<nat>, i: nat)
    ensures i in Commits(arrivals) <==>
            exists t :: 0 <= t < |arrivals| && arrivals[t] == i + 1 && Furthest(arrivals[..t]) == i
  {
    if arrivals != [] {
      var n := |arrivals| - 1;
      var init := arrivals[..n];
      CommittedPositions(init, i);
      assert forall t :: 0 <= t < n ==> init[..t] == arrivals[..t] && init[t] == arrivals[t];
      assert arrivals[..n] == init;
      if i in Commits(init) {
        var t :| 0 <= t < n && init[t] == i + 1 && Furthest(init[..t]) == i;
        assert arrivals[t] == i + 1 && Furthest(arrivals[..t]) == i;
      }
    }
  }

  lemma PickHas(c: seq<Proposal>, positions: seq<nat>, i: nat)
    requires IsChain(c) && Within(c, positions) && i < |c|
    ensures c[i] in Pick(c, positions) <==> i in positions
  {
    if c[i] in Pick(c, positions) {
      var t :| 0 <= t < |positions| && Pick(c, positions)[t] == c[i];
      assert c[positions[t]].hash == c[i].hash;
    }
    if i in positions {
      var t :| 0 <= t < |positions| && positions[t] == i;
      assert Pick(c, positions)[t] == c[i];
    }
  }

  lemma CommitsIff(c: seq<Proposal>, arrivals: seq<nat>, i: nat)
    requires IsChain(c) && Within(c, arrivals) && Orderly(c, arrivals) && i < |c|
    ensures c[i] in Follow(c, arrivals).log <==>
            exists t :: 0 <= t < |arrivals| && arrivals[t] == i + 1 && Furthest(arrivals[..t]) == i
  {
    FollowerCommits(c, arrivals);
    CommittedPositions(arrivals, i);
    PickHas(c, Commits(arrivals), i);
  }

  function UpTo(n: nat): seq<nat> { seq(n, i requires 0 <= i < n => i as nat) }

  /** Every arrival that is further than all before it is the very next position. */
  predicate NoJump(arrivals: seq<nat>) {
    arrivals == [] ||
    var init, last := arrivals[..|arrivals| - 1], arrivals[|arrivals| - 1];
    NoJump(init) && last <= Furthest(init) + 1
  }

  lemma {:induction false} NoJumpCommits(arrivals: seq<nat>)
    ensures Furthest(arrivals) >= -1 && (arrivals != [] ==> Furthest(arrivals) >= 0)
    ensures |Commits(arrivals)| <= if Furthest(arrivals) >= 0 then Furthest(arrivals) else 0
    ensures NoJump(arrivals) ==> Commits(arrivals) == UpTo(if Furthest(arrivals) >= 0 then Furthest(arrivals) else 0)
    ensures !NoJump(arrivals) ==> |Commits(arrivals)| < Furthest(arrivals)
  {
    if arrivals != [] { NoJumpCommits(arrivals[..|arrivals| - 1]); }
  }

  /** The log is everything before the furthest proposal exactly when no arrival jumps ahead. */
  lemma GapFreeIff(c: seq<Proposal>, arrivals: seq<nat>)
    requires IsChain(c) && Within(c, arrivals) && Orderly(c, arrivals) && arrivals != []
    ensures 0 <= Furthest(arrivals) < |c|
    ensures Follow(c, arrivals).log == c[..Furthest(arrivals)] <==> NoJump(arrivals)
  {
    FollowerCommits(c, arrivals);
    NoJumpCommits(arrivals);
    assert |Follow(c, arrivals).log| == |Commits(arrivals)|;
    if NoJump(arrivals) { assert Pick(c, Commits(arrivals)) == c[..Furthest(arrivals)]; }
  }

  /** Nothing is committed once an arrival has jumped ahead. */
  predicate NoCommitAfterJump(arrivals: seq<nat>) {
    arrivals == [] ||
    var init, last := arrivals[..|arrivals| - 1], arrivals[|arrivals| - 1];
    NoCommitAfterJump(init) && (NoJump(init) || last != Furthest(init) + 1)
  }

  lemma {:induction false} CommitsFromStartIff(arrivals: seq<nat>)
    ensures Commits(arrivals) == UpTo(|Commits(arrivals)|) <==> NoCommitAfterJump(arrivals)
  {
    if arrivals != [] {
      var init, last := arrivals[..|arrivals| - 1], arrivals[|arrivals| - 1];
      CommitsFromStartIff(init);
      NoJumpCommits(init);
      var before, n := Commits(init), |Commits(init)|;
      if Furthest(init) >= 0 && last == Furthest(init) + 1 {
        assert Commits(arrivals) == before + [Furthest(init) as nat];
        assert UpTo(n + 1) == UpTo(n) + [n];
        assert Commits(arrivals)[..n] == before && UpTo(n + 1)[..n] == UpTo(n);
        assert Commits(arrivals)[n] == Furthest(init) && UpTo(n + 1)[n] == n;
      }
    }
  }

  lemma PickedFromStart(c: seq<Proposal>, positions: seq<nat>)
    requires IsChain(c) && Within(c, positions)
    ensures Pick(c, positions) <= c <==> positions == UpTo(|positions|)
  {
    var picked := Pick(c, positions);
    if picked <= c {
      forall t | 0 <= t < |positions| ensures positions[t] == t {
        assert c[positions[t]].hash == picked[t].hash == c[t].hash;
      }
    }
    if positions == UpTo(|positions|) && positions != [] {
      var n := |positions|;
      assert positions[n - 1] == n - 1 && n <= |c|;
      assert picked == c[..n];
    }
  }

  /** A follower's log is a prefix of the chain exactly when nothing is committed after a jump. */
  lemma LogIsPrefixIff(c: seq<Proposal>, arrivals: seq<nat>)
    requires IsChain(c) && Within(c, arrivals) && Orderly(c, arrivals)
    ensures Follow(c, arrivals).log <= c <==> NoCommitAfterJump(arrivals)
  {
    hide IsChain, Tracks, Follow;
    FollowerCommits(c, arrivals);
    CommitsFromStartIff(arrivals);
    PickedFromStart(c, Commits(arrivals));
  }

  /** So the logs of two such followers are prefixes of each other. */
  lemma FollowersAgree(c: seq<Proposal>, one: seq<nat>, other: seq<nat>)
    requires IsChain(c) && Within(c, one) && Orderly(c, one) && NoCommitAfterJump(one)
    requires Within(c, other) && Orderly(c, other) && NoCommitAfterJump(other)
    ensures Follow(c, one).log <= Follow(c, other).log || Follow(c, other).log <= Follow(c, one).log
  {
    LogIsPrefixIff(c, one);
    LogIsPrefixIff(c, other);
  }

  lemma {:induction false} RisingIsOrderly(c: seq<Proposal>, arrivals: seq<nat>)
    requires Within(c, arrivals) && forall t, u :: 0 <= t < u < |arrivals| ==> arrivals[t] < arrivals[u]
    ensures Orderly(c, arrivals) && (arrivals != [] ==> Furthest(arrivals) == arrivals[|arrivals| - 1])
  {
    if arrivals != [] { RisingIsOrderly(c, arrivals[..|arrivals| - 1]); }
  }

  /** With a jump they need not be: these two followers of one chain differ in their second commit. */
  lemma JumpsDisagree(c: seq<Proposal>)
    requires IsChain(c) && |c| >= 5
    ensures Within(c, [0, 1, 3, 4]) && Follow(c, [0, 1, 3, 4]).log == [c[0], c[3]]
    ensures Within(c, [0, 1, 2]) && Follow(c, [0, 1, 2]).log == [c[0], c[1]] && c[1] != c[3]
  {
    hide Follow, Tracks, Commits, Furthest, Orderly;
    JumpCommits();
    RisingIsOrderly(c, [0, 1, 3, 4]);
    RisingIsOrderly(c, [0, 1, 2]);
    FollowerCommits(c, [0, 1, 3, 4]);
    FollowerCommits(c, [0, 1, 2]);
    assert c[1].hash != c[3].hash;
  }

  lemma JumpCommits()
    ensures Commits([0, 1, 3, 4]) == [0, 3] && Commits([0, 1, 2]) == [0, 1]
  {
    var none, two: seq<nat> := [], [0, 1];
    assert Furthest(none) == -1 && Commits(none) == [];
    hide Furthest, Commits;
    CommitsMore(none, 0);
    CommitsMore(none + [0], 1);
    assert none + [0] + [1] == two;
    CommitsMore(two, 3);
    CommitsMore(two + [3], 4);
    CommitsMore(two, 2);
    assert two + [3] + [4] == [0, 1, 3, 4] && two + [2] == [0, 1, 2];
  }

  lemma CommitsMore(arrivals: seq<nat>, k: nat)
    ensures Furthest(arrivals + [k]) == if k > Furthest(arrivals) then k else Furthest(arrivals)
    ensures Commits(arrivals + [k]) == if Furthest(arrivals) >= 0 && k == Furthest(arrivals) + 1
                                       then Commits(arrivals) + [Furthest(arrivals) as nat] else Commits(arrivals)
  {
    assert (arrivals + [k])[..|arrivals|] == arrivals;
  }

  /**
   * Nothing is missed when the chain arrives in order, from whatever view it starts: all but the last are
   * committed.
   */
  lemma InOrderCommitsAll(c: seq<Proposal>, n: nat)
    requires IsChain(c) && 1 <= n <= |c|
    ensures Within(c, UpTo(n)) && Follow(c, UpTo(n)).log == c[..n - 1]
  {
    UpToHasNoJump(n);
    RisingIsOrderly(c, UpTo(n));
    GapFreeIff(c, UpTo(n));
  }

  lemma {:induction false} UpToHasNoJump(n: nat)
    ensures NoJump(UpTo(n)) && Furthest(UpTo(n)) == n - 1
  {
    if n > 0 {
      UpToHasNoJump(n - 1);
      assert UpTo(n)[..n - 1] == UpTo(n - 1);
    }
  }

  /** No arrival order makes a follower commit twice exactly for chains past the first view. */
  lemma NeverTwiceIff(c: seq<Proposal>)
    requires IsChain(c)
    ensures (forall arrivals :: Within(c, arrivals) ==> Distinct(Follow(c, arrivals).log)) <==> PastFirstView(c)
  {
    if PastFirstView(c) {
      forall arrivals | Within(c, arrivals) ensures Distinct(Follow(c, arrivals).log) {
        PastIsOrderly(c, arrivals);
        FollowerCommits(c, arrivals);
        var log, at := Follow(c, arrivals).log, Commits(arrivals);
        forall t, u | 0 <= t < u < |log| ensures log[t] != log[u] {
          assert c[at[t]].hash != c[at[u]].hash;
        }
      }
    } else {
      var i :| 0 <= i < |c| - 1 && c[i].rank.view == 1;
      CommitsAgain(c, i);
    }
  }

  lemma {:induction false} PastIsOrderly(c: seq<Proposal>, arrivals: seq<nat>)
    requires PastFirstView(c) && Within(c, arrivals)
    ensures Orderly(c, arrivals)
  {
    if arrivals != [] {
      PastIsOrderly(c, arrivals[..|arrivals| - 1]);
      FurthestWithin(c, arrivals[..|arrivals| - 1]);
    }
  }

  lemma FollowMore(c: seq<Proposal>, arrivals: seq<nat>, k: nat)
    requires Within(c, arrivals) && k < |c|
    ensures Within(c, arrivals + [k]) && Follow(c, arrivals + [k]) == Receive(Follow(c, arrivals), c[k])
  {
    assert (arrivals + [k])[..|arrivals|] == arrivals;
  }

  lemma FollowPair(c: seq<Proposal>, arrivals: seq<nat>, i: nat)
    requires Within(c, arrivals) && i + 1 < |c|
    ensures Within(c, arrivals + [i, i + 1])
    ensures Follow(c, arrivals + [i, i + 1]) == Receive(Receive(Follow(c, arrivals), c[i]), c[i + 1])
  {
    hide Follow, Receive;
    FollowMore(c, arrivals, i);
    FollowMore(c, arrivals + [i], i + 1);
    assert arrivals + [i] + [i + 1] == arrivals + [i, i + 1];
  }

  /** A first-view proposal is taken however far the lock is, and its successor commits it. */
  lemma PairCommits(p: Proposal, q: Proposal, s: Replica)
    requires Accepts(Fresh(), p) && p.rank.view == 1 && q.hashOk && (q.rank.view == 1 || q.qcOk)
    requires q.prehash == p.hash && q.hash != p.hash && p.prehash != p.hash && p.prehash != q.hash
    requires s.lock == s.generic && AtMost(s.lock, q.qc) && AtMost(p.qc, q.qc) && p.prehash !in s.blocks
    ensures var t := Receive(Receive(s, p), q);
            t.log == s.log + [p] && t.lock == t.generic == q.qc && p.prehash !in t.blocks
  {
    var r := Receive(s, p);
    assert r.blocks[p.hash] == p && AtMost(r.generic, q.qc) && AtMost(r.lock, q.qc);
  }

  lemma ChainPair(c: seq<Proposal>, i: nat)
    requires IsChain(c) && i + 1 < |c|
    ensures var p, q := c[i], c[i + 1];
            && q.prehash == p.hash && q.hash != p.hash && p.prehash != p.hash && p.prehash != q.hash
                && AtMost(p.qc, q.qc)
  {
    if i > 0 { assert c[i].prehash == c[i - 1].hash; }
  }

  lemma CommitsAgain(c: seq<Proposal>, i: nat)
    requires IsChain(c) && i < |c| - 1 && c[i].rank.view == 1
    ensures var twice := [i, i + 1] + [i, i + 1]; Within(c, twice) && !Distinct(Follow(c, twice).log)
  {
    var p, q, pair := c[i], c[i + 1], [i, i + 1];
    assert Follow(c, []) == Fresh() && [] + pair == pair;
    ChainPair(c, i);
    hide Follow, Receive, IsChain;
    FollowPair(c, [], i);
    PairCommits(p, q, Fresh());
    assert Follow(c, pair).log == [p];
    FollowPair(c, pair, i);
    PairCommits(p, q, Follow(c, pair));
    assert Follow(c, pair + pair).log == [p] + [p];
    assert ([p] + [p])[0] == ([p] + [p])[1];
  }
}
