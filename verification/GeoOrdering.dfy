/** Global ordering across regions: requests are handed on round by round, region by region. */
module GeoOrdering {
  import opened Common

  datatype Key = Key(seqNum: int, region: int)

  predicate Below(a: Key, b: Key) { a.seqNum < b.seqNum || (a.seqNum == b.seqNum && a.region < b.region) }

  /** T is a request; out is what has been handed to execution. */
  datatype State<T> = State(waiting: map<Key, T>, cursor: Key, out: seq<(Key, T)>)

  function Advance(cursor: Key, regions: nat): Key {
    if cursor.region + 1 > regions then Key(cursor.seqNum + 1, 1) else Key(cursor.seqNum, cursor.region + 1)
  }

  /** The cursor's request is the first of the ordered map. */
  predicate Ready<T>(s: State<T>) {
    s.cursor in s.waiting && forall k :: k in s.waiting ==> !Below(k, s.cursor)
  }

  function Hand<T>(s: State<T>, regions: nat): State<T>
    requires Ready(s)
  {
    State(s.waiting - {s.cursor}, Advance(s.cursor, regions), s.out + [(s.cursor, s.waiting[s.cursor])])
  }

  function Drain<T>(s: State<T>, regions: nat): State<T>
    decreases |s.waiting|
  {
    if Ready(s) then
      assert |s.waiting - {s.cursor}| < |s.waiting| by { Smaller(s.waiting, s.cursor); }
      Drain(Hand(s, regions), regions)
    else s
  }

  /** A request under a key that is already waiting replaces it. */
  function Add<T>(s: State<T>, k: Key, r: T): State<T> { s.(waiting := s.waiting[k := r]) }

  function Initial<T>(): State<T> { State(map[], Key(1, 1), []) }

  function Run<T>(s: State<T>, arrivals: seq<(Key, T)>, regions: nat): State<T> {
    if arrivals == [] then s
    else
      var last := arrivals[|arrivals| - 1];
      Drain(Add(Run(s, arrivals[..|arrivals| - 1], regions), last.0, last.1), regions)
  }

  lemma Smaller<T>(m: map<Key, T>, k: Key)
    requires k in m
    ensures |m - {k}| < |m|
  {
    assert (m - {k}).Keys == m.Keys - {k};
    assert |m.Keys - {k}| == |m.Keys| - 1;
  }

  class GeoGlobalExecutor<T> {
    const regions: nat
    var executeMap: map<Key, T>
    var nextSeq: int
    var nextRegion: int
    var executed: seq<(Key, T)>

    ghost function Abs(): State<T>
      reads this
    {
      State(executeMap, Key(nextSeq, nextRegion), executed)
    }

    constructor (regions: nat)
      ensures this.regions == regions && Abs() == Initial()
    {
      this.regions := regions;
      executeMap, nextSeq, nextRegion, executed := map[], 1, 1, [];
    }

    method GetNextMap() returns (r: Option<(Key, T)>)
      modifies this`executeMap, this`nextSeq, this`nextRegion
      ensures r.Some? <==> Ready(old(Abs()))
      ensures r.Some? ==> r.value == (old(Abs()).cursor, old(executeMap)[old(Abs()).cursor])
      ensures r.Some? ==> Abs().(out := executed + [r.value]) == Hand(old(Abs()), regions)
      ensures r.None? ==> Abs() == old(Abs())
    {
      var cursor := Key(nextSeq, nextRegion);
      if cursor in executeMap && forall k :: k in executeMap ==> !Below(k, cursor) {
        r := Some((cursor, executeMap[cursor]));
        executeMap := executeMap - {cursor};
        nextRegion := nextRegion + 1;
        if nextRegion > regions {
          nextRegion := 1;
          nextSeq := nextSeq + 1;
        }
      } else {
        r := None;
      }
    }

    /** One round: take in a request, then hand on as many as follow in sequence. */
    method OrderRound(k: Key, request: T)
      modifies this
      ensures Abs() == Drain(Add(old(Abs()), k, request), regions)
    {
      executeMap := executeMap[k := request];
      var more := true;
      while more
        invariant Drain(Abs(), regions) == Drain(Add(old(Abs()), k, request), regions)
        invariant !more ==> !Ready(Abs())
        decreases |executeMap|, more
      {
        ghost var before := executeMap;
        var next := GetNextMap();
        if next.None? {
          more := false;
        } else {
          executed := executed + [next.value];
          assert executeMap == before - {next.value.0};
          Smaller(before, next.value.0);
        }
      }
    }
  }

  // ---------------------------------------------------------------- the order

  /** With no regions configured the rounds still count one region each. */
  function Width(regions: nat): nat { if regions == 0 then 1 else regions }

  /** The i-th key of (1,1), ..., (1,R), (2,1), ... */
  function KeyAt(i: nat, regions: nat): Key { Key(1 + i / Width(regions), 1 + i % Width(regions)) }

  lemma AdvanceKey(i: nat, regions: nat)
    ensures Advance(KeyAt(i, regions), regions) == KeyAt(i + 1, regions)
  {
    var w := Width(regions);
    NextDivision(i, w);
  }

  lemma NextDivision(i: nat, w: nat)
    requires w >= 1
    ensures if i % w + 1 == w then (i + 1) / w == i / w + 1 && (i + 1) % w == 0
            else (i + 1) / w == i / w && (i + 1) % w == i % w + 1
  {
    var q, r := i / w, i % w;
    assert i + 1 == q * w + (r + 1);
    if r + 1 == w {
      assert i + 1 == (q + 1) * w;
      QuotientUnique(i + 1, w, q + 1, 0);
    } else {
      QuotientUnique(i + 1, w, q, r + 1);
    }
  }

  lemma QuotientUnique(n: nat, w: nat, q: nat, r: nat)
    requires w >= 1 && n == q * w + r && r < w
    ensures n / w == q && n % w == r
  {
    var d := n / w - q;
    assert n == (n / w) * w + n % w;
    assert d * w == r - n % w;
    MultipleApart(d, w);
  }

  lemma MultipleApart(d: int, w: int)
    requires w >= 1
    ensures d >= 1 ==> d * w >= w
    ensures d <= -1 ==> d * w <= -w
  {
    if d >= 1 { assert (d - 1) * w >= 0; }
    if d <= -1 { assert (-d - 1) * w >= 0; }
  }

  /** Keys handed on so far are the first of the round order, and the cursor is the next. */
  ghost predicate InOrder<T>(s: State<T>, regions: nat) {
    && s.cursor == KeyAt(|s.out|, regions)
    && forall i :: 0 <= i < |s.out| ==> s.out[i].0 == KeyAt(i, regions)
  }

  lemma {:induction false} DrainInOrder<T>(s: State<T>, regions: nat)
    requires InOrder(s, regions)
    ensures InOrder(Drain(s, regions), regions) && s.out <= Drain(s, regions).out
    ensures !Ready(Drain(s, regions))
    decreases |s.waiting|
  {
    if Ready(s) {
      AdvanceKey(|s.out|, regions);
      Smaller(s.waiting, s.cursor);
      DrainInOrder(Hand(s, regions), regions);
    }
  }

  /** Every run hands on an initial segment of the round order. */
  lemma {:induction false} HandsInitialSegment<T>(arrivals: seq<(Key, T)>, regions: nat)
    ensures InOrder(Run(Initial(), arrivals, regions), regions)
  {
    if arrivals != [] {
      var init, last := arrivals[..|arrivals| - 1], arrivals[|arrivals| - 1];
      HandsInitialSegment(init, regions);
      DrainInOrder(Add(Run(Initial(), init, regions), last.0, last.1), regions);
    }
  }

  // ---------------------------------------------------------------- what was handed on had arrived

  ghost predicate AllFrom<T(!new)>(s: State<T>, arrivals: seq<(Key, T)>) {
    && (forall i :: 0 <= i < |s.out| ==> s.out[i] in arrivals)
    && (forall k :: k in s.waiting ==> (k, s.waiting[k]) in arrivals)
  }

  lemma {:induction false} DrainFrom<T(!new)>(s: State<T>, arrivals: seq<(Key, T)>, regions: nat)
    requires AllFrom(s, arrivals)
    ensures AllFrom(Drain(s, regions), arrivals)
    decreases |s.waiting|
  {
    if Ready(s) {
      Smaller(s.waiting, s.cursor);
      DrainFrom(Hand(s, regions), arrivals, regions);
    }
  }

  lemma {:induction false} HandsArrivals<T(!new)>(arrivals: seq<(Key, T)>, regions: nat)
    ensures AllFrom(Run(Initial(), arrivals, regions), arrivals)
  {
    if arrivals != [] {
      var init, last := arrivals[..|arrivals| - 1], arrivals[|arrivals| - 1];
      HandsArrivals(init, regions);
      assert arrivals == init + [last];
      DrainFrom(Add(Run(Initial(), init, regions), last.0, last.1), arrivals, regions);
    }
  }

  /** Replicas that get the same request for every key execute prefixes of one log, whatever order they get them in. */
  lemma ExecutionsArePrefixes<T(!new)>(a: seq<(Key, T)>, b: seq<(Key, T)>, regions: nat)
    requires forall i, j :: 0 <= i < |a| && 0 <= j < |b| && a[i].0 == b[j].0 ==> a[i] == b[j]
    ensures var x, y := Run(Initial(), a, regions).out, Run(Initial(), b, regions).out; x <= y || y <= x
  {
    var x, y := Run(Initial(), a, regions).out, Run(Initial(), b, regions).out;
    HandsInitialSegment(a, regions);
    HandsInitialSegment(b, regions);
    HandsArrivals(a, regions);
    HandsArrivals(b, regions);
    forall i | 0 <= i < |x| && i < |y| ensures x[i] == y[i] {
      var p :| 0 <= p < |a| && a[p] == x[i];
      var q :| 0 <= q < |b| && b[q] == y[i];
      assert a[p].0 == b[q].0;
    }
  }

  // ---------------------------------------------------------------- when it stops

  ghost predicate Stale<T>(s: State<T>) { exists k :: k in s.waiting && Below(k, s.cursor) }

  /** Once a request below the cursor is waiting, nothing is ever handed on again. */
  lemma {:induction false} StaleForGood<T>(s: State<T>, arrivals: seq<(Key, T)>, regions: nat)
    requires Stale(s)
    ensures Run(s, arrivals, regions).out == s.out && Stale(Run(s, arrivals, regions))
    ensures Run(s, arrivals, regions).cursor == s.cursor
  {
    if arrivals != [] {
      var init, last := arrivals[..|arrivals| - 1], arrivals[|arrivals| - 1];
      StaleForGood(s, init, regions);
      var before := Run(s, init, regions);
      var k :| k in before.waiting && Below(k, before.cursor);
      assert k in Add(before, last.0, last.1).waiting;
    }
  }

  lemma {:induction false} KeysIncrease(i: nat, j: nat, regions: nat)
    requires i < j
    ensures Below(KeyAt(i, regions), KeyAt(j, regions))
  {
    AdvanceKey(j - 1, regions);
    if i < j - 1 { KeysIncrease(i, j - 1, regions); }
  }

  /** Every key that arrived is waiting or was handed on. */
  ghost predicate NoneLost<T>(s: State<T>, arrivals: seq<(Key, T)>) {
    forall j :: 0 <= j < |arrivals| ==> arrivals[j].0 in s.waiting || Handed(s, arrivals[j].0)
  }

  ghost predicate Handed<T>(s: State<T>, k: Key) { exists i :: 0 <= i < |s.out| && s.out[i].0 == k }

  lemma {:induction false} DrainLosesNone<T>(s: State<T>, arrivals: seq<(Key, T)>, regions: nat)
    requires NoneLost(s, arrivals)
    ensures NoneLost(Drain(s, regions), arrivals)
    decreases |s.waiting|
  {
    if Ready(s) {
      var t := Hand(s, regions);
      forall j | 0 <= j < |arrivals| ensures arrivals[j].0 in t.waiting || Handed(t, arrivals[j].0) {
        var k := arrivals[j].0;
        if k == s.cursor {
          assert t.out[|s.out|].0 == k;
        } else if k !in s.waiting {
          var i :| 0 <= i < |s.out| && s.out[i].0 == k;
          assert t.out[i].0 == k;
        }
      }
      Smaller(s.waiting, s.cursor);
      DrainLosesNone(t, arrivals, regions);
    }
  }

  lemma {:induction false} RunLosesNone<T>(arrivals: seq<(Key, T)>, regions: nat)
    ensures NoneLost(Run(Initial(), arrivals, regions), arrivals)
    ensures !Ready(Run(Initial(), arrivals, regions))
  {
    if arrivals != [] {
      var init, last := arrivals[..|arrivals| - 1], arrivals[|arrivals| - 1];
      var before := Run(Initial(), init, regions);
      RunLosesNone(init, regions);
      HandsInitialSegment(init, regions);
      var added := Add(before, last.0, last.1);
      forall j | 0 <= j < |arrivals| ensures arrivals[j].0 in added.waiting || Handed(added, arrivals[j].0) {
        if j < |init| {
          assert arrivals[j] == init[j];
          if init[j].0 !in before.waiting {
            var i :| 0 <= i < |before.out| && before.out[i].0 == init[j].0;
            assert added.out[i].0 == init[j].0;
          }
        }
      }
      DrainLosesNone(added, arrivals, regions);
      DrainInOrder(added, regions);
    }
  }

  /** Unless a request below the cursor is waiting, everything that could be handed on has been. */
  lemma DrainsMaximally<T>(arrivals: seq<(Key, T)>, regions: nat)
    requires !Stale(Run(Initial(), arrivals, regions))
    ensures var s := Run(Initial(), arrivals, regions);
            forall j :: 0 <= j < |arrivals| ==> arrivals[j].0 != KeyAt(|s.out|, regions)
  {
    var s := Run(Initial(), arrivals, regions);
    RunLosesNone(arrivals, regions);
    HandsInitialSegment(arrivals, regions);
    assert forall k :: k in s.waiting ==> !Below(k, s.cursor);
    forall j | 0 <= j < |arrivals| ensures arrivals[j].0 != s.cursor {
      if Handed(s, arrivals[j].0) {
        var i :| 0 <= i < |s.out| && s.out[i].0 == arrivals[j].0;
        KeysIncrease(i, |s.out|, regions);
      }
    }
  }

  /** Requests arrive for an existing region and not below the cursor. */
  ghost predicate Timely<T>(arrivals: seq<(Key, T)>, regions: nat) {
    arrivals == [] ||
    var init, k := arrivals[..|arrivals| - 1], arrivals[|arrivals| - 1].0;
    && Timely(init, regions) && 1 <= k.region <= Width(regions)
    && !Below(k, Run(Initial(), init, regions).cursor)
  }

  ghost predicate Ahead<T>(s: State<T>, regions: nat) {
    forall k :: k in s.waiting ==> 1 <= k.region <= Width(regions) && !Below(k, s.cursor)
  }

  lemma {:induction false} DrainAhead<T>(s: State<T>, regions: nat)
    requires Ahead(s, regions) && InOrder(s, regions)
    ensures Ahead(Drain(s, regions), regions)
    decreases |s.waiting|
  {
    if Ready(s) {
      AdvanceKey(|s.out|, regions);
      Smaller(s.waiting, s.cursor);
      DrainAhead(Hand(s, regions), regions);
    }
  }

  /** Timely arrivals never leave a request behind the cursor. */
  lemma {:induction false} TimelyNeverStale<T>(arrivals: seq<(Key, T)>, regions: nat)
    requires Timely(arrivals, regions)
    ensures Ahead(Run(Initial(), arrivals, regions), regions) && !Stale(Run(Initial(), arrivals, regions))
  {
    if arrivals != [] {
      var init, last := arrivals[..|arrivals| - 1], arrivals[|arrivals| - 1];
      TimelyNeverStale(init, regions);
      HandsInitialSegment(init, regions);
      DrainAhead(Add(Run(Initial(), init, regions), last.0, last.1), regions);
    }
  }

  /** A single arrival below the cursor is enough to stop it for good. */
  lemma LateArrivalStops<T>(arrivals: seq<(Key, T)>, late: (Key, T), more: seq<(Key, T)>, regions: nat)
    requires Below(late.0, Run(Initial(), arrivals, regions).cursor)
    ensures var s := Run(Initial(), arrivals, regions);
            Run(Drain(Add(s, late.0, late.1), regions), more, regions).out == s.out
  {
    var added := Add(Run(Initial(), arrivals, regions), late.0, late.1);
    assert late.0 in added.waiting && Below(late.0, added.cursor);
    assert Stale(added) && Drain(added, regions) == added;
    StaleForGood(added, more, regions);
  }

  lemma {:induction false} DrainExtends<T>(s: State<T>, regions: nat)
    ensures |s.out| <= |Drain(s, regions).out| && (Ready(s) ==> |s.out| < |Drain(s, regions).out|)
    decreases |s.waiting|
  {
    if Ready(s) {
      Smaller(s.waiting, s.cursor);
      DrainExtends(Hand(s, regions), regions);
    }
  }

  /** A state never hands anything on again, whatever arrives, exactly when a request waits below its cursor. */
  lemma StuckIff<T(!new)>(s: State<T>, r: T, regions: nat)
    ensures Stale(s) <==> forall more :: Run(s, more, regions).out == s.out
  {
    if Stale(s) {
      forall more ensures Run(s, more, regions).out == s.out { StaleForGood(s, more, regions); }
    } else {
      var next := [(s.cursor, r)];
      var added := Add(s, s.cursor, r);
      assert Ready(added);
      DrainExtends(added, regions);
      assert next[..0] == [] && Run(s, next, regions) == Drain(added, regions);
    }
  }

  predicate Outside(k: Key, regions: nat) { k.region < 1 || k.region > Width(regions) }

  /** The first key in round order behind one of no existing region. */
  function Barrier(k: Key): Key { if k.region < 1 then Key(k.seqNum, 1) else Key(k.seqNum + 1, 1) }

  /** The key waits, of no existing region, and the cursor is not beyond its barrier. */
  ghost predicate Blocked<T>(s: State<T>, k: Key, regions: nat) {
    InOrder(s, regions) && k in s.waiting && Outside(k, regions) && !Below(Barrier(k), s.cursor)
  }

  lemma {:induction false} DrainBlocked<T>(s: State<T>, k: Key, regions: nat)
    requires Blocked(s, k, regions)
    ensures Blocked(Drain(s, regions), k, regions)
    decreases |s.waiting|
  {
    DrainInOrder(s, regions);
    if Ready(s) {
      AdvanceKey(|s.out|, regions);
      Smaller(s.waiting, s.cursor);
      assert Advance(s.cursor, regions) == KeyAt(|s.out| + 1, regions);
      DrainBlocked(Hand(s, regions), k, regions);
    }
  }

  /** A request for a region that does not exist is never handed on, nor is anything behind it in round order. */
  lemma {:induction false} OutsideRegionStops<T>(s: State<T>, k: Key, more: seq<(Key, T)>, regions: nat)
    requires Blocked(s, k, regions)
    ensures Blocked(Run(s, more, regions), k, regions)
  {
    if more != [] {
      var init, last := more[..|more| - 1], more[|more| - 1];
      OutsideRegionStops(s, k, init, regions);
      DrainBlocked(Add(Run(s, init, regions), last.0, last.1), k, regions);
    }
  }

  // ---------------------------------------------------------------- exactly the timely arrivals

  /** A waiting key that will never be handed on. */
  ghost predicate Bad<T>(s: State<T>, k: Key, regions: nat) {
    k in s.waiting && (Outside(k, regions) || Below(k, s.cursor))
  }

  lemma FindBad<T>(s: State<T>, regions: nat) returns (k: Key)
    requires !Ahead(s, regions)
    ensures Bad(s, k, regions)
  {
    k :| k in s.waiting && (Outside(k, regions) || Below(k, s.cursor));
  }

  lemma {:induction false} DrainKeepsBad<T>(s: State<T>, k: Key, regions: nat)
    requires InOrder(s, regions) && Bad(s, k, regions)
    ensures Bad(Drain(s, regions), k, regions)
    decreases |s.waiting|
  {
    if Ready(s) {
      AdvanceKey(|s.out|, regions);
      Smaller(s.waiting, s.cursor);
      DrainKeepsBad(Hand(s, regions), k, regions);
    }
  }

  /** Nothing waits behind the cursor or for a region that does not exist exactly when all arrivals were timely. */
  lemma {:induction false} TimelyIff<T>(arrivals: seq<(Key, T)>, regions: nat)
    ensures Ahead(Run(Initial(), arrivals, regions), regions) <==> Timely(arrivals, regions)
  {
    if arrivals != [] {
      var init, last := arrivals[..|arrivals| - 1], arrivals[|arrivals| - 1];
      TimelyIff(init, regions);
      HandsInitialSegment(init, regions);
      var s := Run(Initial(), init, regions);
      var added := Add(s, last.0, last.1);
      if Timely(arrivals, regions) {
        TimelyNeverStale(arrivals, regions);
      } else if !Timely(init, regions) {
        var k := FindBad(s, regions);
        DrainKeepsBad(added, k, regions);
      } else {
        assert Bad(added, last.0, regions);
        DrainKeepsBad(added, last.0, regions);
      }
    }
  }

  /** Some further arrivals bring the number of requests handed on to n. */
  ghost predicate CanReach<T(!new)>(s: State<T>, n: nat, regions: nat) {
    exists more :: |Run(s, more, regions).out| >= n
  }

  /** The request of the cursor, again and again. */
  lemma {:induction false} Feed<T(!new)>(s: State<T>, r: T, n: nat, regions: nat) returns (more: seq<(Key, T)>)
    requires InOrder(s, regions) && Ahead(s, regions)
    ensures InOrder(Run(s, more, regions), regions) && Ahead(Run(s, more, regions), regions)
    ensures |Run(s, more, regions).out| >= n
  {
    if n == 0 { return []; }
    more := Feed(s, r, n - 1, regions);
    var t := Run(s, more, regions);
    if |t.out| < n {
      var added := Add(t, t.cursor, r);
      assert Ready(added);
      DrainExtends(added, regions);
      DrainAhead(added, regions);
      DrainInOrder(added, regions);
      assert (more + [(t.cursor, r)])[..|more|] == more;
      more := more + [(t.cursor, r)];
    }
  }

  /** Where the cursor stands bounds how much has been handed on. */
  lemma BoundByRound(i: nat, q: int, regions: nat)
    requires KeyAt(i, regions).seqNum <= q + 1
    ensures q >= 0 && i < (q + 1) * Width(regions)
  {
    var w := Width(regions);
    var d := q - i / w;
    assert i == (i / w) * w + i % w;
    assert d * w >= 0;
    assert (q + 1) * w == (i / w) * w + d * w + w;
  }

  function Room(k: Key, regions: nat): nat { if k.seqNum >= 0 then (k.seqNum + 1) * Width(regions) else 0 }

  lemma BadBounds<T(!new)>(s: State<T>, k: Key, more: seq<(Key, T)>, regions: nat)
    requires InOrder(s, regions) && Bad(s, k, regions)
    ensures |Run(s, more, regions).out| <= |s.out| + Room(k, regions)
  {
    if Below(k, s.cursor) {
      assert Stale(s);
      StaleForGood(s, more, regions);
    } else {
      assert Blocked(s, k, regions);
      OutsideRegionStops(s, k, more, regions);
      BoundByRound(|Run(s, more, regions).out|, k.seqNum, regions);
    }
  }

  lemma ReachIff<T(!new)>(s: State<T>, r: T, regions: nat)
    requires InOrder(s, regions)
    ensures (forall n: nat :: CanReach(s, n, regions)) <==> Ahead(s, regions)
  {
    hide Run, InOrder;
    if Ahead(s, regions) {
      forall n: nat ensures CanReach(s, n, regions) { var more := Feed(s, r, n, regions); }
    } else {
      var k := FindBad(s, regions);
      hide Room, Bad, Ahead;
      var n := |s.out| + Room(k, regions) + 1;
      forall more ensures |Run(s, more, regions).out| < n { BadBounds(s, k, more, regions); }
      assert !CanReach(s, n, regions);
    }
  }

  /** Execution can be carried on without end exactly when every arrival so far was timely. */
  lemma UnboundedIff<T(!new)>(arrivals: seq<(Key, T)>, r: T, regions: nat)
    ensures (forall n: nat :: CanReach(Run(Initial(), arrivals, regions), n, regions)) <==> Timely(arrivals, regions)
  {
    TimelyIff(arrivals, regions);
    HandsInitialSegment(arrivals, regions);
    ReachIff(Run(Initial(), arrivals, regions), r, regions);
  }

  // ---------------------------------------------------------------- repeated keys

  /** The last arrival for a key. */
  function LastFor<T>(arrivals: seq<(Key, T)>, k: Key): Option<T> {
    if arrivals == [] then None
    else if arrivals[|arrivals| - 1].0 == k then Some(arrivals[|arrivals| - 1].1)
    else LastFor(arrivals[..|arrivals| - 1], k)
  }

  lemma {:induction false} DrainWaits<T>(s: State<T>, regions: nat, k: Key)
    requires k in Drain(s, regions).waiting
    ensures k in s.waiting && Drain(s, regions).waiting[k] == s.waiting[k]
    decreases |s.waiting|
  {
    if Ready(s) {
      Smaller(s.waiting, s.cursor);
      DrainWaits(Hand(s, regions), regions, k);
    }
  }

  /** What waits under a key is the last request that arrived for it. */
  lemma {:induction false} WaitsForLast<T>(arrivals: seq<(Key, T)>, regions: nat, k: Key)
    requires k in Run(Initial(), arrivals, regions).waiting
    ensures LastFor(arrivals, k) == Some(Run(Initial(), arrivals, regions).waiting[k])
  {
    if arrivals != [] {
      var init, last := arrivals[..|arrivals| - 1], arrivals[|arrivals| - 1];
      DrainWaits(Add(Run(Initial(), init, regions), last.0, last.1), regions, k);
      if last.0 != k { WaitsForLast(init, regions, k); }
    }
  }
}
