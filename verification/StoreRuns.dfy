/** Whole sequences of operations on the two versioned stores: what they answer, and which values last. */
module StoreRuns {
  import opened VersionedStore

  datatype Op =
    | Set(key: string, value: string, version: int)
    | Get(key: string, version: int)
    | Range(key: string, min: int, max: int)
    | Top(key: string, number: Int32)
    | All
    | Flush

  datatype Answer =
    | Code(code: int) | One(entry: Entry) | Many(entries: seq<Entry>) | Items(items: map<string, Entry>) | Flushed

  type Table = map<string, Versions>

  /** What a store answers from its histories; only the top of a history tells the two apart. */
  function AnswerOf(s: Table, op: Op, inMemory: bool): Answer {
    match op
    case Set(key, value, version) => Code(if Accepts(ValuesOf(s, key), version) then 0 else -2)
    case Get(key, version) => One(Lookup(ValuesOf(s, key), version))
    case Range(key, min, max) => Many(History(ValuesOf(s, key), min, max))
    case Top(key, number) =>
      Many(if inMemory then TopAtLeastOne(ValuesOf(s, key), number) else TopExactly(ValuesOf(s, key), number))
    case All => Items(Latest(s))
    case Flush => Flushed
  }

  // ---------------------------------------------------------------- in memory

  function After(s: Table, op: Op): Table {
    if op.Set? && Accepts(ValuesOf(s, op.key), op.version) then s[op.key := ValuesOf(s, op.key) + [op.value]] else s
  }

  function Contents(ops: seq<Op>): Table {
    if ops == [] then map[] else After(Contents(ops[..|ops| - 1]), ops[|ops| - 1])
  }

  function Answers(ops: seq<Op>): (r: seq<Answer>)
    ensures |r| == |ops|
  {
    if ops == [] then []
    else
      var init := ops[..|ops| - 1];
      Answers(init) + [AnswerOf(Contents(init), ops[|ops| - 1], true)]
  }

  lemma {:induction false} ContentsShort(ops: seq<Op>, key: string)
    ensures |ValuesOf(Contents(ops), key)| <= |ops|
  {
    if ops != [] { ContentsShort(ops[..|ops| - 1], key); }
  }

  lemma MemoryStep(ops: seq<Op>, i: nat)
    requires i < |ops|
    ensures Contents(ops[..i + 1]) == After(Contents(ops[..i]), ops[i])
    ensures Answers(ops[..i + 1]) == Answers(ops[..i]) + [AnswerOf(Contents(ops[..i]), ops[i], true)]
  {
    assert ops[..i + 1][..i] == ops[..i];
  }

  lemma MemoryStart(ops: seq<Op>)
    ensures Contents(ops[..0]) == map[] && Answers(ops[..0]) == []
  {}

  /** The in-memory store answers any sequence of operations as specified; it has nothing to flush. */
  method DriveMemory(ops: seq<Op>) returns (answers: seq<Answer>)
    requires |ops| <= 0x7fff_ffff
    ensures answers == Answers(ops)
  {
    hide Answers, Contents, Lookup, History, TopAtLeastOne, Latest;
    var store := new MemoryDB();
    answers := [];
    MemoryStart(ops);
    for i := 0 to |ops|
      invariant store.Valid() && store.Abs() == Contents(ops[..i]) && answers == Answers(ops[..i])
      modifies store
    {
      MemoryStep(ops, i);
      match ops[i]
      case Set(key, value, version) =>
        var code := store.SetValueWithVersion(key, value, version);
        answers := answers + [Code(code)];
      case Get(key, version) =>
        var e := store.GetValueWithVersion(key, version);
        answers := answers + [One(e)];
      case Range(key, min, max) =>
        var r := store.GetHistory(key, min, max);
        answers := answers + [Many(r)];
      case Top(key, number) =>
        ContentsShort(ops[..i], key);
        var r := store.GetTopHistory(key, number);
        answers := answers + [Many(r)];
      case All =>
        var items := store.GetAllItems();
        answers := answers + [Items(items)];
      case Flush =>
        answers := answers + [Flushed];
    }
    assert ops[..|ops|] == ops;
  }

  // ---------------------------------------------------------------- on disk

  /** What is on disk, and the histories in the write batch. */
  datatype Disk = Disk(written: Table, pending: Table)

  /** Everything the store was given and has not replaced. */
  function Merged(d: Disk): Table { d.written + d.pending }

  predicate Takes(d: Disk, op: Op) { op.Set? && Accepts(ValuesOf(d.written, op.key), op.version) }

  /** Whether the batch goes out: by Flush, or because an accepted write fills it. */
  predicate WritesOut(d: Disk, op: Op, full: bool) { op.Flush? || (Takes(d, op) && full) }

  function Batched(d: Disk, op: Op): Disk {
    if Takes(d, op) then d.(pending := d.pending[op.key := ValuesOf(d.written, op.key) + [op.value]]) else d
  }

  function DiskAfter(d: Disk, op: Op, full: bool): Disk {
    if WritesOut(d, op, full) then Disk(Merged(Batched(d, op)), map[]) else Batched(d, op)
  }

  /** `full(i)` says whether the batch is large enough after the i-th operation. */
  function DiskContents(ops: seq<Op>, full: nat -> bool): Disk {
    if ops == [] then Disk(map[], map[])
    else DiskAfter(DiskContents(ops[..|ops| - 1], full), ops[|ops| - 1], full(|ops| - 1))
  }

  function DiskAnswers(ops: seq<Op>, full: nat -> bool): (r: seq<Answer>)
    ensures |r| == |ops|
  {
    if ops == [] then []
    else
      var init := ops[..|ops| - 1];
      DiskAnswers(init, full) + [AnswerOf(DiskContents(init, full).written, ops[|ops| - 1], false)]
  }

  /** A history in the batch is the one on disk and one value more. */
  ghost predicate OneAhead(d: Disk) {
    forall k :: k in d.pending ==>
      d.pending[k] != [] && d.pending[k][..|d.pending[k]| - 1] == ValuesOf(d.written, k)
  }

  lemma StepOneAhead(d: Disk, op: Op, full: bool)
    requires OneAhead(d)
    ensures OneAhead(DiskAfter(d, op, full))
  {}

  lemma {:induction false} AlwaysOneAhead(ops: seq<Op>, full: nat -> bool)
    ensures OneAhead(DiskContents(ops, full))
  {
    if ops != [] {
      AlwaysOneAhead(ops[..|ops| - 1], full);
      StepOneAhead(DiskContents(ops[..|ops| - 1], full), ops[|ops| - 1], full(|ops| - 1));
    }
  }

  lemma {:induction false} DiskShort(ops: seq<Op>, full: nat -> bool, key: string)
    ensures |ValuesOf(DiskContents(ops, full).written, key)| <= |ops|
    ensures |ValuesOf(DiskContents(ops, full).pending, key)| <= |ops|
  {
    if ops != [] { DiskShort(ops[..|ops| - 1], full, key); }
  }

  lemma DiskStep(ops: seq<Op>, full: nat -> bool, i: nat)
    requires i < |ops|
    ensures DiskContents(ops[..i + 1], full) == DiskAfter(DiskContents(ops[..i], full), ops[i], full(i))
    ensures DiskAnswers(ops[..i + 1], full)
            == DiskAnswers(ops[..i], full) + [AnswerOf(DiskContents(ops[..i], full).written, ops[i], false)]
  {
    assert ops[..i + 1][..i] == ops[..i];
  }

  lemma DiskStart(ops: seq<Op>, full: nat -> bool)
    ensures DiskContents(ops[..0], full) == Disk(map[], map[]) && DiskAnswers(ops[..0], full) == []
  {}

  /** The store on disk answers any sequence of operations as specified, whenever its batch fills up. */
  method DriveLevelDB(codec: Codec, ops: seq<Op>, full: nat -> bool) returns (answers: seq<Answer>)
    requires Faithful(codec) && |ops| <= 0x7fff_ffff
    ensures answers == DiskAnswers(ops, full)
  {
    hide DiskAnswers, DiskContents, Lookup, History, TopExactly, Latest, Faithful, AllEncode;
    var store := new ResLevelDB(codec);
    answers := [];
    DiskStart(ops, full);
    for i := 0 to |ops|
      invariant store.Valid() && Disk(store.versions, store.unwritten) == DiskContents(ops[..i], full)
      invariant answers == DiskAnswers(ops[..i], full)
      modifies store
    {
      DiskStep(ops, full, i);
      match ops[i]
      case Set(key, value, version) =>
        var code := store.SetValueWithVersion(key, value, version, full(i));
        answers := answers + [Code(code)];
      case Get(key, version) =>
        var e := store.GetValueWithVersion(key, version);
        answers := answers + [One(e)];
      case Range(key, min, max) =>
        var r := store.GetHistory(key, min, max);
        answers := answers + [Many(r)];
      case Top(key, number) =>
        DiskShort(ops[..i], full, key);
        var r := store.GetTopHistory(key, number);
        answers := answers + [Many(r)];
      case All =>
        var items := store.GetAllItems();
        answers := answers + [Items(items)];
      case Flush =>
        store.Flush();
        answers := answers + [Flushed];
    }
    assert ops[..|ops|] == ops;
  }

  // ---------------------------------------------------------------- telling the stores apart

  /** The operation sees that its key has a value in the batch, or asks for the top zero of a stored key. */
  predicate Tells(d: Disk, op: Op) {
    match op
    case Set(key, value, version) =>
      var n := |ValuesOf(d.written, key)|;
      key in d.pending && (version == n || version == n + 1)
    case Get(key, version) => key in d.pending && !(1 <= version <= |ValuesOf(d.written, key)|)
    case Range(key, min, max) => key in d.pending && min <= |ValuesOf(d.written, key)| + 1 <= max
    case Top(key, number) => key in d.pending || (number == 0 && ValuesOf(d.written, key) != [])
    case All => d.pending != map[]
    case Flush => false
  }

  lemma TopsDiffer(values: Versions, number: Int32)
    ensures TopAtLeastOne(values, number) == TopExactly(values, number) <==> number != 0 || values == []
  {
    if number == 0 { DownAt(values, |values|, if 1 < |values| then |values| else 1); }
  }

  /** The newest version comes first. */
  lemma NewestFirst(values: Versions, n: int)
    ensures n >= 1 && values != [] ==>
              Newest(values, n) != [] && Newest(values, n)[0] == Entry(values[|values| - 1], |values|)
    ensures n <= 0 || values == [] ==> Newest(values, n) == []
  {
    if n >= 1 { DownAt(values, |values|, if n < |values| then |values| - n + 1 else 1); }
  }

  lemma TopOfLonger(values: Versions, longer: Versions, number: Int32)
    requires |longer| == |values| + 1
    ensures TopAtLeastOne(longer, number) != TopExactly(values, number)
  {
    NewestFirst(longer, if number == 0 then 1 else AsSize(number));
    NewestFirst(values, AsSize(number));
  }

  lemma RangeOfLonger(values: Versions, longer: Versions, min: int, max: int)
    requires longer != [] && longer[..|longer| - 1] == values
    ensures History(longer, min, max) == History(values, min, max) <==> !(min <= |values| + 1 <= max)
  {
    var lo, n := if min < 1 then 1 else min, |values|;
    DownAt(values, if max < n then max else n, lo);
    DownAt(longer, if max < n + 1 then max else n + 1, lo);
    var x, y := History(longer, min, max), History(values, min, max);
    if !(min <= n + 1 <= max) { assert x == y; }
  }

  lemma LatestDiffers(d: Disk)
    requires OneAhead(d)
    ensures Latest(Merged(d)) == Latest(d.written) <==> d.pending == map[]
  {
    if d.pending == map[] {
      assert Merged(d) == d.written;
    } else {
      var k :| k in d.pending;
      assert Merged(d)[k] == d.pending[k] && k in Latest(Merged(d));
      assert Latest(Merged(d))[k].version == |ValuesOf(d.written, k)| + 1;
    }
  }

  /** While memory holds what disk and batch hold together, the answers differ exactly for a telling operation. */
  lemma AgreeIff(d: Disk, op: Op)
    requires OneAhead(d)
    ensures AnswerOf(Merged(d), op, true) == AnswerOf(d.written, op, false) <==> !Tells(d, op)
  {
    if op.All? {
      LatestDiffers(d);
    } else if !op.Flush? {
      var values, both := ValuesOf(d.written, op.key), ValuesOf(Merged(d), op.key);
      if op.key in d.pending {
        if op.Range? { RangeOfLonger(values, both, op.min, op.max); }
        if op.Top? { TopOfLonger(values, both, op.number); }
        assert |both| == |values| + 1 && both[..|values|] == values;
      } else {
        assert both == values;
        if op.Top? { TopsDiffer(values, op.number); }
      }
    }
  }

  lemma BatchedMerged(d: Disk, op: Op)
    requires OneAhead(d) && op.Set? && !Tells(d, op)
    ensures Merged(Batched(d, op)) == After(Merged(d), op)
  {
    if op.key !in d.pending { assert ValuesOf(Merged(d), op.key) == ValuesOf(d.written, op.key); }
  }

  lemma StaysMerged(d: Disk, op: Op, full: bool)
    requires OneAhead(d) && !Tells(d, op)
    ensures Merged(DiskAfter(d, op, full)) == After(Merged(d), op)
  {
    var e := Batched(d, op);
    assert Merged(Disk(Merged(e), map[])) == Merged(e) == Merged(DiskAfter(d, op, full));
    if op.Set? { BatchedMerged(d, op); }
  }

  ghost predicate NoneTells(ops: seq<Op>, full: nat -> bool) {
    forall i :: 0 <= i < |ops| ==> !Tells(DiskContents(ops[..i], full), ops[i])
  }

  lemma NoneTellsSplit(ops: seq<Op>, full: nat -> bool)
    requires ops != []
    ensures var init := ops[..|ops| - 1];
            NoneTells(ops, full) <==> NoneTells(init, full) && !Tells(DiskContents(init, full), ops[|ops| - 1])
  {
    hide Tells, DiskContents;
    var init := ops[..|ops| - 1];
    assert forall i :: 0 <= i < |init| ==> init[..i] == ops[..i] && init[i] == ops[i];
  }

  /** The two stores answer a sequence of operations alike exactly when none of them tells. */
  lemma {:induction false} SameAnswersIff(ops: seq<Op>, full: nat -> bool)
    ensures Answers(ops) == DiskAnswers(ops, full) <==> NoneTells(ops, full)
    ensures NoneTells(ops, full) ==> Contents(ops) == Merged(DiskContents(ops, full))
  {
    hide AnswerOf, Tells, After, DiskAfter, OneAhead, NoneTells;
    if ops == [] {
      NoneTellsEmpty(ops, full);
    } else {
      var n := |ops| - 1;
      var init, last := ops[..n], ops[n];
      var d := DiskContents(init, full);
      SameAnswersIff(init, full);
      NoneTellsSplit(ops, full);
      AlwaysOneAhead(init, full);
      AgreeIff(d, last);
      if !Tells(d, last) { StaysMerged(d, last, full(n)); }
      var x, y := Answers(ops), DiskAnswers(ops, full);
      assert x[..n] == Answers(init) && y[..n] == DiskAnswers(init, full);
      assert x == x[..n] + [x[n]] && y == y[..n] + [y[n]];
    }
  }

  lemma NoneTellsEmpty(ops: seq<Op>, full: nat -> bool)
    requires ops == []
    ensures NoneTells(ops, full) && Contents(ops) == Merged(DiskContents(ops, full))
  {}

  /** Driven through the same operations, the two stores answer alike exactly then. */
  method CompareStores(codec: Codec, ops: seq<Op>, full: nat -> bool) returns (same: bool)
    requires Faithful(codec) && |ops| <= 0x7fff_ffff
    ensures same <==> NoneTells(ops, full)
  {
    var inMemory := DriveMemory(ops);
    var onDisk := DriveLevelDB(codec, ops, full);
    SameAnswersIff(ops, full);
    same := inMemory == onDisk;
  }

  // ---------------------------------------------------------------- which values last

  /** Versions only grow: every value once stored is found under its version after any further operations. */
  lemma {:induction false} VersionsStay(ops: seq<Op>, n: nat, key: string)
    requires n <= |ops|
    ensures ValuesOf(Contents(ops[..n]), key) <= ValuesOf(Contents(ops), key)
    decreases |ops|
  {
    if n == |ops| {
      assert ops[..n] == ops;
    } else {
      var init := ops[..|ops| - 1];
      assert init[..n] == ops[..n];
      VersionsStay(init, n, key);
    }
  }

  /** The last operation that was accepted as the given version of the key, -1 if none was. */
  function LastTaken(ops: seq<Op>, full: nat -> bool, key: string, version: nat): (i: int)
    ensures -1 <= i < |ops| && (i >= 0 ==> ops[i].Set? && ops[i].key == key && ops[i].version == version)
  {
    if ops == [] then -1
    else
      var init, last := ops[..|ops| - 1], ops[|ops| - 1];
      if Takes(DiskContents(init, full), last) && last.key == key && last.version == version then |ops| - 1
      else LastTaken(init, full, key, version)
  }

  /** On disk or in the batch, every version holds the value that was last accepted for it. */
  lemma {:induction false} LastTakenWins(ops: seq<Op>, full: nat -> bool, key: string, version: nat)
    requires version < |ValuesOf(Merged(DiskContents(ops, full)), key)|
    ensures var i := LastTaken(ops, full, key, version);
            i >= 0 && ops[i].value == ValuesOf(Merged(DiskContents(ops, full)), key)[version]
  {
    if ops != [] {
      var n := |ops| - 1;
      var init, last := ops[..n], ops[n];
      var d := DiskContents(init, full);
      AlwaysOneAhead(init, full);
      MergedStep(d, last, full(n), key);
      if !(Takes(d, last) && last.key == key && last.version == version) { LastTakenWins(init, full, key, version); }
    }
  }

  /** An accepted value becomes the version behind those on disk; nothing else changes what disk and batch hold. */
  lemma MergedStep(d: Disk, op: Op, full: bool, key: string)
    requires OneAhead(d)
    ensures var before, after := ValuesOf(Merged(d), key), ValuesOf(Merged(DiskAfter(d, op, full)), key);
            if Takes(d, op) && op.key == key then after == ValuesOf(d.written, key) + [op.value] else after == before
    ensures ValuesOf(d.written, key) <= ValuesOf(Merged(d), key)
  {}

  predicate TakenAt(ops: seq<Op>, full: nat -> bool, i: nat)
    requires i < |ops|
  {
    Takes(DiskContents(ops[..i], full), ops[i])
  }

  predicate WritesOutAt(ops: seq<Op>, full: nat -> bool, i: nat)
    requires i < |ops|
  {
    WritesOut(DiskContents(ops[..i], full), ops[i], full(i))
  }

  /** The batch goes out at one of the operations from i up to j. */
  ghost predicate OutBetween(ops: seq<Op>, full: nat -> bool, i: nat, j: nat)
    requires j <= |ops|
  {
    exists t :: i <= t < j && WritesOutAt(ops, full, t)
  }

  lemma WriteStep(d: Disk, op: Op, full: bool, key: string)
    requires OneAhead(d)
    ensures var e := DiskAfter(d, op, full);
            && ValuesOf(d.written, key) <= ValuesOf(e.written, key)
            && (!WritesOut(d, op, full) ==> e.written == d.written && (key in d.pending ==> key in e.pending))
            && (WritesOut(d, op, full) && (key in d.pending || (Takes(d, op) && op.key == key)) ==>
                  |ValuesOf(e.written, key)| > |ValuesOf(d.written, key)|)
            && (Takes(d, op) && op.key == key && !WritesOut(d, op, full) ==> key in e.pending)
  {}

  /**
   * What is on disk for a key with a value in the batch stays the same until the batch goes out, and is
   * longer then.
   */
  lemma {:induction false} WrittenSince(ops: seq<Op>, full: nat -> bool, i: nat, j: nat, key: string)
    requires i < j <= |ops| && TakenAt(ops, full, i) && ops[i].key == key
    ensures var before, after := ValuesOf(DiskContents(ops[..i], full).written, key), DiskContents(ops[..j], full);
            if OutBetween(ops, full, i, j) then |ValuesOf(after.written, key)| > |before|
            else ValuesOf(after.written, key) == before && key in after.pending
    decreases j
  {
    hide DiskContents, DiskAfter, WritesOut, Takes, OneAhead;
    DiskStep(ops, full, j - 1);
    AlwaysOneAhead(ops[..j - 1], full);
    WriteStep(DiskContents(ops[..j - 1], full), ops[j - 1], full(j - 1), key);
    if i < j - 1 { WrittenSince(ops, full, i, j - 1, key); }
    assert OutBetween(ops, full, i, j) <==> OutBetween(ops, full, i, j - 1) || WritesOutAt(ops, full, j - 1);
  }

  /** A later accepted write of the key replaces an earlier one exactly when the batch did not go out in between. */
  lemma ReplacesIff(ops: seq<Op>, full: nat -> bool, i: nat, j: nat)
    requires i < j < |ops| && TakenAt(ops, full, i) && TakenAt(ops, full, j) && ops[i].key == ops[j].key
    ensures ops[i].version == ops[j].version <==> !OutBetween(ops, full, i, j)
  {
    WrittenSince(ops, full, i, j, ops[i].key);
  }

  lemma {:induction false} LastTakenIs(ops: seq<Op>, full: nat -> bool, i: nat)
    requires i < |ops| && TakenAt(ops, full, i)
    ensures LastTaken(ops, full, ops[i].key, ops[i].version) == i <==>
            forall j :: i < j < |ops| && TakenAt(ops, full, j) && ops[j].key == ops[i].key ==>
              ops[j].version != ops[i].version
  {
    hide Takes, DiskContents;
    var n := |ops| - 1;
    var init := ops[..n];
    assert forall t :: 0 <= t < n ==> init[..t] == ops[..t] && init[t] == ops[t];
    assert ops[..n] == init;
    assert forall t :: 0 <= t < n ==> TakenAt(init, full, t) == TakenAt(ops, full, t);
    if i < n { LastTakenIs(init, full, i); }
    assert TakenAt(ops, full, n) == Takes(DiskContents(init, full), ops[n]);
  }

  /**
   * An accepted value keeps its version for good exactly when, before any later accepted write of
   * its key, the batch has gone out.
   */
  lemma LastsIff(ops: seq<Op>, full: nat -> bool, i: nat)
    requires i < |ops| && TakenAt(ops, full, i)
    ensures LastTaken(ops, full, ops[i].key, ops[i].version) == i <==>
            forall j :: i < j < |ops| && TakenAt(ops, full, j) && ops[j].key == ops[i].key ==>
                OutBetween(ops, full, i, j)
  {
    LastTakenIs(ops, full, i);
    forall j | i < j < |ops| && TakenAt(ops, full, j) && ops[j].key == ops[i].key
      ensures ops[i].version == ops[j].version <==> !OutBetween(ops, full, i, j)
    {
      ReplacesIff(ops, full, i, j);
    }
  }

  lemma WriteOfEmpty(pending: Table, key: string, value: string)
    ensures var d, op := Disk(map[], pending), Set(key, value, 0);
            Takes(d, op) && DiskAfter(d, op, false) == Disk(map[], pending[key := [value]])
  {
    var none: Versions := [];
    assert none + [value] == [value];
  }

  /** Two writes of one version, both accepted, of which the batch keeps the second. */
  lemma FirstIsLost(key: string, first: string, second: string, full: nat -> bool)
    requires !full(0) && !full(1)
    ensures var ops := [Set(key, first, 0), Set(key, second, 0)];
            && TakenAt(ops, full, 0) && TakenAt(ops, full, 1)
            && DiskContents(ops, full) == Disk(map[], map[key := [second]])
  {
    var ops := [Set(key, first, 0), Set(key, second, 0)];
    assert ops[..2] == ops;
    DiskStart(ops, full);
    hide DiskContents, DiskAfter, Takes;
    DiskStep(ops, full, 0);
    DiskStep(ops, full, 1);
    WriteOfEmpty(map[], key, first);
    WriteOfEmpty(map[key := [first]], key, second);
    assert map[key := [first]][key := [second]] == map[key := [second]];
  }

  // ---------------------------------------------------------------- reading back

  /** The in-memory store accepted the i-th operation. */
  predicate StoredAt(ops: seq<Op>, i: nat)
    requires i < |ops|
  {
    ops[i].Set? && ops[i].version == |ValuesOf(Contents(ops[..i]), ops[i].key)|
  }

  /** After any further operations, reading the version a write made gives its value. */
  lemma ReadsBack(ops: seq<Op>, i: nat)
    requires i < |ops| && StoredAt(ops, i)
    ensures AnswerOf(Contents(ops), Get(ops[i].key, ops[i].version + 1), true)
            == One(Entry(ops[i].value, ops[i].version + 1))
  {
    MemoryStep(ops, i);
    VersionsStay(ops, i + 1, ops[i].key);
  }

  /** The last write of the key the in-memory store accepted, -1 if it accepted none. */
  function LastStored(ops: seq<Op>, key: string): (i: int)
    ensures -1 <= i < |ops| && (i >= 0 ==> ops[i].Set? && ops[i].key == key)
  {
    if ops == [] then -1
    else
      var n := |ops| - 1;
      assert ops[..n] == ops[..|ops| - 1];
      if StoredAt(ops, n) && ops[n].key == key then n else LastStored(ops[..n], key)
  }

  /** Asking for all items, or for a version that does not exist, gives the last write of a key and its version. */
  lemma {:induction false} LastReadsBack(ops: seq<Op>, key: string, version: int)
    requires version <= 0 || version > |ValuesOf(Contents(ops), key)|
    ensures var i, items := LastStored(ops, key), AnswerOf(Contents(ops), All, true).items;
            && (i < 0 ==> key !in items && AnswerOf(Contents(ops), Get(key, version), true) == One(Entry("", 0)))
            && (i >= 0 ==>
                  var last := Entry(ops[i].value, ops[i].version + 1);
                  && key in items && items[key] == last
                  && AnswerOf(Contents(ops), Get(key, version), true) == One(last))
  {
    LastStoredIs(ops, key);
  }

  lemma {:induction false} LastStoredIs(ops: seq<Op>, key: string)
    ensures var i, values := LastStored(ops, key), ValuesOf(Contents(ops), key);
            && (i < 0 <==> values == []) && (key in Contents(ops) ==> values != [])
            && (i >= 0 ==> values[|values| - 1] == ops[i].value && |values| == ops[i].version + 1)
  {
    if ops != [] {
      var n := |ops| - 1;
      assert ops[..n] == ops[..|ops| - 1];
      LastStoredIs(ops[..n], key);
    }
  }

  /** On disk, reading a version that has been written gives the value last accepted for it. */
  lemma DiskReadsBack(ops: seq<Op>, full: nat -> bool, key: string, version: nat)
    requires version < |ValuesOf(DiskContents(ops, full).written, key)|
    ensures var i := LastTaken(ops, full, key, version);
            && i >= 0
            && AnswerOf(DiskContents(ops, full).written, Get(key, version + 1), false)
               == One(Entry(ops[i].value, version + 1))
  {
    var d := DiskContents(ops, full);
    AlwaysOneAhead(ops, full);
    MergedStep(d, Flush, false, key);
    LastTakenWins(ops, full, key, version);
  }
}
