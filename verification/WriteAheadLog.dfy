/**
 The recovery log: what WriteLog appends, and what ReadLogsFromFiles gets back from a
 file that a crash may have cut short.
 */
module WriteAheadLog {
  import opened Common
  import opened LengthPrefix

  datatype Request = Request(seqNum: nat, body: string, isRecovery: bool)

  datatype SystemInfo = SystemInfo(view: int, primaryId: int)

  /** A logged request with the signature of the context it arrived in. */
  datatype Record = Record(request: Request, signature: string)

  /** The (unseen) message codec. */
  datatype Codec = Codec(
    encReq: Request -> Bytes, decReq: Bytes -> Option<Request>,
    encSig: string -> Bytes, decSig: Bytes -> Option<string>,
    encInfo: SystemInfo -> Bytes, decInfo: Bytes -> Option<SystemInfo>)

  /** Parsing inverts serializing. */
  ghost predicate Faithful(c: Codec) {
    && (forall r :: c.decReq(c.encReq(r)) == Some(r))
    && (forall g :: c.decSig(c.encSig(g)) == Some(g))
    && (forall i :: c.decInfo(c.encInfo(i)) == Some(i))
  }

  /** A record whose block, and an information block, whose size fits a size_t. */
  predicate Fits(c: Codec, r: Record) { |c.encReq(r.request)| + |c.encSig(r.signature)| + 2 * WORD < LIMIT }

  predicate InfoFits(c: Codec, info: SystemInfo) { |c.encInfo(info)| + WORD < LIMIT }

  predicate AllFit(c: Codec, rs: seq<Record>) { forall i :: 0 <= i < |rs| ==> Fits(c, rs[i]) }

  // ---------------------------------------------------------------- the file a run of writes produces

  function InfoBlock(c: Codec, info: SystemInfo): Bytes { Frame(Frame(c.encInfo(info))) }

  function Payload(c: Codec, r: Record): Bytes { Frame(c.encReq(r.request)) + Frame(c.encSig(r.signature)) }

  function Block(c: Codec, r: Record): (b: Bytes)
    ensures |b| >= WORD
  {
    Frame(Payload(c, r))
  }

  function Blocks(c: Codec, rs: seq<Record>): Bytes {
    if rs == [] then [] else Block(c, rs[0]) + Blocks(c, rs[1..])
  }

  function Image(c: Codec, info: SystemInfo, rs: seq<Record>): Bytes { InfoBlock(c, info) + Blocks(c, rs) }

  lemma {:induction false} BlocksAppend(c: Codec, rs: seq<Record>, r: Record)
    ensures Blocks(c, rs + [r]) == Blocks(c, rs) + Block(c, r)
  {
    if rs == [] {
      assert rs + [r] == [r];
    } else {
      assert (rs + [r])[1..] == rs[1..] + [r];
      BlocksAppend(c, rs[1..], r);
    }
  }

  /** `lo` and `hi` are the smallest and largest sequence number in `rs`; -1 for an empty log. */
  ghost predicate IsRange(rs: seq<Record>, lo: int, hi: int) {
    if rs == [] then lo == -1 && hi == -1
    else
      && (forall i :: 0 <= i < |rs| ==> lo <= rs[i].request.seqNum <= hi)
      && (exists i :: 0 <= i < |rs| && rs[i].request.seqNum == lo)
      && (exists i :: 0 <= i < |rs| && rs[i].request.seqNum == hi)
  }

  /** The writing side: buffer, open file and the range of sequence numbers it holds. */
  class Recovery {
    const codec: Codec
    var buffer: Bytes
    var file: Bytes
    var minSeq: int
    var maxSeq: int
    ghost var info: SystemInfo
    ghost var records: seq<Record>

    ghost predicate Valid()
      reads this
    {
      && buffer == [] && InfoFits(codec, info) && AllFit(codec, records)
      && file == Image(codec, info, records)
      && IsRange(records, minSeq, maxSeq)
    }

    /** Opening a fresh file writes the system information block. */
    constructor (codec: Codec, info: SystemInfo)
      requires InfoFits(codec, info)
      ensures Valid() && this.codec == codec && this.info == info && records == []
    {
      this.codec := codec;
      buffer, file, minSeq, maxSeq := [], [], -1, -1;
      this.info, records := info, [];
      new;
      AppendData(codec.encInfo(info));
      assert buffer == Frame(codec.encInfo(info));
      Flush();
    }

    method AppendData(data: Bytes)
      modifies this`buffer
      ensures buffer == old(buffer) + Frame(data)
    {
      buffer := buffer + Word(|data|);
      buffer := buffer + data;
    }

    method Flush()
      modifies this`buffer, this`file
      ensures buffer == []
      ensures file == if old(buffer) == [] then old(file) else old(file) + Frame(old(buffer))
    {
      var len := |buffer|;
      if len == 0 { return; }
      file := file + Word(len);
      file := file + buffer;
      buffer := [];
    }

    method WriteLog(r: Record)
      requires Valid() && Fits(codec, r)
      modifies this
      ensures Valid() && info == old(info) && records == old(records) + [r]
    {
      RangeAppend(records, minSeq, maxSeq, r);
      minSeq := if minSeq == -1 || r.request.seqNum < minSeq then r.request.seqNum else minSeq;
      maxSeq := if r.request.seqNum > maxSeq then r.request.seqNum else maxSeq;
      AppendData(codec.encReq(r.request));
      AppendData(codec.encSig(r.signature));
      ImageAppend(codec, info, records, r, file, buffer);
      Flush();
      records := records + [r];
    }
  }

  lemma ImageAppend(c: Codec, info: SystemInfo, rs: seq<Record>, r: Record, file: Bytes, buffer: Bytes)
    requires file == Image(c, info, rs) && buffer == [] + Frame(c.encReq(r.request)) + Frame(c.encSig(r.signature))
    ensures buffer != [] && file + Frame(buffer) == Image(c, info, rs + [r])
  {
    hide Blocks, InfoBlock, Word;
    assert buffer == Payload(c, r);
    BlocksAppend(c, rs, r);
    assert InfoBlock(c, info) + Blocks(c, rs) + Block(c, r) == InfoBlock(c, info) + (Blocks(c, rs) + Block(c, r));
  }

  lemma RangeAppend(rs: seq<Record>, lo: int, hi: int, r: Record)
    requires IsRange(rs, lo, hi)
    ensures var n := r.request.seqNum;
            IsRange(rs + [r], if lo == -1 || n < lo then n else lo, if n > hi then n else hi)
  {
    var t, n := rs + [r], r.request.seqNum;
    assert t[|rs|] == r;
    if rs != [] {
      var i :| 0 <= i < |rs| && rs[i].request.seqNum == lo;
      var j :| 0 <= j < |rs| && rs[j].request.seqNum == hi;
      assert t[i].request.seqNum == lo && t[j].request.seqNum == hi;
    }
  }

  // ---------------------------------------------------------------- reading back

  datatype Chunk = Chunk(data: Bytes, next: nat)

  /** A length word and as many bytes as it announces, or nothing when the file ends before. */
  function ReadBlock(file: Bytes, pos: nat): (r: Option<Chunk>)
    requires pos <= |file|
    ensures r.Some? ==> pos < r.value.next <= |file|
  {
    if pos + WORD > |file| then None
    else
      var len := Number(file[pos..pos + WORD]);
      if pos + WORD + len > |file| then None
      else Some(Chunk(file[pos + WORD..pos + WORD + len], pos + WORD + len))
  }

  /** The length-prefixed items of a block; None when a length word runs past the end of the block. */
  function Items(data: Bytes, pos: nat): Option<seq<Bytes>>
    decreases |data| - pos
  {
    if pos >= |data| then Some([])
    else if pos + WORD > |data| then None
    else
      var len := Number(data[pos..pos + WORD]);
      var item := if pos + WORD + len <= |data| then data[pos + WORD..pos + WORD + len] else data[pos + WORD..];
      Behind([item], Items(data, pos + WORD + len))
  }

  /** Request and signature pairs up to the first that does not parse; None when a signature item is missing. */
  function Pairs(c: Codec, items: seq<Bytes>): Option<seq<Record>> {
    if items == [] then Some([])
    else if c.decReq(items[0]).None? then Some([])
    else if |items| == 1 then None
    else if c.decSig(items[1]).None? then Some([])
    else
      Behind([Record(c.decReq(items[0]).value, c.decSig(items[1]).value)], Pairs(c, items[2..]))
  }

  function ParseBlock(c: Codec, data: Bytes): Option<seq<Record>> {
    match Items(data, 0)
    case None => None
    case Some(items) => Pairs(c, items)
  }

  /** The records of the blocks from `pos` on, after those already read; a block without records discards everything. */
  function Replay(c: Codec, file: Bytes, pos: nat, read: seq<Record>): Option<seq<Record>>
    requires pos <= |file|
    decreases |file| - pos
  {
    match ReadBlock(file, pos)
    case None => Some(read)
    case Some(chunk) =>
      match ParseBlock(c, chunk.data)
      case None => None
      case Some(rs) => if rs == [] then Some([]) else Replay(c, file, chunk.next, read + rs)
  }

  /** A record as recovery hands it on. */
  function Recovered(r: Record): Record { r.(request := r.request.(isRecovery := true)) }

  /** What is delivered of a list of records: those above the checkpoint, marked as recovered. */
  function Above(rs: seq<Record>, ckpt: int): seq<Record> {
    if rs == [] then []
    else if ckpt < rs[0].request.seqNum then [Recovered(rs[0])] + Above(rs[1..], ckpt)
    else Above(rs[1..], ckpt)
  }

  /** `Broken` stands for reading outside a block, which the code does not guard against. */
  datatype Outcome = Broken | NoInfo | Logs(info: SystemInfo, delivered: seq<Record>)

  function ReadFile(c: Codec, file: Bytes, ckpt: int): Outcome {
    match ReadBlock(file, 0)
    case None => NoInfo
    case Some(chunk) =>
      match Items(chunk.data, 0)
      case None => Broken
      case Some(items) =>
        if items == [] || c.decInfo(items[0]).None? then NoInfo
        else
          match Replay(c, file, chunk.next, [])
          case None => Broken
          case Some(rs) => Logs(c.decInfo(items[0]).value, Above(rs, ckpt))
  }

  /** A list in front of what is still to come. */
  function Behind<T>(done: seq<T>, rest: Option<seq<T>>): Option<seq<T>> {
    if rest.None? then None else Some(done + rest.value)
  }

  lemma BehindNothing<T>(rest: Option<seq<T>>)
    ensures Behind([], rest) == rest
  {
    if rest.Some? { assert [] + rest.value == rest.value; }
  }

  lemma BehindOne<T>(done: seq<T>, x: T, rest: Option<seq<T>>)
    ensures Behind(done, Behind([x], rest)) == Behind(done + [x], rest)
  {
    if rest.Some? { assert done + ([x] + rest.value) == done + [x] + rest.value; }
  }

  method ParseRawData(data: Bytes) returns (r: Option<seq<Bytes>>)
    ensures r == Items(data, 0)
  {
    var list: seq<Bytes> := [];
    var pos := 0;
    BehindNothing(Items(data, 0));
    while pos < |data|
      invariant Items(data, 0) == Behind(list, Items(data, pos))
      decreases |data| - pos
    {
      if pos + WORD > |data| { return None; }
      var len := Number(data[pos..pos + WORD]);
      pos := pos + WORD;
      var item := if pos + len <= |data| then data[pos..pos + len] else data[pos..];
      pos := pos + len;
      BehindOne(list, item, Items(data, pos));
      list := list + [item];
    }
    r := Some(list);
    assert list + [] == list;
  }

  method ParseData(c: Codec, data: Bytes) returns (r: Option<seq<Record>>)
    ensures r == ParseBlock(c, data)
  {
    var raw := ParseRawData(data);
    if raw.None? { return None; }
    var items := raw.value;
    var list: seq<Record> := [];
    var i := 0;
    assert items[0..] == items;
    BehindNothing(Pairs(c, items));
    while i < |items|
      invariant i <= |items|
      invariant Pairs(c, items) == Behind(list, Pairs(c, items[i..]))
    {
      if c.decReq(items[i]).None? { break; }
      if i + 1 >= |items| { return None; }
      if c.decSig(items[i + 1]).None? { break; }
      assert items[i..][2..] == items[i + 2..];
      BehindOne(list, Record(c.decReq(items[i]).value, c.decSig(items[i + 1]).value), Pairs(c, items[i + 2..]));
      list := list + [Record(c.decReq(items[i]).value, c.decSig(items[i + 1]).value)];
      i := i + 2;
    }
    assert list + [] == list;
    r := Some(list);
  }

  method ReadLogsFromFiles(c: Codec, file: Bytes, ckpt: int) returns (out: Outcome)
    ensures out == ReadFile(c, file, ckpt)
  {
    var first := ReadBlock(file, 0);
    if first.None? { return NoInfo; }
    var items := ParseRawData(first.value.data);
    if items.None? { return Broken; }
    if items.value == [] || c.decInfo(items.value[0]).None? { return NoInfo; }
    var info := c.decInfo(items.value[0]).value;

    var requests: seq<Record> := [];
    var pos := first.value.next;
    while true
      invariant pos <= |file|
      invariant Replay(c, file, pos, requests) == Replay(c, file, first.value.next, [])
      decreases |file| - pos
    {
      var chunk := ReadBlock(file, pos);
      if chunk.None? { break; }
      var list := ParseData(c, chunk.value.data);
      if list.None? { return Broken; }
      if list.value == [] {
        requests := [];
        break;
      }
      requests := requests + list.value;
      pos := chunk.value.next;
    }
    var delivered := Deliver(requests, ckpt);
    out := Logs(info, delivered);
  }

  method Deliver(requests: seq<Record>, ckpt: int) returns (out: seq<Record>)
    ensures out == Above(requests, ckpt)
  {
    out := [];
    for i := 0 to |requests|
      invariant out + Above(requests[i..], ckpt) == Above(requests, ckpt)
    {
      assert requests[i..][1..] == requests[i + 1..];
      if ckpt < requests[i].request.seqNum {
        out := out + [Recovered(requests[i])];
      }
    }
  }

  // ---------------------------------------------------------------- the order of delivery

  /** The positions of the records above the checkpoint: rising, and all of them. */
  ghost predicate PositionsAbove(rs: seq<Record>, ckpt: int, at: seq<nat>) {
    && (forall j, k :: 0 <= j < k < |at| ==> at[j] < at[k])
    && (forall k :: 0 <= k < |at| ==> at[k] < |rs|)
    && (forall i :: 0 <= i < |rs| ==> (i in at <==> rs[i].request.seqNum > ckpt))
  }

  ghost predicate TakenFrom(rs: seq<Record>, at: seq<nat>, out: seq<Record>) {
    |out| == |at| && forall k :: 0 <= k < |at| ==>
      at[k] < |rs| && out[k] == rs[at[k]].(request := rs[at[k]].request.(isRecovery := true))
  }

  /** Every record above the checkpoint once, in the order of the list, only marked as recovered. */
  ghost predicate Delivers(rs: seq<Record>, ckpt: int, out: seq<Record>) {
    exists at :: PositionsAbove(rs, ckpt, at) && TakenFrom(rs, at, out)
  }

  function Shifted(at: seq<nat>): (r: seq<nat>)
    ensures |r| == |at| && forall k :: 0 <= k < |at| ==> r[k] == at[k] + 1
  {
    seq(|at|, k requires 0 <= k < |at| => at[k] + 1)
  }

  lemma ShiftedHas(at: seq<nat>, i: nat)
    ensures i in Shifted(at) <==> i > 0 && i - 1 in at
  {
    if i > 0 && i - 1 in at {
      var k :| 0 <= k < |at| && at[k] == i - 1;
      assert Shifted(at)[k] == i;
    }
  }

  lemma FirstAndShifted(rs: seq<Record>, ckpt: int, rest: seq<nat>, at: seq<nat>)
    requires rs != [] && PositionsAbove(rs[1..], ckpt, rest)
    requires at == (if ckpt < rs[0].request.seqNum then [0] else []) + Shifted(rest)
    ensures PositionsAbove(rs, ckpt, at)
  {
    forall i | 0 <= i < |rs| ensures i in at <==> rs[i].request.seqNum > ckpt {
      ShiftedHas(rest, i);
      if i > 0 { assert rs[1..][i - 1] == rs[i]; }
    }
  }

  lemma TakenInFront(rs: seq<Record>, rest: seq<nat>, tail: seq<Record>)
    requires rs != [] && TakenFrom(rs[1..], rest, tail)
    ensures TakenFrom(rs, Shifted(rest), tail) && TakenFrom(rs, [0] + Shifted(rest), [Recovered(rs[0])] + tail)
  {
    forall k | 0 <= k < |rest| ensures Shifted(rest)[k] < |rs| && tail[k] == Recovered(rs[Shifted(rest)[k]]) {
      assert rs[1..][rest[k]] == rs[rest[k] + 1];
    }
  }

  lemma {:induction false} AbovePositions(rs: seq<Record>, ckpt: int) returns (at: seq<nat>)
    ensures PositionsAbove(rs, ckpt, at) && TakenFrom(rs, at, Above(rs, ckpt))
  {
    if rs == [] {
      at := [];
    } else {
      hide PositionsAbove, TakenFrom, Shifted, Recovered;
      var rest := AbovePositions(rs[1..], ckpt);
      at := (if ckpt < rs[0].request.seqNum then [0] else []) + Shifted(rest);
      FirstAndShifted(rs, ckpt, rest, at);
      TakenInFront(rs, rest, Above(rs[1..], ckpt));
      assert [] + Shifted(rest) == Shifted(rest);
    }
  }

  lemma AboveDelivers(rs: seq<Record>, ckpt: int)
    ensures Delivers(rs, ckpt, Above(rs, ckpt))
  {
    var at := AbovePositions(rs, ckpt);
  }

  // ---------------------------------------------------------------- crash prefixes

  lemma ReadBlockOfFrame(before: Bytes, data: Bytes, after: Bytes)
    requires |data| < LIMIT
    ensures ReadBlock(before + Frame(data) + after, |before|) == Some(Chunk(data, |before| + WORD + |data|))
  {
    var file, pos := before + Frame(data) + after, |before|;
    assert file[pos..pos + WORD] == Word(|data|);
    WordRoundTrip(|data|);
    assert file[pos + WORD..pos + WORD + |data|] == data;
  }

  /** A frame that the end of the file cuts is not read, wherever the cut falls. */
  lemma ReadBlockOfCutFrame(before: Bytes, data: Bytes, cut: nat)
    requires |data| < LIMIT && cut < |Frame(data)|
    ensures ReadBlock(before + Frame(data)[..cut], |before|).None?
  {
    var file, pos := before + Frame(data)[..cut], |before|;
    if cut >= WORD {
      assert file[pos..pos + WORD] == Word(|data|);
      WordRoundTrip(|data|);
    }
  }

  lemma ItemInFront(before: Bytes, item: Bytes, rest: Bytes)
    requires |item| < LIMIT
    ensures var data, pos := before + Frame(item) + rest, |before|;
            Items(data, pos) == Behind([item], Items(data, pos + |Frame(item)|))
  {
    var data, pos := before + Frame(item) + rest, |before|;
    assert data[pos..pos + WORD] == Word(|item|);
    WordRoundTrip(|item|);
    assert data[pos + WORD..pos + WORD + |item|] == item;
  }

  lemma {:induction false} ItemsOfFrames(before: Bytes, items: seq<Bytes>)
    requires forall i :: 0 <= i < |items| ==> |items[i]| < LIMIT
    ensures Items(before + Frames(items), |before|) == Some(items)
    decreases |items|
  {
    var data, pos := before + Frames(items), |before|;
    if items != [] {
      assert data == before + Frame(items[0]) + Frames(items[1..]);
      ItemInFront(before, items[0], Frames(items[1..]));
      ItemsOfFrames(before + Frame(items[0]), items[1..]);
      assert [items[0]] + items[1..] == items;
    }
  }

  lemma ParseBlockOfRecord(c: Codec, r: Record)
    requires Faithful(c) && Fits(c, r)
    ensures ParseBlock(c, Payload(c, r)) == Some([r])
    ensures |Payload(c, r)| < LIMIT
  {
    var items := [c.encReq(r.request), c.encSig(r.signature)];
    FramesOfOneAndTwo(items[0], items[1]);
    ItemsOfFrames([], items);
    assert [] + Frames(items) == Payload(c, r);
    assert Items(Payload(c, r), 0) == Some(items);
    assert items[2..] == [] && Pairs(c, []) == Some([]);
    assert Pairs(c, items) == Behind([r], Some([])) && [r] + [] == [r];
  }

  /** How many whole blocks fit into `budget` bytes. */
  function Whole(c: Codec, rs: seq<Record>, budget: nat): (k: nat)
    ensures k <= |rs|
  {
    if rs == [] || |Block(c, rs[0])| > budget then 0 else 1 + Whole(c, rs[1..], budget - |Block(c, rs[0])|)
  }

  /** `Whole` counts the blocks that survive: all of them fit, and one more would not. */
  lemma {:induction false} WholeIsMaximal(c: Codec, rs: seq<Record>, budget: nat)
    ensures var k := Whole(c, rs, budget);
            |Blocks(c, rs[..k])| <= budget && (k < |rs| ==> |Blocks(c, rs[..k + 1])| > budget)
  {
    if rs != [] && |Block(c, rs[0])| <= budget {
      var k := Whole(c, rs[1..], budget - |Block(c, rs[0])|);
      WholeIsMaximal(c, rs[1..], budget - |Block(c, rs[0])|);
      assert rs[..k + 1][1..] == rs[1..][..k];
      if k + 1 < |rs| { assert rs[..k + 2][1..] == rs[1..][..k + 1]; }
    } else if rs != [] {
      assert rs[..1][1..] == [];
    }
  }

  /** A whole block in front contributes its record. */
  lemma ReplayWholeBlock(c: Codec, before: Bytes, r: Record, after: Bytes, read: seq<Record>)
    requires Faithful(c) && Fits(c, r)
    ensures var file := before + Block(c, r) + after;
            Replay(c, file, |before|, read) == Replay(c, file, |before + Block(c, r)|, read + [r])
  {
    hide ReadBlock, ParseBlock, Payload, Frame;
    ParseBlockOfRecord(c, r);
    ReadBlockOfFrame(before, Payload(c, r), after);
  }

  /** A cut block contributes nothing and ends the reading. */
  lemma ReplayCutBlock(c: Codec, before: Bytes, r: Record, cut: nat, read: seq<Record>)
    requires Faithful(c) && Fits(c, r) && cut < |Block(c, r)|
    ensures Replay(c, before + Block(c, r)[..cut], |before|, read) == Some(read)
  {
    ParseBlockOfRecord(c, r);
    ReadBlockOfCutFrame(before, Payload(c, r), cut);
  }

  lemma CutInsideOrBehind(c: Codec, before: Bytes, rs: seq<Record>, cut: nat)
    requires rs != [] && cut <= |Blocks(c, rs)|
    ensures var b := Block(c, rs[0]);
            if |b| > cut then before + Blocks(c, rs)[..cut] == before + b[..cut]
            else cut - |b| <= |Blocks(c, rs[1..])| &&
                 before + Blocks(c, rs)[..cut] == before + b + Blocks(c, rs[1..])[..cut - |b|]
  {
  }

  lemma ReplayBehindWhole(c: Codec, before: Bytes, rs: seq<Record>, cut: nat, read: seq<Record>, k: nat)
    requires Faithful(c) && rs != [] && Fits(c, rs[0]) && |Block(c, rs[0])| <= cut <= |Blocks(c, rs)| && k < |rs|
    requires var b := Block(c, rs[0]);
             Replay(c, before + b + Blocks(c, rs[1..])[..cut - |b|], |before + b|, read + [rs[0]]) ==
             Some(read + [rs[0]] + rs[1..][..k])
    ensures Replay(c, before + Blocks(c, rs)[..cut], |before|, read) == Some(read + rs[..k + 1])
  {
    hide *;
    CutInsideOrBehind(c, before, rs, cut);
    ReplayWholeBlock(c, before, rs[0], Blocks(c, rs[1..])[..cut - |Block(c, rs[0])|], read);
    assert read + [rs[0]] + rs[1..][..k] == read + rs[..k + 1];
  }

  lemma ReplayAtEnd(c: Codec, file: Bytes, read: seq<Record>)
    ensures Replay(c, file, |file|, read) == Some(read)
  {
  }

  lemma {:induction false} ReplayOfCut(c: Codec, before: Bytes, rs: seq<Record>, cut: nat, read: seq<Record>)
    requires Faithful(c) && AllFit(c, rs) && cut <= |Blocks(c, rs)|
    ensures Replay(c, before + Blocks(c, rs)[..cut], |before|, read) == Some(read + rs[..Whole(c, rs, cut)])
    decreases |rs|
  {
    hide Replay, Block;
    if rs == [] {
      ReplayAtEnd(c, before + Blocks(c, rs)[..cut], read);
      assert read + rs[..0] == read;
    } else if |Block(c, rs[0])| > cut {
      CutInsideOrBehind(c, before, rs, cut);
      ReplayCutBlock(c, before, rs[0], cut, read);
      assert read + rs[..0] == read;
    } else {
      var b := Block(c, rs[0]);
      ReplayOfCut(c, before + b, rs[1..], cut - |b|, read + [rs[0]]);
      ReplayBehindWhole(c, before, rs, cut, read, Whole(c, rs[1..], cut - |b|));
    }
  }

  lemma ReadInfo(c: Codec, info: SystemInfo, rest: Bytes)
    requires Faithful(c) && InfoFits(c, info)
    ensures ReadBlock(InfoBlock(c, info) + rest, 0) == Some(Chunk(Frame(c.encInfo(info)), |InfoBlock(c, info)|))
    ensures Items(Frame(c.encInfo(info)), 0) == Some([c.encInfo(info)])
  {
    var payload := Frame(c.encInfo(info));
    assert [] + Frame(payload) + rest == InfoBlock(c, info) + rest;
    ReadBlockOfFrame([], payload, rest);
    FramesOfOneAndTwo(c.encInfo(info), []);
    ItemsOfFrames([], [c.encInfo(info)]);
    assert [] + payload == payload;
  }

  /** Crash safety: from a log cut anywhere behind its information block, exactly the records whose
      blocks survive whole and that lie above the checkpoint come back, in the order written. */
  lemma CrashPrefix(c: Codec, info: SystemInfo, rs: seq<Record>, cut: nat, ckpt: int)
    requires Faithful(c) && InfoFits(c, info) && AllFit(c, rs) && cut <= |Blocks(c, rs)|
    ensures ReadFile(c, Image(c, info, rs)[..|InfoBlock(c, info)| + cut], ckpt) ==
            Logs(info, Above(rs[..Whole(c, rs, cut)], ckpt))
    ensures Delivers(rs[..Whole(c, rs, cut)], ckpt, Above(rs[..Whole(c, rs, cut)], ckpt))
  {
    hide Replay, Above, Blocks, Whole, InfoBlock, Items, Frame, Delivers;
    AboveDelivers(rs[..Whole(c, rs, cut)], ckpt);
    var ib, rest := InfoBlock(c, info), Blocks(c, rs)[..cut];
    assert Image(c, info, rs)[..|ib| + cut] == ib + rest;
    ReadInfo(c, info, rest);
    ReplayOfCut(c, ib, rs, cut, []);
    assert [] + rs[..Whole(c, rs, cut)] == rs[..Whole(c, rs, cut)];
  }

  lemma {:induction false} WholeOfAll(c: Codec, rs: seq<Record>)
    ensures Whole(c, rs, |Blocks(c, rs)|) == |rs|
  {
    if rs != [] { WholeOfAll(c, rs[1..]); }
  }

  /** An intact log gives everything above the checkpoint back. */
  lemma IntactFile(c: Codec, info: SystemInfo, rs: seq<Record>, ckpt: int)
    requires Faithful(c) && InfoFits(c, info) && AllFit(c, rs)
    ensures ReadFile(c, Image(c, info, rs), ckpt) == Logs(info, Above(rs, ckpt)) && Delivers(rs, ckpt, Above(rs, ckpt))
  {
    hide ReadFile, Above, Blocks, Whole, InfoBlock, Delivers;
    AboveDelivers(rs, ckpt);
    CrashPrefix(c, info, rs, |Blocks(c, rs)|, ckpt);
    WholeOfAll(c, rs);
    assert Image(c, info, rs)[..|InfoBlock(c, info)| + |Blocks(c, rs)|] == Image(c, info, rs);
    assert rs[..|rs|] == rs;
  }
}
