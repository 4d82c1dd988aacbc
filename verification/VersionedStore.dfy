/** Two key-value stores that keep every version of a value, as refinements of one specification. */
module VersionedStore {
  import opened Common

  datatype Entry = Entry(value: string, version: int)

  // ---------------------------------------------------------------- specification

  /** The values of a key, version v at position v - 1. */
  type Versions = seq<string>

  function ValuesOf(s: map<string, Versions>, key: string): Versions { if key in s then s[key] else [] }

  predicate Accepts(values: Versions, version: int) { version == |values| }

  function Lookup(values: Versions, version: int): Entry {
    if values == [] then Entry("", 0)
    else if 1 <= version <= |values| then Entry(values[version - 1], version)
    else Entry(values[|values| - 1], |values|)
  }

  /** Versions hi down to lo. */
  function Down(values: Versions, hi: int, lo: int): seq<Entry>
    requires hi <= |values| && lo >= 1
    decreases hi - lo
  {
    if hi < lo then [] else Down(values, hi, lo + 1) + [Entry(values[lo - 1], lo)]
  }

  function History(values: Versions, min: int, max: int): seq<Entry> {
    Down(values, if max < |values| then max else |values|, if min < 1 then 1 else min)
  }

  type Int32 = x: int | -0x8000_0000 <= x <= 0x7fff_ffff

  const SIZE_LIMIT: nat := 0x1_0000_0000_0000_0000

  /** static_cast<size_t>. */
  function AsSize(n: Int32): int { if n < 0 then n + SIZE_LIMIT else n }

  /** The newest n versions, newest first. */
  function Newest(values: Versions, n: int): seq<Entry> {
    if n <= 0 then [] else Down(values, |values|, if n < |values| then |values| - n + 1 else 1)
  }

  /** MemoryDB takes a version before it looks at the number. */
  function TopAtLeastOne(values: Versions, number: Int32): seq<Entry> {
    Newest(values, if number == 0 then 1 else AsSize(number))
  }

  function TopExactly(values: Versions, number: Int32): seq<Entry> { Newest(values, AsSize(number)) }

  function Latest(s: map<string, Versions>): map<string, Entry> {
    map k | k in s && s[k] != [] :: Entry(s[k][|s[k]| - 1], |s[k]|)
  }

  // ---------------------------------------------------------------- in memory

  predicate Numbered(entries: seq<Entry>) {
    forall i :: 0 <= i < |entries| ==> entries[i].version == i + 1
  }

  function Strip(entries: seq<Entry>): (r: Versions)
    ensures |r| == |entries| && forall i :: 0 <= i < |r| ==> r[i] == entries[i].value
  {
    seq(|entries|, i requires 0 <= i < |entries| => entries[i].value)
  }

  /** The backward scans both stores make over one key's entries. */
  method Scan(entries: seq<Entry>, version: int) returns (found: Option<Entry>)
    requires Numbered(entries)
    ensures found == if 1 <= version <= |entries| then Some(Entry(Strip(entries)[version - 1], version)) else None
  {
    var i := |entries|;
    while i > 0
      invariant 0 <= i <= |entries| && (version > i ==> version > |entries|)
    {
      i := i - 1;
      if entries[i].version == version { return Some(entries[i]); }
      if entries[i].version < version { break; }
    }
    found := None;
  }

  method ScanHistory(entries: seq<Entry>, min: int, max: int) returns (r: seq<Entry>)
    requires Numbered(entries)
    ensures r == History(Strip(entries), min, max)
  {
    ghost var values := Strip(entries);
    ghost var hi := if max < |values| then max else |values|;
    r := [];
    var i := |entries|;
    while i > 0
      invariant 0 <= i <= |entries| && r == Down(values, hi, i + 1)
      invariant i < |entries| ==> i + 1 >= min
    {
      if entries[i - 1].version < min { break; }
      if entries[i - 1].version <= max { r := r + [entries[i - 1]]; }
      i := i - 1;
    }
    if i + 1 < min { EmptyDown(values, hi, i + 1, min); }
  }

  lemma EmptyDown(values: Versions, hi: int, lo: int, min: int)
    requires hi <= |values| && 1 <= lo <= min && hi < lo
    ensures Down(values, hi, lo) == Down(values, hi, min) == []
  {}

  class MemoryDB {
    var kv: map<string, seq<Entry>>

    ghost predicate Valid()
      reads this
    {
      forall k :: k in kv ==> kv[k] != [] && Numbered(kv[k])
    }

    ghost function Abs(): map<string, Versions>
      reads this
    {
      map k | k in kv :: Strip(kv[k])
    }

    constructor ()
      ensures Valid() && Abs() == map[]
    {
      kv := map[];
    }

    method SetValueWithVersion(key: string, value: string, version: int) returns (code: int)
      requires Valid()
      modifies this
      ensures Valid() && code == if Accepts(ValuesOf(old(Abs()), key), version) then 0 else -2
      ensures Abs() == if code == 0 then old(Abs())[key := ValuesOf(old(Abs()), key) + [value]] else old(Abs())
    {
      if (key !in kv && version != 0) || (key in kv && kv[key][|kv[key]| - 1].version != version) { return -2; }
      var entries := (if key in kv then kv[key] else []) + [Entry(value, version + 1)];
      assert Strip(entries) == ValuesOf(Abs(), key) + [value];
      kv := kv[key := entries];
      code := 0;
    }

    method GetValueWithVersion(key: string, version: int) returns (e: Entry)
      requires Valid()
      ensures e == Lookup(ValuesOf(Abs(), key), version)
    {
      if key !in kv { return Entry("", 0); }
      var found := Scan(kv[key], version);
      e := if found.Some? then found.value else kv[key][|kv[key]| - 1];
    }

    method GetAllItems() returns (items: map<string, Entry>)
      requires Valid()
      ensures items == Latest(Abs())
    {
      items := map k | k in kv :: kv[k][|kv[k]| - 1];
    }

    method GetHistory(key: string, min: int, max: int) returns (r: seq<Entry>)
      requires Valid()
      ensures r == History(ValuesOf(Abs(), key), min, max)
    {
      if key !in kv {
        r := ScanHistory([], min, max);
      } else {
        r := ScanHistory(kv[key], min, max);
      }
    }

    method GetTopHistory(key: string, number: Int32) returns (r: seq<Entry>)
      requires Valid() && |ValuesOf(Abs(), key)| <= 0x7fff_ffff
      ensures r == TopAtLeastOne(ValuesOf(Abs(), key), number)
    {
      r := [];
      if key !in kv { return; }
      var entries := kv[key];
      ghost var values := Strip(entries);
      var i, more := |entries|, true;
      while more
        invariant 0 <= i <= |entries| && |r| == |entries| - i && r == Down(values, |values|, i + 1)
        invariant more ==> i > 0 && (|r| == 0 || |r| < AsSize(number))
        invariant !more ==> |r| > 0 && (i == 0 || |r| >= AsSize(number)) && (|r| == 1 || |r| - 1 < AsSize(number))
        decreases i, more
      {
        i := i - 1;
        r := r + [entries[i]];
        more := |r| < AsSize(number) && i > 0;
      }
    }
  }

  // ---------------------------------------------------------------- on disk

  /** Protobuf's encoding of a history; the empty string is the empty history. */
  datatype Codec = Codec(serialize: seq<Entry> -> string, parse: string -> Option<seq<Entry>>)

  ghost predicate Faithful(c: Codec) {
    c.parse("") == Some([]) && forall h :: c.parse(c.serialize(h)) == Some(h)
  }

  /** A stored string is the encoding of a numbered history. */
  ghost predicate Encodes(c: Codec, text: string, values: Versions) {
    exists h :: IsHistory(c, text, values, h)
  }

  ghost predicate IsHistory(c: Codec, text: string, values: Versions, h: seq<Entry>) {
    text == c.serialize(h) && Numbered(h) && Strip(h) == values && h != []
  }

  ghost predicate AllEncode(c: Codec, texts: map<string, string>, values: map<string, Versions>) {
    texts.Keys == values.Keys && forall k :: k in texts ==> Encodes(c, texts[k], values[k])
  }

  lemma NoneEncodes(c: Codec)
    ensures AllEncode(c, map[], map[])
  {}

  lemma PutEncodes(c: Codec, texts: map<string, string>, values: map<string, Versions>, k: string, text: string,
                   v: Versions)
    requires AllEncode(c, texts, values) && Encodes(c, text, v)
    ensures AllEncode(c, texts[k := text], values[k := v])
  {}

  lemma MergeEncodes(c: Codec, a: map<string, string>, x: map<string, Versions>, b: map<string, string>,
                     y: map<string, Versions>)
    requires AllEncode(c, a, x) && AllEncode(c, b, y)
    ensures AllEncode(c, a + b, x + y)
  {}

  lemma LastVersion(h: seq<Entry>)
    requires Numbered(h)
    ensures |h| > 0 ==> h[|h| - 1].version == |h|
  {}

  /** One entry more, with the next version, encodes one value more. */
  lemma NextEncodes(c: Codec, h: seq<Entry>, value: string)
    requires Numbered(h)
    ensures Encodes(c, c.serialize(h + [Entry(value, |h| + 1)]), Strip(h) + [value])
  {
    var longer := h + [Entry(value, |h| + 1)];
    assert Strip(longer) == Strip(h) + [value];
    assert IsHistory(c, c.serialize(longer), Strip(h) + [value], longer);
  }

  class ResLevelDB {
    const codec: Codec
    var db: map<string, string>
    var batch: map<string, string>
    ghost var versions: map<string, Versions>
    ghost var unwritten: map<string, Versions>

    /** Disk and write batch hold encoded histories. */
    ghost predicate Valid()
      reads this
    {
      Faithful(codec) && AllEncode(codec, db, versions) && AllEncode(codec, batch, unwritten)
    }

    constructor (codec: Codec)
      requires Faithful(codec)
      ensures Valid() && this.codec == codec && versions == unwritten == map[]
    {
      this.codec := codec;
      db, batch, versions, unwritten := map[], map[], map[], map[];
    }

    /** Puts into the write batch, which goes to disk once it is large enough. */
    method SetValue(key: string, value: string, full: bool)
      modifies this`db, this`batch
      ensures db == if full then old(db) + old(batch)[key := value] else old(db)
      ensures batch == if full then map[] else old(batch)[key := value]
    {
      batch := batch[key := value];
      if full { db, batch := db + batch, map[]; }
    }

    /** Reads the disk only. */
    method Load(key: string) returns (h: seq<Entry>)
      requires Valid()
      ensures Numbered(h) && Strip(h) == ValuesOf(versions, key)
      ensures key in db ==> h != []
    {
      var text := if key in db then db[key] else "";
      if key in db {
        assert Encodes(codec, db[key], versions[key]);
        ghost var stored :| IsHistory(codec, db[key], versions[key], stored);
        assert codec.parse(text) == Some(stored);
      }
      h := codec.parse(text).value;
    }

    /** The version is compared with the disk; the new history joins the batch, and goes out with it if full. */
    method SetValueWithVersion(key: string, value: string, version: int, full: bool) returns (code: int)
      requires Valid()
      modifies this
      ensures Valid() && code == if Accepts(ValuesOf(old(versions), key), version) then 0 else -2
      ensures var added := old(unwritten)[key := ValuesOf(old(versions), key) + [value]];
              if code == 0 && full then versions == old(versions) + added && unwritten == map[]
              else versions == old(versions) && unwritten == if code == 0 then added else old(unwritten)
    {
      hide Encodes, Numbered, AllEncode;
      var history := Load(key);
      var last := if |history| > 0 then history[|history| - 1].version else 0;
      LastVersion(history);
      if last != version { return -2; }
      NextEncodes(codec, history, value);
      var text := codec.serialize(history + [Entry(value, version + 1)]);
      unwritten := unwritten[key := ValuesOf(versions, key) + [value]];
      PutEncodes(codec, batch, old(unwritten), key, text, unwritten[key]);
      MergeEncodes(codec, db, versions, batch[key := text], unwritten);
      SetValue(key, text, full);
      if full {
        versions, unwritten := versions + unwritten, map[];
        NoneEncodes(codec);
      }
      code := 0;
    }

    /** Writes the batch out, whatever its size. */
    method Flush()
      requires Valid()
      modifies this
      ensures Valid() && versions == old(versions) + old(unwritten) && unwritten == map[]
    {
      hide AllEncode;
      MergeEncodes(codec, db, versions, batch, unwritten);
      NoneEncodes(codec);
      db, batch := db + batch, map[];
      versions, unwritten := versions + unwritten, map[];
    }

    method GetValueWithVersion(key: string, version: int) returns (e: Entry)
      requires Valid()
      ensures e == Lookup(ValuesOf(versions, key), version)
    {
      var history := Load(key);
      if |history| == 0 { return Entry("", 0); }
      var found := None;
      if version > 0 { found := Scan(history, version); }
      e := if found.Some? then found.value else history[|history| - 1];
    }

    method GetAllItems() returns (items: map<string, Entry>)
      requires Valid()
      ensures items == Latest(versions)
    {
      hide Encodes;
      var todo := db.Keys;
      items := map[];
      while todo != {}
        invariant todo <= db.Keys
        invariant forall k :: k in items <==> k in db && k !in todo
        invariant forall k :: k in items ==> k in Latest(versions) && items[k] == Latest(versions)[k]
        decreases |todo|
      {
        var key :| key in todo;
        var history := Load(key);
        items := items[key := history[|history| - 1]];
        todo := todo - {key};
      }
    }

    method GetHistory(key: string, min: int, max: int) returns (r: seq<Entry>)
      requires Valid()
      ensures r == History(ValuesOf(versions, key), min, max)
    {
      var history := Load(key);
      r := ScanHistory(history, min, max);
    }

    method GetTopHistory(key: string, number: Int32) returns (r: seq<Entry>)
      requires Valid() && |ValuesOf(versions, key)| <= 0x7fff_ffff
      ensures r == TopExactly(ValuesOf(versions, key), number)
    {
      var history := Load(key);
      ghost var values := Strip(history);
      r := [];
      var i := |history|;
      while i > 0 && |r| < AsSize(number)
        invariant 0 <= i <= |history| && |r| == |history| - i && r == Down(values, |values|, i + 1)
        invariant |r| <= AsSize(number) || |r| == 0
      {
        i := i - 1;
        r := r + [history[i]];
      }
    }
  }

  // ---------------------------------------------------------------- what a range holds

  lemma {:induction false} DownAt(values: Versions, hi: int, lo: int)
    requires hi <= |values| && lo >= 1
    ensures var r := Down(values, hi, lo);
            && |r| == (if hi < lo then 0 else hi - lo + 1)
            && forall i :: 0 <= i < |r| ==> r[i] == Entry(values[hi - i - 1], hi - i)
    decreases hi - lo
  {
    if hi >= lo { DownAt(values, hi, lo + 1); }
  }

  /** A range holds exactly the versions that exist within it, newest first. */
  lemma HistoryExact(values: Versions, min: int, max: int)
    ensures var r := History(values, min, max);
            && (forall i :: 0 <= i < |r| ==> min <= r[i].version <= max && 1 <= r[i].version <= |values|
                                             && r[i].value == values[r[i].version - 1])
            && (forall i :: 0 <= i < |r| - 1 ==> r[i].version == r[i + 1].version + 1)
            && (forall i :: 0 <= i < |values| && min <= i + 1 <= max ==> Entry(values[i], i + 1) in r)
  {
    var hi, lo := if max < |values| then max else |values|, if min < 1 then 1 else min;
    DownAt(values, hi, lo);
    var r := History(values, min, max);
    forall i | 0 <= i < |values| && min <= i + 1 <= max ensures Entry(values[i], i + 1) in r {
      assert r[hi - i - 1] == Entry(values[i], i + 1);
    }
  }
}
