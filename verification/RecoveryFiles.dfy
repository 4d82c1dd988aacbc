/**
 Log file names, printed by GenerateFile and parsed back when recovering, and the choice of
 the files to replay.
 */
module RecoveryFiles {
  import opened Common
  import opened LengthPrefix
  import opened WriteAheadLog

  // ---------------------------------------------------------------- decimal numbers

  predicate IsDigit(c: char) { '0' <= c <= '9' }

  function DigitChar(d: nat): (c: char)
    requires d < 10
    ensures IsDigit(c) && (c as int) - ('0' as int) == d
  {
    (d + ('0' as int)) as char
  }

  /** std::to_string of a non-negative number. */
  function Digits(n: nat): (s: string)
    ensures |s| >= 1 && forall i :: 0 <= i < |s| ==> IsDigit(s[i])
  {
    if n < 10 then [DigitChar(n)] else Digits(n / 10) + [DigitChar(n % 10)]
  }

  function ToString(n: int): string { if n < 0 then "-" + Digits(-n) else Digits(n) }

  /** The value of the leading digits, behind those already read. */
  function LeadingValue(s: string, acc: nat): nat {
    if s == [] || !IsDigit(s[0]) then acc else LeadingValue(s[1..], 10 * acc + (s[0] as int - '0' as int))
  }

  /** std::stoll: an optional sign and digits, anything behind them ignored; None where it throws. */
  function Stoll(s: string): Option<int> {
    var body := if s != [] && (s[0] == '-' || s[0] == '+') then s[1..] else s;
    if body == [] || !IsDigit(body[0]) then None
    else
      var v: int := LeadingValue(body, 0);
      Some(if s[0] == '-' then -v else v)
  }

  lemma {:induction false} LeadingValueOfDigits(n: nat, rest: string)
    ensures LeadingValue(Digits(n) + rest, 0) == LeadingValue(rest, n)
  {
    if n < 10 {
      assert (Digits(n) + rest)[1..] == rest;
    } else {
      var d := [DigitChar(n % 10)];
      assert Digits(n) + rest == Digits(n / 10) + (d + rest);
      LeadingValueOfDigits(n / 10, d + rest);
      assert (d + rest)[1..] == rest;
    }
  }

  /** Reading back a printed number, whatever non-digit text follows it. */
  lemma StollOfToString(n: int, rest: string)
    requires rest == [] || !IsDigit(rest[0])
    ensures Stoll(ToString(n) + rest) == Some(n)
  {
    var k: nat := if n < 0 then -n else n;
    LeadingValueOfDigits(k, rest);
    var s := ToString(n) + rest;
    if n < 0 { assert s[1..] == Digits(k) + rest; } else { assert s == Digits(k) + rest; }
    assert (Digits(k) + rest)[0] == Digits(k)[0];
  }

  // ---------------------------------------------------------------- names

  datatype Name = Name(time: int, minSeq: int, maxSeq: int, ckpt: int)

  /** The file stem that GenerateFile builds. */
  function NameStem(base: string, n: Name): string {
    base + "_" + ToString(n.time) + "_" + ToString(n.minSeq) + "_" + ToString(n.maxSeq) + "_" + ToString(n.ckpt)
  }

  /** GenerateFile: the base path's own extension, which starts with a dot, is put behind another dot. */
  function GenerateFile(base: string, ext: string, n: Name): string {
    NameStem(base, n) + "." + (if ext == "" then "log" else ext)
  }

  /** rfind: the last position that holds `c`, or -1. */
  function RFind(s: string, c: char): (p: int)
    ensures -1 <= p < |s| && (p >= 0 ==> s[p] == c)
  {
    if s == [] then -1 else if s[|s| - 1] == c then |s| - 1 else RFind(s[..|s| - 1], c)
  }

  /** std::filesystem's stem and extension of a file name: split at the last dot, unless it comes first. */
  function Stem(file: string): string {
    var p := RFind(file, '.');
    if p <= 0 then file else file[..p]
  }

  function Extension(file: string): string {
    var p := RFind(file, '.');
    if p <= 0 then "" else file[p..]
  }

  /** The text in front of and behind the last underscore; everything is behind when there is none. */
  datatype Cut = Cut(front: string, field: string)

  function LastField(s: string): Cut {
    var p := RFind(s, '_');
    if p < 0 then Cut("", s) else Cut(s[..p], s[p + 1..])
  }

  /** The numbers between and behind the last four underscores, found from right to left. */
  function ParseStem(s: string): Option<Name> {
    var k := LastField(s);
    var h := LastField(k.front);
    var l := LastField(h.front);
    var t := LastField(l.front);
    var ckpt, hi, lo, time := Stoll(k.field), Stoll(h.field), Stoll(l.field), Stoll(t.field);
    if time.Some? && lo.Some? && hi.Some? && ckpt.Some?
    then Some(Name(time.value, lo.value, hi.value, ckpt.value)) else None
  }

  /** A directory entry as recovery sees it: only ".log" files are looked at. */
  function ReadEntry(file: string): Option<Name> {
    if Extension(file) != ".log" then None else ParseStem(Stem(file))
  }

  predicate Lacks(s: string, c: char) { forall i :: 0 <= i < |s| ==> s[i] != c }

  lemma {:induction false} RFindSeparator(front: string, c: char, field: string)
    requires Lacks(field, c)
    ensures RFind(front + [c] + field, c) == |front|
    decreases |field|
  {
    var s := front + [c] + field;
    if field == [] {
      assert s[|s| - 1] == c;
    } else {
      assert s[|s| - 1] == field[|field| - 1];
      assert s[..|s| - 1] == front + [c] + field[..|field| - 1];
      RFindSeparator(front, c, field[..|field| - 1]);
    }
  }

  lemma LastFieldOf(front: string, field: string)
    requires Lacks(field, '_')
    ensures LastField(front + "_" + field) == Cut(front, field)
  {
    RFindSeparator(front, '_', field);
    var s := front + "_" + field;
    assert s[..|front|] == front && s[|front| + 1..] == field;
  }

  lemma ToStringLacks(n: int)
    ensures Lacks(ToString(n), '_') && Lacks(ToString(n), '.')
  {
  }

  lemma StollOfField(n: int)
    ensures Stoll(ToString(n)) == Some(n) && Lacks(ToString(n), '_')
  {
    StollOfToString(n, "");
    assert ToString(n) + "" == ToString(n);
    ToStringLacks(n);
  }

  /** The cuts of a printed name, from right to left. */
  lemma CutsOfName(base: string, n: Name, tail: string)
    requires Lacks(tail, '_')
    ensures var p1 := base + "_" + ToString(n.time); var p2 := p1 + "_" + ToString(n.minSeq);
            var p3 := p2 + "_" + ToString(n.maxSeq);
            && LastField(NameStem(base, n) + tail) == Cut(p3, ToString(n.ckpt) + tail)
            && LastField(p3) == Cut(p2, ToString(n.maxSeq)) && LastField(p2) == Cut(p1, ToString(n.minSeq))
            && LastField(p1) == Cut(base, ToString(n.time))
  {
    var p1 := base + "_" + ToString(n.time);
    var p2 := p1 + "_" + ToString(n.minSeq);
    var p3 := p2 + "_" + ToString(n.maxSeq);
    ToStringLacks(n.time); ToStringLacks(n.minSeq); ToStringLacks(n.maxSeq); ToStringLacks(n.ckpt);
    LastFieldOf(base, ToString(n.time));
    LastFieldOf(p1, ToString(n.minSeq));
    LastFieldOf(p2, ToString(n.maxSeq));
    LastFieldOf(p3, ToString(n.ckpt) + tail);
    assert NameStem(base, n) + tail == p3 + "_" + (ToString(n.ckpt) + tail);
  }

  lemma ParseStemOfName(base: string, n: Name, tail: string)
    requires tail == "" || tail == "."
    ensures ParseStem(NameStem(base, n) + tail) == Some(n)
  {
    CutsOfName(base, n, tail);
    StollOfField(n.time);
    StollOfField(n.minSeq);
    StollOfField(n.maxSeq);
    StollOfToString(n.ckpt, tail);
  }

  /** A path's extension: empty, or a dot and text without further dots. */
  predicate IsExtension(ext: string) { ext == "" || (ext[0] == '.' && Lacks(ext[1..], '.')) }

  lemma SplitAtLastDot(stem: string, ext: string)
    requires stem != "" && ext != "" && IsExtension(ext)
    ensures Stem(stem + ext) == stem && Extension(stem + ext) == ext
  {
    var s := stem + ext;
    assert s == stem + ['.'] + ext[1..];
    RFindSeparator(stem, '.', ext[1..]);
  }

  /** Names survive printing and parsing for every base name, underscores and -1 fields included; and
      recovery sees the file at all exactly when the configured path had no extension or ".log". */
  lemma NameRoundTrip(base: string, ext: string, n: Name)
    requires IsExtension(ext)
    ensures ReadEntry(GenerateFile(base, ext, n)) == if ext == "" || ext == ".log" then Some(n) else None
  {
    var stem := NameStem(base, n);
    if ext == "" {
      assert GenerateFile(base, ext, n) == stem + ".log";
      SplitAtLastDot(stem, ".log");
      ParseStemOfName(base, n, "");
      assert stem + "" == stem;
    } else {
      assert GenerateFile(base, ext, n) == (stem + ".") + ext;
      SplitAtLastDot(stem + ".", ext);
      ParseStemOfName(base, n, ".");
    }
  }

  // ---------------------------------------------------------------- which files are replayed

  datatype DirEntry = DirEntry(file: string, bytes: Bytes)

  /** A directory entry that recovery looks at, with its name parsed. */
  datatype LogFile = LogFile(name: Name, bytes: Bytes) {
    /** An open file carries -1 where a finished one carries its smallest sequence number. */
    predicate Open() { name.minSeq == -1 }
  }

  /** The ".log" entries in directory order; None where a name does not parse, which throws. */
  function ParseDir(dir: seq<DirEntry>): Option<seq<LogFile>> {
    if dir == [] then Some([])
    else
      var before, last := ParseDir(dir[..|dir| - 1]), dir[|dir| - 1];
      if before.None? || Extension(last.file) != ".log" then before
      else if ReadEntry(last.file).None? then None
      else Some(before.value + [LogFile(ReadEntry(last.file).value, last.bytes)])
  }

  method ReadDirectory(dir: seq<DirEntry>) returns (files: Option<seq<LogFile>>)
    ensures files == ParseDir(dir)
  {
    hide Extension, Stem, ParseStem;
    var list: seq<LogFile> := [];
    for i := 0 to |dir|
      invariant ParseDir(dir[..i]) == Some(list)
    {
      assert dir[..i + 1][..i] == dir[..i];
      if Extension(dir[i].file) == ".log" {
        var name := ParseStem(Stem(dir[i].file));
        if name.None? {
          ThrowStays(dir, i + 1);
          return None;
        }
        list := list + [LogFile(name.value, dir[i].bytes)];
      }
    }
    assert dir[..|dir|] == dir;
    files := Some(list);
  }

  lemma {:induction false} ThrowStays(dir: seq<DirEntry>, n: nat)
    requires n <= |dir| && ParseDir(dir[..n]).None?
    ensures ParseDir(dir).None?
    decreases |dir|
  {
    if n == |dir| {
      assert dir[..n] == dir;
    } else {
      assert dir[..|dir| - 1][..n] == dir[..n];
      ThrowStays(dir[..|dir| - 1], n);
    }
  }

  function LastCkpt(dir: seq<LogFile>): (k: int)
    ensures k >= 0 && forall i :: 0 <= i < |dir| ==> dir[i].name.ckpt <= k
    ensures k == 0 || exists i :: 0 <= i < |dir| && dir[i].name.ckpt == k
  {
    if dir == [] then 0
    else
      var rest := LastCkpt(dir[..|dir| - 1]);
      if dir[|dir| - 1].name.ckpt > rest then dir[|dir| - 1].name.ckpt else rest
  }

  /** The filter GetRecoveryFiles applies to finished files. */
  predicate Chosen(f: LogFile, ckpt: int) {
    !f.Open() && f.name.minSeq <= ckpt && f.name.maxSeq >= ckpt
  }

  ghost predicate NewestOpen(dir: seq<LogFile>, f: LogFile) {
    f in dir && f.Open() && forall g :: g in dir && g.Open() ==> g.name.time <= f.name.time
  }

  ghost predicate SortedByTime(fs: seq<LogFile>) {
    forall i :: 0 < i < |fs| ==> fs[i - 1].name.time <= fs[i].name.time
  }

  function InsertAt<T(!new)>(s: seq<T>, p: nat, x: T): (r: seq<T>)
    requires p <= |s|
    ensures |r| == |s| + 1 && r[p] == x
    ensures forall k :: 0 <= k < p ==> r[k] == s[k]
    ensures forall k :: p < k < |r| ==> r[k] == s[k - 1]
    ensures forall y :: y in r <==> y in s || y == x
  {
    assert s == s[..p] + s[p..];
    s[..p] + [x] + s[p..]
  }

  /** Behind the files that are not younger. */
  function PlaceByTime(fs: seq<LogFile>, f: LogFile): (p: nat)
    ensures p <= |fs|
    ensures forall i :: 0 <= i < p ==> fs[i].name.time <= f.name.time
    ensures p < |fs| ==> f.name.time < fs[p].name.time
  {
    if fs == [] || f.name.time < fs[0].name.time then 0 else 1 + PlaceByTime(fs[1..], f)
  }

  lemma InsertSorted(fs: seq<LogFile>, f: LogFile)
    requires SortedByTime(fs)
    ensures SortedByTime(InsertAt(fs, PlaceByTime(fs, f), f))
  {}

  /** The files stand for different entries of the directory. */
  ghost predicate Placed(dir: seq<LogFile>, files: seq<LogFile>, at: seq<nat>) {
    |at| == |files| && Distinct(at) && forall k :: 0 <= k < |at| ==> at[k] < |dir| && files[k] == dir[at[k]]
  }

  lemma InsertPlaced(dir: seq<LogFile>, files: seq<LogFile>, at: seq<nat>, p: nat, i: nat)
    requires Placed(dir, files, at) && p <= |files| && i < |dir| && i !in at
    ensures Placed(dir, InsertAt(files, p, dir[i]), InsertAt(at, p, i))
  {
    hide InsertAt;
    var more := InsertAt(at, p, i);
    forall j, k | 0 <= j < k < |more| ensures more[j] != more[k] {
      if j == p { assert more[k] == at[k - 1]; } else if k == p { assert more[j] == at[j]; }
    }
  }

  /** The chosen finished files and a newest open one. */
  ghost predicate Picked(dir: seq<LogFile>, files: seq<LogFile>, ckpt: int) {
    && (forall f :: f in files ==> (Chosen(f, ckpt) && f in dir) || NewestOpen(dir, f))
    && (forall f :: f in dir && Chosen(f, ckpt) ==> f in files)
    && (exists f :: f in files && NewestOpen(dir, f))
  }

  /**
   * The chosen finished files and the newest open one, oldest first, with the largest checkpoint
   * named; `at` and `open` say which entries these are, so that each is there once.
   */
  method GetRecoveryFiles(dir: seq<LogFile>)
    returns (files: seq<LogFile>, lastCkpt: int, ghost at: seq<nat>, ghost open: nat)
    requires exists f :: f in dir && f.Open()
    ensures lastCkpt == LastCkpt(dir)
    ensures SortedByTime(files) && Picked(dir, files, lastCkpt)
    ensures Placed(dir, files, at) && open < |dir| && NewestOpen(dir, dir[open])
    ensures forall k :: k in at <==> Reads(dir, lastCkpt, open, k)
  {
    lastCkpt := FindCkpt(dir);
    var newest: LogFile;
    files, newest, at, open := PickFiles(dir, lastCkpt);
    var p := PlaceByTime(files, newest);
    InsertSorted(files, newest);
    InsertPlaced(dir, files, at, p, open);
    files, at := InsertAt(files, p, newest), InsertAt(at, p, open);
  }

  method FindCkpt(dir: seq<LogFile>) returns (lastCkpt: int)
    ensures lastCkpt == LastCkpt(dir)
  {
    lastCkpt := 0;
    for i := 0 to |dir|
      invariant lastCkpt == LastCkpt(dir[..i])
    {
      assert dir[..i + 1][..i] == dir[..i];
      if dir[i].name.ckpt > lastCkpt { lastCkpt := dir[i].name.ckpt; }
    }
    assert dir[..|dir|] == dir;
  }

  /** The finished files that span the checkpoint, oldest first, and the newest open one. */
  method PickFiles(dir: seq<LogFile>, lastCkpt: int)
    returns (files: seq<LogFile>, newest: LogFile, ghost at: seq<nat>, ghost open: nat)
    requires exists f :: f in dir && f.Open()
    ensures SortedByTime(files)
    ensures forall f :: f in files <==> f in dir && Chosen(f, lastCkpt)
    ensures open < |dir| && newest == dir[open] && NewestOpen(dir, newest)
    ensures Placed(dir, files, at) && forall i :: i in at <==> 0 <= i < |dir| && Chosen(dir[i], lastCkpt)
  {
    hide InsertAt, PlaceByTime, SortedByTime, Placed;
    files, at, open := [], [], 0;
    var found: Option<LogFile> := None;
    NonePlaced(dir);
    for i := 0 to |dir|
      invariant SortedByTime(files)
      invariant forall f :: f in files <==> f in dir[..i] && Chosen(f, lastCkpt)
      invariant found.Some? ==> open < i && found.value == dir[open] && NewestOpen(dir[..i], found.value)
      invariant found.None? ==> forall f :: f in dir[..i] ==> !f.Open()
      invariant Placed(dir, files, at) && forall k :: k in at <==> 0 <= k < i && Chosen(dir[k], lastCkpt)
      invariant |at| == |files|
    {
      assert dir[..i + 1] == dir[..i] + [dir[i]];
      if dir[i].Open() {
        if found.None? || found.value.name.time <= dir[i].name.time { found, open := Some(dir[i]), i; }
      } else if dir[i].name.minSeq <= lastCkpt && dir[i].name.maxSeq >= lastCkpt {
        var p := PlaceByTime(files, dir[i]);
        InsertSorted(files, dir[i]);
        ghost var here: nat := i;
        InsertPlaced(dir, files, at, p, here);
        files, at := InsertAt(files, p, dir[i]), InsertAt(at, p, here);
      }
    }
    assert dir[..|dir|] == dir;
    newest := found.value;
  }

  lemma NonePlaced(dir: seq<LogFile>)
    ensures SortedByTime([]) && Placed(dir, [], [])
  {}

  /** What reading one file hands on. */
  function Gives(c: Codec, f: LogFile, ckpt: int): seq<Record> {
    var out := ReadFile(c, f.bytes, ckpt);
    if out.Logs? then out.delivered else []
  }

  /** The records ReadLogs hands on, file after file. */
  function Replayed(c: Codec, files: seq<LogFile>, ckpt: int): seq<Record> {
    if files == [] then [] else Gives(c, files[0], ckpt) + Replayed(c, files[1..], ckpt)
  }

  function GivesEach(c: Codec, files: seq<LogFile>, ckpt: int): (r: seq<seq<Record>>)
    ensures |r| == |files| && forall k :: 0 <= k < |files| ==> r[k] == Gives(c, files[k], ckpt)
  {
    seq(|files|, k requires 0 <= k < |files| => Gives(c, files[k], ckpt))
  }

  /** One part after the other. */
  function Joined(parts: seq<seq<Record>>): seq<Record> {
    if parts == [] then [] else parts[0] + Joined(parts[1..])
  }

  lemma {:induction false} ReplayedJoins(c: Codec, files: seq<LogFile>, ckpt: int)
    ensures Replayed(c, files, ckpt) == Joined(GivesEach(c, files, ckpt))
  {
    hide Gives;
    if files != [] {
      ReplayedJoins(c, files[1..], ckpt);
      assert GivesEach(c, files, ckpt)[1..] == GivesEach(c, files[1..], ckpt);
    }
  }

  lemma {:induction false} ReplayedMembers(c: Codec, files: seq<LogFile>, ckpt: int, r: Record)
    ensures r in Replayed(c, files, ckpt) <==> exists f :: f in files && r in Gives(c, f, ckpt)
  {
    hide Gives;
    if files != [] {
      ReplayedMembers(c, files[1..], ckpt, r);
      assert forall f :: f in files <==> f == files[0] || f in files[1..];
    }
  }

  method ReadOne(c: Codec, f: LogFile, ckpt: int) returns (out: seq<Record>)
    ensures out == Gives(c, f, ckpt)
  {
    var read := ReadLogsFromFiles(c, f.bytes, ckpt);
    out := if read.Logs? then read.delivered else [];
  }

  method ReplayFiles(c: Codec, files: seq<LogFile>, ckpt: int) returns (out: seq<Record>)
    ensures out == Replayed(c, files, ckpt)
  {
    hide Gives;
    out := [];
    for k := 0 to |files|
      invariant out + Replayed(c, files[k..], ckpt) == Replayed(c, files, ckpt)
    {
      var one := ReadOne(c, files[k], ckpt);
      assert files[k..][1..] == files[k + 1..];
      out := out + one;
    }
  }

  // ---------------------------------------------------------------- what was logged and what comes back

  /**
   * A log as it was written: its name, its records, and how many bytes behind the information block
   * reached the disk.
   */
  datatype Log = Log(name: Name, info: SystemInfo, records: seq<Record>, cut: nat) {
    predicate Open() { name.minSeq == -1 }
  }

  /** A finished file is whole and named with its true range; the open one may be cut anywhere. */
  ghost predicate Sound(c: Codec, l: Log) {
    && InfoFits(c, l.info) && AllFit(c, l.records) && l.cut <= |Blocks(c, l.records)|
    && (!l.Open() ==>
          && l.cut == |Blocks(c, l.records)| && l.records != []
          && IsRange(l.records, l.name.minSeq, l.name.maxSeq))
  }

  function Content(c: Codec, l: Log): Bytes {
    var image, n := Image(c, l.info, l.records), |InfoBlock(c, l.info)| + l.cut;
    if n <= |image| then image[..n] else image
  }

  /** The records whose blocks survive whole. */
  function Survivors(c: Codec, l: Log): seq<Record> { l.records[..Whole(c, l.records, l.cut)] }

  /** An entry of a log directory: a log under the name GenerateFile gave it, or a file of another kind. */
  ghost predicate Describes(c: Codec, base: string, ext: string, e: DirEntry, l: Option<Log>) {
    if l.None? then Extension(e.file) != ".log"
    else Sound(c, l.value) && e == DirEntry(GenerateFile(base, ext, l.value.name), Content(c, l.value))
  }

  ghost predicate AllSound(c: Codec, logs: seq<Option<Log>>) {
    forall i :: 0 <= i < |logs| && logs[i].Some? ==> Sound(c, logs[i].value)
  }

  ghost predicate DescribesAll(c: Codec, base: string, ext: string, dir: seq<DirEntry>, logs: seq<Option<Log>>) {
    |dir| == |logs| && forall i :: 0 <= i < |dir| ==> Describes(c, base, ext, dir[i], logs[i])
  }

  /** The log files of the directory, as recovery parses them. */
  function FilesOf(c: Codec, logs: seq<Option<Log>>): seq<LogFile> {
    if logs == [] then []
    else
      var init, last := FilesOf(c, logs[..|logs| - 1]), logs[|logs| - 1];
      if last.None? then init else init + [LogFile(last.value.name, Content(c, last.value))]
  }

  /** A written directory parses: every name reads back and everything else is passed over. */
  lemma {:induction false} DirectoryRoundTrip(c: Codec, base: string, ext: string, dir: seq<DirEntry>,
                                              logs: seq<Option<Log>>)
    requires (ext == "" || ext == ".log") && DescribesAll(c, base, ext, dir, logs)
    ensures AllSound(c, logs) && ParseDir(dir) == Some(FilesOf(c, logs))
  {
    hide Content, Sound, GenerateFile;
    forall i | 0 <= i < |logs| && logs[i].Some? ensures Sound(c, logs[i].value) {
      assert Describes(c, base, ext, dir[i], logs[i]);
    }
    if dir != [] {
      var n := |dir| - 1;
      DirectoryRoundTrip(c, base, ext, dir[..n], logs[..n]);
      assert Describes(c, base, ext, dir[n], logs[n]);
      if logs[n].Some? { NameRoundTrip(base, ext, logs[n].value.name); }
    }
  }

  lemma {:induction false} AboveMembers(rs: seq<Record>, ckpt: int)
    ensures forall i :: 0 <= i < |rs| && rs[i].request.seqNum > ckpt ==> Recovered(rs[i]) in Above(rs, ckpt)
    ensures forall r :: r in Above(rs, ckpt) ==>
              exists i :: 0 <= i < |rs| && rs[i].request.seqNum > ckpt && r == Recovered(rs[i])
  {
    if rs != [] {
      AboveMembers(rs[1..], ckpt);
      forall r | r in Above(rs, ckpt)
        ensures exists i :: 0 <= i < |rs| && rs[i].request.seqNum > ckpt && r == Recovered(rs[i])
      {
        if r in Above(rs[1..], ckpt) {
          var i :| 0 <= i < |rs[1..]| && rs[1..][i].request.seqNum > ckpt && r == Recovered(rs[1..][i]);
          assert rs[i + 1] == rs[1..][i];
        } else {
          assert r == Recovered(rs[0]);
        }
      }
    }
  }

  /** One of the log's surviving records lies above the checkpoint and r is its recovered form. */
  ghost predicate From(c: Codec, l: Log, ckpt: int, r: Record) {
    var rs := Survivors(c, l);
    exists i :: 0 <= i < |rs| && rs[i].request.seqNum > ckpt && r == Recovered(rs[i])
  }

  lemma LogGives(c: Codec, l: Log, ckpt: int, r: Record)
    requires Faithful(c) && Sound(c, l)
    ensures r in Gives(c, LogFile(l.name, Content(c, l)), ckpt) <==> From(c, l, ckpt, r)
  {
    hide ReadFile, Above, Whole, InfoBlock, Blocks;
    assert |Image(c, l.info, l.records)| == |InfoBlock(c, l.info)| + |Blocks(c, l.records)|;
    CrashPrefix(c, l.info, l.records, l.cut, ckpt);
    AboveMembers(Survivors(c, l), ckpt);
  }

  /** Reading a log's file hands on what survived of it above the checkpoint, in order and each record once. */
  lemma LogDelivers(c: Codec, l: Log, ckpt: int)
    requires Faithful(c) && Sound(c, l)
    ensures Delivers(Survivors(c, l), ckpt, Gives(c, LogFile(l.name, Content(c, l)), ckpt))
  {
    hide ReadFile, Above, Whole, InfoBlock, Blocks, Delivers;
    assert |Image(c, l.info, l.records)| == |InfoBlock(c, l.info)| + |Blocks(c, l.records)|;
    CrashPrefix(c, l.info, l.records, l.cut, ckpt);
  }

  /** A finished file survives whole. */
  lemma FinishedSurvives(c: Codec, l: Log)
    requires Sound(c, l) && !l.Open()
    ensures Survivors(c, l) == l.records
  {
    WholeOfAll(c, l.records);
  }

  ghost predicate HoldsAbove(l: Log, ckpt: int) {
    exists i :: 0 <= i < |l.records| && l.records[i].request.seqNum > ckpt
  }

  predicate Spans(l: Log, ckpt: int) { !l.Open() && l.name.minSeq <= ckpt && l.name.maxSeq >= ckpt }

  /** Among finished logs holding something above the checkpoint, those whose range starts at or below it
      are chosen and those that lie wholly above it are not. */
  lemma ChosenIff(c: Codec, l: Log, ckpt: int)
    requires Sound(c, l) && !l.Open() && HoldsAbove(l, ckpt)
    ensures Spans(l, ckpt) <==> l.name.minSeq <= ckpt
  {
  }

  /** The replayed logs: those that span the checkpoint, and an open one that none is younger than. */
  ghost predicate IsReplayed(logs: seq<Option<Log>>, ckpt: int, l: Log) {
    && Some(l) in logs
    && (Spans(l, ckpt) || (l.Open() && forall m :: Some(m) in logs && m.Open() ==> m.name.time <= l.name.time))
  }

  /** Everything of `l` that survived and lies above the checkpoint is in `out`. */
  ghost predicate Covered(c: Codec, l: Log, ckpt: int, out: seq<Record>) {
    forall r :: From(c, l, ckpt, r) ==> r in out
  }

  lemma SoundLog(c: Codec, logs: seq<Option<Log>>, l: Log)
    requires AllSound(c, logs) && Some(l) in logs
    ensures Sound(c, l)
  {
    var i :| 0 <= i < |logs| && logs[i] == Some(l);
    assert Sound(c, logs[i].value);
  }

  lemma {:induction false} FileOfLog(c: Codec, logs: seq<Option<Log>>, l: Log)
    requires Some(l) in logs
    ensures LogFile(l.name, Content(c, l)) in FilesOf(c, logs)
  {
    hide Content;
    var init := logs[..|logs| - 1];
    assert logs == init + [logs[|logs| - 1]];
    if Some(l) in init { FileOfLog(c, init, l); }
  }

  lemma {:induction false} LogOfFile(c: Codec, logs: seq<Option<Log>>, f: LogFile) returns (l: Log)
    requires f in FilesOf(c, logs)
    ensures Some(l) in logs && f == LogFile(l.name, Content(c, l))
  {
    hide Content;
    var init, last := logs[..|logs| - 1], logs[|logs| - 1];
    assert logs == init + [last];
    if f in FilesOf(c, init) { l := LogOfFile(c, init, f); } else { l := last.value; }
  }

  lemma PickedIsReplayed(c: Codec, logs: seq<Option<Log>>, files: seq<LogFile>, ckpt: int, f: LogFile) returns (l: Log)
    requires AllSound(c, logs) && Picked(FilesOf(c, logs), files, ckpt) && f in files
    ensures Sound(c, l) && f == LogFile(l.name, Content(c, l)) && IsReplayed(logs, ckpt, l)
  {
    hide Content, Sound;
    l := LogOfFile(c, logs, f);
    SoundLog(c, logs, l);
    if !Chosen(f, ckpt) {
      forall m: Log | Some(m) in logs && m.Open() ensures m.name.time <= l.name.time { FileOfLog(c, logs, m); }
    }
  }

  lemma ReplayedFrom(c: Codec, logs: seq<Option<Log>>, files: seq<LogFile>, ckpt: int, r: Record)
    requires Faithful(c) && AllSound(c, logs) && Picked(FilesOf(c, logs), files, ckpt) && r in Replayed(c, files, ckpt)
    ensures exists l :: IsReplayed(logs, ckpt, l) && From(c, l, ckpt, r)
  {
    ReplayedMembers(c, files, ckpt, r);
    var f :| f in files && r in Gives(c, f, ckpt);
    var l := PickedIsReplayed(c, logs, files, ckpt, f);
    LogGives(c, l, ckpt, r);
  }

  lemma FileCovered(c: Codec, l: Log, files: seq<LogFile>, ckpt: int)
    requires Faithful(c) && Sound(c, l) && LogFile(l.name, Content(c, l)) in files
    ensures Covered(c, l, ckpt, Replayed(c, files, ckpt))
  {
    forall r | From(c, l, ckpt, r) ensures r in Replayed(c, files, ckpt) {
      LogGives(c, l, ckpt, r);
      ReplayedMembers(c, files, ckpt, r);
    }
  }

  lemma SpanningCovered(c: Codec, logs: seq<Option<Log>>, files: seq<LogFile>, ckpt: int, l: Log)
    requires Faithful(c) && AllSound(c, logs)
    requires Picked(FilesOf(c, logs), files, ckpt) && Some(l) in logs && Spans(l, ckpt)
    ensures Covered(c, l, ckpt, Replayed(c, files, ckpt))
  {
    hide Content, Sound, Covered, Replayed;
    FileOfLog(c, logs, l);
    SoundLog(c, logs, l);
    FileCovered(c, l, files, ckpt);
  }

  lemma NewestCovered(c: Codec, logs: seq<Option<Log>>, files: seq<LogFile>, ckpt: int)
    requires Faithful(c) && AllSound(c, logs) && Picked(FilesOf(c, logs), files, ckpt)
    ensures exists l :: OpenAndCovered(c, logs, ckpt, Replayed(c, files, ckpt), l)
  {
    var f :| f in files && NewestOpen(FilesOf(c, logs), f);
    var l := PickedIsReplayed(c, logs, files, ckpt, f);
    FileCovered(c, l, files, ckpt);
    assert OpenAndCovered(c, logs, ckpt, Replayed(c, files, ckpt), l);
  }

  ghost predicate OpenAndCovered(c: Codec, logs: seq<Option<Log>>, ckpt: int, out: seq<Record>, l: Log) {
    l.Open() && IsReplayed(logs, ckpt, l) && Covered(c, l, ckpt, out)
  }

  /** A finished log that does not start above the checkpoint loses nothing above it. */
  lemma FinishedCovered(c: Codec, logs: seq<Option<Log>>, files: seq<LogFile>, ckpt: int, l: Log, i: nat)
    requires Faithful(c) && AllSound(c, logs) && Picked(FilesOf(c, logs), files, ckpt)
    requires Some(l) in logs && !l.Open() && l.name.minSeq <= ckpt
    requires i < |l.records| && l.records[i].request.seqNum > ckpt
    ensures Recovered(l.records[i]) in Replayed(c, files, ckpt)
  {
    SoundLog(c, logs, l);
    assert HoldsAbove(l, ckpt);
    ChosenIff(c, l, ckpt);
    SpanningCovered(c, logs, files, ckpt, l);
    FinishedSurvives(c, l);
    assert From(c, l, ckpt, Recovered(l.records[i]));
  }

  /** No record was logged in two of the logs. */
  ghost predicate Separate(logs: seq<Option<Log>>) {
    forall l, m: Log, i, j ::
      (&& Some(l) in logs && Some(m) in logs && 0 <= i < |l.records| && 0 <= j < |m.records|
       && Recovered(l.records[i]) == Recovered(m.records[j]))
      ==> l == m
  }

  /** Everything above the checkpoint in a finished log is handed on. */
  ghost predicate Complete(logs: seq<Option<Log>>, ckpt: int, out: seq<Record>) {
    forall l: Log, i :: Some(l) in logs && !l.Open() && 0 <= i < |l.records| && l.records[i].request.seqNum > ckpt ==>
      Recovered(l.records[i]) in out
  }

  predicate NoneWhollyAbove(logs: seq<Option<Log>>, ckpt: int) {
    forall k :: 0 <= k < |logs| && logs[k].Some? && !logs[k].value.Open() ==> logs[k].value.name.minSeq <= ckpt
  }

  ghost predicate AllReplayed(c: Codec, logs: seq<Option<Log>>, ckpt: int, out: seq<Record>) {
    forall r :: r in out ==> exists l :: IsReplayed(logs, ckpt, l) && From(c, l, ckpt, r)
  }

  /** The first record of a log that lies wholly above the checkpoint is not handed on. */
  lemma WhollyAboveIsLost(c: Codec, logs: seq<Option<Log>>, ckpt: int, out: seq<Record>, l: Log)
    requires AllSound(c, logs) && AllReplayed(c, logs, ckpt, out) && Separate(logs)
    requires Some(l) in logs && !l.Open() && l.name.minSeq > ckpt
    ensures l.records != [] && l.records[0].request.seqNum > ckpt && Recovered(l.records[0]) !in out
  {
    SoundLog(c, logs, l);
    assert l.records[0].request.seqNum > ckpt;
    var r := Recovered(l.records[0]);
    forall m: Log | Some(m) in logs && From(c, m, ckpt, r) ensures m == l {
      var i :| 0 <= i < |Survivors(c, m)| && r == Recovered(Survivors(c, m)[i]);
      assert Survivors(c, m)[i] == m.records[i];
    }
    assert !IsReplayed(logs, ckpt, l);
  }

  /** What is handed on misses nothing of the finished logs exactly when none lies wholly above the checkpoint. */
  lemma CompleteIff(c: Codec, logs: seq<Option<Log>>, ckpt: int, out: seq<Record>)
    requires AllSound(c, logs) && AllReplayed(c, logs, ckpt, out) && Separate(logs)
    requires forall l: Log, i :: (&& Some(l) in logs && !l.Open() && l.name.minSeq <= ckpt
                                  && 0 <= i < |l.records| && l.records[i].request.seqNum > ckpt)
                                 ==> Recovered(l.records[i]) in out
    ensures Complete(logs, ckpt, out) <==> NoneWhollyAbove(logs, ckpt)
  {
    hide AllSound, AllReplayed, Separate;
    forall k | 0 <= k < |logs| && logs[k].Some? && !logs[k].value.Open() && logs[k].value.name.minSeq > ckpt
      ensures !Complete(logs, ckpt, out)
    {
      WhollyAboveIsLost(c, logs, ckpt, out, logs[k].value);
    }
    forall l: Log | Some(l) in logs && !l.Open() && NoneWhollyAbove(logs, ckpt) ensures l.name.minSeq <= ckpt {
      var k :| 0 <= k < |logs| && logs[k] == Some(l);
    }
  }

  /** The entries that are logs. */
  function LogEntries(logs: seq<Option<Log>>): (r: seq<nat>)
    ensures forall k :: 0 <= k < |r| ==> r[k] < |logs| && logs[r[k]].Some?
    ensures forall i :: 0 <= i < |logs| && logs[i].Some? ==> i in r
    ensures forall j, k :: 0 <= j < k < |r| ==> r[j] < r[k]
  {
    if logs == [] then []
    else
      var n := |logs| - 1;
      var before := LogEntries(logs[..n]);
      assert forall i :: 0 <= i < n ==> logs[..n][i] == logs[i];
      if logs[n].Some? then before + [n] else before
  }

  lemma {:induction false} FilesAtEntries(c: Codec, logs: seq<Option<Log>>)
    ensures var files, at := FilesOf(c, logs), LogEntries(logs);
            |files| == |at| && forall k :: 0 <= k < |at| ==>
              files[k] == LogFile(logs[at[k]].value.name, Content(c, logs[at[k]].value))
  {
    hide Content;
    if logs != [] {
      var n := |logs| - 1;
      FilesAtEntries(c, logs[..n]);
      var before, files := LogEntries(logs[..n]), FilesOf(c, logs[..n]);
      assert LogEntries(logs) == if logs[n].Some? then before + [n] else before;
      assert FilesOf(c, logs)
             == if logs[n].Some? then files + [LogFile(logs[n].value.name, Content(c, logs[n].value))] else files;
      hide FilesOf, LogEntries;
      forall k | 0 <= k < |before|
        ensures files[k] == LogFile(logs[before[k]].value.name, Content(c, logs[before[k]].value))
      {
        assert logs[..n][before[k]] == logs[before[k]];
      }
    }
  }

  /** Picks by position. */
  function Compose(outer: seq<nat>, inner: seq<nat>): (r: seq<nat>)
    requires forall k :: 0 <= k < |inner| ==> inner[k] < |outer|
    ensures |r| == |inner| && forall k :: 0 <= k < |inner| ==> r[k] == outer[inner[k]]
  {
    seq(|inner|, k requires 0 <= k < |inner| => outer[inner[k]])
  }

  /** Which logs are read: those that span the checkpoint and the open one at `open`, each once and by time. */
  ghost predicate ReadOrder(logs: seq<Option<Log>>, ckpt: int, at: seq<nat>, open: nat) {
    && Distinct(at) && (forall k :: 0 <= k < |at| ==> at[k] < |logs| && logs[at[k]].Some?)
    && (forall k :: 0 < k < |at| ==> logs[at[k - 1]].value.name.time <= logs[at[k]].value.name.time)
    && open < |logs| && logs[open].Some? && logs[open].value.Open()
    && (forall i :: 0 <= i < |logs| && logs[i].Some? && logs[i].value.Open() ==>
          logs[i].value.name.time <= logs[open].value.name.time)
    && (forall i :: i in at <==> i == open || (0 <= i < |logs| && logs[i].Some? && Spans(logs[i].value, ckpt)))
  }

  /** The parts come from these logs, each what survived above the checkpoint, in the order logged. */
  ghost predicate PartsOf(c: Codec, logs: seq<Option<Log>>, ckpt: int, at: seq<nat>, parts: seq<seq<Record>>) {
    |parts| == |at| && forall k :: 0 <= k < |at| ==>
      at[k] < |logs| && logs[at[k]].Some? && Delivers(Survivors(c, logs[at[k]].value), ckpt, parts[k])
  }

  lemma ComposeDistinct(entries: seq<nat>, at: seq<nat>)
    requires (forall j, k :: 0 <= j < k < |entries| ==> entries[j] < entries[k]) && Distinct(at)
    requires forall k :: 0 <= k < |at| ==> at[k] < |entries|
    ensures Distinct(Compose(entries, at))
  {
    forall j, k | 0 <= j < k < |at| ensures entries[at[j]] != entries[at[k]] {
      if at[j] < at[k] { assert entries[at[j]] < entries[at[k]]; } else { assert entries[at[k]] < entries[at[j]]; }
    }
  }

  /** The files of a directory and the logs they were written from. */
  ghost predicate Matched(logs: seq<Option<Log>>, files: seq<LogFile>, entries: seq<nat>) {
    && |files| == |entries|
    && (forall j, k :: 0 <= j < k < |entries| ==> entries[j] < entries[k])
    && (forall k :: 0 <= k < |entries| ==>
          entries[k] < |logs| && logs[entries[k]].Some? && logs[entries[k]].value.name == files[k].name)
    && (forall i :: 0 <= i < |logs| && logs[i].Some? ==> i in entries)
  }

  /** The entry at k is read. */
  predicate Reads(files: seq<LogFile>, ckpt: int, open: nat, k: int) {
    || k == open
    || (0 <= k < |files| && files[k].name.minSeq != -1 && files[k].name.minSeq <= ckpt <= files[k].name.maxSeq)
  }

  lemma EntryRead(logs: seq<Option<Log>>, all: seq<LogFile>, entries: seq<nat>, ckpt: int, at: seq<nat>, open: nat,
                  i: int)
    requires Matched(logs, all, entries) && open < |all|
    requires (forall k :: 0 <= k < |at| ==> at[k] < |all|) && forall k :: k in at <==> Reads(all, ckpt, open, k)
    ensures i in Compose(entries, at) <==>
            i == entries[open] || (0 <= i < |logs| && logs[i].Some? && Spans(logs[i].value, ckpt))
  {
    EntryPicked(entries, at, i);
    if 0 <= i < |logs| && logs[i].Some? {
      var k :| 0 <= k < |entries| && entries[k] == i;
      assert k in at <==> Reads(all, ckpt, open, k);
      assert forall j :: 0 <= j < |entries| && entries[j] == i ==> j == k;
    }
  }

  lemma EntriesByTime(logs: seq<Option<Log>>, all: seq<LogFile>, entries: seq<nat>, files: seq<LogFile>, at: seq<nat>)
    requires Matched(logs, all, entries) && Placed(all, files, at) && SortedByTime(files)
    ensures var picked := Compose(entries, at);
            && Distinct(picked) && (forall k :: 0 <= k < |at| ==> picked[k] < |logs| && logs[picked[k]].Some?)
            && (forall k :: 0 < k < |at| ==> logs[picked[k - 1]].value.name.time <= logs[picked[k]].value.name.time)
  {
    ComposeDistinct(entries, at);
    hide Distinct;
    forall k | 0 < k < |at| ensures logs[entries[at[k - 1]]].value.name.time <= logs[entries[at[k]]].value.name.time {
      assert files[k - 1].name.time <= files[k].name.time;
    }
  }

  lemma OpenIsNewest(logs: seq<Option<Log>>, all: seq<LogFile>, entries: seq<nat>, open: nat)
    requires Matched(logs, all, entries) && open < |all| && NewestOpen(all, all[open])
    ensures logs[entries[open]].value.Open()
    ensures forall i :: 0 <= i < |logs| && logs[i].Some? && logs[i].value.Open() ==>
              logs[i].value.name.time <= logs[entries[open]].value.name.time
  {
    forall i | 0 <= i < |logs| && logs[i].Some? && logs[i].value.Open()
      ensures logs[i].value.name.time <= logs[entries[open]].value.name.time
    {
      var k :| 0 <= k < |entries| && entries[k] == i;
      assert all[k] in all && all[k].Open();
    }
  }

  lemma EntriesOrdered(c: Codec, logs: seq<Option<Log>>, files: seq<LogFile>, ckpt: int, at: seq<nat>, open: nat)
    requires Placed(FilesOf(c, logs), files, at) && SortedByTime(files)
    requires open < |FilesOf(c, logs)| && NewestOpen(FilesOf(c, logs), FilesOf(c, logs)[open])
    requires forall k :: k in at <==> Reads(FilesOf(c, logs), ckpt, open, k)
    ensures |LogEntries(logs)| == |FilesOf(c, logs)|
    ensures ReadOrder(logs, ckpt, Compose(LogEntries(logs), at), LogEntries(logs)[open])
  {
    var all, entries := FilesOf(c, logs), LogEntries(logs);
    FilesAtEntries(c, logs);
    assert Matched(logs, all, entries);
    EntriesByTime(logs, all, entries, files, at);
    OpenIsNewest(logs, all, entries, open);
    hide Content, LogEntries, FilesOf, Matched, Distinct, SortedByTime, NewestOpen, Reads, Compose, Chosen;
    forall i
      ensures i in Compose(entries, at) <==>
              i == entries[open] || (0 <= i < |logs| && logs[i].Some? && Spans(logs[i].value, ckpt))
    {
      EntryRead(logs, all, entries, ckpt, at, open, i);
    }
  }

  lemma EntryPicked(entries: seq<nat>, at: seq<nat>, i: int)
    requires forall k :: 0 <= k < |at| ==> at[k] < |entries|
    ensures i in Compose(entries, at) <==> exists k :: 0 <= k < |entries| && k in at && entries[k] == i
  {
    if k :| 0 <= k < |entries| && k in at && entries[k] == i {
      var j :| 0 <= j < |at| && at[j] == k;
      assert Compose(entries, at)[j] == i;
    }
  }

  lemma PartsDeliver(c: Codec, logs: seq<Option<Log>>, files: seq<LogFile>, ckpt: int, at: seq<nat>)
    requires Faithful(c) && AllSound(c, logs) && Placed(FilesOf(c, logs), files, at)
    ensures |LogEntries(logs)| == |FilesOf(c, logs)|
    ensures PartsOf(c, logs, ckpt, Compose(LogEntries(logs), at), GivesEach(c, files, ckpt))
  {
    hide Content, Sound, Gives, Delivers, Survivors;
    FilesAtEntries(c, logs);
    var entries := LogEntries(logs);
    forall k | 0 <= k < |at|
      ensures Delivers(Survivors(c, logs[entries[at[k]]].value), ckpt, Gives(c, files[k], ckpt))
    {
      LogDelivers(c, logs[entries[at[k]]].value, ckpt);
    }
  }

  lemma CheckpointOfLogs(c: Codec, logs: seq<Option<Log>>)
    ensures var k := LastCkpt(FilesOf(c, logs));
            && (forall l: Log :: Some(l) in logs ==> l.name.ckpt <= k)
            && (k == 0 || exists l: Log :: Some(l) in logs && l.name.ckpt == k)
  {
    var files := FilesOf(c, logs);
    forall l: Log | Some(l) in logs ensures l.name.ckpt <= LastCkpt(files) { FileOfLog(c, logs, l); }
    if LastCkpt(files) != 0 {
      var i :| 0 <= i < |files| && files[i].name.ckpt == LastCkpt(files);
      var l := LogOfFile(c, logs, files[i]);
    }
  }

  /**
   * ReadLogs, from file names and bytes to records, log after log by time and each log in the order
   * it was written (`at`, `open` and `parts`). The directory holds logs under their generated
   * names, the finished ones whole and the open ones cut anywhere, and possibly other files. Every
   * record handed on survived above the checkpoint in a log that spans it or in a newest open one;
   * all such records of the spanning logs and of a newest open log are handed on; a finished log that
   * does not lie wholly above the checkpoint loses nothing above it; and if no record was logged
   * twice, the finished logs lose nothing exactly when none of them lies wholly above it.
   */
  method ReadLogs(c: Codec, dir: seq<DirEntry>, ghost base: string, ghost ext: string, ghost logs: seq<Option<Log>>)
    returns (ckpt: int, out: seq<Record>, ghost at: seq<nat>, ghost open: nat, ghost parts: seq<seq<Record>>)
    requires Faithful(c) && (ext == "" || ext == ".log") && DescribesAll(c, base, ext, dir, logs)
    requires exists l: Log :: Some(l) in logs && l.Open()
    ensures forall l: Log :: Some(l) in logs ==> l.name.ckpt <= ckpt
    ensures ckpt == 0 || exists l: Log :: Some(l) in logs && l.name.ckpt == ckpt
    ensures ReadOrder(logs, ckpt, at, open) && PartsOf(c, logs, ckpt, at, parts) && out == Joined(parts)
    ensures AllReplayed(c, logs, ckpt, out)
    ensures forall l: Log :: Some(l) in logs && Spans(l, ckpt) ==> Covered(c, l, ckpt, out)
    ensures exists l :: OpenAndCovered(c, logs, ckpt, out, l)
    ensures forall l: Log, i :: (&& Some(l) in logs && !l.Open() && l.name.minSeq <= ckpt
                                 && 0 <= i < |l.records| && l.records[i].request.seqNum > ckpt)
                                ==> Recovered(l.records[i]) in out
    ensures Separate(logs) ==> (Complete(logs, ckpt, out) <==> NoneWhollyAbove(logs, ckpt))
  {
    hide AllSound, Describes, Separate, Complete, NoneWhollyAbove, IsReplayed, From, Covered, OpenAndCovered, Picked,
      Content, ReadOrder, PartsOf, Joined, LogEntries, Gives;
    DirectoryRoundTrip(c, base, ext, dir, logs);
    var read := ReadDirectory(dir);
    var all := read.value;
    assert exists f :: f in all && f.Open() by {
      var l: Log :| Some(l) in logs && l.Open();
      FileOfLog(c, logs, l);
      assert LogFile(l.name, Content(c, l)).Open();
    }
    var files;
    files, ckpt, at, open := GetRecoveryFiles(all);
    out := ReplayFiles(c, files, ckpt);
    parts := GivesEach(c, files, ckpt);
    ReplayedJoins(c, files, ckpt);
    EntriesOrdered(c, logs, files, ckpt, at, open);
    PartsDeliver(c, logs, files, ckpt, at);
    at, open := Compose(LogEntries(logs), at), LogEntries(logs)[open];
    CheckpointOfLogs(c, logs);
    forall r | r in out ensures exists l :: IsReplayed(logs, ckpt, l) && From(c, l, ckpt, r) {
      ReplayedFrom(c, logs, files, ckpt, r);
    }
    forall l: Log | Some(l) in logs && Spans(l, ckpt) ensures Covered(c, l, ckpt, out) {
      SpanningCovered(c, logs, files, ckpt, l);
    }
    NewestCovered(c, logs, files, ckpt);
    forall l: Log, i | Some(l) in logs && !l.Open() && l.name.minSeq <= ckpt && 0 <= i < |l.records|
                       && l.records[i].request.seqNum > ckpt
      ensures Recovered(l.records[i]) in out
    {
      FinishedCovered(c, logs, files, ckpt, l, i);
    }
    if Separate(logs) { CompleteIff(c, logs, ckpt, out); }
  }

  /** The gap is real: a file finished at a checkpoint below all of its records is not replayed. */
  lemma WhollyAboveIsSkipped(c: Codec, r: Record, info: SystemInfo)
    requires r.request.seqNum == 5 && InfoFits(c, info) && Fits(c, r)
    ensures var finished := Log(Name(1, 5, 5, 4), info, [r], |Blocks(c, [r])|);
            var open := Log(Name(2, -1, -1, 4), info, [], 0);
            Sound(c, finished) && Sound(c, open) && HoldsAbove(finished, 4)
                && !IsReplayed([Some(finished), Some(open)], 4, finished)
  {
    var finished := Log(Name(1, 5, 5, 4), info, [r], |Blocks(c, [r])|);
    assert finished.records[0] == r;
  }
}
