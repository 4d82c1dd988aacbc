/**
 The laws assumed of libraries outside the repository can be met: encodings in unary that
 satisfy every one of them.
 */
module Encodings {
  import opened Common
  import opened LengthPrefix
  import Log = WriteAheadLog
  import Sign = Signing
  import Store = VersionedStore

  function Zeros<T>(n: nat, zero: T): (r: seq<T>)
    ensures |r| == n
  {
    if n == 0 then [] else [zero] + Zeros(n - 1, zero)
  }

  /** Each number as that many zeros and a one. */
  function Code<T>(ns: seq<nat>, zero: T, one: T): seq<T> {
    if ns == [] then [] else Zeros(ns[0], zero) + [one] + Code(ns[1..], zero, one)
  }

  lemma {:induction false} ZerosEnd<T>(m: nat, n: nat, zero: T, one: T, x: seq<T>, y: seq<T>)
    requires zero != one && Zeros(m, zero) + [one] + x == Zeros(n, zero) + [one] + y
    ensures m == n && x == y
  {
    var s, t := Zeros(m, zero) + [one] + x, Zeros(n, zero) + [one] + y;
    if m == 0 || n == 0 {
      assert s[0] == (if m == 0 then one else zero) && t[0] == (if n == 0 then one else zero);
      assert x == s[1..] && y == t[1..];
    } else {
      assert s[1..] == Zeros(m - 1, zero) + [one] + x && t[1..] == Zeros(n - 1, zero) + [one] + y;
      ZerosEnd(m - 1, n - 1, zero, one, x, y);
    }
  }

  lemma {:induction false} CodeInjective<T>(ms: seq<nat>, ns: seq<nat>, zero: T, one: T)
    requires zero != one && Code(ms, zero, one) == Code(ns, zero, one)
    ensures ms == ns
  {
    if ms != [] && ns != [] {
      ZerosEnd(ms[0], ns[0], zero, one, Code(ms[1..], zero, one), Code(ns[1..], zero, one));
      CodeInjective(ms[1..], ns[1..], zero, one);
      assert ms == [ms[0]] + ms[1..] && ns == [ns[0]] + ns[1..];
    }
  }

  // ---------------------------------------------------------------- values as numbers

  function Chars(s: string): (r: seq<nat>)
    ensures |r| == |s| && forall i :: 0 <= i < |s| ==> r[i] == s[i] as int
  {
    seq(|s|, i requires 0 <= i < |s| => s[i] as int as nat)
  }

  lemma CharsInjective(s: string, t: string)
    requires Chars(s) == Chars(t)
    ensures s == t
  {
    forall i | 0 <= i < |s| ensures s[i] == t[i] { assert Chars(s)[i] == Chars(t)[i]; }
  }

  function Signed(n: int): seq<nat> { if n < 0 then [1, -n] else [0, n] }

  function Request(r: Log.Request): seq<nat> { [r.seqNum, if r.isRecovery then 1 else 0] + Chars(r.body) }

  function Info(i: Log.SystemInfo): seq<nat> { Signed(i.view) + Signed(i.primaryId) }

  lemma RequestInjective(q: Log.Request, r: Log.Request)
    requires Request(q) == Request(r)
    ensures q == r
  {
    assert Request(q)[2..] == Chars(q.body) && Request(r)[2..] == Chars(r.body);
    CharsInjective(q.body, r.body);
    assert Request(q)[0] == q.seqNum && Request(r)[0] == r.seqNum && Request(q)[1] == Request(r)[1];
  }

  lemma InfoInjective(i: Log.SystemInfo, j: Log.SystemInfo)
    requires Info(i) == Info(j)
    ensures i == j
  {
    assert Info(i)[..2] == Signed(i.view) && Info(i)[2..] == Signed(i.primaryId);
    assert Info(j)[..2] == Signed(j.view) && Info(j)[2..] == Signed(j.primaryId);
  }

  function Entry(e: Store.Entry): seq<nat> { [|e.value|] + Signed(e.version) + Chars(e.value) }

  function Entries(h: seq<Store.Entry>): seq<nat> { if h == [] then [] else Entry(h[0]) + Entries(h[1..]) }

  lemma {:induction false} EntriesInjective(g: seq<Store.Entry>, h: seq<Store.Entry>)
    requires Entries(g) == Entries(h)
    ensures g == h
  {
    if g != [] && h != [] {
      var s, t, n := Entries(g), Entries(h), |g[0].value|;
      assert s[0] == n && t[0] == |h[0].value|;
      assert s[1..3] == Signed(g[0].version) && t[1..3] == Signed(h[0].version);
      assert s[3..n + 3] == Chars(g[0].value) && t[3..n + 3] == Chars(h[0].value);
      CharsInjective(g[0].value, h[0].value);
      assert s[n + 3..] == Entries(g[1..]) && t[n + 3..] == Entries(h[1..]);
      EntriesInjective(g[1..], h[1..]);
      assert g == [g[0]] + g[1..] && h == [h[0]] + h[1..];
    }
  }

  // ---------------------------------------------------------------- codecs

  const ZERO: byte := 0
  const ONE: byte := 1

  function EncodeRequest(r: Log.Request): Bytes { Code(Request(r), ZERO, ONE) }

  function EncodeText(s: string): Bytes { Code(Chars(s), ZERO, ONE) }

  function EncodeInfo(i: Log.SystemInfo): Bytes { Code(Info(i), ZERO, ONE) }

  ghost function DecodeRequest(b: Bytes): Option<Log.Request> {
    if exists r :: EncodeRequest(r) == b then var r :| EncodeRequest(r) == b; Some(r) else None
  }

  ghost function DecodeText(b: Bytes): Option<string> {
    if exists s :: EncodeText(s) == b then var s :| EncodeText(s) == b; Some(s) else None
  }

  ghost function DecodeInfo(b: Bytes): Option<Log.SystemInfo> {
    if exists i :: EncodeInfo(i) == b then var i :| EncodeInfo(i) == b; Some(i) else None
  }

  lemma RequestReadsBack(r: Log.Request)
    ensures DecodeRequest(EncodeRequest(r)) == Some(r)
  {
    var q := DecodeRequest(EncodeRequest(r)).value;
    CodeInjective(Request(q), Request(r), ZERO, ONE);
    RequestInjective(q, r);
  }

  lemma TextReadsBack(s: string)
    ensures DecodeText(EncodeText(s)) == Some(s)
  {
    var t := DecodeText(EncodeText(s)).value;
    CodeInjective(Chars(t), Chars(s), ZERO, ONE);
    CharsInjective(t, s);
  }

  lemma InfoReadsBack(i: Log.SystemInfo)
    ensures DecodeInfo(EncodeInfo(i)) == Some(i)
  {
    var j := DecodeInfo(EncodeInfo(i)).value;
    CodeInjective(Info(j), Info(i), ZERO, ONE);
    InfoInjective(j, i);
  }

  /** A log codec that is faithful, with records and an information block that fit. */
  lemma LogCodecExists()
    ensures exists c, r, i :: Log.Faithful(c) && Log.Fits(c, r) && Log.InfoFits(c, i)
  {
    var c := Log.Codec(EncodeRequest, DecodeRequest, EncodeText, DecodeText, EncodeInfo, DecodeInfo);
    forall r ensures c.decReq(c.encReq(r)) == Some(r) { RequestReadsBack(r); }
    forall s ensures c.decSig(c.encSig(s)) == Some(s) { TextReadsBack(s); }
    forall i ensures c.decInfo(c.encInfo(i)) == Some(i) { InfoReadsBack(i); }
    assert Log.Faithful(c);
    var r, i := Log.Record(Log.Request(0, "", false), ""), Log.SystemInfo(0, 0);
    ShortCode(Request(r.request));
    ShortCode(Info(i));
    assert Log.Fits(c, r) && Log.InfoFits(c, i);
  }

  lemma {:induction false} ShortCode(ns: seq<nat>)
    requires forall i :: 0 <= i < |ns| ==> ns[i] == 0
    ensures |Code(ns, ZERO, ONE)| == |ns|
  {
    if ns != [] { ShortCode(ns[1..]); }
  }

  function EncodeEntries(h: seq<Store.Entry>): string { Code(Entries(h), '0', '1') }

  ghost function DecodeEntries(s: string): Option<seq<Store.Entry>> {
    if exists h :: EncodeEntries(h) == s then var h :| EncodeEntries(h) == s; Some(h) else None
  }

  lemma StoreCodecExists()
    ensures exists c :: Store.Faithful(c)
  {
    var c := Store.Codec(EncodeEntries, DecodeEntries);
    forall h ensures c.parse(c.serialize(h)) == Some(h) {
      var g := DecodeEntries(EncodeEntries(h)).value;
      CodeInjective(Entries(g), Entries(h), '0', '1');
      EntriesInjective(g, h);
    }
    assert c.parse(c.serialize([])) == Some([]);
    assert Store.Faithful(c);
  }

  lemma CryptoExists()
    ensures exists c, b :: Sign.Signs(c) && Sign.CollisionFree(c) && Sign.Inverse(b)
  {
    var c := Sign.Crypto(k => k, (k, m) => m, (p, n, s) => n == s, (m, l) => m,
                         (b: Sign.Body) => if b.id.None? then "" else ['#'] + b.id.value, s => s);
    forall b: Sign.Body, i, j | c.serialize(b.(id := i)) == c.serialize(b.(id := j)) ensures i == j {
      assert i.Some? ==> (['#'] + i.value)[1..] == i.value;
      assert j.Some? ==> (['#'] + j.value)[1..] == j.value;
    }
    assert Sign.Signs(c) && Sign.CollisionFree(c);
    var b := Sign.Base58(s => s, s => s);
    assert Sign.Inverse(b);
  }
}
