/**
 The prepare / execute / garbage-collection race of the transaction executor.

 Callers hand a request to `Prepare` before it is ordered; a prepare thread parses it
 into a cache; one execute thread either claims the cached copy or parses the committed
 request itself; a collector thread frees claimed copies.  The state machine below
 interleaves the threads at the granularity of the mutexes, and turns every assertion,
 null dereference, use of a freed entry and double use of a promise into `fault`.
 */
module ExecutionPipeline {
  import opened Common

  type Uid = nat

  datatype Request = Request(uid: Uid, seqNum: nat, proxy: int, data: string, hash: string, certs: Option<string>)

  datatype Batch = Batch(users: seq<string>, seqNum: nat, proxy: int, hash: string, certs: Option<string>)

  /** The marks a uid collects: Start_Prepare, Start_Execute, End_Prepare. */
  datatype Mark = StartPrepare | StartExecute | EndPrepare

  /** A one-shot promise: set at most once, its future taken at most once. */
  datatype Promise = Promise(fulfilled: bool, retrieved: bool)

  /** What a uid stands for: the same bytes, hash and certificates wherever it shows up. */
  datatype Content = Content(data: string, hash: string, certs: Option<string>)

  /** The outside world: the (unseen) parser and the binding of uids to contents. */
  datatype Env = Env(parse: string -> Batch, content: Uid -> Content)

  /** The batch that parsing a request directly gives; the parser's own certificates stay when the request has none. */
  function Direct(env: Env, r: Request): Batch {
    var b := env.parse(r.data);
    b.(hash := r.hash, certs := if r.certs.Some? then r.certs else b.certs, seqNum := r.seqNum, proxy := r.proxy)
  }

  // ---------------------------------------------------------------- flags and promises

  /** New flag table and the verdict: a mark is refused when the other side got there first. */
  function SetFlagOf(flag: map<Uid, set<Mark>>, uid: Uid, f: Mark): (map<Uid, set<Mark>>, bool) {
    if uid !in flag then (flag[uid := {f}], true)
    else if f == StartPrepare && StartExecute in flag[uid] then (flag, false)
    else if f == StartExecute && EndPrepare in flag[uid] then (flag, false)
    else (flag[uid := flag[uid] + {f}], true)
  }

  /** A fresh promise and no flags for a uid that has no promise yet. */
  function AddFutureOf(flag: map<Uid, set<Mark>>, pre: map<Uid, Promise>, uid: Uid)
    : (map<Uid, set<Mark>>, map<Uid, Promise>, bool)
  {
    if uid in pre then (flag, pre, false) else (flag[uid := {}], pre[uid := Promise(false, false)], true)
  }

  function ClearPromiseOf(flag: map<Uid, set<Mark>>, pre: map<Uid, Promise>, uid: Uid)
    : (map<Uid, set<Mark>>, map<Uid, Promise>)
  {
    if uid in pre then (flag - {uid}, pre - {uid}) else (flag, pre)
  }

  /** The flag and promise tables as the source holds them, updated in place. */
  class PromiseTable {
    var flag: map<Uid, set<Mark>>
    var pre: map<Uid, Promise>

    constructor ()
      ensures flag == map[] && pre == map[]
    {
      flag, pre := map[], map[];
    }

    method SetFlag(uid: Uid, f: Mark) returns (ok: bool)
      modifies this`flag
      ensures (flag, ok) == SetFlagOf(old(flag), uid, f)
    {
      if uid !in flag {
        flag := flag[uid := {f}];
        return true;
      }
      if f == StartPrepare {
        if StartExecute in flag[uid] { return false; }
      } else if f == StartExecute {
        if EndPrepare in flag[uid] { return false; }
      }
      flag := flag[uid := flag[uid] + {f}];
      ok := true;
    }

    method AddFuture(uid: Uid) returns (added: bool)
      modifies this
      ensures (flag, pre, added) == AddFutureOf(old(flag), old(pre), uid)
    {
      added := uid !in pre;
      if added {
        pre := pre[uid := Promise(false, false)];
        flag := flag[uid := {}];
      }
    }

    method ClearPromise(uid: Uid)
      requires uid in pre ==> uid in flag
      modifies this
      ensures (flag, pre) == ClearPromiseOf(old(flag), old(pre), uid)
    {
      if uid in pre {
        pre := pre - {uid};
        flag := flag - {uid};
      }
    }
  }

  // ---------------------------------------------------------------- the interleaved machine

  datatype PreparePc =
    | PIdle
    | PPopped(r: Request)        // taken from the prepare queue
    | PStarted(r: Request)       // Start_Prepare accepted
    | PHasPromise(r: Request)    // raw reference to the promise in hand
    | PStored(r: Request)        // batch and data are in the cache
    | PFulfilled(r: Request)     // promise set, End_Prepare still to come

  datatype ExecutePc =
    | XIdle
    | XPopped(r: Request)
    | XClaimed(r: Request)       // Start_Execute refused: the cached copy is complete
    | XFuture(r: Request)        // holds the future, about to wait on it
    | XReady(r: Request)         // the wait returned
    | XFetched(r: Request)       // raw references into the cache in hand
    | XRun(r: Request, cached: bool)
    | XDone(r: Request, cached: bool)

  datatype GcPc = GIdle | GPopped(uid: Uid) | GCleared(uid: Uid)

  /** The four tables keyed by uid: flags and promises, parsed batches and prepared data. */
  datatype Cache = Cache(flag: map<Uid, set<Mark>>, pre: map<Uid, Promise>, req: map<Uid, Batch>,
                         data: map<Uid, seq<string>>)

  datatype Queues = Queues(pushing: set<Request>, prepareQ: seq<Request>, executeQ: seq<Request>, gcQ: seq<Uid>)

  /** Uids that were ever given to Prepare, are on their way to the prepare thread, are in the
      collector's queue, and were ever cached, freed and executed from the cache. */
  datatype History = History(prepared: set<Uid>, waiting: set<Uid>, toFree: set<Uid>,
                             stored: set<Uid>, collected: set<Uid>, consumed: set<Uid>)

  /** `log` is what the transaction manager received, with the request it came from. */
  datatype State = State(cache: Cache, q: Queues, prep: PreparePc, exec: ExecutePc, gc: GcPc,
                         fault: bool, h: History, log: seq<(Request, Batch)>)

  const Init := State(Cache(map[], map[], map[], map[]), Queues({}, [], [], []), PIdle, XIdle, GIdle,
                      false, History({}, {}, {}, {}, {}, {}), [])

  datatype Action =
    | CallPrepare(r: Request)    // AddFuture, under the flag mutex
    | PushPrepare(r: Request)    // the push that follows it
    | PushExecute(r: Request)
    | StepPrepare | StepExecute | StepGc

  /** The execute thread holds raw references into the cache entry of `uid`. */
  predicate InUse(x: ExecutePc, uid: Uid) {
    || (x.XFetched? && x.r.uid == uid)
    || (x.XRun? && x.cached && x.r.uid == uid)
    || (x.XDone? && x.cached && x.r.uid == uid)
  }

  function Fault(s: State): State { s.(fault := true) }

  function StepPrepareThread(env: Env, s: State): State {
    match s.prep
    case PIdle =>
      if s.q.prepareQ == [] then s
      else
        var r := s.q.prepareQ[0];
        s.(prep := PPopped(r), q := s.q.(prepareQ := s.q.prepareQ[1..]), h := s.h.(waiting := s.h.waiting - {r.uid}))
    case PPopped(r) =>
      var (flag, ok) := SetFlagOf(s.cache.flag, r.uid, StartPrepare);
      s.(cache := s.cache.(flag := flag), prep := if ok then PStarted(r) else PIdle)
    case PStarted(r) =>
      if r.uid in s.cache.pre then s.(prep := PHasPromise(r)) else Fault(s)
    case PHasPromise(r) =>
      var b := Direct(env, r);
      s.(cache := s.cache.(data := s.cache.data[r.uid := b.users], req := s.cache.req[r.uid := b]),
         h := s.h.(stored := s.h.stored + {r.uid}), prep := PStored(r))
    case PStored(r) =>
      if r.uid in s.cache.pre && !s.cache.pre[r.uid].fulfilled
      then s.(cache := s.cache.(pre := s.cache.pre[r.uid := s.cache.pre[r.uid].(fulfilled := true)]),
          prep := PFulfilled(r))
      else Fault(s)
    case PFulfilled(r) =>
      s.(cache := s.cache.(flag := SetFlagOf(s.cache.flag, r.uid, EndPrepare).0), prep := PIdle)
  }

  function StepExecuteThread(env: Env, s: State): State {
    match s.exec
    case XIdle =>
      if s.q.executeQ == [] then s
      else s.(exec := XPopped(s.q.executeQ[0]), q := s.q.(executeQ := s.q.executeQ[1..]))
    case XPopped(r) =>
      if r.uid == 0 then s.(exec := XRun(r, false))
      else
        var (flag, ok) := SetFlagOf(s.cache.flag, r.uid, StartExecute);
        s.(cache := s.cache.(flag := flag), exec := if ok then XRun(r, false) else XClaimed(r))
    case XClaimed(r) =>
      if r.uid in s.cache.pre && !s.cache.pre[r.uid].retrieved
      then s.(cache := s.cache.(pre := s.cache.pre[r.uid := s.cache.pre[r.uid].(retrieved := true)]),
          exec := XFuture(r))
      else Fault(s)
    case XFuture(r) =>
      if r.uid in s.cache.pre && s.cache.pre[r.uid].fulfilled then s.(exec := XReady(r)) else s  // still blocked
    case XReady(r) =>
      if r.uid in s.cache.req && r.uid in s.cache.data then s.(exec := XFetched(r)) else Fault(s)
    case XFetched(r) => ClaimCached(s, r)
    case XRun(r, cached) =>
      if !cached then s.(log := s.log + [(r, Direct(env, r))], exec := XDone(r, false))
      else if r.uid !in s.cache.req then Fault(s)
      else s.(log := s.log + [(r, s.cache.req[r.uid])], h := s.h.(consumed := s.h.consumed + {r.uid}),
          exec := XDone(r, true))
    case XDone(r, cached) =>
      if !cached then s.(exec := XIdle)
      else s.(q := s.q.(gcQ := s.q.gcQ + [r.uid]), h := s.h.(toFree := s.h.toFree + {r.uid}), exec := XIdle)
  }

  /** ClearPromise, then the committed seq and proxy are patched into the cached batch. */
  function ClaimCached(s: State, r: Request): State {
    var c := s.cache;
    if (r.uid in c.pre && r.uid !in c.flag) || r.uid !in c.req then Fault(s)
    else
      var req := c.req[r.uid := c.req[r.uid].(seqNum := r.seqNum, proxy := r.proxy)];
      var (flag, pre) := ClearPromiseOf(c.flag, c.pre, r.uid);
      s.(cache := c.(flag := flag, pre := pre, req := req), exec := XRun(r, true))
  }

  function StepGcThread(s: State): State {
    match s.gc
    case GIdle =>
      if s.q.gcQ == [] then s
      else
        var uid := s.q.gcQ[0];
        s.(gc := GPopped(uid), q := s.q.(gcQ := s.q.gcQ[1..]), h := s.h.(toFree := s.h.toFree - {uid}))
    case GPopped(uid) =>
      if uid in s.cache.data && !InUse(s.exec, uid)
      then s.(cache := s.cache.(data := s.cache.data[uid := []]), gc := GCleared(uid)) else Fault(s)
    case GCleared(uid) =>
      if uid in s.cache.data && uid in s.cache.req && !InUse(s.exec, uid)
      then s.(cache := s.cache.(data := s.cache.data - {uid}, req := s.cache.req - {uid}),
              h := s.h.(collected := s.h.collected + {uid}), gc := GIdle)
      else Fault(s)
  }

  function CallPrepareOf(s: State, r: Request): State {
    var h := s.h.(prepared := s.h.prepared + {r.uid});
    var (flag, pre, added) := AddFutureOf(s.cache.flag, s.cache.pre, r.uid);
    if !added then s.(h := h)
    else
      s.(cache := s.cache.(flag := flag, pre := pre),
         q := s.q.(pushing := s.q.pushing + {r}), h := h.(waiting := h.waiting + {r.uid}))
  }

  function Next(env: Env, s: State, a: Action): State {
    match a
    case CallPrepare(r) => CallPrepareOf(s, r)
    case PushPrepare(r) => s.(q := s.q.(pushing := s.q.pushing - {r}, prepareQ := s.q.prepareQ + [r]))
    case PushExecute(r) => s.(q := s.q.(executeQ := s.q.executeQ + [r]))
    case StepPrepare => StepPrepareThread(env, s)
    case StepExecute => StepExecuteThread(env, s)
    case StepGc => StepGcThread(s)
  }

  predicate Conforms(env: Env, r: Request) {
    env.content(r.uid) == Content(r.data, r.hash, r.certs)
  }

  /** Each uid is prepared at most once and requests carry the contents their uid fixes. */
  predicate Allowed(env: Env, s: State, a: Action) {
    match a
    case CallPrepare(r) => Conforms(env, r) && r.uid !in s.h.prepared
    case PushPrepare(r) => r in s.q.pushing
    case PushExecute(r) => Conforms(env, r)
    case _ => true
  }

  function Run(env: Env, trace: seq<Action>): State {
    if trace == [] then Init else Next(env, Run(env, trace[..|trace| - 1]), trace[|trace| - 1])
  }

  ghost predicate Legal(env: Env, trace: seq<Action>) {
    trace == [] ||
    (Legal(env, trace[..|trace| - 1]) && Allowed(env, Run(env, trace[..|trace| - 1]), trace[|trace| - 1]))
  }

  // ---------------------------------------------------------------- the invariant

  /** Uid of the request the prepare thread works on, once it has left the queue. */
  predicate Preparing(p: PreparePc, uid: Uid) { !p.PIdle? && p.r.uid == uid }

  /** Waiting or in progress: prepared, with End_Prepare still to come. */
  predicate InPipeline(s: State, uid: Uid) { uid in s.h.waiting || Preparing(s.prep, uid) }

  /** The execute thread has claimed the cached copy but not yet dropped the promise. */
  predicate Claimed(x: ExecutePc, uid: Uid) {
    (x.XClaimed? || x.XFuture? || x.XReady? || x.XFetched?) && x.r.uid == uid
  }

  predicate Running(x: ExecutePc, uid: Uid) {
    (x.XRun? || x.XDone?) && x.cached && x.r.uid == uid
  }

  predicate GcHolds(g: GcPc, uid: Uid) { !g.GIdle? && g.uid == uid }

  predicate EndMarked(s: State, uid: Uid) { uid in s.cache.flag && EndPrepare in s.cache.flag[uid] }

  /** The cached batch agrees with the uid's content up to the fields patched at execution. */
  predicate GoodBatch(env: Env, uid: Uid, b: Batch) {
    var c := env.content(uid);
    b == Direct(env, Request(uid, b.seqNum, b.proxy, c.data, c.hash, c.certs))
  }

  ghost predicate RequestsOk(env: Env, q: Queues) {
    && (forall r :: r in q.pushing ==> Conforms(env, r))
    && (forall i :: 0 <= i < |q.prepareQ| ==> Conforms(env, q.prepareQ[i]))
    && (forall i :: 0 <= i < |q.executeQ| ==> Conforms(env, q.executeQ[i]))
  }

  /** A uid travels through the prepare pipeline once. */
  ghost predicate PipelineOk(pushing: set<Request>, prepareQ: seq<Request>, waiting: set<Uid>) {
    && (forall r :: r in pushing ==> r.uid in waiting)
    && (forall i :: 0 <= i < |prepareQ| ==> prepareQ[i].uid in waiting)
    && (forall r, q :: r in pushing && q in pushing && r.uid == q.uid ==> r == q)
    && (forall i, j :: 0 <= i < j < |prepareQ| ==> prepareQ[i].uid != prepareQ[j].uid)
    && (forall r, i :: r in pushing && 0 <= i < |prepareQ| ==> r.uid != prepareQ[i].uid)
  }

  /** A uid is in the collector's queue at most once. */
  ghost predicate FreeOk(gcQ: seq<Uid>, toFree: set<Uid>) {
    && (forall i :: 0 <= i < |gcQ| ==> gcQ[i] in toFree)
    && (forall uid :: uid in toFree ==> uid in gcQ)
    && Distinct(gcQ)
  }

  ghost predicate QueuesOk(env: Env, s: State) {
    && RequestsOk(env, s.q)
    && PipelineOk(s.q.pushing, s.q.prepareQ, s.h.waiting)
    && FreeOk(s.q.gcQ, s.h.toFree)
    && (!s.prep.PIdle? ==> Conforms(env, s.prep.r))
    && (!s.exec.XIdle? ==> Conforms(env, s.exec.r))
  }

  /** The part of the invariant about one uid. */
  ghost predicate UidOk(env: Env, s: State, uid: Uid) {
    && (uid in s.cache.pre ==> uid in s.h.prepared && uid in s.cache.flag)
    && (InPipeline(s, uid) ==>
        uid in s.cache.pre && !s.cache.pre[uid].retrieved && !EndMarked(s, uid) && !Claimed(s.exec, uid))
    && (InPipeline(s, uid) && !(s.prep.PFulfilled? && s.prep.r.uid == uid) ==> !s.cache.pre[uid].fulfilled)
    && (InPipeline(s, uid) && !((s.prep.PStored? || s.prep.PFulfilled?) && s.prep.r.uid == uid) ==> uid !in s.h.stored)
    && ((s.prep.PStored? || s.prep.PFulfilled?) && s.prep.r.uid == uid ==> uid in s.h.stored)
    && (s.prep.PFulfilled? && s.prep.r.uid == uid ==> s.cache.pre[uid].fulfilled)
    && (EndMarked(s, uid) ==>
          uid in s.cache.pre && s.cache.pre[uid].fulfilled && uid in s.h.stored &&
          (s.cache.pre[uid].retrieved <==> Claimed(s.exec, uid) && !s.exec.XClaimed?))
    && (Claimed(s.exec, uid) ==> EndMarked(s, uid))
    && (Preparing(s.prep, uid) ==> uid !in s.h.waiting)
    && (uid in s.h.toFree ==> !GcHolds(s.gc, uid) && !Running(s.exec, uid))
    && (GcHolds(s.gc, uid) ==> !Running(s.exec, uid))
    && (Running(s.exec, uid) || uid in s.h.toFree || GcHolds(s.gc, uid) ==>
          uid in s.h.stored && uid !in s.cache.pre && !InPipeline(s, uid) && uid !in s.h.collected)
    && (uid in s.h.stored ==> uid in s.h.prepared)
    && (uid in s.h.collected ==> uid in s.h.stored && uid !in s.cache.pre)
    && (uid in s.cache.req <==> uid in s.h.stored && uid !in s.h.collected)
    && (uid in s.cache.data <==> uid in s.cache.req)
    && (uid in s.cache.req ==> GoodBatch(env, uid, s.cache.req[uid]))
    && (uid in s.h.consumed <==>
          uid in s.h.collected || uid in s.h.toFree || GcHolds(s.gc, uid) || (s.exec.XDone? && Running(s.exec, uid)))
  }

  /** Everything handed to the transaction manager is the direct parse of its request; so is what is about to be. */
  ghost predicate LogOk(env: Env, s: State) {
    && (forall i :: 0 <= i < |s.log| ==> s.log[i].1 == Direct(env, s.log[i].0))
    && (s.exec.XRun? && s.exec.cached ==>
        s.exec.r.uid in s.cache.req && s.cache.req[s.exec.r.uid] == Direct(env, s.exec.r))
  }

  ghost predicate Inv(env: Env, s: State) {
    && !s.fault
    && QueuesOk(env, s)
    && (forall uid: Uid :: UidOk(env, s, uid))
    && LogOk(env, s)
  }

  predicate SameAt<V(==)>(m: map<Uid, V>, n: map<Uid, V>, uid: Uid) {
    (uid in m <==> uid in n) && (uid in m ==> m[uid] == n[uid])
  }

  /** Nothing the invariant says about `uid` differs between the two states. */
  ghost predicate SameUid(s: State, t: State, uid: Uid) {
    && SameAt(s.cache.flag, t.cache.flag, uid) && SameAt(s.cache.pre, t.cache.pre, uid)
    && SameAt(s.cache.req, t.cache.req, uid) && SameAt(s.cache.data, t.cache.data, uid)
    && (uid in s.h.prepared <==> uid in t.h.prepared) && (uid in s.h.waiting <==> uid in t.h.waiting)
    && (uid in s.h.toFree <==> uid in t.h.toFree) && (uid in s.h.stored <==> uid in t.h.stored)
    && (uid in s.h.collected <==> uid in t.h.collected) && (uid in s.h.consumed <==> uid in t.h.consumed)
    && (s.prep == t.prep || (!Preparing(s.prep, uid) && !Preparing(t.prep, uid)))
    && (s.exec == t.exec || (!Executing(s.exec, uid) && !Executing(t.exec, uid)))
    && (s.gc == t.gc || (!GcHolds(s.gc, uid) && !GcHolds(t.gc, uid)))
  }

  predicate Executing(x: ExecutePc, uid: Uid) { !x.XIdle? && x.r.uid == uid }

  lemma FrameUid(env: Env, s: State, t: State, uid: Uid)
    requires UidOk(env, s, uid) && SameUid(s, t, uid)
    ensures UidOk(env, t, uid)
  {
  }

  lemma CallPrepareStep(env: Env, s: State, r: Request)
    requires Inv(env, s) && Allowed(env, s, CallPrepare(r))
    ensures Inv(env, Next(env, s, CallPrepare(r)))
  {
    var t := Next(env, s, CallPrepare(r));
    assert UidOk(env, s, r.uid);
    forall uid: Uid ensures UidOk(env, t, uid) {
      if uid != r.uid { FrameUid(env, s, t, uid); }
    }
  }

  lemma PushStep(env: Env, s: State, a: Action)
    requires Inv(env, s) && Allowed(env, s, a) && (a.PushPrepare? || a.PushExecute?)
    ensures Inv(env, Next(env, s, a))
  {
    var t := Next(env, s, a);
    forall uid: Uid ensures UidOk(env, t, uid) { FrameUid(env, s, t, uid); }
  }

  // Each thread step touches one uid; the three lemmas per thread say that every other
  // uid is untouched, that the active one stays in order, and that the queues do.

  lemma PrepareThreadOthers(env: Env, s: State, uid: Uid)
    requires if s.prep.PIdle? then s.q.prepareQ == [] || uid != s.q.prepareQ[0].uid else uid != s.prep.r.uid
    ensures SameUid(s, StepPrepareThread(env, s), uid)
  {
    if s.prep.PPopped? || s.prep.PStarted? || s.prep.PHasPromise? { PrepareFillOthers(env, s, uid); }
  }

  lemma PrepareFillOthers(env: Env, s: State, uid: Uid)
    requires (s.prep.PPopped? || s.prep.PStarted? || s.prep.PHasPromise?) && uid != s.prep.r.uid
    ensures SameUid(s, StepPrepareThread(env, s), uid)
  {
  }

  lemma PrepareThreadUid(env: Env, s: State)
    requires QueuesOk(env, s) && !s.prep.PIdle? && UidOk(env, s, s.prep.r.uid)
    ensures UidOk(env, StepPrepareThread(env, s), s.prep.r.uid)
    ensures !s.fault ==> !StepPrepareThread(env, s).fault
  {
  }

  lemma PrepareThreadQueues(env: Env, s: State)
    requires QueuesOk(env, s)
    ensures QueuesOk(env, StepPrepareThread(env, s))
  {
    var t := StepPrepareThread(env, s);
    if s.prep.PIdle? && s.q.prepareQ != [] {
      assert PipelineOk(t.q.pushing, t.q.prepareQ, t.h.waiting);
    } else {
      assert t.q == s.q && t.h.waiting == s.h.waiting && t.h.toFree == s.h.toFree;
    }
  }

  lemma PrepareThreadStep(env: Env, s: State)
    requires Inv(env, s)
    ensures Inv(env, StepPrepareThread(env, s))
  {
    var t := StepPrepareThread(env, s);
    PrepareThreadQueues(env, s);
    if !s.prep.PIdle? {
      PrepareThreadUid(env, s);
    } else if s.q.prepareQ != [] {
      assert UidOk(env, s, s.q.prepareQ[0].uid);
    }
    forall uid: Uid ensures UidOk(env, t, uid) {
      if if s.prep.PIdle? then s.q.prepareQ == [] || uid != s.q.prepareQ[0].uid else uid != s.prep.r.uid {
        PrepareThreadOthers(env, s, uid);
        FrameUid(env, s, t, uid);
      }
    }
  }

  lemma ExecuteThreadOthers(env: Env, s: State, uid: Uid)
    requires if s.exec.XIdle? then s.q.executeQ == [] || uid != s.q.executeQ[0].uid else uid != s.exec.r.uid
    ensures SameUid(s, StepExecuteThread(env, s), uid)
  {
    if s.exec.XPopped? || s.exec.XClaimed? || s.exec.XFuture? { ExecuteClaimOthers(env, s, uid); }
  }

  lemma ExecuteClaimOthers(env: Env, s: State, uid: Uid)
    requires (s.exec.XPopped? || s.exec.XClaimed? || s.exec.XFuture?) && uid != s.exec.r.uid
    ensures SameUid(s, StepExecuteThread(env, s), uid)
  {
  }

  lemma ExecuteClaimUid(env: Env, s: State)
    requires QueuesOk(env, s) && (s.exec.XPopped? || s.exec.XClaimed?) && UidOk(env, s, s.exec.r.uid)
    ensures UidOk(env, StepExecuteThread(env, s), s.exec.r.uid)
    ensures !s.fault ==> !StepExecuteThread(env, s).fault
  {
  }

  lemma ExecuteWaitUid(env: Env, s: State)
    requires QueuesOk(env, s) && (s.exec.XFuture? || s.exec.XReady?) && UidOk(env, s, s.exec.r.uid)
    ensures UidOk(env, StepExecuteThread(env, s), s.exec.r.uid)
    ensures !s.fault ==> !StepExecuteThread(env, s).fault
  {
  }

  lemma ExecuteFetchUid(env: Env, s: State)
    requires QueuesOk(env, s) && s.exec.XFetched? && UidOk(env, s, s.exec.r.uid)
    ensures UidOk(env, StepExecuteThread(env, s), s.exec.r.uid)
    ensures !s.fault ==> !StepExecuteThread(env, s).fault
  {
  }

  lemma ExecuteRunUid(env: Env, s: State)
    requires QueuesOk(env, s) && (s.exec.XRun? || s.exec.XDone?) && UidOk(env, s, s.exec.r.uid)
    ensures UidOk(env, StepExecuteThread(env, s), s.exec.r.uid)
    ensures !s.fault ==> !StepExecuteThread(env, s).fault
  {
  }

  lemma ExecuteThreadQueues(env: Env, s: State)
    requires QueuesOk(env, s) && (!s.exec.XIdle? ==> UidOk(env, s, s.exec.r.uid))
    ensures QueuesOk(env, StepExecuteThread(env, s))
  {
    var t := StepExecuteThread(env, s);
    if s.exec.XIdle? && s.q.executeQ != [] {
      assert RequestsOk(env, t.q);
    } else if s.exec.XDone? && s.exec.cached {
      assert FreeOk(t.q.gcQ, t.h.toFree);
    } else {
      assert t.q == s.q && t.h.waiting == s.h.waiting && t.h.toFree == s.h.toFree;
    }
  }

  /** A cached batch reaches the transaction manager as the direct parse would have built it. */
  lemma ExecuteThreadLog(env: Env, s: State)
    requires Inv(env, s)
    ensures LogOk(env, StepExecuteThread(env, s))
  {
    if !s.exec.XIdle? { assert UidOk(env, s, s.exec.r.uid); }
  }

  lemma ExecuteThreadStep(env: Env, s: State)
    requires Inv(env, s)
    ensures Inv(env, StepExecuteThread(env, s))
  {
    var t := StepExecuteThread(env, s);
    if !s.exec.XIdle? {
      assert UidOk(env, s, s.exec.r.uid);
      match s.exec
      case XPopped(_) | XClaimed(_) => ExecuteClaimUid(env, s);
      case XFuture(_) | XReady(_) => ExecuteWaitUid(env, s);
      case XFetched(_) => ExecuteFetchUid(env, s);
      case XRun(_, _) | XDone(_, _) => ExecuteRunUid(env, s);
    } else if s.q.executeQ != [] {
      assert UidOk(env, s, s.q.executeQ[0].uid);
    }
    ExecuteThreadQueues(env, s);
    ExecuteThreadLog(env, s);
    forall uid: Uid ensures UidOk(env, t, uid) {
      if if s.exec.XIdle? then s.q.executeQ == [] || uid != s.q.executeQ[0].uid else uid != s.exec.r.uid {
        ExecuteThreadOthers(env, s, uid);
        FrameUid(env, s, t, uid);
      }
    }
  }

  lemma GcThreadOthers(s: State, uid: Uid)
    requires if s.gc.GIdle? then s.q.gcQ == [] || uid != s.q.gcQ[0] else uid != s.gc.uid
    ensures SameUid(s, StepGcThread(s), uid)
  {
  }

  lemma GcThreadUid(env: Env, s: State)
    requires QueuesOk(env, s) && !s.gc.GIdle? && UidOk(env, s, s.gc.uid)
    ensures UidOk(env, StepGcThread(s), s.gc.uid)
    ensures !s.fault ==> !StepGcThread(s).fault
  {
  }

  lemma GcThreadQueues(env: Env, s: State)
    requires QueuesOk(env, s)
    ensures QueuesOk(env, StepGcThread(s))
  {
    var t := StepGcThread(s);
    if s.gc.GIdle? && s.q.gcQ != [] {
      assert FreeOk(t.q.gcQ, t.h.toFree);
    } else {
      assert t.q == s.q && t.h.waiting == s.h.waiting && t.h.toFree == s.h.toFree;
    }
  }

  lemma GcThreadStep(env: Env, s: State)
    requires Inv(env, s)
    ensures Inv(env, StepGcThread(s))
  {
    var t := StepGcThread(s);
    GcThreadQueues(env, s);
    if !s.gc.GIdle? {
      GcThreadUid(env, s);
    } else if s.q.gcQ != [] {
      assert UidOk(env, s, s.q.gcQ[0]);
    }
    forall uid: Uid ensures UidOk(env, t, uid) {
      if if s.gc.GIdle? then s.q.gcQ == [] || uid != s.q.gcQ[0] else uid != s.gc.uid {
        GcThreadOthers(s, uid);
        FrameUid(env, s, t, uid);
      }
    }
  }

  lemma InvStep(env: Env, s: State, a: Action)
    requires Inv(env, s) && Allowed(env, s, a)
    ensures Inv(env, Next(env, s, a))
  {
    match a
    case CallPrepare(r) => CallPrepareStep(env, s, r);
    case PushPrepare(_) | PushExecute(_) => PushStep(env, s, a);
    case StepPrepare => PrepareThreadStep(env, s);
    case StepExecute => ExecuteThreadStep(env, s);
    case StepGc => GcThreadStep(env, s);
  }

  lemma {:induction false} InvRun(env: Env, trace: seq<Action>)
    requires Legal(env, trace)
    ensures Inv(env, Run(env, trace))
  {
    if trace != [] {
      var before := trace[..|trace| - 1];
      InvRun(env, before);
      InvStep(env, Run(env, before), trace[|trace| - 1]);
    }
  }

  // ---------------------------------------------------------------- what every run guarantees

  /** The transaction manager receives, for every executed request, the batch its direct parse gives,
      whichever side won the race. */
  lemma ExecutesDirectParse(env: Env, trace: seq<Action>)
    requires Legal(env, trace)
    ensures forall i :: 0 <= i < |Run(env, trace).log| ==>
              Run(env, trace).log[i].1 == Direct(env, Run(env, trace).log[i].0)
    ensures forall i :: 0 <= i < |Run(env, trace).log| ==>
              var (r, b) := Run(env, trace).log[i];
              && b.users == env.parse(r.data).users && b.seqNum == r.seqNum && b.proxy == r.proxy && b.hash == r.hash
              && b.certs == (if r.certs.Some? then r.certs else env.parse(r.data).certs)
  {
    InvRun(env, trace);
  }

  /** No assertion fails, no null or freed entry is touched, and waiting for the prepared copy never blocks. */
  lemma NeverFaultsOrBlocks(env: Env, trace: seq<Action>)
    requires Legal(env, trace)
    ensures var s := Run(env, trace);
            && !s.fault
            && (s.exec.XFuture? ==> StepExecuteThread(env, s).exec == XReady(s.exec.r))
            && (forall uid :: EndMarked(s, uid) ==>
                  uid in s.cache.pre && s.cache.pre[uid].fulfilled && uid in s.cache.req && uid in s.cache.data)
            && (forall uid :: GcHolds(s.gc, uid) ==> !InUse(s.exec, uid) && uid in s.cache.req && uid in s.cache.data)
  {
    InvRun(env, trace);
    var s := Run(env, trace);
    if s.exec.XFuture? { assert UidOk(env, s, s.exec.r.uid); }
    forall uid | EndMarked(s, uid)
      ensures uid in s.cache.pre && s.cache.pre[uid].fulfilled && uid in s.cache.req && uid in s.cache.data
    {
      assert UidOk(env, s, uid);
    }
    if !s.gc.GIdle? { assert UidOk(env, s, s.gc.uid); }
  }

  ghost predicate Quiescent(s: State) {
    s.prep.PIdle? && s.exec.XIdle? && s.gc.GIdle? && s.q.prepareQ == [] && s.q.executeQ == [] && s.q.gcQ == []
  }

  /** At rest the cache holds exactly the prepared copies that no execution consumed: a copy that
      loses the race is kept for good, one that wins is freed. */
  lemma QuiescentCache(env: Env, trace: seq<Action>)
    requires Legal(env, trace) && Quiescent(Run(env, trace))
    ensures var s := Run(env, trace);
            s.cache.req.Keys == s.cache.data.Keys == s.h.stored - s.h.consumed
  {
    InvRun(env, trace);
    var s := Run(env, trace);
    forall uid
      ensures (uid in s.cache.req <==> uid in s.h.stored - s.h.consumed)
      ensures (uid in s.cache.data <==> uid in s.cache.req)
    {
      if uid in s.cache.req || uid in s.h.stored || uid in s.cache.data { assert UidOk(env, s, uid); }
    }
  }

  // ---------------------------------------------------------------- nothing is dropped, repeated or reordered

  /** The committed requests, in the order they were handed to the executor. */
  function Pushed(trace: seq<Action>): seq<Request> {
    if trace == [] then []
    else
      var before, a := Pushed(trace[..|trace| - 1]), trace[|trace| - 1];
      if a.PushExecute? then before + [a.r] else before
  }

  function Executed(log: seq<(Request, Batch)>): (r: seq<Request>)
    ensures |r| == |log| && forall i :: 0 <= i < |log| ==> r[i] == log[i].0
  {
    seq(|log|, i requires 0 <= i < |log| => log[i].0)
  }

  /** The request the execute thread has taken and not yet handed to the transaction manager. */
  function InHand(x: ExecutePc): seq<Request> { if x.XIdle? || x.XDone? then [] else [x.r] }

  /** What was executed, is in hand and is still queued, in that order. */
  function Account(s: State): seq<Request> { Executed(s.log) + InHand(s.exec) + s.q.executeQ }

  lemma ExecutedMore(log: seq<(Request, Batch)>, r: Request, b: Batch)
    ensures Executed(log + [(r, b)]) == Executed(log) + [r]
  {}

  lemma ExecuteAccount(env: Env, s: State)
    ensures Account(StepExecuteThread(env, s)) == Account(s)
  {
    var t := StepExecuteThread(env, s);
    if s.exec.XIdle? && s.q.executeQ != [] {
      assert s.q.executeQ == [s.q.executeQ[0]] + s.q.executeQ[1..];
    } else if s.exec.XRun? && t.log != s.log {
      var r, b := s.exec.r, t.log[|s.log|].1;
      assert t.log == s.log + [(r, b)];
      ExecutedMore(s.log, r, b);
    }
  }

  lemma StepAccount(env: Env, s: State, a: Action)
    ensures Account(Next(env, s, a)) == Account(s) + if a.PushExecute? then [a.r] else []
  {
    if a.StepExecute? { ExecuteAccount(env, s); }
  }

  /**
   * In every run the executed requests are the committed ones in the order they were handed over;
   * missing are exactly the one in hand and those in the queue. At rest none is missing.
   */
  lemma {:induction false} ExecutesAllInOrder(env: Env, trace: seq<Action>)
    requires Legal(env, trace)
    ensures var s := Run(env, trace);
            && Pushed(trace) == Executed(s.log) + InHand(s.exec) + s.q.executeQ
            && (Quiescent(s) ==> Executed(s.log) == Pushed(trace))
  {
    if trace != [] {
      var before := trace[..|trace| - 1];
      ExecutesAllInOrder(env, before);
      hide Next, Executed;
      StepAccount(env, Run(env, before), trace[|trace| - 1]);
    }
  }

  // ---------------------------------------------------------------- who wins the race

  /** An execution takes the prepared copy exactly when its preparation has ended; without a uid it never does. */
  lemma ClaimsIffEnded(env: Env, trace: seq<Action>)
    requires Legal(env, trace) && Run(env, trace).exec.XPopped?
    ensures var s := Run(env, trace);
            var r, t := s.exec.r, StepExecuteThread(env, s);
            && (t.exec == XClaimed(r) <==> r.uid != 0 && EndMarked(s, r.uid))
            && (t.exec == XRun(r, false) <==> r.uid == 0 || !EndMarked(s, r.uid))
  {}

  /** A preparation goes on exactly when no execution of its uid has started. */
  lemma PreparesIffNotStarted(env: Env, trace: seq<Action>)
    requires Legal(env, trace) && Run(env, trace).prep.PPopped?
    ensures var s := Run(env, trace);
            var r, t := s.prep.r, StepPrepareThread(env, s);
            && (t.prep == PStarted(r) <==> !(r.uid in s.cache.flag && StartExecute in s.cache.flag[r.uid]))
            && (t.prep == PIdle <==> r.uid in s.cache.flag && StartExecute in s.cache.flag[r.uid])
  {}
}
