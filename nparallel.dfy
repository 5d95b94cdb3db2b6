/**
 * `mapNParallel` of src/index.ts with its event loop replaced by an explicit
 * schedule. Every unit calls `Block` in index order before any unit finishes;
 * then, as long as some unit holds a slot, one of them (any one) finishes: on
 * success it stores its value at its own index and calls `Free`, which may
 * hand the slot to the head of the queue; on failure it never frees.
 */
module NParallel {
  import opened Wrappers
  import opened Gate

  /** The two ways the call can fail: a bad thread count, or a failing unit. */
  datatype MapError<E> = RangeError | TransformFailure(reason: E)

  function Min(a: int, b: int): int
  {
    if a <= b then a else b
  }

  /** The indices lo, lo + 1, ..., hi - 1 in increasing order. */
  function Range(lo: nat, hi: nat): (r: seq<nat>)
    ensures |r| == if lo <= hi then hi - lo else 0
    ensures forall k :: 0 <= k < |r| ==> r[k] == lo + k
  {
    if lo < hi then seq(hi - lo, k requires 0 <= k < hi - lo => (lo + k) as nat) else []
  }

  lemma RangeTail(lo: nat, hi: nat)
    requires lo < hi
    ensures Range(lo, hi)[0] == lo && Range(lo, hi)[1..] == Range(lo + 1, hi)
  {
  }

  lemma {:induction false} RangeSnoc(lo: nat, hi: nat)
    requires lo <= hi
    ensures Range(lo, hi) + [hi] == Range(lo, hi + 1)
    decreases hi - lo
  {
    if lo < hi {
      RangeSnoc(lo + 1, hi);
      assert Range(lo, hi) + [hi] == [lo] + (Range(lo + 1, hi) + [hi]);
    }
  }

  predicate Distinct(s: seq<nat>)
  {
    forall a, b :: 0 <= a < b < |s| ==> s[a] != s[b]
  }

  /** The outcome of every unit, by index: what `mapFunc(data[i], i, data)` settles to. */
  function Outcomes<I, O, E>(data: seq<I>, mapFunc: (I, nat, seq<I>) -> Result<O, E>): (outs: seq<Result<O, E>>)
    ensures |outs| == |data|
    ensures forall i :: 0 <= i < |data| ==> outs[i] == mapFunc(data[i], i, data)
  {
    seq(|data|, i requires 0 <= i < |data| => mapFunc(data[i], i, data))
  }

  /** What `Promise.all` fulfils with when every unit succeeds: the values, index by index. */
  function Values<O, E>(outs: seq<Result<O, E>>): (vs: seq<O>)
    requires forall i :: 0 <= i < |outs| ==> outs[i].Success?
    ensures |vs| == |outs|
    ensures forall i :: 0 <= i < |outs| ==> vs[i] == outs[i].value
  {
    if outs == [] then [] else [outs[0].value] + Values(outs[1..])
  }

  /**
   * The position, in the completion order, of the first unit that failed:
   * the rejection `Promise.all` settles with.
   */
  function FirstFailure<O, E>(outs: seq<Result<O, E>>, order: seq<nat>): (p: Option<nat>)
    requires forall k :: 0 <= k < |order| ==> order[k] < |outs|
    ensures p.None? <==> forall k :: 0 <= k < |order| ==> outs[order[k]].Success?
    ensures p.Some? ==> p.value < |order| && outs[order[p.value]].Failure?
    ensures p.Some? ==> forall k :: 0 <= k < p.value ==> outs[order[k]].Success?
  {
    if order == [] then None
    else if outs[order[0]].Failure? then Some(0)
    else match FirstFailure(outs, order[1..]) {
      case None => None
      case Some(p) => Some(p + 1)
    }
  }

  /** A unit finishing later never changes an earlier rejection. */
  lemma {:induction false} FirstFailureAppend<O, E>(outs: seq<Result<O, E>>, order: seq<nat>, u: nat)
    requires forall k :: 0 <= k < |order| ==> order[k] < |outs|
    requires u < |outs|
    ensures FirstFailure(outs, order + [u]) ==
      if FirstFailure(outs, order).Some? then FirstFailure(outs, order)
      else if outs[u].Failure? then Some(|order|)
      else None
  {
    if order != [] {
      assert (order + [u])[1..] == order[1..] + [u];
      FirstFailureAppend(outs, order[1..], u);
    }
  }

  /**
   * The synchronous part of `data.map(...)`: unit i calls `Block(i)` for
   * i = 0, 1, ..., n - 1, and the units admitted at once start `mapFunc`.
   */
  method BlockAll(mutex: Mutex, n: nat) returns (running: set<nat>, calls: seq<nat>, peak: nat)
    requires mutex.max >= 1 && mutex.current == 0 && mutex.q == []
    modifies mutex
    ensures mutex.current == Min(n, mutex.max) && mutex.q == Range(Min(n, mutex.max), n)
    ensures forall j :: j in running <==> 0 <= j < Min(n, mutex.max)
    ensures |running| == peak == Min(n, mutex.max)
    ensures calls == Range(0, Min(n, mutex.max))
  {
    running, calls, peak := {}, [], 0;
    var i := 0;
    while i < n
      invariant 0 <= i <= n
      invariant mutex.current == Min(i, mutex.max)
      invariant mutex.q == Range(Min(i, mutex.max), i)
      invariant calls == Range(0, Min(i, mutex.max))
      invariant forall j :: j in running <==> 0 <= j < Min(i, mutex.max)
      invariant |running| == peak == Min(i, mutex.max)
    {
      var admitted := mutex.Block(i);
      if admitted {
        running := running + {i};
        calls := calls + [i];
        peak := |running|;
      }
      i := i + 1;
    }
  }

  /** The number of slots leaked so far: units in `order` that failed and so never freed. */
  function Leaked<O, E>(outs: seq<Result<O, E>>, order: seq<nat>): (count: nat)
    requires forall k :: 0 <= k < |order| ==> order[k] < |outs|
    ensures count <= |order|
    ensures count == 0 <==> FirstFailure(outs, order).None?
  {
    if order == [] then 0
    else (if outs[order[0]].Failure? then 1 else 0) + Leaked(outs, order[1..])
  }

  lemma {:induction false} LeakedAppend<O, E>(outs: seq<Result<O, E>>, order: seq<nat>, u: nat)
    requires forall k :: 0 <= k < |order| ==> order[k] < |outs|
    requires u < |outs|
    ensures Leaked(outs, order + [u]) == Leaked(outs, order) + if outs[u].Failure? then 1 else 0
  {
    if order != [] {
      assert (order + [u])[1..] == order[1..] + [u];
      LeakedAppend(outs, order[1..], u);
    }
  }

  /** How far the units have got, as seen by the caller of `mapNParallel`. */
  datatype Progress<O, E> = Progress(
    running: set<nat>,       // units that hold a slot and have not settled
    calls: seq<nat>,         // indices `mapFunc` was invoked on, in invocation order
    completed: seq<nat>,     // indices that settled, in settlement order
    results: seq<Option<O>>, // the value of each unit that succeeded, by index
    rejection: Option<E>,    // the first failure, once there is one
    peak: nat)               // the most units running at once (failed units not counted)

  /**
   * Unit u settles with `out`. On success its value goes to index u; on
   * failure it becomes the rejection unless an earlier unit already failed.
   * `woken` is the waiter `Free` handed the slot to, which starts at once.
   */
  function Settle<O, E>(p: Progress<O, E>, u: nat, out: Result<O, E>, woken: Option<nat>): (r: Progress<O, E>)
    requires u < |p.results|
    ensures r.completed == p.completed + [u] && |r.results| == |p.results|
    ensures forall j :: 0 <= j < |p.results| && j != u ==> r.results[j] == p.results[j]
    ensures r.results[u] == if out.Success? then Some(out.value) else p.results[u]
    ensures r.rejection == if p.rejection.None? && out.Failure? then Some(out.error) else p.rejection
    ensures woken.None? ==> r.calls == p.calls && r.running == p.running - {u}
    ensures woken.Some? ==> r.calls == p.calls + [woken.value] && r.running == p.running - {u} + {woken.value}
  {
    var results := if out.Success? then p.results[u := Some(out.value)] else p.results;
    var rejection := if out.Failure? && p.rejection.None? then Some(out.error) else p.rejection;
    var running := p.running - {u};
    match woken
    case None => Progress(running, p.calls, p.completed + [u], results, rejection, p.peak)
    case Some(w) =>
      var running' := running + {w};
      Progress(running', p.calls + [w], p.completed + [u], results, rejection,
               if |running'| > p.peak then |running'| else p.peak)
  }

  /**
   * Which units have started and which have settled: `mapFunc` was invoked on
   * 0 .. next - 1 in order, and each of those either holds a slot or appears
   * exactly once in the settlement order.
   */
  ghost predicate Tracking<O, E>(n: nat, p: Progress<O, E>)
  {
    var next := |p.calls|;
    && next <= n
    && p.calls == Range(0, next)
    && (forall j :: j in p.running ==> j < next)
    && (forall k :: 0 <= k < |p.completed| ==> p.completed[k] < next && p.completed[k] !in p.running)
    && (forall j :: 0 <= j < next ==> j in p.running || j in p.completed)
    && Distinct(p.completed)
    && |p.completed| + |p.running| == next
    && |p.results| == n
  }

  /**
   * The gate's numbers seen from outside, for limit `max`, counter `current`
   * and queue `q`, with `holders` units holding a slot, `leaked` slots kept by
   * failed units and `next` the first index not yet started: the queue holds
   * exactly the units not yet started; holders and leaked slots never exceed
   * min(n, max), and fill it while anybody waits; the counter is holders plus
   * leaked slots minus the hand-offs, which the gate never counted again.
   */
  ghost predicate Counts(n: nat, max: int, current: int, q: seq<nat>, holders: nat, leaked: nat, next: nat, peak: nat)
  {
    var k0 := Min(n, max);
    && k0 <= next
    && q == Range(next, n)
    && holders + leaked <= k0
    && (next < n ==> holders + leaked == k0)
    && current == holders + leaked - (next - k0)
    && peak == k0
  }

  ghost predicate Occupancy<O, E>(outs: seq<Result<O, E>>, max: int, current: int, q: seq<nat>, p: Progress<O, E>)
    requires forall k :: 0 <= k < |p.completed| ==> p.completed[k] < |outs|
  {
    Counts(|outs|, max, current, q, |p.running|, Leaked(outs, p.completed), |p.calls|, p.peak)
  }

  /** The rejection is the error of the first settled unit that failed. */
  ghost predicate Rejected<O, E>(outs: seq<Result<O, E>>, completed: seq<nat>, rejection: Option<E>)
    requires forall k :: 0 <= k < |completed| ==> completed[k] < |outs|
  {
    && (rejection.None? <==> FirstFailure(outs, completed).None?)
    && (rejection.Some? ==> rejection.value == outs[completed[FirstFailure(outs, completed).value]].error)
  }

  /** Every stored result is its unit's value, and every settled success is stored. */
  ghost predicate Stored<O, E>(outs: seq<Result<O, E>>, completed: seq<nat>, results: seq<Option<O>>)
    requires |results| == |outs|
  {
    forall j :: 0 <= j < |outs| ==>
      (results[j].Some? ==> outs[j] == Success(results[j].value)) &&
      (j in completed && outs[j].Success? ==> results[j].Some?)
  }

  /** Results by index and the rejection agree with the settled units' outcomes. */
  ghost predicate Recorded<O, E>(outs: seq<Result<O, E>>, p: Progress<O, E>)
    requires Tracking(|outs|, p)
  {
    Rejected(outs, p.completed, p.rejection) && Stored(outs, p.completed, p.results)
  }

  ghost predicate Inv<O, E>(outs: seq<Result<O, E>>, max: int, current: int, q: seq<nat>, p: Progress<O, E>)
  {
    Tracking(|outs|, p) && Occupancy(outs, max, current, q, p) && Recorded(outs, p)
  }

  /**
   * The point of the accounting: between settlements at most `max` units hold
   * a slot, even counting the failed units that keep theirs for good, and the
   * gate's counter never exceeds the holders plus the leaked slots, though
   * hand-offs leave it lower than that sum.
   */
  lemma AtMostThreadsHold<O, E>(outs: seq<Result<O, E>>, max: int, current: int, q: seq<nat>, p: Progress<O, E>)
    requires Inv(outs, max, current, q, p)
    ensures |p.running| <= max && |p.running| <= |outs|
    ensures |p.running| + Leaked(outs, p.completed) <= Min(|outs|, max)
    ensures current <= |p.running| + Leaked(outs, p.completed)
  {
  }

  /**
   * Right after every unit has blocked, before anything settles: the first
   * min(n, max) units hold a slot and the rest wait in index order.
   */
  lemma Blocked<O, E>(outs: seq<Result<O, E>>, max: int, current: int, q: seq<nat>, running: set<nat>, calls: seq<nat>, peak: nat)
    requires max >= 1
    requires current == Min(|outs|, max) && q == Range(Min(|outs|, max), |outs|)
    requires forall j :: j in running <==> 0 <= j < Min(|outs|, max)
    requires |running| == peak == Min(|outs|, max) && calls == Range(0, Min(|outs|, max))
    ensures Inv(outs, max, current, q, Progress(running, calls, [], seq(|outs|, _ => None), None, peak))
  {
  }

  /** Settling a holder, and starting the next index if the slot is handed over, keeps the tracking. */
  lemma TrackingKept<O, E>(n: nat, p: Progress<O, E>, u: nat, out: Result<O, E>, woken: Option<nat>)
    requires Tracking(n, p) && u in p.running
    requires woken.Some? ==> woken.value == |p.calls| < n
    ensures Tracking(n, Settle(p, u, out, woken))
  {
    var p' := Settle(p, u, out, woken);
    assert Distinct(p'.completed) by {
      assert forall k :: 0 <= k < |p.completed| ==> p'.completed[k] == p.completed[k] != u;
    }
    if woken.Some? {
      RangeSnoc(0, |p.calls|);
    }
  }

  /** A later settlement never replaces a rejection; a failure sets it only if none was set. */
  lemma RejectedKept<O, E>(outs: seq<Result<O, E>>, completed: seq<nat>, rejection: Option<E>, u: nat)
    requires forall k :: 0 <= k < |completed| ==> completed[k] < |outs|
    requires u < |outs| && Rejected(outs, completed, rejection)
    ensures Rejected(outs, completed + [u],
                     if outs[u].Failure? && rejection.None? then Some(outs[u].error) else rejection)
  {
    FirstFailureAppend(outs, completed, u);
  }

  /** Storing a success at its own index keeps every other stored result. */
  lemma StoredKept<O, E>(outs: seq<Result<O, E>>, completed: seq<nat>, results: seq<Option<O>>, u: nat)
    requires |results| == |outs| && u < |outs| && Stored(outs, completed, results)
    ensures Stored(outs, completed + [u],
                   if outs[u].Success? then results[u := Some(outs[u].value)] else results)
  {
  }

  /** Settling a holder keeps the results and the rejection in step with the outcomes. */
  lemma RecordedKept<O, E>(outs: seq<Result<O, E>>, p: Progress<O, E>, u: nat, woken: Option<nat>)
    requires Tracking(|outs|, p) && Recorded(outs, p) && u in p.running
    requires woken.Some? ==> woken.value == |p.calls| < |outs|
    ensures Tracking(|outs|, Settle(p, u, outs[u], woken))
    ensures Recorded(outs, Settle(p, u, outs[u], woken))
  {
    TrackingKept(|outs|, p, u, outs[u], woken);
    RejectedKept(outs, p.completed, p.rejection, u);
    StoredKept(outs, p.completed, p.results, u);
  }

  /**
   * The step of the gate that a settlement causes: a success calls `Free`,
   * which lowers the counter and wakes the head of the queue, if any; a
   * failure leaves the gate alone.
   */
  ghost predicate GateStep(succeeded: bool, current: int, q: seq<nat>, woken: Option<nat>, current': int, q': seq<nat>)
    ensures GateStep(succeeded, current, q, woken, current', q') ==>
      (woken.Some? <==> succeeded && q != []) && |q'| == |q| - (if woken.Some? then 1 else 0)
    ensures GateStep(succeeded, current, q, woken, current', q') ==> current' == current - (if succeeded then 1 else 0)
  {
    if succeeded then
      current' == current - 1 &&
      (q == [] ==> woken == None && q' == []) &&
      (q != [] ==> woken == Some(q[0]) && q' == q[1..])
    else
      current' == current && q' == q && woken == None
  }

  /** A success with somebody waiting: the slot passes to the head of the queue, which starts. */
  lemma HandoffKept(n: nat, max: int, current: int, q: seq<nat>, holders: nat, leaked: nat, next: nat, peak: nat)
    requires Counts(n, max, current, q, holders, leaked, next, peak) && q != []
    ensures q[0] == next < n
    ensures Counts(n, max, current - 1, q[1..], holders, leaked, next + 1, peak)
  {
    RangeTail(next, n);
  }

  /** A success with nobody waiting: the slot becomes free and nothing starts. */
  lemma ReleaseKept(n: nat, max: int, current: int, q: seq<nat>, holders: nat, leaked: nat, next: nat, peak: nat)
    requires Counts(n, max, current, q, holders, leaked, next, peak) && q == [] && holders > 0
    ensures Counts(n, max, current - 1, q, holders - 1, leaked, next, peak)
  {
  }

  /** A failure: the slot stays taken for good and nothing starts. */
  lemma LeakKept(n: nat, max: int, current: int, q: seq<nat>, holders: nat, leaked: nat, next: nat, peak: nat)
    requires Counts(n, max, current, q, holders, leaked, next, peak) && holders > 0
    ensures Counts(n, max, current, q, holders - 1, leaked + 1, next, peak)
  {
  }

  /** How a settlement changes the sizes the accounting is about. */
  lemma SettleSizes<O, E>(p: Progress<O, E>, u: nat, out: Result<O, E>, woken: Option<nat>)
    requires u in p.running && u < |p.results|
    requires woken.Some? ==> woken.value !in p.running && |p.running| <= p.peak
    ensures Settle(p, u, out, woken).completed == p.completed + [u]
    ensures Settle(p, u, out, woken).peak == p.peak
    ensures |Settle(p, u, out, woken).calls| == |p.calls| + if woken.Some? then 1 else 0
    ensures |Settle(p, u, out, woken).running| == |p.running| - if woken.Some? then 0 else 1
  {
    var r1 := p.running - {u};
    assert |r1| == |p.running| - 1;
    if woken.Some? {
      assert |r1 + {woken.value}| == |r1| + 1;
    }
  }

  /** Under that step the occupancy accounting survives, and the run makes progress. */
  lemma OccupancyKept<O, E>(outs: seq<Result<O, E>>, max: int, current: int, q: seq<nat>, p: Progress<O, E>,
                            u: nat, woken: Option<nat>, current': int, q': seq<nat>)
    requires forall k :: 0 <= k < |p.completed| ==> p.completed[k] < |outs|
    requires Occupancy(outs, max, current, q, p)
    requires u in p.running && u < |p.results| == |outs| && |p.calls| !in p.running
    requires GateStep(outs[u].Success?, current, q, woken, current', q')
    ensures woken.Some? ==> woken.value == |p.calls| < |outs|
    ensures Occupancy(outs, max, current', q', Settle(p, u, outs[u], woken))
    ensures var p' := Settle(p, u, outs[u], woken);
      |outs| - |p'.calls| + |p'.running| < |outs| - |p.calls| + |p.running|
  {
    var n, holders, leaked, next := |outs|, |p.running|, Leaked(outs, p.completed), |p.calls|;
    LeakedAppend(outs, p.completed, u);
    if outs[u].Failure? {
      LeakKept(n, max, current, q, holders, leaked, next, p.peak);
    } else if q == [] {
      ReleaseKept(n, max, current, q, holders, leaked, next, p.peak);
    } else {
      HandoffKept(n, max, current, q, holders, leaked, next, p.peak);
    }
    SettleSizes(p, u, outs[u], woken);
  }

  /**
   * Once no unit holds a slot: the run succeeded exactly when every unit
   * succeeded, and then every unit was started and stored its value, and the
   * counter sits at min(n, max) - n, below zero whenever some unit queued.
   */
  lemma {:induction false} Finished<O, E>(outs: seq<Result<O, E>>, max: int, current: int, q: seq<nat>, p: Progress<O, E>)
    requires max >= 1 && Inv(outs, max, current, q, p) && p.running == {}
    ensures p.rejection.None? <==> forall i :: 0 <= i < |outs| ==> outs[i].Success?
    ensures p.rejection.None? ==> |p.calls| == |outs| && current == Min(|outs|, max) - |outs|
    ensures p.rejection.None? ==> forall j :: 0 <= j < |outs| ==> p.results[j].Some? && outs[j] == Success(p.results[j].value)
  {
    if p.rejection.None? {
      assert |p.calls| == |outs|;
      forall j | 0 <= j < |outs|
        ensures p.results[j].Some? && outs[j] == Success(p.results[j].value)
      {
        assert j in p.completed;
        var k :| 0 <= k < |p.completed| && p.completed[k] == j;
        assert outs[p.completed[k]].Success?;
      }
    } else {
      var f := FirstFailure(outs, p.completed).value;
      assert outs[p.completed[f]].Failure?;
    }
  }

  /**
   * The units settle one at a time, any one of those holding a slot next,
   * until none holds a slot. A unit frees its slot only when it succeeded.
   */
  method Drain<I, O, E>(mutex: Mutex, data: seq<I>, mapFunc: (I, nat, seq<I>) -> Result<O, E>, p0: Progress<O, E>)
    returns (p: Progress<O, E>)
    requires Inv(Outcomes(data, mapFunc), mutex.max, mutex.current, mutex.q, p0)
    modifies mutex
    ensures Inv(Outcomes(data, mapFunc), mutex.max, mutex.current, mutex.q, p)
    ensures p.running == {}
  {
    ghost var outs := Outcomes(data, mapFunc);
    p := p0;
    while p.running != {}
      invariant Inv(outs, mutex.max, mutex.current, mutex.q, p)
      decreases |outs| - |p.calls| + |p.running|
    {
      var u: nat :| u in p.running;
      var out := mapFunc(data[u], u, data);
      ghost var current, q := mutex.current, mutex.q;
      var woken := None;
      if out.Success? {
        woken := mutex.Free();
      }
      OccupancyKept(outs, mutex.max, current, q, p, u, woken, mutex.current, mutex.q);
      RecordedKept(outs, p, u, woken);
      p := Settle(p, u, out, woken);
    }
  }

  /**
   * The bounded parallel map. Besides the result it reports, for inspection,
   * the order in which `mapFunc` was invoked (`calls`), the order in which
   * units finished (`completed`), the largest number of units holding a slot
   * at one time (`peak`) and the gate's counter at the end (`finalCount`).
   */
  method MapNParallel<I, O, E>(data: seq<I>, mapFunc: (I, nat, seq<I>) -> Result<O, E>, threads: int)
    returns (r: Result<seq<O>, MapError<E>>, calls: seq<nat>, completed: seq<nat>, peak: nat, finalCount: int)
    // an invalid thread count fails before any unit exists
    ensures threads < 1 ==> r == Failure(RangeError) && calls == [] && completed == []
    // mapFunc is invoked on indices 0, 1, 2, ... in this order, each at most once
    ensures threads >= 1 ==> |calls| <= |data| && calls == Range(0, |calls|)
    // every invoked unit finishes, each once
    ensures |completed| == |calls| && Distinct(completed)
    ensures forall k :: 0 <= k < |completed| ==> completed[k] < |calls|
    // never more than `threads` units hold a slot at once
    ensures threads >= 1 ==> peak == Min(|data|, threads)
    // success exactly when every unit succeeds, with the values aligned by index
    ensures threads >= 1 ==>
      (r.Success? <==> forall i :: 0 <= i < |data| ==> mapFunc(data[i], i, data).Success?)
    ensures r.Success? ==> r.value == Values(Outcomes(data, mapFunc)) && |calls| == |data|
    // the counter is not re-raised on hand-off, so it ends below zero when units queued
    ensures r.Success? ==> finalCount == Min(|data|, threads) - |data|
    // otherwise the failure of the first unit to fail, in completion order
    ensures threads >= 1 && r.Failure? ==>
      var p := FirstFailure(Outcomes(data, mapFunc), completed);
      p.Some? && r.error == TransformFailure(mapFunc(data[completed[p.value]], completed[p.value], data).error)
  {
    calls, completed, peak, finalCount := [], [], 0, 0;
    if threads < 1 {
      r := Failure(RangeError);
      return;
    }
    var mutex := new Mutex(threads);
    var running;
    running, calls, peak := BlockAll(mutex, |data|);
    Blocked(Outcomes(data, mapFunc), threads, mutex.current, mutex.q, running, calls, peak);
    var p := Drain(mutex, data, mapFunc, Progress(running, calls, [], seq(|data|, _ => None), None, peak));
    ghost var outs := Outcomes(data, mapFunc);
    Finished(outs, threads, mutex.current, mutex.q, p);
    assert forall i :: 0 <= i < |data| ==> outs[i] == mapFunc(data[i], i, data);
    calls, completed, peak, finalCount := p.calls, p.completed, p.peak, mutex.current;
    if p.rejection.Some? {
      r := Failure(TransformFailure(p.rejection.value));
    } else {
      r := Success(seq(|data|, j requires 0 <= j < |data| => p.results[j].value));
    }
  }
}
