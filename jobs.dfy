/**
 * The render-farm scheduler of bin/jobs.py: job records stored one per file
 * in a jobs directory, node records in a nodes directory, and the running
 * estimate of how often each capability is offered.  Nodes check in
 * (`report`), are handed frames (`task_select`), keep them alive
 * (`task_alive`) and hand them back (`task_done`).
 *
 * Time is an explicit `now`, the two uniform draws of `task_select` are
 * parameters in [0, 1), and the project priority lookup is a function
 * parameter.  A stored record that the JSON codec cannot decode reads as
 * None; it is kept as `Undecodable`.
 */
module Jobs {
  import opened Py
  import opened Lists

  // ---------------------------------------------------------------------------
  // Records

  /** A frame number, or the (min, max) range of a video render. */
  datatype Frame = Single(n: int) | Span(lo: int, hi: int)

  /** An entry of `working`: [frame, node ident, last confirmation time]. */
  datatype Work = Work(frame: Frame, ident: string, seen: real)

  datatype Job = Job(
    uuid: string,
    name: string,
    created: real,
    file: string,
    path: string,
    priority: int,
    project: string,
    meta: seq<string>,      // the database path of the asset's metadata
    video: bool,
    requirements: seq<string>,
    pause: bool,
    todo: seq<int>,
    working: seq<Work>,
    done: seq<int>,
    failed: seq<int>,
    time: real,
    timeCount: int,
    errors: int,
    potential: seq<string>)

  /** The record kept per known node. */
  datatype NodeRec = NodeRec(ident: string, paused: bool, capabilities: seq<string>, version: Option<string>, seen: real)

  /** What `read()` of a stored file gives: the decoded record, or None. */
  datatype Stored<+T> = Decoded(value: T) | Undecodable

  /** The reply to a node that was given work. */
  datatype Task = Task(uuid: string, frame: Frame, file: string, issued: real, requirements: seq<string>)

  /** The configuration values the scheduler reads. */
  datatype Config = Config(
    retry: bool,
    binSearchOrder: bool,
    timeout: real,            // heartbeat * timeout_scale
    timeoutNode: real,
    showOverdue: bool,
    minRenderTime: real,
    unknownRenderTime: real,
    requireShrink: real)      // 0.5 ** (1 / require_half_life)
  {
    ghost predicate Valid() {
      minRenderTime > 0.0 && unknownRenderTime > 0.0 && 0.0 < requireShrink < 1.0
    }

    function RequireAdd(): real {
      1.0 - requireShrink
    }
  }


  // ---------------------------------------------------------------------------
  // bin_search_order

  /** A queued (low, high) pair with the indices it reads in range. */
  predicate Seg<T>(items: seq<T>, seg: (int, int)) {
    0 <= seg.0 <= seg.1 + 1 && seg.1 <= |items| && seg.0 <= |items|
  }

  /** `[items[i] for i in range(low, high)]`. */
  function Segment<T>(items: seq<T>, seg: (int, int)): seq<T>
    requires Seg(items, seg)
  {
    if seg.0 >= seg.1 then [] else items[seg.0..seg.1]
  }

  function SegWeight(seg: (int, int)): nat {
    if seg.1 - seg.0 < 0 then 1 else 2 * (seg.1 - seg.0) + 1
  }

  /** Termination measure of the queue: splitting a pair shrinks it. */
  function Measure(queue: seq<(int, int)>): nat {
    if |queue| == 0 then 0 else SegWeight(queue[0]) + Measure(queue[1..])
  }

  lemma {:induction false} MeasureAppend(queue: seq<(int, int)>, a: (int, int), b: (int, int))
    ensures Measure(queue + [a, b]) == Measure(queue) + SegWeight(a) + SegWeight(b)
  {
    if |queue| == 0 {
      assert queue + [a, b] == [a, b];
      assert [a, b][1..] == [b];
      assert [b][1..] == [];
    } else {
      assert (queue + [a, b])[1..] == queue[1..] + [a, b];
      MeasureAppend(queue[1..], a, b);
    }
  }

  /** The middle index of a pair that is split. */
  function Half(seg: (int, int)): (h: int)
    ensures seg.1 - seg.0 >= 4 ==> seg.0 + 2 <= h < seg.1
  {
    (seg.1 - seg.0) / 2 + seg.0
  }

  predicate ValidQueue<T>(items: seq<T>, queue: seq<(int, int)>) {
    forall k :: 0 <= k < |queue| ==> Seg(items, queue[k])
  }

  lemma ValidTail<T>(items: seq<T>, queue: seq<(int, int)>)
    requires ValidQueue(items, queue) && |queue| > 0
    ensures ValidQueue(items, queue[1..])
  {
    forall k | 0 <= k < |queue| - 1 ensures Seg(items, queue[1..][k]) {
      assert queue[1..][k] == queue[k + 1];
    }
  }

  lemma ValidAppend<T>(items: seq<T>, rest: seq<(int, int)>, a: (int, int), b: (int, int))
    requires ValidQueue(items, rest) && Seg(items, a) && Seg(items, b)
    ensures ValidQueue(items, rest + [a, b])
  {
    forall k | 0 <= k < |rest| + 2 ensures Seg(items, (rest + [a, b])[k]) {
      if k < |rest| {
        assert (rest + [a, b])[k] == rest[k];
      }
    }
  }

  lemma MeasureCons(queue: seq<(int, int)>)
    requires |queue| > 0
    ensures Measure(queue) == SegWeight(queue[0]) + Measure(queue[1..])
  {
  }

  /** The two halves of a split pair weigh less than the pair. */
  lemma HalvesWeigh(seg: (int, int))
    requires seg.1 - seg.0 >= 4
    ensures SegWeight((seg.0, Half(seg))) + SegWeight((Half(seg) + 1, seg.1)) < SegWeight(seg)
  {
  }

  /** Queueing the two halves in place of a split pair lowers the measure. */
  lemma SplitShrinks(queue: seq<(int, int)>)
    requires |queue| > 0 && queue[0].1 - queue[0].0 >= 4
    ensures var seg := queue[0];
      Measure(queue[1..] + [(seg.0, Half(seg)), (Half(seg) + 1, seg.1)]) < Measure(queue)
  {
    var seg := queue[0];
    MeasureAppend(queue[1..], (seg.0, Half(seg)), (Half(seg) + 1, seg.1));
    HalvesWeigh(seg);
    MeasureCons(queue);
  }

  /** Queueing the two halves of a split pair keeps the queue valid. */
  lemma SplitValid<T>(items: seq<T>, queue: seq<(int, int)>)
    requires ValidQueue(items, queue) && |queue| > 0 && queue[0].1 - queue[0].0 >= 4
    ensures var seg := queue[0];
      0 <= Half(seg) < |items|
      && ValidQueue(items, queue[1..] + [(seg.0, Half(seg)), (Half(seg) + 1, seg.1)])
  {
    var seg := queue[0];
    assert Seg(items, seg);
    ValidTail(items, queue);
    ValidAppend(items, queue[1..], (seg.0, Half(seg)), (Half(seg) + 1, seg.1));
  }

  /** Popping the front pair, and queueing the two halves of a split, keep the queue valid. */
  lemma Split<T>(items: seq<T>, queue: seq<(int, int)>)
    requires ValidQueue(items, queue) && |queue| > 0
    ensures ValidQueue(items, queue[1..])
    ensures var seg := queue[0]; seg.1 - seg.0 >= 4 ==>
      0 <= Half(seg) < |items|
      && ValidQueue(items, queue[1..] + [(seg.0, Half(seg)), (Half(seg) + 1, seg.1)])
      && Measure(queue[1..] + [(seg.0, Half(seg)), (Half(seg) + 1, seg.1)]) < Measure(queue)
  {
    ValidTail(items, queue);
    if queue[0].1 - queue[0].0 >= 4 {
      SplitValid(items, queue);
      SplitShrinks(queue);
    }
  }

  /** The breadth-first queue processing, from a given queue and output so far. */
  function Drain<T>(items: seq<T>, queue: seq<(int, int)>, acc: seq<T>): seq<T>
    requires ValidQueue(items, queue)
    decreases Measure(queue)
  {
    if |queue| == 0 then acc
    else
      var seg := queue[0];
      Split(items, queue);
      if seg.1 - seg.0 < 4 then
        Drain(items, queue[1..], acc + Segment(items, seg))
      else
        var half := Half(seg);
        Drain(items, queue[1..] + [(seg.0, half), (half + 1, seg.1)], acc + [items[half]])
  }

  /** One step of the queue processing. */
  lemma DrainStep<T>(items: seq<T>, queue: seq<(int, int)>, acc: seq<T>)
    requires ValidQueue(items, queue) && |queue| > 0
    ensures ValidQueue(items, queue[1..])
    ensures queue[0].1 - queue[0].0 < 4 ==>
      Drain(items, queue, acc) == Drain(items, queue[1..], acc + Segment(items, queue[0]))
    ensures var seg := queue[0]; seg.1 - seg.0 >= 4 ==>
      0 <= Half(seg) < |items|
      && ValidQueue(items, queue[1..] + [(seg.0, Half(seg)), (Half(seg) + 1, seg.1)])
      && Drain(items, queue, acc)
         == Drain(items, queue[1..] + [(seg.0, Half(seg)), (Half(seg) + 1, seg.1)], acc + [items[Half(seg)]])
  {
    Split(items, queue);
  }

  /** `bin_search_order(items)` for a non-empty list. */
  function BinSearch<T>(items: seq<T>): seq<T>
    requires |items| > 0
  {
    Drain(items, [(1, |items| - 1)], [items[0], items[|items| - 1]])
  }

  /** `for i in range(low, high): ret.append(items[i])`. */
  method AppendSlice<T>(items: seq<T>, ret: seq<T>, low: int, high: int) returns (r: seq<T>)
    requires Seg(items, (low, high))
    ensures r == ret + Segment(items, (low, high))
  {
    r := ret;
    var i := low;
    while i < high
      invariant low <= i <= |items| && (i <= high || i == low)
      invariant r == ret + Segment(items, (low, i))
    {
      assert items[low..i + 1] == Segment(items, (low, i)) + [items[i]];
      r := r + [items[i]];
      i := i + 1;
    }
    assert Segment(items, (low, i)) == Segment(items, (low, high));
  }

  /** The loop of `bin_search_order`: pop the front pair, emit its middle or its items. */
  method BinSearchOrder<T>(items: seq<T>) returns (r: Outcome<seq<T>>)
    ensures |items| == 0 ==> r == Raise(IndexError)
    ensures |items| > 0 ==> r == Ok(BinSearch(items))
  {
    if |items| == 0 {
      return Raise(IndexError);
    }
    var stack := [(1, |items| - 1)];
    var ret := [items[0], items[|items| - 1]];
    while |stack| != 0
      invariant ValidQueue(items, stack)
      invariant Drain(items, stack, ret) == BinSearch(items)
      decreases Measure(stack)
    {
      var seg := stack[0];
      DrainStep(items, stack, ret);
      Split(items, stack);
      var low, high := seg.0, seg.1;
      if high - low < 4 {
        ret := AppendSlice(items, ret, low, high);
        stack := stack[1..];
      } else {
        var half := (high - low) / 2 + low;
        assert half == Half(seg);
        ret := ret + [items[half]];
        stack := stack[1..] + [(low, half), (half + 1, high)];
      }
    }
    return Ok(ret);
  }

  /** The items still queued, as a multiset. */
  function Queued<T>(items: seq<T>, queue: seq<(int, int)>): multiset<T>
    requires ValidQueue(items, queue)
  {
    if |queue| == 0 then multiset{} else multiset(Segment(items, queue[0])) + Queued(items, queue[1..])
  }

  lemma {:induction false} QueuedAppend<T>(items: seq<T>, queue: seq<(int, int)>, a: (int, int), b: (int, int))
    requires ValidQueue(items, queue)
    requires Seg(items, a) && Seg(items, b)
    ensures Queued(items, queue + [a, b]) == Queued(items, queue) + multiset(Segment(items, a)) + multiset(Segment(items, b))
  {
    if |queue| == 0 {
      assert queue + [a, b] == [a, b];
      assert [a, b][1..] == [b];
      assert [b][1..] == [];
    } else {
      assert (queue + [a, b])[1..] == queue[1..] + [a, b];
      QueuedAppend(items, queue[1..], a, b);
    }
  }

  lemma SliceSplit<T>(items: seq<T>, seg: (int, int))
    requires Seg(items, seg) && seg.1 - seg.0 >= 4
    ensures Seg(items, (seg.0, Half(seg))) && Seg(items, (Half(seg) + 1, seg.1))
    ensures multiset(Segment(items, seg))
         == multiset(Segment(items, (seg.0, Half(seg)))) + multiset{items[Half(seg)]} + multiset(Segment(items, (Half(seg) + 1, seg.1)))
  {
    var half := Half(seg);
    assert items[seg.0..seg.1] == items[seg.0..half] + [items[half]] + items[half + 1..seg.1];
  }

  /** Draining emits exactly what was already output plus every queued item. */
  lemma {:induction false} DrainMultiset<T>(items: seq<T>, queue: seq<(int, int)>, acc: seq<T>)
    requires ValidQueue(items, queue)
    ensures multiset(Drain(items, queue, acc)) == multiset(acc) + Queued(items, queue)
    decreases Measure(queue)
  {
    if |queue| > 0 {
      var seg := queue[0];
      Split(items, queue);
      if seg.1 - seg.0 < 4 {
        DrainMultiset(items, queue[1..], acc + Segment(items, seg));
      } else {
        var half := Half(seg);
        var next := queue[1..] + [(seg.0, half), (half + 1, seg.1)];
        DrainMultiset(items, next, acc + [items[half]]);
        QueuedAppend(items, queue[1..], (seg.0, half), (half + 1, seg.1));
        SliceSplit(items, seg);
        assert multiset(acc + [items[half]]) == multiset(acc) + multiset{items[half]};
      }
    }
  }

  /** What was output before draining stays a prefix. */
  lemma {:induction false} DrainExtends<T>(items: seq<T>, queue: seq<(int, int)>, acc: seq<T>)
    requires ValidQueue(items, queue)
    ensures |acc| <= |Drain(items, queue, acc)| && Drain(items, queue, acc)[..|acc|] == acc
    decreases Measure(queue)
  {
    if |queue| > 0 {
      var seg := queue[0];
      Split(items, queue);
      if seg.1 - seg.0 < 4 {
        DrainExtends(items, queue[1..], acc + Segment(items, seg));
        assert (acc + Segment(items, seg))[..|acc|] == acc;
      } else {
        var half := Half(seg);
        DrainExtends(items, queue[1..] + [(seg.0, half), (half + 1, seg.1)], acc + [items[half]]);
        assert (acc + [items[half]])[..|acc|] == acc;
      }
    }
  }

  /** For two or more items the order is a permutation of them. */
  lemma BinSearchPermutation<T>(items: seq<T>)
    requires |items| >= 2
    ensures multiset(BinSearch(items)) == multiset(items)
  {
    var n := |items|;
    DrainMultiset(items, [(1, n - 1)], [items[0], items[n - 1]]);
    assert items == [items[0]] + items[1..n - 1] + [items[n - 1]];
  }

  /** It starts with the first and the last item. */
  lemma BinSearchEnds<T>(items: seq<T>)
    requires |items| > 0
    ensures |BinSearch(items)| >= 2
    ensures BinSearch(items)[0] == items[0] && BinSearch(items)[1] == items[|items| - 1]
  {
    DrainExtends(items, [(1, |items| - 1)], [items[0], items[|items| - 1]]);
  }

  /** A single item comes out twice. */
  lemma BinSearchSingle<T>(x: T)
    ensures BinSearch([x]) == [x, x]
  {
    assert [(1, 0)][1..] == [];
  }

  /** The frames 1..10 of the worked example. */
  function OneToTen(): (s: seq<int>)
    ensures |s| == 10 && forall k :: 0 <= k < 10 ==> s[k] == k + 1
  {
    [1, 2, 3, 4, 5, 6, 7, 8, 9, 10]
  }

  lemma TenStep1()
    ensures Drain(OneToTen(), [(1, 9)], [1, 10]) == Drain(OneToTen(), [(1, 5), (6, 9)], [1, 10, 6])
  {
    var q := [(1, 9)];
    DrainStep(OneToTen(), q, [1, 10]);
    assert Half((1, 9)) == 5 && OneToTen()[5] == 6;
    assert q[1..] + [(1, 5), (6, 9)] == [(1, 5), (6, 9)];
    assert [1, 10] + [OneToTen()[5]] == [1, 10, 6];
  }

  lemma TenStep2()
    ensures Drain(OneToTen(), [(1, 5), (6, 9)], [1, 10, 6])
         == Drain(OneToTen(), [(6, 9), (1, 3), (4, 5)], [1, 10, 6, 4])
  {
    var q := [(1, 5), (6, 9)];
    DrainStep(OneToTen(), q, [1, 10, 6]);
    assert q[1..] + [(1, 3), (4, 5)] == [(6, 9), (1, 3), (4, 5)];
  }

  lemma TenStep3()
    ensures Drain(OneToTen(), [(6, 9), (1, 3), (4, 5)], [1, 10, 6, 4])
         == Drain(OneToTen(), [(1, 3), (4, 5)], [1, 10, 6, 4, 7, 8, 9])
  {
    var q := [(6, 9), (1, 3), (4, 5)];
    DrainStep(OneToTen(), q, [1, 10, 6, 4]);
    assert q[1..] == [(1, 3), (4, 5)];
    assert Segment(OneToTen(), (6, 9)) == [7, 8, 9];
  }

  lemma TenStep4()
    ensures Drain(OneToTen(), [(1, 3), (4, 5)], [1, 10, 6, 4, 7, 8, 9])
         == Drain(OneToTen(), [(4, 5)], [1, 10, 6, 4, 7, 8, 9, 2, 3])
  {
    var q := [(1, 3), (4, 5)];
    DrainStep(OneToTen(), q, [1, 10, 6, 4, 7, 8, 9]);
    assert q[1..] == [(4, 5)];
    assert Segment(OneToTen(), (1, 3)) == [2, 3];
  }

  lemma TenStep5()
    ensures Drain(OneToTen(), [(4, 5)], [1, 10, 6, 4, 7, 8, 9, 2, 3]) == [1, 10, 6, 4, 7, 8, 9, 2, 3, 5]
  {
    var q := [(4, 5)];
    DrainStep(OneToTen(), q, [1, 10, 6, 4, 7, 8, 9, 2, 3]);
    assert q[1..] == [];
    assert Segment(OneToTen(), (4, 5)) == [5];
  }

  /** Frames 1..10 come out as 1, 10, 6, 4, 7, 8, 9, 2, 3, 5. */
  lemma BinSearchOneToTen()
    ensures BinSearch(OneToTen()) == [1, 10, 6, 4, 7, 8, 9, 2, 3, 5]
  {
    TenStep1();
    TenStep2();
    TenStep3();
    TenStep4();
    TenStep5();
  }

  // ---------------------------------------------------------------------------
  // task_select, as a specification: eligibility, weight, draws, claim

  predicate Offers(requirements: seq<string>, offered: seq<string>) {
    forall k :: 0 <= k < |requirements| ==> requirements[k] in offered
  }

  predicate HasStale(working: seq<Work>, tooOld: real) {
    exists k :: 0 <= k < |working| && working[k].seen < tooOld
  }

  /** Whether `task_select` considers a job at all (lines 271-296). */
  predicate Eligible(job: Job, paths: seq<string>, offered: seq<string>, retry: bool, tooOld: real) {
    !job.pause && job.path in paths && Offers(job.requirements, offered)
    && (|job.todo| != 0 || (retry && HasStale(job.working, tooOld)))
  }

  ghost predicate PositiveRates(rates: map<string, real>) {
    forall k :: k in rates ==> rates[k] > 0.0
  }

  function RealMax(a: real, b: real): real {
    if a >= b then a else b
  }

  /** The product of the rates of the given capabilities (those that have one). */
  function RateProduct(reqs: seq<string>, rates: map<string, real>): (p: real)
    requires PositiveRates(rates)
    ensures p > 0.0
  {
    if |reqs| == 0 then 1.0
    else (if reqs[0] in rates then rates[reqs[0]] else 1.0) * RateProduct(reqs[1..], rates)
  }

  lemma DivideTwice(w: real, a: real, b: real)
    requires a > 0.0 && b > 0.0
    ensures w / a / b == w / (a * b)
  {
  }

  /** `weight /= require_rate[req]` for each requirement in turn; KeyError for an unrated one. */
  function DivideByRates(w: real, reqs: seq<string>, rates: map<string, real>): (r: Outcome<real>)
    requires PositiveRates(rates)
    ensures r.Raise? <==> exists k :: 0 <= k < |reqs| && reqs[k] !in rates
    ensures r.Raise? ==> r.error == KeyError
    ensures r.Ok? ==> r.value == w / RateProduct(reqs, rates)
    decreases |reqs|
  {
    if |reqs| == 0 then Ok(w)
    else if reqs[0] !in rates then Raise(KeyError)
    else
      var rest := DivideByRates(w / rates[reqs[0]], reqs[1..], rates);
      assert forall k :: 1 <= k < |reqs| ==> reqs[k] == reqs[1..][k - 1];
      assert rest.Raise? ==> exists k :: 0 <= k < |reqs| && reqs[k] !in rates by {
        if rest.Raise? {
          var k :| 0 <= k < |reqs[1..]| && reqs[1..][k] !in rates;
          assert reqs[k + 1] !in rates;
        }
      }
      var a, b := rates[reqs[0]], RateProduct(reqs[1..], rates);
      assert RateProduct(reqs, rates) == a * b;
      DivideTwice(w, a, b);
      assert rest.Ok? ==> rest.value == w / a / b;
      rest
  }

  /** The priority floor of line 299. */
  function BaseWeight(job: Job): real {
    RealMax(job.priority as real, 0.001)
  }

  /** Lines 302-307: favour jobs with short frames, and first frames most of all. */
  function TimeAdjusted(w: real, job: Job, cfg: Config): real
    requires cfg.Valid()
  {
    if job.timeCount != 0 then w / (RealMax(job.time, cfg.minRenderTime) / cfg.minRenderTime)
    else if |job.working| == 0 then w * 1024.0
    else w / cfg.unknownRenderTime
  }

  /** The weight with line 301 dividing by the rate of each requirement `req`. */
  function JobWeight(job: Job, rates: map<string, real>, cfg: Config): Outcome<real>
    requires cfg.Valid() && PositiveRates(rates)
  {
    match DivideByRates(BaseWeight(job), job.requirements, rates)
    case Raise(e) => Raise(e)
    case Ok(w) => Ok(TimeAdjusted(w, job, cfg))
  }

  /** The weight as line 301 is written: it reads `key`, a local first bound at line 324. */
  function JobWeightAsWritten(job: Job, rates: map<string, real>, cfg: Config): Outcome<real>
    requires cfg.Valid()
  {
    if |job.requirements| > 0 then Raise(UnboundLocalError) else Ok(TimeAdjusted(BaseWeight(job), job, cfg))
  }

  /** Any job with a requirement makes the code as written fail, where the intended weight exists. */
  lemma WeightAsWrittenFails(job: Job, rates: map<string, real>, cfg: Config)
    requires cfg.Valid() && PositiveRates(rates)
    requires |job.requirements| > 0 && forall k :: 0 <= k < |job.requirements| ==> job.requirements[k] in rates
    ensures JobWeightAsWritten(job, rates, cfg) == Raise(UnboundLocalError)
    ensures JobWeight(job, rates, cfg).Ok?
  {
  }

  /** Without requirements the two readings agree. */
  lemma WeightAgreesWithoutRequirements(job: Job, rates: map<string, real>, cfg: Config)
    requires cfg.Valid() && PositiveRates(rates) && |job.requirements| == 0
    ensures JobWeight(job, rates, cfg) == JobWeightAsWritten(job, rates, cfg)
  {
  }

  /** The intended weight is positive, and rarer capabilities raise it. */
  lemma WeightPositive(job: Job, rates: map<string, real>, cfg: Config)
    requires cfg.Valid() && PositiveRates(rates)
    ensures JobWeight(job, rates, cfg).Ok? ==> JobWeight(job, rates, cfg).value > 0.0
    ensures JobWeight(job, rates, cfg).Raise? <==> exists k :: 0 <= k < |job.requirements| && job.requirements[k] !in rates
  {
    var w := BaseWeight(job) / RateProduct(job.requirements, rates);
    assert w > 0.0;
    if job.timeCount != 0 {
      assert RealMax(job.time, cfg.minRenderTime) / cfg.minRenderTime > 0.0;
    }
  }

  /** A job that `task_select` may draw, with the file it was read from. */
  datatype Candidate = Candidate(weight: real, name: string, job: Job)

  /** `options[project]`: the candidates of one project, in the order they were found. */
  datatype Bucket = Bucket(project: string, members: seq<Candidate>)

  /** `options[project].append(c)` on a defaultdict that keeps first-insertion order. */
  function AddCandidate(bs: seq<Bucket>, project: string, c: Candidate): (r: seq<Bucket>)
    ensures |r| == |bs| || |r| == |bs| + 1
    ensures forall i :: 0 <= i < |bs| ==> r[i].project == bs[i].project
  {
    match First(bs, (b: Bucket) => b.project == project)
    case None => bs + [Bucket(project, [c])]
    case Some(i) => bs[i := Bucket(project, bs[i].members + [c])]
  }

  /** `sum([len(job['working']) for weight, job in options[key]])`. */
  function Busy(ms: seq<Candidate>): nat {
    if |ms| == 0 then 0 else |ms[0].job.working| + Busy(ms[1..])
  }

  /** Line 327: a project's weight, its priority over the nodes it already holds. */
  function ProjectWeight(b: Bucket, priority: string -> real): real {
    priority(b.project) / (0.1 + Busy(b.members) as real)
  }

  function ProjectWeights(bs: seq<Bucket>, priority: string -> real): (ws: seq<real>)
    ensures |ws| == |bs|
  {
    seq(|bs|, i requires 0 <= i < |bs| => ProjectWeight(bs[i], priority))
  }

  function Weights(ms: seq<Candidate>): (ws: seq<real>)
    ensures |ws| == |ms|
  {
    seq(|ms|, i requires 0 <= i < |ms| => ms[i].weight)
  }

  /** Lines 265-310 for one file of the listing. */
  function Consider(bs: seq<Bucket>, n: string, jobs: map<string, Stored<Job>>, rates: map<string, real>,
                    cfg: Config, paths: seq<string>, offered: seq<string>, tooOld: real): Outcome<seq<Bucket>>
    requires cfg.Valid() && PositiveRates(rates)
  {
    if n !in jobs || jobs[n].Undecodable? || !Eligible(jobs[n].value, paths, offered, cfg.retry, tooOld) then Ok(bs)
    else match JobWeight(jobs[n].value, rates, cfg)
      case Raise(e) => Raise(e)
      case Ok(w) => Ok(AddCandidate(bs, jobs[n].value.project, Candidate(w, n, jobs[n].value)))
  }

  /** The options built by the loop over the jobs directory. */
  function Gather(names: seq<string>, jobs: map<string, Stored<Job>>, rates: map<string, real>,
                  cfg: Config, paths: seq<string>, offered: seq<string>, tooOld: real): Outcome<seq<Bucket>>
    requires cfg.Valid() && PositiveRates(rates)
    decreases |names|
  {
    if |names| == 0 then Ok([])
    else match Gather(names[..|names| - 1], jobs, rates, cfg, paths, offered, tooOld)
      case Raise(e) => Raise(e)
      case Ok(bs) => Consider(bs, names[|names| - 1], jobs, rates, cfg, paths, offered, tooOld)
  }

  /** Lines 361-386 on the re-read record: which frame to hand out and the record to write. */
  function Claim(job: Job, ident: string, now: real, retry: bool, tooOld: real): Option<(Job, Frame)> {
    if |job.todo| != 0 then
      var frame := if job.video then Span(Min(job.todo), Max(job.todo)) else Single(job.todo[0]);
      var todo := if job.video then [] else job.todo[1..];
      Some((job.(todo := todo, working := job.working + [Work(frame, ident, now)]), frame))
    else if retry then
      match First(job.working, (w: Work) => w.seen < tooOld)
      case None => None
      case Some(i) =>
        var frame := job.working[i].frame;
        Some((job.(working := RemoveAt(job.working, i) + [Work(frame, ident, now)],
                   done := if job.video then [] else job.done,
                   errors := job.errors + 1), frame))
    else None
  }

  /** The outcome of a successful selection: the file written, the reply, the record written. */
  datatype Claimed = Claimed(file: string, task: Task, record: Job)

  /** Lines 354-390: re-read the drawn job by its uuid and claim a frame of it. */
  function ClaimStored(jobs: map<string, Stored<Job>>, file: string, ident: string, now: real,
                       retry: bool, tooOld: real): Outcome<Option<Claimed>>
  {
    if file !in jobs then Raise(KeyError)
    else if jobs[file].Undecodable? then Raise(TypeError)
    else match Claim(jobs[file].value, ident, now, retry, tooOld)
      case None => Ok(None)
      case Some(c) => Ok(Some(Claimed(file, Task(c.0.uuid, c.1, c.0.file, now, c.0.requirements), c.0)))
  }

  /** Lines 314-338: the project drawn; with one project there is no draw. */
  function ChooseProject(bs: seq<Bucket>, priority: string -> real, u: real): (pick: Option<nat>)
    requires |bs| > 0
    ensures pick.Some? ==> pick.value < |bs|
  {
    if |bs| == 1 then Some(0)
    else
      var ws := ProjectWeights(bs, priority);
      Pick(ws, Scale(u, Sum(ws)))
  }

  /** Lines 313-351: the project draw, then the job draw within it. */
  function Drawn(bs: seq<Bucket>, priority: string -> real, u1: real, u2: real): Outcome<Candidate>
    requires |bs| > 0
  {
    match ChooseProject(bs, priority, u1)
    case None => Raise(UnboundLocalError)
    case Some(p) =>
      var ms := bs[p].members;
      var ws := Weights(ms);
      match Pick(ws, Scale(u2, Sum(ws)))
      case None => Raise(UnboundLocalError)
      case Some(j) => Ok(ms[j])
  }

  /** Lines 313-390 once the options are gathered: the two draws and the claim. */
  function Draws(bs: seq<Bucket>, jobs: map<string, Stored<Job>>, ident: string, now: real, retry: bool, tooOld: real,
                 priority: string -> real, u1: real, u2: real): Outcome<Option<Claimed>>
  {
    if |bs| == 0 then Ok(None)
    else match Drawn(bs, priority, u1, u2)
      case Raise(e) => Raise(e)
      case Ok(c) => ClaimStored(jobs, c.job.uuid + ".json", ident, now, retry, tooOld)
  }

  /**
   * What `task_select` does: None when nothing is eligible, an exception when
   * a lookup fails or a draw runs off the end (the variable it would set stays
   * unbound), otherwise the claimed frame.
   */
  function Select(order: seq<string>, jobs: map<string, Stored<Job>>, rates: map<string, real>, cfg: Config,
                  ident: string, paths: seq<string>, offered: seq<string>, now: real,
                  priority: string -> real, u1: real, u2: real): Outcome<Option<Claimed>>
    requires cfg.Valid() && PositiveRates(rates)
  {
    var tooOld := now - cfg.timeout;
    match Gather(order, jobs, rates, cfg, paths, offered, tooOld)
    case Raise(e) => Raise(e)
    case Ok(bs) => Draws(bs, jobs, ident, now, cfg.retry, tooOld, priority, u1, u2)
  }

  // ---------------------------------------------------------------------------
  // Properties of the claim and the selection

  /** The claim succeeds exactly when the job passed the work check of the filter. */
  lemma ClaimSucceedsIff(job: Job, ident: string, now: real, retry: bool, tooOld: real)
    ensures Claim(job, ident, now, retry, tooOld).Some? <==>
      (|job.todo| != 0 || (retry && HasStale(job.working, tooOld)))
  {
    if |job.todo| == 0 && retry {
      var p := (w: Work) => w.seen < tooOld;
      if HasStale(job.working, tooOld) {
        var k :| 0 <= k < |job.working| && job.working[k].seen < tooOld;
        assert p(job.working[k]);
      }
    }
  }

  /** The fields a claim may change; everything else about the record is kept. */
  predicate SameBut(a: Job, b: Job) {
    a.(todo := b.todo, working := b.working, done := b.done, errors := b.errors) == b
  }

  /**
   * Shape of a claim: a non-video job hands out exactly its first todo frame,
   * a video job its whole range at once, and the retry path takes the first
   * timed-out entry, counts an error and (video) forgets the partial result.
   * In every case exactly one entry owned by the caller is appended.
   */
  lemma ClaimShape(job: Job, ident: string, now: real, retry: bool, tooOld: real)
    requires Claim(job, ident, now, retry, tooOld).Some?
    ensures var (j, f) := Claim(job, ident, now, retry, tooOld).value;
      SameBut(j, job) && |j.working| > 0 && j.working[|j.working| - 1] == Work(f, ident, now)
      && (|job.todo| != 0 && !job.video ==>
            f == Single(job.todo[0]) && j.todo == job.todo[1..] && j.working == job.working + [Work(f, ident, now)]
            && j.done == job.done && j.errors == job.errors)
      && (|job.todo| != 0 && job.video ==>
            f.Span? && f.lo in job.todo && f.hi in job.todo
            && (forall k :: 0 <= k < |job.todo| ==> f.lo <= job.todo[k] <= f.hi)
            && j.todo == [] && j.working == job.working + [Work(f, ident, now)]
            && j.done == job.done && j.errors == job.errors)
      && (|job.todo| == 0 ==>
            exists i :: 0 <= i < |job.working| && job.working[i].seen < tooOld
              && (forall k :: 0 <= k < i ==> job.working[k].seen >= tooOld)
              && f == job.working[i].frame && j.working == RemoveAt(job.working, i) + [Work(f, ident, now)]
              && j.todo == [] && j.errors == job.errors + 1
              && j.done == (if job.video then [] else job.done))
  {
  }

  /** The frames of the working entries, in order. */
  function WorkFrames(ws: seq<Work>): (fs: seq<Frame>)
    ensures |fs| == |ws| && forall k :: 0 <= k < |ws| ==> fs[k] == ws[k].frame
  {
    seq(|ws|, k requires 0 <= k < |ws| => ws[k].frame)
  }

  function Singles(todo: seq<int>): (fs: seq<Frame>)
    ensures |fs| == |todo| && forall k :: 0 <= k < |todo| ==> fs[k] == Single(todo[k])
  {
    seq(|todo|, k requires 0 <= k < |todo| => Single(todo[k]))
  }

  /** The frames a job still owes: those to do and those handed out. */
  function Outstanding(job: Job): multiset<Frame> {
    multiset(Singles(job.todo)) + multiset(WorkFrames(job.working))
  }

  /**
   * A claim neither loses nor invents frames: what moves from todo (or from a
   * timed-out entry) is exactly what is handed out.  A video claim of fresh
   * work is the exception, since its range stands for all of todo.
   */
  lemma ClaimConserves(job: Job, ident: string, now: real, retry: bool, tooOld: real)
    requires Claim(job, ident, now, retry, tooOld).Some?
    requires !job.video || |job.todo| == 0
    ensures Outstanding(Claim(job, ident, now, retry, tooOld).value.0) == Outstanding(job)
  {
    var c := Claim(job, ident, now, retry, tooOld).value;
    var j := c.0;
    var f := c.1;
    if |job.todo| != 0 {
      assert f == Single(job.todo[0]) && j.todo == job.todo[1..] && j.working == job.working + [Work(f, ident, now)];
      assert Singles(job.todo) == [Single(job.todo[0])] + Singles(j.todo);
      assert WorkFrames(j.working) == WorkFrames(job.working) + [f];
    } else {
      var i := First(job.working, (w: Work) => w.seen < tooOld).value;
      var rest := RemoveAt(job.working, i);
      assert j.working == rest + [Work(f, ident, now)] && f == job.working[i].frame && j.todo == [];
      assert WorkFrames(j.working) == WorkFrames(rest) + [f];
      assert WorkFrames(rest) == RemoveAt(WorkFrames(job.working), i);
    }
  }

  /** A decoded job describes its own file: `uuid + '.json'`. */
  ghost predicate WellNamed(jobs: map<string, Stored<Job>>) {
    forall n :: n in jobs && jobs[n].Decoded? ==> jobs[n].value.uuid + ".json" == n
  }

  /** A listed file that the filter lets through. */
  predicate EligibleAt(n: string, jobs: map<string, Stored<Job>>, paths: seq<string>, offered: seq<string>, retry: bool, tooOld: real) {
    n in jobs && jobs[n].Decoded? && Eligible(jobs[n].value, paths, offered, retry, tooOld)
  }

  predicate Unrated(job: Job, rates: map<string, real>) {
    exists k :: 0 <= k < |job.requirements| && job.requirements[k] !in rates
  }

  /** Every candidate gathered is an eligible stored job, filed under its project with its weight. */
  ghost predicate Fits(c: Candidate, project: string, jobs: map<string, Stored<Job>>, rates: map<string, real>,
                       cfg: Config, paths: seq<string>, offered: seq<string>, tooOld: real)
    requires cfg.Valid() && PositiveRates(rates)
  {
    c.name in jobs && jobs[c.name] == Decoded(c.job) && Eligible(c.job, paths, offered, cfg.retry, tooOld)
    && c.job.project == project && JobWeight(c.job, rates, cfg) == Ok(c.weight)
  }

  ghost predicate GoodBuckets(bs: seq<Bucket>, jobs: map<string, Stored<Job>>, rates: map<string, real>,
                              cfg: Config, paths: seq<string>, offered: seq<string>, tooOld: real)
    requires cfg.Valid() && PositiveRates(rates)
  {
    forall i :: 0 <= i < |bs| ==>
      (|bs[i].members| > 0
       && forall m :: 0 <= m < |bs[i].members| ==> Fits(bs[i].members[m], bs[i].project, jobs, rates, cfg, paths, offered, tooOld))
  }

  lemma AddCandidateGood(bs: seq<Bucket>, c: Candidate, jobs: map<string, Stored<Job>>, rates: map<string, real>,
                         cfg: Config, paths: seq<string>, offered: seq<string>, tooOld: real)
    requires cfg.Valid() && PositiveRates(rates)
    requires GoodBuckets(bs, jobs, rates, cfg, paths, offered, tooOld)
    requires Fits(c, c.job.project, jobs, rates, cfg, paths, offered, tooOld)
    ensures GoodBuckets(AddCandidate(bs, c.job.project, c), jobs, rates, cfg, paths, offered, tooOld)
    ensures |AddCandidate(bs, c.job.project, c)| > 0
  {
    var r := AddCandidate(bs, c.job.project, c);
    match First(bs, (b: Bucket) => b.project == c.job.project)
    case None =>
      assert r == bs + [Bucket(c.job.project, [c])];
    case Some(i) =>
      assert r == bs[i := Bucket(c.job.project, bs[i].members + [c])];
      var ms := bs[i].members + [c];
      assert forall m :: 0 <= m < |ms| ==> Fits(ms[m], c.job.project, jobs, rates, cfg, paths, offered, tooOld) by {
        forall m | 0 <= m < |ms| ensures Fits(ms[m], c.job.project, jobs, rates, cfg, paths, offered, tooOld) {
          if m < |bs[i].members| {
            assert ms[m] == bs[i].members[m];
          }
        }
      }
  }

  /**
   * The gathering loop: it fails with KeyError exactly when an eligible job
   * needs a capability no node has announced; otherwise it holds every
   * eligible job, and nothing else, and no project queue is empty.
   */
  lemma {:induction false} GatherFacts(names: seq<string>, jobs: map<string, Stored<Job>>, rates: map<string, real>,
                                       cfg: Config, paths: seq<string>, offered: seq<string>, tooOld: real)
    requires cfg.Valid() && PositiveRates(rates)
    ensures Gather(names, jobs, rates, cfg, paths, offered, tooOld).Raise? <==>
      exists k :: 0 <= k < |names| && EligibleAt(names[k], jobs, paths, offered, cfg.retry, tooOld) && Unrated(jobs[names[k]].value, rates)
    ensures Gather(names, jobs, rates, cfg, paths, offered, tooOld).Raise? ==>
      Gather(names, jobs, rates, cfg, paths, offered, tooOld).error == KeyError
    ensures Gather(names, jobs, rates, cfg, paths, offered, tooOld).Ok? ==>
      GoodBuckets(Gather(names, jobs, rates, cfg, paths, offered, tooOld).value, jobs, rates, cfg, paths, offered, tooOld)
    ensures Gather(names, jobs, rates, cfg, paths, offered, tooOld).Ok? ==>
      (|Gather(names, jobs, rates, cfg, paths, offered, tooOld).value| == 0 <==>
        forall k :: 0 <= k < |names| ==> !EligibleAt(names[k], jobs, paths, offered, cfg.retry, tooOld))
    decreases |names|
  {
    if |names| > 0 {
      var front := names[..|names| - 1];
      var n := names[|names| - 1];
      GatherFacts(front, jobs, rates, cfg, paths, offered, tooOld);
      assert forall k :: 0 <= k < |front| ==> names[k] == front[k];
      var g := Gather(front, jobs, rates, cfg, paths, offered, tooOld);
      if g.Raise? {
        var k :| 0 <= k < |front| && EligibleAt(front[k], jobs, paths, offered, cfg.retry, tooOld) && Unrated(jobs[front[k]].value, rates);
        assert names[k] == front[k];
      } else if EligibleAt(n, jobs, paths, offered, cfg.retry, tooOld) {
        var job := jobs[n].value;
        WeightPositive(job, rates, cfg);
        if JobWeight(job, rates, cfg).Ok? {
          AddCandidateGood(g.value, Candidate(JobWeight(job, rates, cfg).value, n, job), jobs, rates, cfg, paths, offered, tooOld);
        }
      } else {
        assert Gather(names, jobs, rates, cfg, paths, offered, tooOld) == g;
      }
    }
  }

  /** A gathered candidate, re-read through its uuid, is claimed. */
  lemma CandidateClaimed(c: Candidate, project: string, jobs: map<string, Stored<Job>>, rates: map<string, real>,
                         cfg: Config, paths: seq<string>, offered: seq<string>, ident: string, now: real, tooOld: real)
    requires cfg.Valid() && PositiveRates(rates) && WellNamed(jobs)
    requires Fits(c, project, jobs, rates, cfg, paths, offered, tooOld)
    ensures var r := ClaimStored(jobs, c.job.uuid + ".json", ident, now, cfg.retry, tooOld);
      r.Ok? && r.value.Some? && r.value.value.file == c.name
  {
    assert c.job.uuid + ".json" == c.name;
    ClaimSucceedsIff(c.job, ident, now, cfg.retry, tooOld);
  }

  /** The draws over well-formed options: nothing only when there are no options. */
  lemma DrawsFacts(bs: seq<Bucket>, jobs: map<string, Stored<Job>>, rates: map<string, real>, cfg: Config,
                   paths: seq<string>, offered: seq<string>, ident: string, now: real, tooOld: real,
                   priority: string -> real, u1: real, u2: real)
    requires cfg.Valid() && PositiveRates(rates) && WellNamed(jobs)
    requires GoodBuckets(bs, jobs, rates, cfg, paths, offered, tooOld)
    ensures var d := Draws(bs, jobs, ident, now, cfg.retry, tooOld, priority, u1, u2);
      (d == Ok(None) <==> |bs| == 0)
      && (d.Raise? ==> d.error == UnboundLocalError)
      && (d.Ok? && d.value.Some? ==> EligibleAt(d.value.value.file, jobs, paths, offered, cfg.retry, tooOld))
  {
    if |bs| > 0 {
      match ChooseProject(bs, priority, u1)
      case None =>
      case Some(p) =>
        var ms := bs[p].members;
        match Pick(Weights(ms), Scale(u2, Sum(Weights(ms))))
        case None =>
        case Some(j) =>
          assert Drawn(bs, priority, u1, u2) == Ok(ms[j]);
          assert Fits(ms[j], bs[p].project, jobs, rates, cfg, paths, offered, tooOld);
          CandidateClaimed(ms[j], bs[p].project, jobs, rates, cfg, paths, offered, ident, now, tooOld);
    }
  }

  /** A claimed selection is Claim applied to the stored record, answered from the written record. */
  lemma ClaimStoredFacts(jobs: map<string, Stored<Job>>, file: string, ident: string, now: real, retry: bool, tooOld: real)
    ensures var r := ClaimStored(jobs, file, ident, now, retry, tooOld);
      (r.Raise? <==> file !in jobs || jobs[file].Undecodable?)
      && (r.Ok? && r.value.Some? ==>
            var c := r.value.value;
            c.file == file
            && Claim(jobs[file].value, ident, now, retry, tooOld) == Some((c.record, c.task.frame))
            && c.task == Task(c.record.uuid, c.task.frame, c.record.file, now, c.record.requirements))
  {
  }

  /**
   * What a selection yields: nothing exactly when no listed job is eligible;
   * otherwise a frame claimed from an eligible job, or an exception (a missing
   * rate, or a draw that ran off the end of its list).
   */
  lemma SelectFacts(order: seq<string>, jobs: map<string, Stored<Job>>, rates: map<string, real>, cfg: Config,
                    ident: string, paths: seq<string>, offered: seq<string>, now: real,
                    priority: string -> real, u1: real, u2: real)
    requires cfg.Valid() && PositiveRates(rates) && WellNamed(jobs)
    ensures var tooOld := now - cfg.timeout;
      var sel := Select(order, jobs, rates, cfg, ident, paths, offered, now, priority, u1, u2);
      (sel == Ok(None) <==> forall k :: 0 <= k < |order| ==> !EligibleAt(order[k], jobs, paths, offered, cfg.retry, tooOld))
      && (sel.Raise? ==> sel.error == KeyError || sel.error == UnboundLocalError)
      && (sel.Ok? && sel.value.Some? ==> EligibleAt(sel.value.value.file, jobs, paths, offered, cfg.retry, tooOld))
  {
    var tooOld := now - cfg.timeout;
    GatherFacts(order, jobs, rates, cfg, paths, offered, tooOld);
    match Gather(order, jobs, rates, cfg, paths, offered, tooOld)
    case Raise(_) =>
    case Ok(bs) => DrawsFacts(bs, jobs, rates, cfg, paths, offered, ident, now, tooOld, priority, u1, u2);
  }

  /** The project draw stops when the priorities are not negative. */
  lemma ChooseProjectSucceeds(bs: seq<Bucket>, priority: string -> real, u: real)
    requires |bs| > 0 && 0.0 <= u < 1.0
    requires forall k :: 0 <= k < |bs| ==> priority(bs[k].project) >= 0.0
    ensures ChooseProject(bs, priority, u).Some?
  {
    if |bs| > 1 {
      var ws := ProjectWeights(bs, priority);
      assert forall k :: 0 <= k < |ws| ==> ws[k] >= 0.0;
      DrawStops(ws, u);
    }
  }

  /** The job draw stops: every gathered weight is positive. */
  lemma JobDrawSucceeds(b: Bucket, jobs: map<string, Stored<Job>>, rates: map<string, real>, cfg: Config,
                        paths: seq<string>, offered: seq<string>, tooOld: real, u: real)
    requires cfg.Valid() && PositiveRates(rates) && 0.0 <= u < 1.0 && |b.members| > 0
    requires forall m :: 0 <= m < |b.members| ==> Fits(b.members[m], b.project, jobs, rates, cfg, paths, offered, tooOld)
    ensures Pick(Weights(b.members), Scale(u, Sum(Weights(b.members)))).Some?
  {
    var ws := Weights(b.members);
    forall k | 0 <= k < |ws| ensures ws[k] >= 0.0 {
      WeightPositive(b.members[k].job, rates, cfg);
    }
    DrawStops(ws, u);
  }

  /** Over well-formed, non-empty options with usable priorities both draws stop and the claim succeeds. */
  lemma DrawsSucceed(bs: seq<Bucket>, jobs: map<string, Stored<Job>>, rates: map<string, real>, cfg: Config,
                     paths: seq<string>, offered: seq<string>, ident: string, now: real, tooOld: real,
                     priority: string -> real, u1: real, u2: real)
    requires cfg.Valid() && PositiveRates(rates) && WellNamed(jobs)
    requires GoodBuckets(bs, jobs, rates, cfg, paths, offered, tooOld) && |bs| > 0
    requires forall p :: priority(p) >= 0.0
    requires 0.0 <= u1 < 1.0 && 0.0 <= u2 < 1.0
    ensures var d := Draws(bs, jobs, ident, now, cfg.retry, tooOld, priority, u1, u2);
      d.Ok? && d.value.Some?
  {
    ChooseProjectSucceeds(bs, priority, u1);
    var p := ChooseProject(bs, priority, u1).value;
    JobDrawSucceeds(bs[p], jobs, rates, cfg, paths, offered, tooOld, u2);
    var ms := bs[p].members;
    var j := Pick(Weights(ms), Scale(u2, Sum(Weights(ms)))).value;
    assert Drawn(bs, priority, u1, u2) == Ok(ms[j]);
    CandidateClaimed(ms[j], bs[p].project, jobs, rates, cfg, paths, offered, ident, now, tooOld);
  }

  /**
   * With non-negative project priorities and draws in [0, 1), a selection
   * over eligible work whose capabilities all have rates always hands out a
   * frame: the draws cannot run off the end.
   */
  lemma SelectSucceeds(order: seq<string>, jobs: map<string, Stored<Job>>, rates: map<string, real>, cfg: Config,
                       ident: string, paths: seq<string>, offered: seq<string>, now: real,
                       priority: string -> real, u1: real, u2: real)
    requires cfg.Valid() && PositiveRates(rates) && WellNamed(jobs)
    requires forall p :: priority(p) >= 0.0
    requires 0.0 <= u1 < 1.0 && 0.0 <= u2 < 1.0
    requires exists k :: 0 <= k < |order| && EligibleAt(order[k], jobs, paths, offered, cfg.retry, now - cfg.timeout)
    requires forall k :: 0 <= k < |order| && EligibleAt(order[k], jobs, paths, offered, cfg.retry, now - cfg.timeout) ==> !Unrated(jobs[order[k]].value, rates)
    ensures var sel := Select(order, jobs, rates, cfg, ident, paths, offered, now, priority, u1, u2);
      sel.Ok? && sel.value.Some?
  {
    var tooOld := now - cfg.timeout;
    GatherFacts(order, jobs, rates, cfg, paths, offered, tooOld);
    var bs := Gather(order, jobs, rates, cfg, paths, offered, tooOld).value;
    DrawsSucceed(bs, jobs, rates, cfg, paths, offered, ident, now, tooOld, priority, u1, u2);
  }

  // ---------------------------------------------------------------------------
  // task_alive and task_done, on the record read from the job's file

  function Matches(frame: Frame): Work -> bool {
    (w: Work) => w.frame == frame
  }

  /** `[i + frame[0] for i in range(done)]`: the video progress report. */
  function VideoDone(done: int, lo: int): (r: seq<int>)
    ensures |r| == (if done > 0 then done else 0)
    ensures forall k :: 0 <= k < |r| ==> r[k] == lo + k
  {
    seq(if done > 0 then done else 0, k requires 0 <= k => lo + k)
  }

  /**
   * Line 438 for the frame reported: `frame[0]` is evaluated only when
   * `range(done)` is not empty, and fails for a plain frame number.
   */
  function Progress(frame: Frame, done: int): (r: Outcome<seq<int>>)
    ensures r.Raise? <==> frame.Single? && done > 0
    ensures r.Raise? ==> r.error == TypeError
    ensures r.Ok? && frame.Span? ==> r.value == VideoDone(done, frame.lo)
    ensures r.Ok? && frame.Single? ==> r.value == []
  {
    if done <= 0 then Ok([])
    else if frame.Single? then Raise(TypeError)
    else Ok(VideoDone(done, frame.lo))
  }

  /**
   * Lines 405-439 on a decoded record: Ok(None) means "return False" without a
   * write, Ok(Some(j)) means `j` is written back and True returned.  A video
   * job reported with a plain frame number and some progress fails at
   * `frame[0]`.
   */
  function Alive(job: Job, ident: string, frame: Frame, done: int, now: real): Outcome<Option<Job>> {
    if !job.video then
      match First(job.working, Matches(frame))
      case None => Ok(Some(job.(working := job.working + [Work(frame, ident, now)])))
      case Some(i) =>
        if job.working[i].ident == ident then Ok(Some(job.(working := job.working[i := job.working[i].(seen := now)])))
        else Ok(None)
    else if |job.working| == 0 then
      match Progress(frame, done)
      case Raise(e) => Raise(e)
      case Ok(d) => Ok(Some(job.(todo := [], working := [Work(frame, ident, now)], done := d)))
    else if job.working[0].ident != ident then Ok(None)
    else match Progress(frame, done)
      case Raise(e) => Raise(e)
      case Ok(d) => Ok(Some(job.(working := job.working[0 := job.working[0].(seen := now)], done := d)))
  }

  /** The entry that decides ownership of `frame`: its first match, or for video the first entry. */
  predicate OwnedByOther(job: Job, ident: string, frame: Frame) {
    if job.video then |job.working| > 0 && job.working[0].ident != ident
    else exists i :: 0 <= i < |job.working| && job.working[i].frame == frame && job.working[i].ident != ident
                     && forall k :: 0 <= k < i ==> job.working[k].frame != frame
  }

  /** The node is told to stop exactly when another node owns the frame. */
  lemma AliveFalseIff(job: Job, ident: string, frame: Frame, done: int, now: real)
    ensures Alive(job, ident, frame, done, now) == Ok(None) <==> OwnedByOther(job, ident, frame)
    ensures Alive(job, ident, frame, done, now).Raise? <==>
      job.video && frame.Single? && done > 0 && !OwnedByOther(job, ident, frame)
  {
    if !job.video {
      match First(job.working, Matches(frame))
      case None =>
      case Some(i) =>
        if OwnedByOther(job, ident, frame) {
          var i' :| 0 <= i' < |job.working| && job.working[i'].frame == frame && job.working[i'].ident != ident
            && forall k :: 0 <= k < i' ==> job.working[k].frame != frame;
          assert Matches(frame)(job.working[i']);
          assert i == i';
        }
    }
  }

  /**
   * When the node may go on, the record written holds an entry for the frame
   * owned by the caller and stamped `now`; nothing else about the job changes
   * except, for video, todo and the progress report.
   */
  lemma AliveRefreshes(job: Job, ident: string, frame: Frame, done: int, now: real)
    requires Alive(job, ident, frame, done, now).Ok? && Alive(job, ident, frame, done, now).value.Some?
    ensures var j := Alive(job, ident, frame, done, now).value.value;
      (exists k :: 0 <= k < |j.working| && j.working[k] == Work(if job.video then j.working[k].frame else frame, ident, now))
      && (!job.video ==>
            j.todo == job.todo && j.done == job.done && j.errors == job.errors
            && (|j.working| == |job.working| || j.working == job.working + [Work(frame, ident, now)]))
      && (job.video ==> Progress(frame, done).Ok? && j.done == Progress(frame, done).value && |j.working| == (if |job.working| == 0 then 1 else |job.working|))
      && SameBut(j, job)
  {
    var j := Alive(job, ident, frame, done, now).value.value;
    if !job.video {
      match First(job.working, Matches(frame))
      case None =>
        assert j.working[|job.working|] == Work(frame, ident, now);
      case Some(i) =>
        assert j.working[i] == Work(frame, ident, now);
    } else {
      assert j.working[0].ident == ident && j.working[0].seen == now;
    }
  }

  /** The running mean after one more sample. */
  function MeanStep(mean: real, count: int, t: real): real
    requires count != 0
  {
    mean + (t - mean) / (count as real)
  }

  /**
   * Lines 460-502 on a decoded record: a finished frame moves from working to
   * done and updates the mean render time; a finished video marks its whole
   * range done.  A plain frame number for a video job fails at `frame[0]`.
   * A non-video job matches any frame it has in progress, pairs included; a
   * pair is dropped from working but, as `done` holds frame numbers, not listed.
   */
  function Finish(job: Job, frame: Frame, t: real): Outcome<Job> {
    if !job.video then
      match First(job.working, Matches(frame))
        case None => Ok(job)
        case Some(i) =>
          if job.timeCount + 1 == 0 then Raise(ZeroDivisionError)
          else Ok(job.(working := RemoveAt(job.working, i), done := job.done + Numbered(frame),
                       timeCount := job.timeCount + 1, time := MeanStep(job.time, job.timeCount + 1, t)))
    else if frame.Single? then Raise(TypeError)
    else if job.timeCount + 1 == 0 then Raise(ZeroDivisionError)
    else Ok(job.(todo := [], working := [], done := Range(frame.lo, frame.hi + 1),
                 timeCount := job.timeCount + 1, time := MeanStep(job.time, job.timeCount + 1, t)))
  }

  /** The record update of `task_done` (lines 462-518), as the loop-based code performs it. */
  method FinishJob(job0: Job, frame: Frame, t: real) returns (r: Outcome<Job>)
    ensures r == Finish(job0, frame, t)
  {
    var job := job0;
    if !job.video {
      var found := IndexOf(job.working, Matches(frame));
      if found.Some? {
        var i := found.value;
        var count := job.timeCount + 1;
        if count == 0 {
          return Raise(ZeroDivisionError);
        }
        var time := job.time + (t - job.time) / (count as real);
        assert time == MeanStep(job.time, count, t);
        job := job.(working := RemoveAt(job.working, i), done := job.done + Numbered(frame), timeCount := count, time := time);
      }
    } else {
      if frame.Single? {
        return Raise(TypeError);
      }
      var count := job.timeCount + 1;
      if count == 0 {
        return Raise(ZeroDivisionError);
      }
      var time := job.time + (t - job.time) / (count as real);
      assert time == MeanStep(job.time, count, t);
      job := job.(todo := [], working := [], done := Range(frame.lo, frame.hi + 1), timeCount := count, time := time);
    }
    return Ok(job);
  }

  /** The frame numbers a finished non-video frame adds to done: its own, or none for a pair. */
  function Numbered(frame: Frame): (r: seq<int>)
    ensures frame.Single? ==> r == [frame.n]
    ensures frame.Span? <==> r == []
  {
    if frame.Single? then [frame.n] else []
  }

  /**
   * A non-video frame: the first entry rendering it leaves working and its
   * number, if it is one, moves to done; an unknown frame changes nothing.
   */
  lemma FinishFrame(job: Job, f: Frame, t: real)
    requires !job.video && job.timeCount >= 0
    ensures var r := Finish(job, f, t);
      r.Ok?
      && ((forall k :: 0 <= k < |job.working| ==> job.working[k].frame != f) ==> r.value == job)
      && (forall i ::
            (0 <= i < |job.working| && job.working[i].frame == f
             && (forall k :: 0 <= k < i ==> job.working[k].frame != f)) ==>
              r.value.working == RemoveAt(job.working, i)
              && r.value.done == job.done + (if f.Single? then [f.n] else [])
              && r.value.todo == job.todo && r.value.timeCount == job.timeCount + 1
              && multiset(WorkFrames(r.value.working)) + multiset{f} == multiset(WorkFrames(job.working)))
  {
    var r := Finish(job, f, t);
    match First(job.working, Matches(f))
    case None =>
    case Some(i) =>
      forall i' | 0 <= i' < |job.working| && job.working[i'].frame == f
        && (forall k :: 0 <= k < i' ==> job.working[k].frame != f)
        ensures i' == i
      {
        assert Matches(f)(job.working[i']);
      }
      assert WorkFrames(r.value.working) == RemoveAt(WorkFrames(job.working), i);
      assert WorkFrames(job.working)[i] == f;
  }

  /** A finished video has nothing left to do or in progress, and all of its range done. */
  lemma FinishVideo(job: Job, lo: int, hi: int, t: real)
    requires job.video && job.timeCount >= 0
    ensures var r := Finish(job, Span(lo, hi), t);
      r.Ok? && r.value.todo == [] && r.value.working == []
      && (forall x :: x in r.value.done <==> lo <= x <= hi)
      && r.value.timeCount == job.timeCount + 1
  {
    var done := Range(lo, hi + 1);
    forall x ensures x in done <==> lo <= x <= hi {
      RangeMembers(lo, hi + 1, x);
    }
  }

  /** The mean of the samples. */
  function Mean(samples: seq<real>): real
    requires |samples| > 0
  {
    Sum(samples) / (|samples| as real)
  }

  lemma MeanStepAlgebra(total: real, n: real, t: real)
    requires n > 0.0
    ensures total / n + (t - total / n) / (n + 1.0) == (total + t) / (n + 1.0)
  {
    var m := total / n;
    assert total == m * n;
    assert (t - m) / (n + 1.0) * (n + 1.0) == t - m;
    assert (m + (t - m) / (n + 1.0)) * (n + 1.0) == m * (n + 1.0) + (t - m);
    assert m * (n + 1.0) + (t - m) == total + t;
  }

  /**
   * `time` is the running mean of the render times reported so far:
   * `time += (t - time) / time_count` after incrementing the count keeps it so.
   */
  lemma MeanUpdate(samples: seq<real>, time: real, t: real)
    requires |samples| == 0 || time == Mean(samples)
    ensures MeanStep(time, |samples| + 1, t) == Mean(samples + [t])
  {
    SumAppend(samples, t);
    if |samples| == 0 {
      assert Sum(samples + [t]) == t;
    } else {
      MeanStepAlgebra(Sum(samples), |samples| as real, t);
    }
  }

  // ---------------------------------------------------------------------------
  // The capability rates kept by report

  /** Every known rate multiplied by the shrink factor. */
  function Shrunk(rates: map<string, real>, s: real): (r: map<string, real>)
    ensures r.Keys == rates.Keys && forall k :: k in r ==> r[k] == Shrink(rates[k], s)
  {
    map k | k in rates :: Shrink(rates[k], s)
  }

  /** Lines 252-254: each announced capability, seeded with `init` when new, gains `add`. */
  function Announce(rates: map<string, real>, init: real, keys: seq<string>, add: real): (r: map<string, real>)
    decreases |keys|
  {
    if |keys| == 0 then rates
    else
      var r := Announce(rates, init, keys[..|keys| - 1], add);
      var key := keys[|keys| - 1];
      r[key := (if key in r then r[key] else init) + add]
  }

  /** The capabilities known afterwards: those known before and those announced. */
  lemma {:induction false} AnnounceKey(rates: map<string, real>, init: real, keys: seq<string>, add: real, k: string)
    ensures k in Announce(rates, init, keys, add) <==> k in rates || k in keys
    decreases |keys|
  {
    if |keys| > 0 {
      var front := keys[..|keys| - 1];
      AnnounceKey(rates, init, front, add, k);
      assert keys == front + [keys[|keys| - 1]];
    }
  }

  /** Lines 247-254: the rates after a node announces `offered`. */
  function UpdateRates(rates: map<string, real>, init: real, offered: seq<string>, cfg: Config): map<string, real> {
    Announce(Shrunk(rates, cfg.requireShrink), Shrink(init, cfg.requireShrink), offered, cfg.RequireAdd())
  }

  /** `x *= require_shrink`. */
  function Shrink(x: real, s: real): real {
    x * s
  }

  /** `add` added `c` times. */
  function Added(c: nat, add: real): real {
    if c == 0 then 0.0 else Added(c - 1, add) + add
  }

  function Count(keys: seq<string>, k: string): nat {
    if |keys| == 0 then 0 else (if keys[|keys| - 1] == k then 1 else 0) + Count(keys[..|keys| - 1], k)
  }

  /** Each announcement adds `add` once, on top of the old rate or the seed. */
  lemma {:induction false} AnnounceValue(rates: map<string, real>, init: real, keys: seq<string>, add: real, k: string)
    requires k in rates || k in keys
    ensures k in Announce(rates, init, keys, add)
    ensures Announce(rates, init, keys, add)[k] == (if k in rates then rates[k] else init) + Added(Count(keys, k), add)
    decreases |keys|
  {
    var base := if k in rates then rates[k] else init;
    if |keys| > 0 {
      var front := keys[..|keys| - 1];
      var last := keys[|keys| - 1];
      var r0 := Announce(rates, init, front, add);
      var c := Count(front, k);
      assert Announce(rates, init, keys, add) == r0[last := (if last in r0 then r0[last] else init) + add];
      assert Count(keys, k) == (if last == k then 1 else 0) + c;
      if k in rates || k in front {
        AnnounceValue(rates, init, front, add, k);
        assert r0[k] == base + Added(c, add);
      } else {
        CountAbsent(front, k);
        AnnounceKey(rates, init, front, add, k);
      }
    }
  }

  /** Keys that are not announced keep their (shrunk) rate. */
  lemma AnnounceUntouched(rates: map<string, real>, init: real, keys: seq<string>, add: real, k: string)
    requires k in rates && k !in keys
    ensures k in Announce(rates, init, keys, add) && Announce(rates, init, keys, add)[k] == rates[k]
  {
    AnnounceValue(rates, init, keys, add, k);
    CountAbsent(keys, k);
  }

  lemma {:induction false} CountAbsent(keys: seq<string>, k: string)
    requires k !in keys
    ensures Count(keys, k) == 0
    decreases |keys|
  {
    if |keys| > 0 {
      assert keys[|keys| - 1] in keys;
      var front := keys[..|keys| - 1];
      assert forall x :: x in front ==> x in keys;
      CountAbsent(front, k);
    }
  }

  lemma {:induction false} CountDistinct(keys: seq<string>, k: string)
    requires Distinct(keys) && k in keys
    ensures Count(keys, k) == 1
    decreases |keys|
  {
    var front := keys[..|keys| - 1];
    var last := keys[|keys| - 1];
    assert keys == front + [last];
    if last == k {
      forall i | 0 <= i < |front| ensures front[i] != k {
        assert keys[i] == front[i];
      }
      CountAbsent(front, k);
    } else {
      assert k in front;
      CountDistinct(front, k);
    }
  }

  /** A rate that stays in (0, 1]: an estimate of what share of check-ins offer it. */
  ghost predicate ShareRates(rates: map<string, real>) {
    forall k :: k in rates ==> 0.0 < rates[k] <= 1.0
  }

  lemma ShareStep(base: real, s: real)
    requires 0.0 < base <= 1.0 && 0.0 < s < 1.0
    ensures 0.0 < base * s + (1.0 - s) <= 1.0
    ensures 1.0 - (base * s + (1.0 - s)) == s * (1.0 - base)
  {
    assert base * s > 0.0;
    assert base * s <= s;
  }

  /** An announced capability moves toward 1: `1 - r' = shrink * (1 - r)`. */
  lemma AnnouncedShare(rates: map<string, real>, init: real, offered: seq<string>, cfg: Config, k: string)
    requires cfg.Valid() && 0.0 < init <= 1.0 && Distinct(offered) && k in offered
    requires k in rates ==> 0.0 < rates[k] <= 1.0
    ensures var r := UpdateRates(rates, init, offered, cfg);
      k in r && 0.0 < r[k] <= 1.0
      && 1.0 - r[k] == cfg.requireShrink * (1.0 - (if k in rates then rates[k] else init))
  {
    var shrunk := Shrunk(rates, cfg.requireShrink);
    AnnounceValue(shrunk, Shrink(init, cfg.requireShrink), offered, cfg.RequireAdd(), k);
    CountDistinct(offered, k);
    assert Added(1, cfg.RequireAdd()) == 1.0 - cfg.requireShrink;
    var base := if k in rates then rates[k] else init;
    assert (if k in shrunk then shrunk[k] else Shrink(init, cfg.requireShrink)) == Shrink(base, cfg.requireShrink);
    ShareStep(base, cfg.requireShrink);
  }

  /** A capability not announced decays by the shrink factor. */
  lemma UnannouncedShare(rates: map<string, real>, init: real, offered: seq<string>, cfg: Config, k: string)
    requires cfg.Valid() && k in rates && 0.0 < rates[k] <= 1.0 && k !in offered
    ensures var r := UpdateRates(rates, init, offered, cfg);
      k in r && r[k] == Shrink(rates[k], cfg.requireShrink) && 0.0 < r[k] <= 1.0
  {
    AnnounceUntouched(Shrunk(rates, cfg.requireShrink), Shrink(init, cfg.requireShrink), offered, cfg.RequireAdd(), k);
    ShareDecay(rates[k], cfg.requireShrink);
  }

  lemma ShrinkPositive(x: real, s: real)
    requires x > 0.0 && 0.0 < s < 1.0
    ensures Shrink(x, s) > 0.0
  {
  }

  lemma ShareDecay(base: real, s: real)
    requires 0.0 < base <= 1.0 && 0.0 < s < 1.0
    ensures 0.0 < base * s <= 1.0
  {
    assert base * s <= s;
  }

  /**
   * The rates stay shares: each moves toward 1 by the fraction `1 - shrink`
   * when announced (once) and toward 0 by the factor `shrink` when not, and a
   * new one starts from the shrunk seed.
   */
  lemma UpdateRatesShares(rates: map<string, real>, init: real, offered: seq<string>, cfg: Config)
    requires cfg.Valid() && ShareRates(rates) && 0.0 < init <= 1.0 && Distinct(offered)
    ensures var r := UpdateRates(rates, init, offered, cfg);
      ShareRates(r) && (forall k :: k in r <==> k in rates || k in offered)
  {
    var r := UpdateRates(rates, init, offered, cfg);
    forall k ensures k in r <==> k in rates || k in offered {
      AnnounceKey(Shrunk(rates, cfg.requireShrink), Shrink(init, cfg.requireShrink), offered, cfg.RequireAdd(), k);
    }
    forall k | k in r ensures 0.0 < r[k] <= 1.0 {
      if k in offered {
        AnnouncedShare(rates, init, offered, cfg, k);
      } else {
        UnannouncedShare(rates, init, offered, cfg, k);
      }
    }
  }

  // ---------------------------------------------------------------------------
  // add: the record of a new job

  /**
   * Lines 131-153: the record `add` writes, or the exception it raises — a
   * file name without `::` fails to unpack, and `bin_search_order` of an
   * empty frame range fails at `items[0]`.
   */
  function Created(uuid: string, name: string, project: string, meta: seq<string>, fn: string, minFrame: int, maxFrame: int,
                   priority: int, video: bool, requirements: seq<string>, now: real, binSearch: bool): Outcome<Job>
  {
    match SplitOnce(fn, "::")
    case None => Raise(ValueError)
    case Some(parts) =>
      var frames := Range(minFrame, maxFrame + 1);
      if binSearch && |frames| == 0 then Raise(IndexError)
      else Ok(Job(uuid, name, now, fn, parts.0, priority, project, meta, video, requirements, false,
                  if binSearch then BinSearch(frames) else frames, [], [], [], 0.0, 0, 0, []))
  }

  /** A new job: all of its frames to do, nothing in progress, done or failed, no history. */
  lemma CreatedShape(uuid: string, name: string, project: string, meta: seq<string>, fn: string, minFrame: int, maxFrame: int,
                     priority: int, video: bool, requirements: seq<string>, now: real, binSearch: bool)
    ensures var c := Created(uuid, name, project, meta, fn, minFrame, maxFrame, priority, video, requirements, now, binSearch);
      (c.Raise? <==> !Contains(fn, "::") || (binSearch && maxFrame < minFrame))
      && (c.Raise? ==> c.error == (if Contains(fn, "::") then IndexError else ValueError))
      && (c.Ok? ==>
            var j := c.value;
            j.uuid == uuid && j.file == fn && j.project == project && j.meta == meta && j.priority == priority
            && j.video == video && j.requirements == requirements && j.created == now
            && StartsWith(fn, j.path + "::") && !Contains(j.path, "::")
            && !j.pause && j.working == [] && j.done == [] && j.failed == [] && j.potential == []
            && j.time == 0.0 && j.timeCount == 0 && j.errors == 0
            && (!binSearch ==> j.todo == Range(minFrame, maxFrame + 1))
            && (binSearch && maxFrame > minFrame ==>
                  multiset(j.todo) == multiset(Range(minFrame, maxFrame + 1))
                  && |j.todo| >= 2 && j.todo[0] == minFrame && j.todo[1] == maxFrame)
            && (binSearch && maxFrame == minFrame ==> j.todo == [minFrame, minFrame]))
  {
    var c := Created(uuid, name, project, meta, fn, minFrame, maxFrame, priority, video, requirements, now, binSearch);
    var frames := Range(minFrame, maxFrame + 1);
    if c.Ok? {
      var j := c.value;
      assert fn == j.path + "::" + SplitOnce(fn, "::").value.1;
      assert (j.path + "::" + SplitOnce(fn, "::").value.1)[..|j.path + "::"|] == j.path + "::";
      if binSearch && maxFrame > minFrame {
        BinSearchPermutation(frames);
        BinSearchEnds(frames);
      }
      if binSearch && maxFrame == minFrame {
        assert frames == [minFrame];
        BinSearchSingle(minFrame);
      }
    }
  }

  // ---------------------------------------------------------------------------
  // The operations on a job file, as a whole

  /**
   * `task_alive` on the jobs directory: the reply (False when the file is
   * missing or the frame is owned elsewhere) and the directory afterwards.
   */
  function AliveAt(jobs: map<string, Stored<Job>>, ident: string, uuid: string, frame: Frame, done: int, now: real)
    : (Outcome<bool>, map<string, Stored<Job>>)
  {
    var fn := uuid + ".json";
    if fn !in jobs then (Ok(false), jobs)
    else if jobs[fn].Undecodable? then (Raise(TypeError), jobs)
    else match Alive(jobs[fn].value, ident, frame, done, now)
      case Raise(e) => (Raise(e), jobs)
      case Ok(None) => (Ok(false), jobs)
      case Ok(Some(j)) => (Ok(true), jobs[fn := Decoded(j)])
  }

  /** The node is told to stop exactly when the job is gone or another node owns the frame. */
  lemma AliveAtFalseIff(jobs: map<string, Stored<Job>>, ident: string, uuid: string, frame: Frame, done: int, now: real)
    ensures var fn := uuid + ".json";
      AliveAt(jobs, ident, uuid, frame, done, now).0 == Ok(false) <==>
        fn !in jobs || (jobs[fn].Decoded? && OwnedByOther(jobs[fn].value, ident, frame))
    ensures AliveAt(jobs, ident, uuid, frame, done, now).0 != Ok(true) ==> AliveAt(jobs, ident, uuid, frame, done, now).1 == jobs
  {
    var fn := uuid + ".json";
    if fn in jobs && jobs[fn].Decoded? {
      AliveFalseIff(jobs[fn].value, ident, frame, done, now);
    }
  }

  /**
   * `task_done` on the jobs directory.  The source answers False for a
   * missing job and None otherwise; the model answers Ok(false) and Ok(true).
   */
  function DoneAt(jobs: map<string, Stored<Job>>, uuid: string, frame: Frame, t: real): (Outcome<bool>, map<string, Stored<Job>>) {
    var fn := uuid + ".json";
    if fn !in jobs then (Ok(false), jobs)
    else if jobs[fn].Undecodable? then (Raise(TypeError), jobs)
    else match Finish(jobs[fn].value, frame, t)
      case Raise(e) => (Raise(e), jobs)
      case Ok(j) => (Ok(true), jobs[fn := Decoded(j)])
  }

  /**
   * What `task_done` files under the 'render_time' of the asset's metadata
   * (lines 470-489 and 504-521): the project whose database holds it, the
   * metadata's path there, the key and the seconds the render took.
   */
  datatype Note = Note(project: string, meta: seq<string>, key: string, time: real)

  /** `str(frame)`: the number for a frame, the list's repr for a pair. */
  function FrameKey(frame: Frame): (r: string)
    ensures frame.Single? ==> ParseInt(r) == Some(frame.n)
    ensures frame.Span? ==> ParseInt(r).None?
  {
    if frame.Single? then ParseIntToString(frame.n); IntToString(frame.n)
    else
      var r := "[" + IntToString(frame.lo) + ", " + IntToString(frame.hi) + "]";
      BracketNotInt(r);
      r
  }

  /** A list's repr is not a Python integer. */
  lemma BracketNotInt(r: string)
    requires |r| > 0 && r[0] == '[' && r[|r| - 1] == ']'
    ensures ParseInt(r).None?
  {
    StripDigits(r);
    assert !IsDigit(r[0]);
  }

  /**
   * The note `task_done` files: for a video job under 'video', for any
   * other job under the frame's key when a node was working on it; none
   * when the job is missing or unreadable or its update raises.
   */
  function NoteAt(jobs: map<string, Stored<Job>>, uuid: string, frame: Frame, t: real): Option<Note> {
    var fn := uuid + ".json";
    if fn !in jobs || jobs[fn].Undecodable? || Finish(jobs[fn].value, frame, t).Raise? then None
    else
      var job := jobs[fn].value;
      if job.video then Some(Note(job.project, job.meta, "video", t))
      else if First(job.working, Matches(frame)).Some? then Some(Note(job.project, job.meta, FrameKey(frame), t))
      else None
  }

  /**
   * The asset's render times are noted exactly when `task_done` changes the
   * job's record, under the job's project and metadata path, with the time
   * reported.
   */
  lemma NoteWhenChanged(jobs: map<string, Stored<Job>>, uuid: string, frame: Frame, t: real)
    ensures var n := NoteAt(jobs, uuid, frame, t); var d := DoneAt(jobs, uuid, frame, t); var fn := uuid + ".json";
      (n.Some? <==> d.0 == Ok(true) && d.1 != jobs)
      && (n.Some? ==>
            var job := jobs[fn].value;
            n.value.project == job.project && n.value.meta == job.meta && n.value.time == t
            && n.value.key == (if job.video then "video" else FrameKey(frame))
            && d.1[fn].value.timeCount == job.timeCount + 1)
  {
    var fn := uuid + ".json";
    var d := DoneAt(jobs, uuid, frame, t);
    if fn in jobs && jobs[fn].Decoded? && Finish(jobs[fn].value, frame, t).Ok? {
      var job := jobs[fn].value;
      var j := Finish(job, frame, t).value;
      assert d.1 == jobs[fn := Decoded(j)];
      if job.video || First(job.working, Matches(frame)).Some? {
        assert j.timeCount == job.timeCount + 1;
        assert d.1[fn] != jobs[fn];
      } else {
        assert j == job;
      }
    }
  }

  // ---------------------------------------------------------------------------
  // potential_jobs

  /** `potential` gains the tag once. */
  function Tag(job: Job, tag: string): (j: Job)
    ensures j.potential == job.potential + [tag] && j.(potential := job.potential) == job
  {
    job.(potential := job.potential + [tag])
  }

  predicate Taggable(n: string, jobs: map<string, Stored<Job>>, tag: string) {
    EndsWith(n, ".json") && n in jobs && jobs[n].Decoded? && tag !in jobs[n].value.potential
  }

  /** Lines 533-540: the jobs returned and the directory afterwards. */
  function Tagging(order: seq<string>, jobs: map<string, Stored<Job>>, tag: string): (seq<Job>, map<string, Stored<Job>>)
    decreases |order|
  {
    if |order| == 0 then ([], jobs)
    else
      var (ret, js) := Tagging(order[..|order| - 1], jobs, tag);
      var n := order[|order| - 1];
      if Taggable(n, js, tag) then (ret + [Tag(js[n].value, tag)], js[n := Decoded(Tag(js[n].value, tag))])
      else (ret, js)
  }

  /** The names whose jobs are returned: the readable ones not yet tagged, in listing order. */
  function TaggableNames(order: seq<string>, jobs: map<string, Stored<Job>>, tag: string): (r: seq<string>)
    ensures forall k :: 0 <= k < |r| ==> r[k] in order && Taggable(r[k], jobs, tag)
    decreases |order|
  {
    if |order| == 0 then []
    else
      var front := TaggableNames(order[..|order| - 1], jobs, tag);
      var n := order[|order| - 1];
      assert forall x :: x in order[..|order| - 1] ==> x in order;
      if Taggable(n, jobs, tag) then front + [n] else front
  }

  /**
   * Tagging returns exactly the readable untagged jobs, each with the tag
   * appended, and writes back exactly those; other names keep their records.
   */
  lemma {:induction false} TaggingExactly(order: seq<string>, jobs: map<string, Stored<Job>>, tag: string)
    requires Distinct(order)
    ensures var (ret, js) := Tagging(order, jobs, tag);
      var names := TaggableNames(order, jobs, tag);
      |ret| == |names| && (forall k :: 0 <= k < |names| ==> ret[k] == Tag(jobs[names[k]].value, tag))
      && js.Keys == jobs.Keys
      && (forall n :: n in js ==> js[n] == if n in order && Taggable(n, jobs, tag) then Decoded(Tag(jobs[n].value, tag)) else jobs[n])
    decreases |order|
  {
    if |order| > 0 {
      var front := order[..|order| - 1];
      var n := order[|order| - 1];
      assert Distinct(front);
      TaggingExactly(front, jobs, tag);
      var (ret, js) := Tagging(front, jobs, tag);
      assert n !in front by {
        forall i | 0 <= i < |front| ensures front[i] != n {
          assert front[i] == order[i];
        }
      }
      if n in jobs {
        assert js[n] == jobs[n];
      }
      assert forall x :: x in order <==> x in front || x == n;
    }
  }

  /** A second call with the same tag returns nothing and writes nothing. */
  lemma TaggingOnce(order: seq<string>, jobs: map<string, Stored<Job>>, tag: string)
    requires Distinct(order)
    ensures var js := Tagging(order, jobs, tag).1;
      TaggableNames(order, js, tag) == [] && Tagging(order, js, tag) == ([], js)
  {
    TaggingExactly(order, jobs, tag);
    var js := Tagging(order, jobs, tag).1;
    forall n | n in order ensures !Taggable(n, js, tag) {
      if Taggable(n, jobs, tag) {
        assert js[n] == Decoded(Tag(jobs[n].value, tag));
        assert tag in Tag(jobs[n].value, tag).potential;
      }
    }
    NothingTaggable(order, js, tag);
  }

  lemma {:induction false} NothingTaggable(order: seq<string>, jobs: map<string, Stored<Job>>, tag: string)
    requires forall n :: n in order ==> !Taggable(n, jobs, tag)
    ensures TaggableNames(order, jobs, tag) == [] && Tagging(order, jobs, tag) == ([], jobs)
    decreases |order|
  {
    if |order| > 0 {
      var front := order[..|order| - 1];
      assert forall x :: x in front ==> x in order;
      NothingTaggable(front, jobs, tag);
      assert order[|order| - 1] in order;
    }
  }

  // ---------------------------------------------------------------------------
  // iternodes and iterjobs

  /** Lines 105-108: the cut-off for a node to count as alive. */
  function NodeCutoff(cfg: Config, now: real): real {
    if cfg.showOverdue then now - cfg.timeoutNode else now - cfg.timeout
  }

  predicate NodeFile(n: string, nodes: map<string, Stored<NodeRec>>) {
    EndsWith(n, ".json") && n in nodes && nodes[n].Decoded?
  }

  /** A readable node record not seen since the cut-off: removed by the iteration. */
  predicate Stale(n: string, nodes: map<string, Stored<NodeRec>>, tooOld: real) {
    NodeFile(n, nodes) && !(nodes[n].value.seen > tooOld)
  }

  /** The records yielded: readable and seen after the cut-off, in listing order. */
  function LiveNodes(order: seq<string>, nodes: map<string, Stored<NodeRec>>, tooOld: real): (r: seq<NodeRec>)
    ensures forall k :: 0 <= k < |r| ==> r[k].seen > tooOld
    ensures forall n :: n in order && NodeFile(n, nodes) && nodes[n].value.seen > tooOld ==> nodes[n].value in r
    decreases |order|
  {
    if |order| == 0 then []
    else
      var front := order[..|order| - 1];
      var n := order[|order| - 1];
      var rest := LiveNodes(front, nodes, tooOld);
      assert forall x :: x in order ==> x in front || x == n;
      if NodeFile(n, nodes) && nodes[n].value.seen > tooOld then rest + [nodes[n].value] else rest
  }

  /** The names removed afterwards. */
  function StaleNames(order: seq<string>, nodes: map<string, Stored<NodeRec>>, tooOld: real): (r: seq<string>)
    ensures forall n :: n in r <==> n in order && Stale(n, nodes, tooOld)
    decreases |order|
  {
    if |order| == 0 then []
    else
      var front := order[..|order| - 1];
      var n := order[|order| - 1];
      assert forall x :: x in order <==> x in front || x == n;
      StaleNames(front, nodes, tooOld) + (if Stale(n, nodes, tooOld) then [n] else [])
  }

  /** The nodes directory after deleting the named files. */
  function Forgotten(nodes: map<string, Stored<NodeRec>>, names: seq<string>): (r: map<string, Stored<NodeRec>>)
    ensures forall n :: n in r <==> n in nodes && n !in names
  {
    map n | n in nodes && n !in names :: nodes[n]
  }

  /** Deleting one more file forgets one more record. */
  lemma ForgetStep(nodes: map<string, Stored<NodeRec>>, names: seq<string>, j: nat)
    requires j < |names|
    ensures Forgotten(nodes, names[..j + 1]) == Forgotten(nodes, names[..j]) - {names[j]}
  {
    assert names[..j + 1] == names[..j] + [names[j]];
  }

  /** Deleting one more file drops one more name from the listing. */
  lemma PurgeStep(order: seq<string>, names: seq<string>, j: nat)
    requires j < |names|
    ensures Purged(order, names[..j + 1]) == Without(Purged(order, names[..j]), names[j])
  {
    assert names[..j + 1][..j] == names[..j];
  }

  /** The listing after deleting the named files, one after the other. */
  function Purged(order: seq<string>, names: seq<string>): (r: seq<string>)
    ensures forall n :: n in r <==> n in order && n !in names
    decreases |names|
  {
    if |names| == 0 then order
    else
      var front := names[..|names| - 1];
      assert forall x :: x in names <==> x in front || x == names[|names| - 1];
      Without(Purged(order, front), names[|names| - 1])
  }

  /** Lines 93-100: the readable job records, in listing order. */
  function ReadableJobs(order: seq<string>, jobs: map<string, Stored<Job>>): (r: seq<Job>)
    ensures forall n :: n in order && EndsWith(n, ".json") && n in jobs && jobs[n].Decoded? ==> jobs[n].value in r
    ensures forall j :: j in r ==> exists n :: n in order && n in jobs && jobs[n] == Decoded(j)
    decreases |order|
  {
    if |order| == 0 then []
    else
      var front := order[..|order| - 1];
      var n := order[|order| - 1];
      var rest := ReadableJobs(front, jobs);
      assert forall x :: x in order <==> x in front || x == n;
      if EndsWith(n, ".json") && n in jobs && jobs[n].Decoded? then rest + [jobs[n].value] else rest
  }

  // ---------------------------------------------------------------------------
  // Loops of task_select

  /** `for req in job['requires']: if req not in provides: ... break`. */
  method OffersAll(requirements: seq<string>, offered: seq<string>) returns (ok: bool)
    ensures ok == Offers(requirements, offered)
  {
    var i := 0;
    while i < |requirements|
      invariant 0 <= i <= |requirements|
      invariant forall k :: 0 <= k < i ==> requirements[k] in offered
    {
      if requirements[i] !in offered {
        return false;
      }
      i := i + 1;
    }
    return true;
  }

  /** `for task in job['working']: if task[2] < too_old: ... break`. */
  method AnyStale(working: seq<Work>, tooOld: real) returns (stale: bool)
    ensures stale == HasStale(working, tooOld)
  {
    var i := 0;
    while i < |working|
      invariant 0 <= i <= |working|
      invariant forall k :: 0 <= k < i ==> working[k].seen >= tooOld
    {
      if working[i].seen < tooOld {
        return true;
      }
      i := i + 1;
    }
    return false;
  }

  /** Lines 274-296: the filter. */
  method Admit(job: Job, paths: seq<string>, offered: seq<string>, retry: bool, tooOld: real) returns (ok: bool)
    ensures ok == Eligible(job, paths, offered, retry, tooOld)
  {
    if job.pause || job.path !in paths {
      return false;
    }
    ok := OffersAll(job.requirements, offered);
    if !ok {
      return false;
    }
    if |job.todo| == 0 {
      if !retry {
        return false;
      }
      ok := AnyStale(job.working, tooOld);
    }
  }

  /** Lines 299-307: the weight, dividing by the rate of each requirement in turn. */
  method Weigh(job: Job, rates: map<string, real>, cfg: Config) returns (r: Outcome<real>)
    requires cfg.Valid() && PositiveRates(rates)
    ensures r == JobWeight(job, rates, cfg)
  {
    var w := BaseWeight(job);
    var i := 0;
    while i < |job.requirements|
      invariant 0 <= i <= |job.requirements|
      invariant DivideByRates(BaseWeight(job), job.requirements, rates) == DivideByRates(w, job.requirements[i..], rates)
    {
      var req := job.requirements[i];
      assert job.requirements[i..][1..] == job.requirements[i + 1..];
      if req !in rates {
        return Raise(KeyError);
      }
      w := w / rates[req];
      i := i + 1;
    }
    r := Ok(TimeAdjusted(w, job, cfg));
  }

  /** Lines 361-387 on the re-read record. */
  method ClaimFrame(job: Job, ident: string, now: real, retry: bool, tooOld: real) returns (r: Option<(Job, Frame)>)
    ensures r == Claim(job, ident, now, retry, tooOld)
  {
    var j := job;
    var frame: Frame;
    if |j.todo| != 0 {
      if j.video {
        frame := Span(Min(j.todo), Max(j.todo));
        j := j.(todo := []);
      } else {
        frame := Single(j.todo[0]);
        j := j.(todo := j.todo[1..]);
      }
    } else if retry {
      var found := IndexOf(j.working, (w: Work) => w.seen < tooOld);
      if found.None? {
        return None;
      }
      var i := found.value;
      frame := j.working[i].frame;
      j := j.(working := RemoveAt(j.working, i), errors := j.errors + 1);
      if j.video {
        j := j.(done := []);
      }
    } else {
      return None;
    }
    j := j.(working := j.working + [Work(frame, ident, now)]);
    return Some((j, frame));
  }

  /** Lines 313-351: the two draws. */
  method DrawCandidate(bs: seq<Bucket>, priority: string -> real, u1: real, u2: real) returns (r: Outcome<Candidate>)
    requires |bs| > 0
    ensures r == Drawn(bs, priority, u1, u2)
  {
    var p := 0;
    if |bs| != 1 {
      var ws := ProjectWeights(bs, priority);
      var total := Total(ws);
      var pick := Draw(ws, Scale(u1, total));
      if pick.None? {
        return Raise(UnboundLocalError);
      }
      p := pick.value;
    }
    var ms := bs[p].members;
    var ws := Weights(ms);
    var total := Total(ws);
    var pick := Draw(ws, Scale(u2, total));
    if pick.None? {
      return Raise(UnboundLocalError);
    }
    return Ok(ms[pick.value]);
  }

  /** Once the options from a prefix of the listing fail, the whole gathering fails the same way. */
  lemma {:induction false} GatherPrefixRaise(names: seq<string>, k: nat, jobs: map<string, Stored<Job>>, rates: map<string, real>,
                                             cfg: Config, paths: seq<string>, offered: seq<string>, tooOld: real)
    requires cfg.Valid() && PositiveRates(rates) && k <= |names|
    requires Gather(names[..k], jobs, rates, cfg, paths, offered, tooOld).Raise?
    ensures Gather(names, jobs, rates, cfg, paths, offered, tooOld) == Gather(names[..k], jobs, rates, cfg, paths, offered, tooOld)
    decreases |names| - k
  {
    if k < |names| {
      assert names[..k + 1][..k] == names[..k];
      GatherPrefixRaise(names, k + 1, jobs, rates, cfg, paths, offered, tooOld);
    } else {
      assert names[..k] == names;
    }
  }

  /** What the node is told by `task_select`. */
  function Reply(sel: Outcome<Option<Claimed>>): Outcome<Option<Task>> {
    match sel
    case Raise(e) => Raise(e)
    case Ok(None) => Ok(None)
    case Ok(Some(c)) => Ok(Some(c.task))
  }

  /** The jobs directory after `task_select`. */
  function Written(jobs: map<string, Stored<Job>>, sel: Outcome<Option<Claimed>>): map<string, Stored<Job>> {
    match sel
    case Ok(Some(c)) => jobs[c.file := Decoded(c.record)]
    case _ => jobs
  }

  /** The node record after `report`: a known node keeps its ident and paused flag. */
  function Sighted(stored: Option<Stored<NodeRec>>, ident: string, offered: seq<string>, version: Option<string>, now: real): NodeRec {
    match stored
    case Some(Decoded(n)) => NodeRec(n.ident, n.paused, offered, version, now)
    case _ => NodeRec(ident, false, offered, version, now)
  }

  function Lookup<T>(m: map<string, T>, n: string): Option<T> {
    if n in m then Some(m[n]) else None
  }

  /** `state['paused'] = value` on a readable record. */
  function PauseStored(st: Stored<NodeRec>, value: bool): Stored<NodeRec> {
    match st
    case Decoded(n) => Decoded(n.(paused := value))
    case Undecodable => Undecodable
  }

  // ---------------------------------------------------------------------------
  // The scheduler

  /**
   * The `Jobs` object: the two directories (contents by file name, and the
   * order a listing yields them in), the capability rates and the seed for
   * unseen capabilities.
   */
  class Scheduler {
    const cfg: Config
    var jobs: map<string, Stored<Job>>
    var jobOrder: seq<string>
    var nodes: map<string, Stored<NodeRec>>
    var nodeOrder: seq<string>
    var requireRate: map<string, real>
    var requireInit: real

    ghost predicate Valid()
      reads this
    {
      cfg.Valid() && Listing(jobOrder, jobs.Keys) && Listing(nodeOrder, nodes.Keys)
      && requireInit > 0.0 && PositiveRates(requireRate)
    }

    /** Lines 61-90 with the directories already listed. */
    constructor(cfg: Config, jobs: map<string, Stored<Job>>, jobOrder: seq<string>,
                nodes: map<string, Stored<NodeRec>>, nodeOrder: seq<string>)
      requires cfg.Valid() && Listing(jobOrder, jobs.Keys) && Listing(nodeOrder, nodes.Keys)
      ensures Valid()
      ensures this.cfg == cfg && this.jobs == jobs && this.jobOrder == jobOrder
      ensures this.nodes == nodes && this.nodeOrder == nodeOrder
      ensures requireRate == map[] && requireInit == 1.0
    {
      this.cfg := cfg;
      this.jobs := jobs;
      this.jobOrder := jobOrder;
      this.nodes := nodes;
      this.nodeOrder := nodeOrder;
      requireRate := map[];
      requireInit := 1.0;
    }

    /** `root.new(fn, record)` in the jobs directory: written, and listed last when new. */
    method PutJob(fn: string, record: Job)
      requires Valid()
      modifies this
      ensures Valid()
      ensures jobs == old(jobs)[fn := Decoded(record)]
      ensures jobOrder == if fn in old(jobs) then old(jobOrder) else old(jobOrder) + [fn]
      ensures unchanged(this`nodes, this`nodeOrder, this`requireRate, this`requireInit)
    {
      if fn !in jobs {
        jobOrder := jobOrder + [fn];
      }
      jobs := jobs[fn := Decoded(record)];
    }

    /** `root.new(fn, record)` in the nodes directory. */
    method PutNode(fn: string, record: NodeRec)
      requires Valid()
      modifies this
      ensures Valid()
      ensures nodes == old(nodes)[fn := Decoded(record)]
      ensures nodeOrder == if fn in old(nodes) then old(nodeOrder) else old(nodeOrder) + [fn]
      ensures unchanged(this`jobs, this`jobOrder, this`requireRate, this`requireInit)
    {
      if fn !in nodes {
        nodeOrder := nodeOrder + [fn];
      }
      nodes := nodes[fn := Decoded(record)];
    }

    /** Lines 128-157; the uuid is a parameter. */
    method Add(uuid: string, name: string, project: string, meta: seq<string>, fn: string, minFrame: int, maxFrame: int,
               priority: int, video: bool, requirements: seq<string>, now: real) returns (r: Outcome<string>)
      requires Valid()
      modifies this
      ensures Valid()
      ensures var c := Created(uuid, name, project, meta, fn, minFrame, maxFrame, priority, video, requirements, now, cfg.binSearchOrder);
        (c.Raise? ==> r == Raise(c.error) && jobs == old(jobs) && jobOrder == old(jobOrder))
        && (c.Ok? ==> (r == Ok(uuid) && jobs == old(jobs)[uuid + ".json" := Decoded(c.value)]
                       && jobOrder == if uuid + ".json" in old(jobs) then old(jobOrder) else old(jobOrder) + [uuid + ".json"]))
      ensures unchanged(this`nodes, this`nodeOrder, this`requireRate, this`requireInit)
      ensures old(WellNamed(jobs)) ==> WellNamed(jobs)
    {
      var parts := SplitOnce(fn, "::");
      if parts.None? {
        return Raise(ValueError);
      }
      var todo := Range(minFrame, maxFrame + 1);
      if cfg.binSearchOrder {
        var ordered := BinSearchOrder(todo);
        if ordered.Raise? {
          return Raise(ordered.error);
        }
        todo := ordered.value;
      }
      var job := Job(uuid, name, now, fn, parts.value.0, priority, project, meta, video, requirements, false,
                     todo, [], [], [], 0.0, 0, 0, []);
      PutJob(uuid + ".json", job);
      return Ok(uuid);
    }

    /** Lines 160-162. */
    method Exists(uuid: string) returns (b: bool)
      ensures b <==> uuid + ".json" in jobs
    {
      b := uuid + ".json" in jobs;
    }

    /** Lines 170-172. */
    method NodeExists(ident: string) returns (b: bool)
      ensures b <==> ident + ".json" in nodes
    {
      b := ident + ".json" in nodes;
    }

    /** Lines 165-167: the file is deleted; a missing one is a KeyError. */
    method Remove(uuid: string) returns (r: Outcome<()>)
      requires Valid()
      modifies this
      ensures Valid()
      ensures var fn := uuid + ".json";
        (fn !in old(jobs) ==> r == Raise(KeyError) && jobs == old(jobs) && jobOrder == old(jobOrder))
        && (fn in old(jobs) ==> r == Ok(()) && jobs == old(jobs) - {fn} && jobOrder == Without(old(jobOrder), fn))
      ensures unchanged(this`nodes, this`nodeOrder, this`requireRate, this`requireInit)
      ensures old(WellNamed(jobs)) ==> WellNamed(jobs)
    {
      var fn := uuid + ".json";
      if fn !in jobs {
        return Raise(KeyError);
      }
      WithoutDistinct(jobOrder, fn);
      jobs := jobs - {fn};
      jobOrder := Without(jobOrder, fn);
      return Ok(());
    }

    /** Lines 175-198: read a job, change one field, write it back. */
    method RewriteJob(ident: string, change: Job -> Job) returns (r: Outcome<()>)
      requires Valid()
      modifies this
      ensures Valid()
      ensures var fn := ident + ".json";
        (fn !in old(jobs) ==> r == Ok(()) && jobs == old(jobs))
        && (fn in old(jobs) && old(jobs)[fn].Undecodable? ==> r == Raise(TypeError) && jobs == old(jobs))
        && (fn in old(jobs) && old(jobs)[fn].Decoded? ==> r == Ok(()) && jobs == old(jobs)[fn := Decoded(change(old(jobs)[fn].value))])
      ensures unchanged(this`jobOrder, this`nodes, this`nodeOrder, this`requireRate, this`requireInit)
    {
      var fn := ident + ".json";
      if fn !in jobs {
        return Ok(());
      }
      if jobs[fn].Undecodable? {
        return Raise(TypeError);
      }
      jobs := jobs[fn := Decoded(change(jobs[fn].value))];
      return Ok(());
    }

    /** Lines 175-185. */
    method JobPause(ident: string, value: bool) returns (r: Outcome<()>)
      requires Valid()
      modifies this
      ensures Valid()
      ensures var fn := ident + ".json";
        (fn !in old(jobs) ==> r == Ok(()) && jobs == old(jobs))
        && (fn in old(jobs) && old(jobs)[fn].Undecodable? ==> r == Raise(TypeError) && jobs == old(jobs))
        && (fn in old(jobs) && old(jobs)[fn].Decoded? ==> r == Ok(()) && jobs == old(jobs)[fn := Decoded(old(jobs)[fn].value.(pause := value))])
      ensures unchanged(this`jobOrder, this`nodes, this`nodeOrder, this`requireRate, this`requireInit)
      ensures old(WellNamed(jobs)) ==> WellNamed(jobs)
    {
      r := RewriteJob(ident, (j: Job) => j.(pause := value));
    }

    /** Lines 188-198. */
    method JobPriority(ident: string, value: int) returns (r: Outcome<()>)
      requires Valid()
      modifies this
      ensures Valid()
      ensures var fn := ident + ".json";
        (fn !in old(jobs) ==> r == Ok(()) && jobs == old(jobs))
        && (fn in old(jobs) && old(jobs)[fn].Undecodable? ==> r == Raise(TypeError) && jobs == old(jobs))
        && (fn in old(jobs) && old(jobs)[fn].Decoded? ==> r == Ok(()) && jobs == old(jobs)[fn := Decoded(old(jobs)[fn].value.(priority := value))])
      ensures unchanged(this`jobOrder, this`nodes, this`nodeOrder, this`requireRate, this`requireInit)
      ensures old(WellNamed(jobs)) ==> WellNamed(jobs)
    {
      r := RewriteJob(ident, (j: Job) => j.(priority := value));
    }

    /** Lines 201-211. */
    method NodePause(ident: string, value: bool) returns (r: Outcome<()>)
      requires Valid()
      modifies this
      ensures Valid()
      ensures var fn := ident + ".json";
        (fn !in old(nodes) ==> r == Ok(()) && nodes == old(nodes))
        && (fn in old(nodes) && old(nodes)[fn].Undecodable? ==> r == Raise(TypeError) && nodes == old(nodes))
        && (fn in old(nodes) && old(nodes)[fn].Decoded? ==> r == Ok(()) && nodes == old(nodes)[fn := PauseStored(old(nodes)[fn], value)])
      ensures unchanged(this`jobs, this`jobOrder, this`nodeOrder, this`requireRate, this`requireInit)
    {
      var fn := ident + ".json";
      if fn !in nodes {
        return Ok(());
      }
      if nodes[fn].Undecodable? {
        return Raise(TypeError);
      }
      nodes := nodes[fn := PauseStored(nodes[fn], value)];
      return Ok(());
    }

    /** Lines 214-223: every readable node record gets the flag; unreadable ones are skipped. */
    method NodePauseAll(value: bool)
      requires Valid()
      modifies this
      ensures Valid()
      ensures nodes.Keys == old(nodes).Keys && forall n :: n in nodes ==> nodes[n] == PauseStored(old(nodes)[n], value)
      ensures unchanged(this`jobs, this`jobOrder, this`nodeOrder, this`requireRate, this`requireInit)
    {
      var i := 0;
      while i < |nodeOrder|
        invariant 0 <= i <= |nodeOrder|
        invariant Valid() && nodes.Keys == old(nodes).Keys
        invariant forall k :: 0 <= k < i ==> nodes[nodeOrder[k]] == PauseStored(old(nodes)[nodeOrder[k]], value)
        invariant forall k :: i <= k < |nodeOrder| ==> nodes[nodeOrder[k]] == old(nodes)[nodeOrder[k]]
        invariant unchanged(this`jobs, this`jobOrder, this`nodeOrder, this`requireRate, this`requireInit)
      {
        var n := nodeOrder[i];
        if nodes[n].Decoded? {
          nodes := nodes[n := PauseStored(nodes[n], value)];
        }
        i := i + 1;
      }
      forall n | n in nodes ensures nodes[n] == PauseStored(old(nodes)[n], value) {
        var k :| 0 <= k < |nodeOrder| && nodeOrder[k] == n;
      }
    }

    /** Lines 226-254. */
    method Report(ident: string, offered: seq<string>, version: Option<string>, now: real)
      requires Valid()
      modifies this
      ensures Valid()
      ensures var fn := ident + ".json";
        nodes == old(nodes)[fn := Decoded(Sighted(Lookup(old(nodes), fn), ident, offered, version, now))]
        && nodeOrder == (if fn in old(nodes) then old(nodeOrder) else old(nodeOrder) + [fn])
      ensures requireInit == Shrink(old(requireInit), cfg.requireShrink)
      ensures requireRate == UpdateRates(old(requireRate), old(requireInit), offered, cfg)
      ensures unchanged(this`jobs, this`jobOrder)
    {
      var fn := ident + ".json";
      PutNode(fn, Sighted(Lookup(nodes, fn), ident, offered, version, now));
      var init := Shrink(requireInit, cfg.requireShrink);
      var shrunk := ShrinkAll(requireRate, cfg.requireShrink);
      var rates := AnnounceAll(shrunk, init, offered, cfg.RequireAdd());
      RatesStayPositive(requireRate, requireInit, offered, cfg);
      ShrinkPositive(requireInit, cfg.requireShrink);
      assert rates == UpdateRates(requireRate, requireInit, offered, cfg);
      requireInit := init;
      requireRate := rates;
    }

    /** Lines 257-390; time, the project priorities and the two uniform draws are parameters. */
    method TaskSelect(ident: string, paths: seq<string>, offered: seq<string>, now: real,
                      priority: string -> real, u1: real, u2: real) returns (r: Outcome<Option<Task>>)
      requires Valid()
      modifies this
      ensures Valid()
      ensures var sel := Select(old(jobOrder), old(jobs), old(requireRate), cfg, ident, paths, offered, now, priority, u1, u2);
        r == Reply(sel) && jobs == Written(old(jobs), sel)
      ensures unchanged(this`jobOrder, this`nodes, this`nodeOrder, this`requireRate, this`requireInit)
    {
      var tooOld := now - cfg.timeout;
      var options := GatherOptions(paths, offered, tooOld);
      if options.Raise? {
        return Raise(options.error);
      }
      var bs := options.value;
      if |bs| == 0 {
        return Ok(None);
      }
      var picked := DrawCandidate(bs, priority, u1, u2);
      if picked.Raise? {
        return Raise(picked.error);
      }
      var fn := picked.value.job.uuid + ".json";
      if fn !in jobs {
        return Raise(KeyError);
      }
      if jobs[fn].Undecodable? {
        return Raise(TypeError);
      }
      var claim := ClaimFrame(jobs[fn].value, ident, now, cfg.retry, tooOld);
      if claim.None? {
        return Ok(None);
      }
      var (record, frame) := claim.value;
      jobs := jobs[fn := Decoded(record)];
      return Ok(Some(Task(record.uuid, frame, record.file, now, record.requirements)));
    }

    /** Lines 265-310: the loop over the jobs directory. */
    method GatherOptions(paths: seq<string>, offered: seq<string>, tooOld: real) returns (g: Outcome<seq<Bucket>>)
      requires Valid()
      ensures g == Gather(jobOrder, jobs, requireRate, cfg, paths, offered, tooOld)
    {
      var bs: seq<Bucket> := [];
      var i := 0;
      while i < |jobOrder|
        invariant 0 <= i <= |jobOrder|
        invariant Gather(jobOrder[..i], jobs, requireRate, cfg, paths, offered, tooOld) == Ok(bs)
      {
        var n := jobOrder[i];
        assert jobOrder[..i + 1][..i] == jobOrder[..i];
        assert n in jobs;
        if jobs[n].Decoded? {
          var job := jobs[n].value;
          var ok := Admit(job, paths, offered, cfg.retry, tooOld);
          if ok {
            var w := Weigh(job, requireRate, cfg);
            if w.Raise? {
              GatherPrefixRaise(jobOrder, i + 1, jobs, requireRate, cfg, paths, offered, tooOld);
              return Raise(w.error);
            }
            bs := AddCandidate(bs, job.project, Candidate(w.value, n, job));
          }
        }
        i := i + 1;
      }
      assert jobOrder[..i] == jobOrder;
      return Ok(bs);
    }

    /** Lines 393-444. */
    method TaskAlive(ident: string, uuid: string, frame: Frame, done: int, now: real) returns (r: Outcome<bool>)
      requires Valid()
      modifies this
      ensures Valid()
      ensures (r, jobs) == AliveAt(old(jobs), ident, uuid, frame, done, now)
      ensures unchanged(this`jobOrder, this`nodes, this`nodeOrder, this`requireRate, this`requireInit)
    {
      var fn := uuid + ".json";
      if fn !in jobs {
        return Ok(false);
      }
      if jobs[fn].Undecodable? {
        return Raise(TypeError);
      }
      var job := jobs[fn].value;
      if !job.video {
        var found := IndexOf(job.working, Matches(frame));
        if found.None? {
          job := job.(working := job.working + [Work(frame, ident, now)]);
        } else {
          var i := found.value;
          if job.working[i].ident != ident {
            return Ok(false);
          }
          job := job.(working := job.working[i := job.working[i].(seen := now)]);
        }
      } else {
        if |job.working| == 0 {
          job := job.(todo := [], working := [Work(frame, ident, now)]);
        } else {
          if job.working[0].ident != ident {
            return Ok(false);
          }
          job := job.(working := job.working[0 := job.working[0].(seen := now)]);
        }
        var progress := Progress(frame, done);
        if progress.Raise? {
          return Raise(progress.error);
        }
        job := job.(done := progress.value);
      }
      jobs := jobs[fn := Decoded(job)];
      return Ok(true);
    }

    /** Lines 447-524: the reply, and the note the asset's render times receive. */
    method TaskDone(uuid: string, frame: Frame, t: real) returns (r: Outcome<bool>, note: Option<Note>)
      requires Valid()
      modifies this
      ensures Valid()
      ensures (r, jobs) == DoneAt(old(jobs), uuid, frame, t)
      ensures note == NoteAt(old(jobs), uuid, frame, t)
      ensures unchanged(this`jobOrder, this`nodes, this`nodeOrder, this`requireRate, this`requireInit)
    {
      var fn := uuid + ".json";
      if fn !in jobs {
        return Ok(false), None;
      }
      if jobs[fn].Undecodable? {
        return Raise(TypeError), None;
      }
      var job := jobs[fn].value;
      var finished := FinishJob(job, frame, t);
      if finished.Raise? {
        return Raise(finished.error), None;
      }
      jobs := jobs[fn := Decoded(finished.value)];
      if job.video {
        note := Some(Note(job.project, job.meta, "video", t));
      } else {
        var found := IndexOf(job.working, Matches(frame));
        note := if found.Some? then Some(Note(job.project, job.meta, FrameKey(frame), t)) else None;
      }
      return Ok(true), note;
    }

    /** Lines 527-542. */
    method PotentialJobs(tag: string) returns (ret: seq<Job>)
      requires Valid()
      modifies this
      ensures Valid()
      ensures (ret, jobs) == Tagging(old(jobOrder), old(jobs), tag)
      ensures unchanged(this`jobOrder, this`nodes, this`nodeOrder, this`requireRate, this`requireInit)
    {
      ret := [];
      var i := 0;
      while i < |jobOrder|
        invariant 0 <= i <= |jobOrder|
        invariant (ret, jobs) == Tagging(jobOrder[..i], old(jobs), tag)
        invariant jobs.Keys == old(jobs).Keys
        invariant unchanged(this`jobOrder, this`nodes, this`nodeOrder, this`requireRate, this`requireInit)
      {
        var n := jobOrder[i];
        assert jobOrder[..i + 1][..i] == jobOrder[..i];
        if EndsWith(n, ".json") && n in jobs && jobs[n].Decoded? && tag !in jobs[n].value.potential {
          var state := Tag(jobs[n].value, tag);
          jobs := jobs[n := Decoded(state)];
          ret := ret + [state];
        }
        i := i + 1;
      }
      assert jobOrder[..i] == jobOrder;
    }

    /** Lines 93-100. */
    method IterJobs() returns (r: seq<Job>)
      ensures r == ReadableJobs(jobOrder, jobs)
    {
      r := [];
      var i := 0;
      while i < |jobOrder|
        invariant 0 <= i <= |jobOrder|
        invariant r == ReadableJobs(jobOrder[..i], jobs)
      {
        var n := jobOrder[i];
        assert jobOrder[..i + 1][..i] == jobOrder[..i];
        if EndsWith(n, ".json") && n in jobs && jobs[n].Decoded? {
          r := r + [jobs[n].value];
        }
        i := i + 1;
      }
      assert jobOrder[..i] == jobOrder;
    }

    /** Lines 103-125, run to the end: the live records, then the stale ones are deleted. */
    method IterNodes(now: real) returns (live: seq<NodeRec>)
      requires Valid()
      modifies this
      ensures Valid()
      ensures live == LiveNodes(old(nodeOrder), old(nodes), NodeCutoff(cfg, now))
      ensures forall n :: n in nodes <==> n in old(nodes) && !Stale(n, old(nodes), NodeCutoff(cfg, now))
      ensures forall n :: n in nodes ==> nodes[n] == old(nodes)[n]
      ensures var gone := StaleNames(old(nodeOrder), old(nodes), NodeCutoff(cfg, now));
        nodes == Forgotten(old(nodes), gone) && nodeOrder == Purged(old(nodeOrder), gone)
      ensures unchanged(this`jobs, this`jobOrder, this`requireRate, this`requireInit)
    {
      var tooOld := NodeCutoff(cfg, now);
      var toDie;
      live, toDie := Survey(nodeOrder, nodes, tooOld);
      DropNodes(toDie);
    }

    /** `os.remove` of each named node file. */
    method DropNodes(names: seq<string>)
      requires Valid()
      modifies this
      ensures Valid()
      ensures forall n :: n in nodes <==> n in old(nodes) && n !in names
      ensures forall n :: n in nodes ==> nodes[n] == old(nodes)[n]
      ensures nodes == Forgotten(old(nodes), names) && nodeOrder == Purged(old(nodeOrder), names)
      ensures unchanged(this`jobs, this`jobOrder, this`requireRate, this`requireInit)
    {
      var j := 0;
      while j < |names|
        invariant 0 <= j <= |names|
        invariant Valid()
        invariant nodes == Forgotten(old(nodes), names[..j])
        invariant nodeOrder == Purged(old(nodeOrder), names[..j])
        invariant unchanged(this`jobs, this`jobOrder, this`requireRate, this`requireInit)
      {
        ForgetStep(old(nodes), names, j);
        PurgeStep(old(nodeOrder), names, j);
        WithoutDistinct(nodeOrder, names[j]);
        nodes := nodes - {names[j]};
        nodeOrder := Without(nodeOrder, names[j]);
        j := j + 1;
      }
      assert names[..j] == names;
    }
  }

  /** Lines 252-254: the loop over the announced capabilities. */
  method AnnounceAll(rates: map<string, real>, init: real, keys: seq<string>, add: real) returns (r: map<string, real>)
    ensures r == Announce(rates, init, keys, add)
  {
    r := rates;
    var i := 0;
    while i < |keys|
      invariant 0 <= i <= |keys|
      invariant r == Announce(rates, init, keys[..i], add)
    {
      assert keys[..i + 1][..i] == keys[..i];
      var key := keys[i];
      if key !in r {
        r := r[key := init];
      }
      r := r[key := r[key] + add];
      i := i + 1;
    }
    assert keys[..i] == keys;
  }

  /** Lines 110-123: the pass over the nodes directory. */
  method Survey(order: seq<string>, nodes: map<string, Stored<NodeRec>>, tooOld: real) returns (live: seq<NodeRec>, toDie: seq<string>)
    ensures live == LiveNodes(order, nodes, tooOld) && toDie == StaleNames(order, nodes, tooOld)
  {
    live, toDie := [], [];
    var i := 0;
    while i < |order|
      invariant 0 <= i <= |order|
      invariant live == LiveNodes(order[..i], nodes, tooOld)
      invariant toDie == StaleNames(order[..i], nodes, tooOld)
    {
      var n := order[i];
      assert order[..i + 1][..i] == order[..i];
      if EndsWith(n, ".json") && n in nodes && nodes[n].Decoded? {
        if nodes[n].value.seen > tooOld {
          live := live + [nodes[n].value];
        } else {
          toDie := toDie + [n];
        }
      }
      i := i + 1;
    }
    assert order[..i] == order;
  }

  /** `for key in self.require_rate.keys(): self.require_rate[key] *= self.require_shrink`. */
  method ShrinkAll(rates: map<string, real>, s: real) returns (r: map<string, real>)
    ensures r == Shrunk(rates, s)
  {
    r := rates;
    var todo := rates.Keys;
    while todo != {}
      invariant todo <= rates.Keys && r.Keys == rates.Keys
      invariant forall k :: k in rates ==> r[k] == if k in todo then rates[k] else Shrink(rates[k], s)
      decreases todo
    {
      var k :| k in todo;
      r := r[k := Shrink(r[k], s)];
      todo := todo - {k};
    }
  }

  lemma AddedNonNegative(c: nat, add: real)
    requires add >= 0.0
    ensures Added(c, add) >= 0.0
  {
  }

  /** The rates stay positive, so dividing by them is defined. */
  lemma RatesStayPositive(rates: map<string, real>, init: real, offered: seq<string>, cfg: Config)
    requires cfg.Valid() && PositiveRates(rates) && init > 0.0
    ensures PositiveRates(UpdateRates(rates, init, offered, cfg))
  {
    var shrunk := Shrunk(rates, cfg.requireShrink);
    var r := UpdateRates(rates, init, offered, cfg);
    forall k | k in r ensures r[k] > 0.0 {
      AnnounceKey(shrunk, Shrink(init, cfg.requireShrink), offered, cfg.RequireAdd(), k);
      AnnounceValue(shrunk, Shrink(init, cfg.requireShrink), offered, cfg.RequireAdd(), k);
      AddedNonNegative(Count(offered, k), cfg.RequireAdd());
      if k in shrunk {
        ShareDecay(1.0, cfg.requireShrink);
        assert Shrink(rates[k], cfg.requireShrink) > 0.0;
      }
    }
  }
}
