/**
 * The render node (node/node.py): it owns a fixed set of workers and, once
 * per heartbeat, says hello to the farm.  A hello posts one batch of
 * requests (what must be re-sent, the identity, an info request when the
 * settings are stale, every worker's state, and a task request for the idle
 * workers) and then obeys the commandments that come back.  `run` repeats
 * hellos, backing off exponentially while the farm cannot be reached.
 *
 * The farm is reached through a transport whose answer is a parameter
 * (None when it fails with IOError); the clock is one value `now` per
 * hello, and each worker's process output is `output(k)`.  A hello is
 * specified by `Greeted` on values: the node's fields (`NodeView`) and the
 * workers' fields (`Worker.View`).  `Node.Hello` does it through the
 * worker objects and is proved to agree.
 */
module Node {
  import opened Py
  import opened Jobs
  import opened Farm
  import opened Worker

  /** The parts of config.json a hello reads; `version` is None when absent. */
  datatype NodeConfig = NodeConfig(name: string, offers: seq<string>, version: Option<string>,
                                   singleUse: bool, setup: Setup)

  /** The timing settings the farm's info commandment sets. */
  datatype Beat = Beat(heartbeat: real, arrhythmia: real, errorScale: real, hibernation: real, memory: real)

  /** The node's own changing fields. */
  datatype NodeView = NodeView(lastInfo: real, beat: Beat, errors: nat, mustSend: seq<Request>, firstHello: bool)

  /** Lines 53-60, 70 and 75: a node that has not heard from the farm yet. */
  function Fresh(): NodeView {
    NodeView(0.0, Beat(4.0, 1.0, 2.0, 600.0, 600.0), 0, [], true)
  }

  // ---------------------------------------------------------------------------
  // Building the batch (lines 87-113)

  /**
   * Lines 88-96: what must be re-sent, then the identity, then an info
   * request when the settings are older than `memory`.  Line 92 writes the
   * version into `requests[0]`, which is the identity only when nothing is
   * being re-sent; otherwise it lands on a done report, where the farm does
   * not read it.
   */
  function Opening(nv: NodeView, cfg: NodeConfig, now: real): seq<Request> {
    var identity := Identify(cfg.name, cfg.offers, if |nv.mustSend| == 0 then cfg.version else None);
    nv.mustSend + [identity] + (if nv.lastInfo < now - nv.beat.memory then [AskInfo] else [])
  }

  /** What polling one worker gives and leaves. */
  type PollResult = (Outcome<Option<Request>>, View)

  /** Every idle entry names a worker. */
  predicate Indexes(lazy: seq<nat>, n: nat) {
    forall k :: 0 <= k < |lazy| ==> lazy[k] < n
  }

  /** The loop of lines 99-108 after some workers: their fields, what was added and the idle ones. */
  datatype Poll = Poll(views: seq<View>, sent: seq<Request>, kept: seq<Request>, lazy: seq<nat>, failed: Option<Error>)

  /** Lines 101-108 for worker `k`, whose poll gave `res`. */
  function PollOne(p: Poll, k: nat, res: (Outcome<Option<Request>>, View)): Poll
    requires k < |p.views|
  {
    var (r, v) := res;
    var views := p.views[k := v];
    match r
    case Raise(e) => p.(views := views, failed := Some(e))
    case Ok(msg) =>
      Poll(views,
           if msg.Some? then p.sent + [msg.value] else p.sent,
           if msg.Some? && msg.value.Finished? then p.kept + [msg.value] else p.kept,
           if IsBusy(v) then p.lazy else p.lazy + [k],
           None)
  }

  /** Lines 99-108 after the polls that gave `rs`, one per worker from the first, stopping at the first exception. */
  function Polls(vs: seq<View>, rs: seq<PollResult>): (p: Poll)
    requires |rs| <= |vs|
    ensures |p.views| == |vs| && forall k :: |rs| <= k < |vs| ==> p.views[k] == vs[k]
    ensures Indexes(p.lazy, |rs|)
    decreases |rs|
  {
    if |rs| == 0 then Poll(vs, [], [], [], None)
    else
      var p := Polls(vs, rs[..|rs| - 1]);
      if p.failed.Some? then p else PollOne(p, |rs| - 1, rs[|rs| - 1])
  }

  /** Line 100: `rs` is what `worker.state()` gave for the first `|rs|` workers, with worker `k`'s process output `output(k)`. */
  ghost predicate Answers(vs: seq<View>, rs: seq<PollResult>, now: real, output: nat -> Option<string>) {
    |rs| <= |vs|
    && forall k {:trigger Polled(vs[k], now, output(k))} :: 0 <= k < |rs| ==> rs[k] == Polled(vs[k], now, output(k))
  }

  /** Lines 99-108: the loop polls every worker, or stops after the first whose poll raised. */
  ghost predicate PolledAll(vs: seq<View>, rs: seq<PollResult>, now: real, output: nat -> Option<string>) {
    Answers(vs, rs, now, output) && (|rs| < |vs| ==> Polls(vs, rs).failed.Some?)
  }

  /** The done reports among some requests, in order. */
  function Dones(rs: seq<Request>): seq<Request>
    decreases |rs|
  {
    if |rs| == 0 then []
    else Dones(rs[..|rs| - 1]) + (if rs[|rs| - 1].Finished? then [rs[|rs| - 1]] else [])
  }

  /**
   * Lines 99-108: each worker is polled once, in order, and none of them
   * raised: every polled worker's fields are what its own poll left.
   */
  lemma {:induction false} PollsViews(vs: seq<View>, rs: seq<PollResult>)
    requires |rs| <= |vs|
    ensures var p := Polls(vs, rs);
      p.failed.None? ==> forall k :: 0 <= k < |rs| ==> rs[k].0.Ok? && p.views[k] == rs[k].1
    decreases |rs|
  {
    if |rs| > 0 {
      PollsViews(vs, rs[..|rs| - 1]);
    }
  }

  /** Lines 103-105: the done reports among the sent messages, in order, are also kept for re-sending. */
  lemma {:induction false} PollsKept(vs: seq<View>, rs: seq<PollResult>)
    requires |rs| <= |vs|
    ensures var p := Polls(vs, rs);
      p.failed.None? ==> p.kept == Dones(p.sent)
    decreases |rs|
  {
    if |rs| > 0 {
      var front := rs[..|rs| - 1];
      PollsKept(vs, front);
      var p := Polls(vs, front);
      if p.failed.None? {
        var res := rs[|rs| - 1];
        var q := PollOne(p, |rs| - 1, res);
        if res.0.Ok? && res.0.value.Some? {
          assert q.sent[..|q.sent| - 1] == p.sent;
        }
      }
    }
  }

  /** Lines 100-102: exactly the messages the workers give are sent. */
  lemma {:induction false} PollsSent(vs: seq<View>, rs: seq<PollResult>)
    requires |rs| <= |vs|
    ensures var p := Polls(vs, rs);
      p.failed.None? ==>
        (forall r :: r in p.sent ==> exists k :: 0 <= k < |rs| && rs[k].0 == Ok(Some(r)))
        && (forall k :: 0 <= k < |rs| && rs[k].0.Ok? && rs[k].0.value.Some? ==>
              rs[k].0.value.value in p.sent)
    decreases |rs|
  {
    if |rs| > 0 {
      var n := |rs|;
      var front := rs[..n - 1];
      PollsSent(vs, front);
      var p := Polls(vs, front);
      if p.failed.None? {
        var res := rs[n - 1];
        var q := PollOne(p, n - 1, res);
        if res.0.Ok? {
          var added := if res.0.value.Some? then [res.0.value.value] else [];
          assert q.sent == p.sent + added;
          forall r | r in q.sent ensures exists k :: 0 <= k < n && rs[k].0 == Ok(Some(r)) {
            if r in p.sent {
              var k :| 0 <= k < n - 1 && front[k].0 == Ok(Some(r));
              assert rs[k] == front[k];
            } else {
              assert rs[n - 1].0 == Ok(Some(r));
            }
          }
          forall k | 0 <= k < n && rs[k].0.Ok? && rs[k].0.value.Some?
            ensures rs[k].0.value.value in q.sent
          {
            if k < n - 1 {
              assert front[k] == rs[k];
            }
          }
        }
      }
    }
  }

  /** Lines 107-108: exactly the workers idle after their poll are listed as idle, in increasing order. */
  lemma {:induction false} PollsLazy(vs: seq<View>, rs: seq<PollResult>)
    requires |rs| <= |vs|
    ensures var p := Polls(vs, rs);
      p.failed.None? ==>
        (forall k :: k in p.lazy <==> 0 <= k < |rs| && !IsBusy(p.views[k]))
        && (forall i, j :: 0 <= i < j < |p.lazy| ==> p.lazy[i] < p.lazy[j])
    decreases |rs|
  {
    if |rs| > 0 {
      var n := |rs|;
      PollsLazy(vs, rs[..n - 1]);
      var p := Polls(vs, rs[..n - 1]);
      if p.failed.None? {
        assert |rs[..n - 1]| == n - 1;
        assert forall j :: j in p.lazy <==> 0 <= j < n - 1 && !IsBusy(p.views[j]);
        forall k | 0 <= k < |p.lazy| ensures p.lazy[k] < n - 1 {
          assert p.lazy[k] in p.lazy;
        }
        var q := PollOne(p, n - 1, rs[n - 1]);
        assert Polls(vs, rs) == q;
        if q.failed.None? {
          var v := rs[n - 1].1;
          assert q.lazy == if IsBusy(v) then p.lazy else p.lazy + [n - 1];
          forall k: nat ensures k in q.lazy <==> k < n && !IsBusy(q.views[k]) {
            if k < n - 1 {
              assert q.views[k] == p.views[k];
              LazyKept(p.lazy, q.lazy, n - 1, !IsBusy(v), k);
              assert (k in p.lazy) == !IsBusy(p.views[k]);
            } else if k == n - 1 {
              assert q.views[k] == v;
              assert k !in p.lazy;
            } else {
              assert k !in p.lazy;
            }
          }
        }
      }
    }
  }

  /** Appending the index `m` or not leaves every other index's membership as it was. */
  lemma LazyKept(before: seq<nat>, after: seq<nat>, m: nat, added: bool, k: nat)
    requires after == if added then before + [m] else before
    requires k != m
    ensures k in after <==> k in before
  {
    if added {
      assert k in before + [m] <==> k in before || k == m;
    }
  }

  /** An exception at one worker ends the polling there: what later polls would give is ignored. */
  lemma {:induction false} PollsStop(vs: seq<View>, rs: seq<PollResult>, more: seq<PollResult>)
    requires |rs + more| <= |vs| && Polls(vs, rs).failed.Some?
    ensures Polls(vs, rs + more) == Polls(vs, rs)
    decreases |more|
  {
    if |more| > 0 {
      var front := more[..|more| - 1];
      assert (rs + more)[..|rs + more| - 1] == rs + front;
      PollsStop(vs, rs, front);
      assert Polls(vs, rs + more) == Polls(vs, rs + front);
    } else {
      assert rs + more == rs;
    }
  }

  /**
   * The loop's outcome is determined by the workers and the clock: any two
   * ways `PolledAll` allows of polling the same workers end alike.
   */
  lemma PolledAllUnique(vs: seq<View>, rs: seq<PollResult>, rs2: seq<PollResult>, now: real, output: nat -> Option<string>)
    requires PolledAll(vs, rs, now, output) && PolledAll(vs, rs2, now, output) && |rs| <= |rs2|
    ensures Polls(vs, rs) == Polls(vs, rs2)
  {
    forall k | 0 <= k < |rs| ensures rs[k] == rs2[k] {
      assert rs[k] == Polled(vs[k], now, output(k));
      assert rs2[k] == Polled(vs[k], now, output(k));
    }
    if |rs| == |rs2| {
      assert rs == rs2;
    } else {
      var more := rs2[|rs|..];
      assert rs2 == rs + more;
      PollsStop(vs, rs, more);
    }
  }

  /** Lines 110-113: a task request for the idle workers, and the new `first_hello`. */
  function Asking(idle: nat, nv: NodeView, cfg: NodeConfig, pathOrder: seq<string>): (seq<Request>, bool) {
    if idle != 0 && (nv.firstHello || !cfg.singleUse) then ([AskTasks(idle, pathOrder, cfg.offers)], false)
    else ([], nv.firstHello)
  }

  // ---------------------------------------------------------------------------
  // Obeying the commandments (lines 128-153)

  /** What starting an idle worker (with fields `v`) on a task gives and leaves. */
  type StartFn = (View, Task) -> (Outcome<Option<seq<string>>>, View)

  /** Line 144: `worker.run(commandment)`, whose file goes through `to_local`. */
  function Starting(paths: map<string, string>, setup: Setup, now: real): StartFn {
    (v: View, t: Task) => Started(v, t, ToLocal(paths, t.file), setup, now)
  }

  /** The loop of lines 128-153 so far: the timing, the workers, the idle ones left, and any exception. */
  datatype Obey = Obey(lastInfo: real, beat: Beat, views: seq<View>, lazy: seq<nat>, failed: Option<Error>)

  /** Lines 146-149: the kill goes to every worker. */
  function KillEvery(vs: seq<View>, uuid: string, frame: Frame): (r: seq<View>)
    ensures |r| == |vs| && forall k :: 0 <= k < |vs| ==> r[k] == Killed(vs[k], uuid, frame)
  {
    seq(|vs|, k requires 0 <= k < |vs| => Killed(vs[k], uuid, frame))
  }

  /** Lines 129-149 for one commandment. */
  function ObeyOne(o: Obey, c: Commandment, start: StartFn, now: real): Obey
    requires Indexes(o.lazy, |o.views|)
  {
    match c
    case InfoCmd(hb, arr, es, hib, mem) => o.(lastInfo := now, beat := Beat(hb, arr, es, hib, mem))
    case TaskCmd(task) =>
      if |o.lazy| == 0 then o.(failed := Some(IndexError))
      else
        var k := o.lazy[|o.lazy| - 1];
        var (r, v) := start(o.views[k], task);
        o.(views := o.views[k := v], lazy := o.lazy[..|o.lazy| - 1], failed := if r.Raise? then Some(r.error) else None)
    case KillCmd(uuid, frame) => o.(views := KillEvery(o.views, uuid, frame))
  }

  /**
   * Lines 146-149 as written: the log line of line 147 formats the frame
   * with `%i`, which raises TypeError for the `[first, last]` pair of a
   * video task before any worker is reached.
   */
  function KillAsWritten(o: Obey, uuid: string, frame: Frame): Obey {
    if frame.Span? then o.(failed := Some(TypeError)) else o.(views := KillEvery(o.views, uuid, frame))
  }

  /** A kill for a video range stops the hello as written; `ObeyOne` reaches every worker instead. */
  lemma KillAsWrittenFails(o: Obey, uuid: string, lo: int, hi: int, start: StartFn, now: real)
    requires Indexes(o.lazy, |o.views|) && o.failed.None?
    ensures KillAsWritten(o, uuid, Span(lo, hi)).failed == Some(TypeError)
    ensures KillAsWritten(o, uuid, Span(lo, hi)).views == o.views
    ensures var r := ObeyOne(o, KillCmd(uuid, Span(lo, hi)), start, now);
      r.failed.None? && forall j :: 0 <= j < |o.views| ==> r.views[j] == Killed(o.views[j], uuid, Span(lo, hi))
  {
  }

  /** Lines 128-153 over the first `n` commandments, stopping at the first exception. */
  function Obeys(o: Obey, cmds: seq<Commandment>, n: nat, start: StartFn, now: real): (r: Obey)
    requires n <= |cmds| && Indexes(o.lazy, |o.views|)
    ensures |r.views| == |o.views| && Indexes(r.lazy, |r.views|) && |r.lazy| <= |o.lazy|
    decreases n
  {
    if n == 0 then o
    else
      var p := Obeys(o, cmds, n - 1, start, now);
      if p.failed.Some? then p else ObeyOne(p, cmds[n - 1], start, now)
  }

  /**
   * Lines 129-149: an info commandment sets the five timings and the time
   * they were heard; a task starts the last idle worker on it, leaves the
   * others alone and takes that worker off the idle list (IndexError when
   * none is idle); a kill reaches every worker.
   */
  lemma ObeyOneFacts(o: Obey, c: Commandment, start: StartFn, now: real)
    requires Indexes(o.lazy, |o.views|)
    ensures var r := ObeyOne(o, c, start, now);
      (c.InfoCmd? ==> r == o.(lastInfo := now, beat := Beat(c.heartbeat, c.arrhythmia, c.errorScale, c.hibernation, c.memory)))
      && (c.TaskCmd? && |o.lazy| == 0 ==> r.failed == Some(IndexError) && r.views == o.views)
      && (c.TaskCmd? && |o.lazy| > 0 ==>
            var k := o.lazy[|o.lazy| - 1];
            r.lazy == o.lazy[..|o.lazy| - 1]
            && r.views[k] == start(o.views[k], c.task).1
            && (r.failed.None? <==> start(o.views[k], c.task).0.Ok?)
            && (forall j :: 0 <= j < |o.views| && j != k ==> r.views[j] == o.views[j])
            && r.lastInfo == o.lastInfo && r.beat == o.beat)
      && (c.KillCmd? ==>
            r.lazy == o.lazy && r.failed == o.failed
            && forall j :: 0 <= j < |o.views| ==> r.views[j] == Killed(o.views[j], c.uuid, c.frame))
  {
  }

  /** An exception at one commandment ends the handling there. */
  lemma {:induction false} ObeysStop(o: Obey, cmds: seq<Commandment>, i: nat, n: nat, start: StartFn, now: real)
    requires i <= n <= |cmds| && Indexes(o.lazy, |o.views|) && Obeys(o, cmds, i, start, now).failed.Some?
    ensures Obeys(o, cmds, n, start, now) == Obeys(o, cmds, i, start, now)
    decreases n
  {
    if n > i {
      ObeysStop(o, cmds, i, n - 1, start, now);
    }
  }

  /** How many task commandments there are. */
  function Tasks(cmds: seq<Commandment>): nat
    decreases |cmds|
  {
    if |cmds| == 0 then 0 else Tasks(cmds[..|cmds| - 1]) + (if cmds[|cmds| - 1].TaskCmd? then 1 else 0)
  }

  /** Line 143: each task commandment handled uses up one idle worker. */
  lemma {:induction false} ObeysUseIdle(o: Obey, cmds: seq<Commandment>, n: nat, start: StartFn, now: real)
    requires n <= |cmds| && Indexes(o.lazy, |o.views|) && o.failed.None?
    ensures var r := Obeys(o, cmds, n, start, now);
      r.failed.None? ==> |r.lazy| + Tasks(cmds[..n]) == |o.lazy|
    decreases n
  {
    if n > 0 {
      ObeysUseIdle(o, cmds, n - 1, start, now);
      assert cmds[..n][..n - 1] == cmds[..n - 1];
    }
  }

  /** Line 156: the workers still busy, in order, whose processes the node waits on. */
  function BusyOnes(vs: seq<View>, n: nat): (r: seq<nat>)
    requires n <= |vs|
    ensures forall k :: k in r <==> 0 <= k < n && IsBusy(vs[k])
    decreases n
  {
    if n == 0 then [] else BusyOnes(vs, n - 1) + (if IsBusy(vs[n - 1]) then [n - 1] else [])
  }

  // ---------------------------------------------------------------------------
  // One hello (lines 84-156)

  /** What a hello returns, the fields afterwards, and the batch it posted (None when it raised first). */
  datatype Greeting = Greeting(result: Outcome<Option<seq<nat>>>, nv: NodeView, views: seq<View>, posted: Option<seq<Request>>)

  /**
   * Lines 86-113, where polling the workers gave `rs` (see `PolledAll`):
   * the loop's state, the fields afterwards and the batch to post.
   */
  function Collected(nv: NodeView, vs: seq<View>, rs: seq<PollResult>, cfg: NodeConfig, pathOrder: seq<string>, now: real)
    : (Poll, NodeView, seq<Request>)
    requires |rs| <= |vs|
  {
    var opening := Opening(nv, cfg, now);
    var p := Polls(vs, rs);
    var nv1 := nv.(mustSend := nv.mustSend + p.kept);
    if p.failed.Some? then (p, nv1, opening)
    else
      var (ask, first) := Asking(|p.lazy|, nv, cfg, pathOrder);
      (p, nv1.(firstHello := first), opening + p.sent + ask)
  }

  /** Lines 84-156, where polling the workers gave `rs`. */
  function Greeted(nv: NodeView, vs: seq<View>, rs: seq<PollResult>, cfg: NodeConfig, paths: map<string, string>,
                   pathOrder: seq<string>, now: real, reply: Option<seq<Commandment>>): Greeting
    requires |rs| <= |vs|
  {
    var (p, nv2, batch) := Collected(nv, vs, rs, cfg, pathOrder, now);
    if p.failed.Some? then Greeting(Raise(p.failed.value), nv2, p.views, None)
    else
      match reply
      case None => Greeting(Ok(None), nv2, p.views, Some(batch))
      case Some(cmds) =>
        var o := Obeys(Obey(nv2.lastInfo, nv2.beat, p.views, p.lazy, None), cmds, |cmds|, Starting(paths, cfg.setup, now), now);
        var nv3 := nv2.(lastInfo := o.lastInfo, beat := o.beat, mustSend := []);
        Greeting(if o.failed.Some? then Raise(o.failed.value) else Ok(Some(BusyOnes(o.views, |o.views|))), nv3, o.views, Some(batch))
  }

  /** Lines 110-113: a task request for all the idle workers, when there are any and the node may still ask. */
  lemma AskingFacts(idle: nat, nv: NodeView, cfg: NodeConfig, pathOrder: seq<string>)
    ensures var (ask, first) := Asking(idle, nv, cfg, pathOrder);
      (|ask| != 0 <==> idle != 0 && (nv.firstHello || !cfg.singleUse))
      && |ask| <= 1
      && (|ask| != 0 ==> ask[0] == AskTasks(idle, pathOrder, cfg.offers) && !first)
      && (|ask| == 0 ==> first == nv.firstHello)
  {
  }

  /**
   * Lines 88-113: the batch opens with what must be re-sent and then the
   * identity, followed by everything the workers said and then the task
   * request, if any; it is posted exactly when no worker raised.
   */
  lemma GreetedBatch(nv: NodeView, vs: seq<View>, rs: seq<PollResult>, cfg: NodeConfig, paths: map<string, string>,
                     pathOrder: seq<string>, now: real, reply: Option<seq<Commandment>>)
    requires |rs| <= |vs|
    ensures var h := Greeted(nv, vs, rs, cfg, paths, pathOrder, now, reply);
      var p := Polls(vs, rs);
      var m := |nv.mustSend|;
      (h.posted.Some? <==> p.failed.None?)
      && (h.posted.Some? ==>
            var b := h.posted.value;
            var o := Opening(nv, cfg, now);
            b == o + p.sent + Asking(|p.lazy|, nv, cfg, pathOrder).0
            && |o| > m && o[..m] == nv.mustSend && o[m] == Identify(cfg.name, cfg.offers, if m == 0 then cfg.version else None)
            && h.nv.firstHello == Asking(|p.lazy|, nv, cfg, pathOrder).1)
  {
    var o := Opening(nv, cfg, now);
    assert o[..|nv.mustSend|] == nv.mustSend;
  }

  /**
   * Lines 105 and 116-122: a failed transport keeps every done report for
   * the next hello, the new ones included; a reply clears them.
   */
  lemma GreetedKeeps(nv: NodeView, vs: seq<View>, rs: seq<PollResult>, cfg: NodeConfig, paths: map<string, string>,
                     pathOrder: seq<string>, now: real, reply: Option<seq<Commandment>>)
    requires |rs| <= |vs|
    ensures var h := Greeted(nv, vs, rs, cfg, paths, pathOrder, now, reply);
      var p := Polls(vs, rs);
      (p.failed.Some? ==> h.nv.mustSend == nv.mustSend + p.kept && h.result == Raise(p.failed.value))
      && (p.failed.None? && reply.None? ==>
            h.nv.mustSend == nv.mustSend + Dones(p.sent) && h.nv.errors == nv.errors && h.result == Ok(None))
      && (reply.Some? && p.failed.None? ==> h.nv.mustSend == [])
  {
    PollsKept(vs, rs);
  }

  /** Lines 101-102: the workers' messages are progress and done reports, never a task request. */
  lemma PolledSends(vs: seq<View>, rs: seq<PollResult>, now: real, output: nat -> Option<string>)
    requires Answers(vs, rs, now, output)
    ensures var p := Polls(vs, rs);
      p.failed.None? ==> forall r :: r in p.sent ==> r.Progress? || r.Finished?
  {
    var p := Polls(vs, rs);
    PollsSent(vs, rs);
    if p.failed.None? {
      forall r | r in p.sent ensures r.Progress? || r.Finished? {
        var k :| 0 <= k < |rs| && rs[k].0 == Ok(Some(r));
        assert rs[k] == Polled(vs[k], now, output(k));
        PolledFacts(vs[k], now, output(k));
      }
    }
  }

  // ---------------------------------------------------------------------------
  // The loop of run (lines 159-203)

  /** Real powers. */
  function Pow(x: real, n: nat): real
    decreases n
  {
    if n == 0 then 1.0 else x * Pow(x, n - 1)
  }

  /** Lines 175-179: the pause before adding the random arrhythmia. */
  function Backoff(b: Beat, errors: nat): real {
    if errors == 0 then b.heartbeat
    else
      var hb := b.heartbeat * Pow(b.errorScale, errors);
      if hb > b.hibernation then b.hibernation else hb
  }

  lemma {:induction false} PowGrows(x: real, n: nat)
    requires x >= 1.0
    ensures Pow(x, n) >= 1.0 && Pow(x, n + 1) >= Pow(x, n)
    decreases n
  {
    if n > 0 {
      PowGrows(x, n - 1);
    }
  }

  /**
   * Lines 175-179: without errors the pause is the heartbeat; after errors
   * it is the heartbeat times error_scale to the number of errors, capped
   * at the hibernation time, and with a scale of at least 1 and a
   * non-negative heartbeat it never shrinks as errors accumulate.
   */
  lemma BackoffFacts(b: Beat, errors: nat)
    ensures errors == 0 ==> Backoff(b, errors) == b.heartbeat
    ensures errors != 0 ==> Backoff(b, errors) <= b.hibernation
    ensures errors != 0 && b.heartbeat >= 0.0 && b.errorScale >= 1.0 ==>
      Backoff(b, errors) <= Backoff(b, errors + 1)
  {
    if errors != 0 && b.heartbeat >= 0.0 && b.errorScale >= 1.0 {
      PowGrows(b.errorScale, errors);
      var p := Pow(b.errorScale, errors);
      assert Pow(b.errorScale, errors + 1) == b.errorScale * p;
      assert b.heartbeat * p <= b.heartbeat * (b.errorScale * p);
    }
  }

  /** What `run` does after a hello: stop, or sleep awhile, waking early when a listed worker's process ends. */
  datatype Rest = Finish | Sleep(seconds: real, waitOn: seq<nat>)

  /** Lines 166-188 after the hello, with `u` the value of `random.random()`. */
  function Rested(h: Greeting, singleUse: bool, u: real): (Outcome<Rest>, NodeView) {
    match h.result
    case Raise(e) => (Raise(e), h.nv)
    case Ok(w) =>
      var nv := h.nv.(errors := if w.None? then h.nv.errors + 1 else 0);
      var waitOn := if w.None? then [] else w.value;
      var hb := Backoff(nv.beat, nv.errors) + nv.beat.arrhythmia * u;
      (Ok(if |waitOn| == 0 && singleUse then Finish else Sleep(hb, waitOn)), nv)
  }

  /**
   * Lines 166-188: a failed hello adds an error and a good one clears the
   * count; a single-use node stops exactly when there is nothing to wait on.
   */
  lemma RestedFacts(h: Greeting, singleUse: bool, u: real)
    requires h.result.Ok?
    ensures var (r, nv) := Rested(h, singleUse, u);
      r.Ok?
      && (h.result.value.None? ==> nv.errors == h.nv.errors + 1)
      && (h.result.value.Some? ==> nv.errors == 0)
      && (r.value == Finish <==> singleUse && (h.result.value.None? || |h.result.value.value| == 0))
      && (r.value.Sleep? ==>
            r.value.seconds == Backoff(nv.beat, nv.errors) + nv.beat.arrhythmia * u
            && r.value.waitOn == if h.result.value.None? then [] else h.result.value.value)
      && nv == h.nv.(errors := nv.errors)
  {
  }

  // ---------------------------------------------------------------------------
  // The node object

  /** The fields of the workers, in order. */
  function Views(ws: seq<Worker>): (r: seq<View>)
    reads ws
    ensures |r| == |ws| && forall k :: 0 <= k < |ws| ==> r[k] == ws[k].Snap()
  {
    seq(|ws|, k requires 0 <= k < |ws| reads ws => ws[k].Snap())
  }

  /** No worker appears twice. */
  predicate Apart(ws: seq<Worker>) {
    forall i, j :: 0 <= i < j < |ws| ==> ws[i] != ws[j]
  }

  class Node {
    const config: NodeConfig
    const paths: map<string, string>
    const pathOrder: seq<string>
    const workers: seq<Worker>
    var lastInfo: real
    var heartbeat: real
    var arrhythmia: real
    var errorScale: real
    var hibernation: real
    var memory: real
    var errors: nat
    var mustSend: seq<Request>
    var firstHello: bool

    /** The fields as a value. */
    function Snap(): NodeView
      reads this
    {
      NodeView(lastInfo, Beat(heartbeat, arrhythmia, errorScale, hibernation, memory), errors, mustSend, firstHello)
    }

    /** Lines 35-75, with the configuration, the path table and the workers' thread counts given. */
    constructor (config: NodeConfig, paths: map<string, string>, pathOrder: seq<string>, threads: seq<int>, now: real)
      ensures this.config == config && this.paths == paths && this.pathOrder == pathOrder
      ensures Snap() == Fresh()
      ensures Apart(workers) && |workers| == |threads|
      ensures forall k :: 0 <= k < |threads| ==> workers[k].Snap() == View(threads[k], NoProc, "", "", Single(0), now, false, "")
    {
      this.config := config;
      this.paths := paths;
      this.pathOrder := pathOrder;
      var ws: seq<Worker> := [];
      var i := 0;
      while i < |threads|
        invariant 0 <= i <= |threads| && |ws| == i && Apart(ws)
        invariant forall k :: 0 <= k < i ==> fresh(ws[k])
        invariant forall k :: 0 <= k < i ==> ws[k].Snap() == View(threads[k], NoProc, "", "", Single(0), now, false, "")
      {
        var w := new Worker(threads[i], now);
        ws := ws + [w];
        i := i + 1;
      }
      workers := ws;
      lastInfo := 0.0;
      heartbeat := 4.0;
      arrhythmia := 1.0;
      errorScale := 2.0;
      hibernation := 600.0;
      memory := 600.0;
      errors := 0;
      mustSend := [];
      firstHello := true;
    }

    /** Lines 78-81. */
    method ToLocalPath(path: string) returns (r: Outcome<string>)
      ensures r == ToLocal(paths, path)
    {
      var i := Find(path, "::");
      if i == -1 {
        return Raise(ValueError);
      }
      var head, tail := path[..i], path[i + 2..];
      if head !in paths {
        return Raise(KeyError);
      }
      return Ok(PathJoin(paths[head], tail));
    }

    /** Lines 100-108 for worker `i`: one more step of `Polls`. */
    method PollAt(i: nat, ghost vs: seq<View>, ghost rs0: seq<PollResult>, ghost base: seq<Request>,
                  now: real, output: nat -> Option<string>, sent0: seq<Request>, lazy0: seq<nat>, ghost kept0: seq<Request>)
      returns (sent: seq<Request>, lazy: seq<nat>, failed: Option<Error>, ghost kept: seq<Request>, ghost rs: seq<PollResult>)
      requires Apart(workers) && i == |rs0| < |workers| == |vs| && Answers(vs, rs0, now, output)
      requires Polls(vs, rs0) == Poll(Views(workers), sent0, kept0, lazy0, None) && mustSend == base + kept0
      modifies this`mustSend, workers
      ensures |rs| == i + 1 && Answers(vs, rs, now, output)
      ensures Polls(vs, rs) == Poll(Views(workers), sent, kept, lazy, failed)
      ensures mustSend == base + kept
    {
      sent, lazy, failed, kept := sent0, lazy0, None, kept0;
      var w := workers[i];
      ghost var before := Views(workers);
      var r := w.State(now, output(i));
      rs := rs0 + [(r, w.Snap())];
      assert rs[..i] == rs0;
      assert Answers(vs, rs, now, output) by {
        forall k | 0 <= k < |rs| ensures rs[k] == Polled(vs[k], now, output(k)) {
          if k < i {
            assert rs[k] == rs0[k];
          }
        }
      }
      assert Views(workers) == before[i := w.Snap()] by {
        forall k | 0 <= k < |workers| && k != i ensures workers[k].Snap() == before[k] {
          assert workers[k] != w;
        }
      }
      if r.Raise? {
        return sent, lazy, Some(r.error), kept, rs;
      }
      if r.value.Some? {
        sent := sent + [r.value.value];
        if r.value.value.Finished? {
          mustSend := mustSend + [r.value.value];
          kept := kept + [r.value.value];
        }
      }
      if !w.proc.Running? {
        lazy := lazy + [i];
      }
    }

    /**
     * Lines 99-108: poll every worker, in order, until one raises; `rs` is
     * what the polls gave and `kept` what is added to `must_send`.
     */
    method PollWorkers(now: real, output: nat -> Option<string>)
      returns (sent: seq<Request>, lazy: seq<nat>, failed: Option<Error>, ghost kept: seq<Request>, ghost rs: seq<PollResult>)
      requires Apart(workers)
      modifies this`mustSend, workers
      ensures PolledAll(old(Views(workers)), rs, now, output)
      ensures Polls(old(Views(workers)), rs) == Poll(Views(workers), sent, kept, lazy, failed)
      ensures mustSend == old(mustSend) + kept
    {
      ghost var vs := Views(workers);
      sent, lazy, failed, kept, rs := [], [], None, [], [];
      var i := 0;
      while i < |workers| && failed.None?
        invariant i == |rs| <= |workers| && Answers(vs, rs, now, output)
        invariant Polls(vs, rs) == Poll(Views(workers), sent, kept, lazy, failed)
        invariant mustSend == old(mustSend) + kept
        modifies this`mustSend, workers
      {
        sent, lazy, failed, kept, rs := PollAt(i, vs, rs, old(mustSend), now, output, sent, lazy, kept);
        i := i + 1;
      }
    }

    /** Lines 146-149: the kill goes to every worker. */
    method KillWorkers(uuid: string, frame: Frame)
      requires Apart(workers)
      modifies workers
      ensures Views(workers) == KillEvery(old(Views(workers)), uuid, frame)
    {
      ghost var vs := Views(workers);
      var i := 0;
      while i < |workers|
        invariant 0 <= i <= |workers|
        invariant forall k :: 0 <= k < i ==> workers[k].Snap() == Killed(vs[k], uuid, frame)
        invariant forall k :: i <= k < |workers| ==> workers[k].Snap() == vs[k]
        modifies workers
      {
        var w := workers[i];
        w.Kill(uuid, frame);
        assert forall k :: 0 <= k < |workers| && k != i ==> workers[k] != w;
        i := i + 1;
      }
    }

    /** Lines 129-149 for one commandment. */
    method ObeyCmd(c: Commandment, lazy0: seq<nat>, now: real) returns (lazy: seq<nat>, failed: Option<Error>)
      requires Apart(workers) && Indexes(lazy0, |workers|)
      modifies this`lastInfo, this`heartbeat, this`arrhythmia, this`errorScale, this`hibernation, this`memory, workers
      ensures var o := Obey(old(lastInfo), old(Snap().beat), old(Views(workers)), lazy0, None);
        ObeyOne(o, c, Starting(paths, config.setup, now), now) == Obey(lastInfo, Snap().beat, Views(workers), lazy, failed)
    {
      lazy, failed := lazy0, None;
      if c.InfoCmd? {
        lastInfo := now;
        heartbeat, arrhythmia, errorScale, hibernation, memory := c.heartbeat, c.arrhythmia, c.errorScale, c.hibernation, c.memory;
      } else if c.TaskCmd? {
        if |lazy| == 0 {
          return lazy, Some(IndexError);
        }
        var k := lazy[|lazy| - 1];
        lazy := lazy[..|lazy| - 1];
        var w := workers[k];
        ghost var before := Views(workers);
        var local := ToLocalPath(c.task.file);
        assert Starting(paths, config.setup, now)(before[k], c.task) == Started(before[k], c.task, local, config.setup, now);
        var r := w.Run(c.task, local, config.setup, now);
        assert Views(workers) == before[k := w.Snap()] by {
          forall j | 0 <= j < |workers| && j != k ensures workers[j].Snap() == before[j] {
            assert workers[j] != w;
          }
        }
        if r.Raise? {
          failed := Some(r.error);
        }
      } else {
        KillWorkers(c.uuid, c.frame);
      }
    }

    /** Lines 128-153: the commandments in order, stopping at the first exception. */
    method ObeyAll(cmds: seq<Commandment>, lazy0: seq<nat>, now: real) returns (lazy: seq<nat>, failed: Option<Error>)
      requires Apart(workers) && Indexes(lazy0, |workers|)
      modifies this`lastInfo, this`heartbeat, this`arrhythmia, this`errorScale, this`hibernation, this`memory, workers
      ensures var o := Obey(old(lastInfo), old(Snap().beat), old(Views(workers)), lazy0, None);
        Obeys(o, cmds, |cmds|, Starting(paths, config.setup, now), now) == Obey(lastInfo, Snap().beat, Views(workers), lazy, failed)
    {
      ghost var o := Obey(lastInfo, Snap().beat, Views(workers), lazy0, None);
      ghost var start := Starting(paths, config.setup, now);
      lazy, failed := lazy0, None;
      var i := 0;
      while i < |cmds|
        invariant 0 <= i <= |cmds| && Indexes(lazy, |workers|) && failed.None?
        invariant Obeys(o, cmds, i, start, now) == Obey(lastInfo, Snap().beat, Views(workers), lazy, None)
        modifies this`lastInfo, this`heartbeat, this`arrhythmia, this`errorScale, this`hibernation, this`memory, workers
      {
        ghost var p := Obey(lastInfo, Snap().beat, Views(workers), lazy, None);
        assert Obeys(o, cmds, i + 1, start, now) == ObeyOne(p, cmds[i], start, now);
        lazy, failed := ObeyCmd(cmds[i], lazy, now);
        if failed.Some? {
          ObeysStop(o, cmds, i + 1, |cmds|, start, now);
          return;
        }
        i := i + 1;
      }
    }

    /** Line 156. */
    method Waiting() returns (r: seq<nat>)
      ensures r == BusyOnes(Views(workers), |workers|)
    {
      r := [];
      var i := 0;
      while i < |workers|
        invariant 0 <= i <= |workers|
        invariant r == BusyOnes(Views(workers), i)
      {
        if workers[i].proc.Running? {
          r := r + [i];
        }
        i := i + 1;
      }
    }

    /** Lines 86-113: the batch, after polling every worker. */
    method Collect(now: real, output: nat -> Option<string>)
      returns (requests: seq<Request>, lazy: seq<nat>, failed: Option<Error>, ghost rs: seq<PollResult>)
      requires Apart(workers)
      modifies this`mustSend, this`firstHello, workers
      ensures PolledAll(old(Views(workers)), rs, now, output)
      ensures var (p, nv, batch) := Collected(old(Snap()), old(Views(workers)), rs, config, pathOrder, now);
        (Views(workers), lazy, failed, Snap(), requests) == (p.views, p.lazy, p.failed, nv, batch)
    {
      ghost var nv := Snap();
      ghost var vs := Views(workers);
      requests := mustSend + [Identify(config.name, config.offers, if |mustSend| == 0 then config.version else None)];
      if lastInfo < now - memory {
        requests := requests + [AskInfo];
      }
      assert requests == Opening(nv, config, now);
      ghost var kept;
      var sent;
      sent, lazy, failed, kept, rs := PollWorkers(now, output);
      if failed.Some? {
        return;
      }
      ghost var p := Polls(vs, rs);
      requests := requests + sent;
      if |lazy| != 0 && (firstHello || !config.singleUse) {
        firstHello := false;
        requests := requests + [AskTasks(|lazy|, pathOrder, config.offers)];
      }
      assert requests == Opening(nv, config, now) + p.sent + Asking(|p.lazy|, nv, config, pathOrder).0;
      assert firstHello == Asking(|p.lazy|, nv, config, pathOrder).1;
      assert Snap() == nv.(mustSend := nv.mustSend + p.kept, firstHello := firstHello);
    }

    /** Lines 84-156: one hello, posting the batch it returns and obeying `reply`. */
    method Hello(now: real, output: nat -> Option<string>, reply: Option<seq<Commandment>>)
      returns (r: Outcome<Option<seq<nat>>>, posted: Option<seq<Request>>, ghost rs: seq<PollResult>)
      requires Apart(workers)
      modifies this, workers
      ensures PolledAll(old(Views(workers)), rs, now, output)
      ensures Greeting(r, Snap(), Views(workers), posted)
        == Greeted(old(Snap()), old(Views(workers)), rs, config, paths, pathOrder, now, reply)
    {
      ghost var nv0, vs0 := Snap(), Views(workers);
      var requests, lazy, failed;
      requests, lazy, failed, rs := Collect(now, output);
      ghost var c := Collected(nv0, vs0, rs, config, pathOrder, now);
      ghost var g := Greeted(nv0, vs0, rs, config, paths, pathOrder, now, reply);
      assert Views(workers) == c.0.views && lazy == c.0.lazy && failed == c.0.failed && Snap() == c.1 && requests == c.2;
      if failed.Some? {
        assert g == Greeting(Raise(failed.value), Snap(), Views(workers), None);
        return Raise(failed.value), None, rs;
      }
      if reply.None? {
        assert g == Greeting(Ok(None), Snap(), Views(workers), Some(requests));
        return Ok(None), Some(requests), rs;
      }
      var r1 := Answer(reply.value, lazy, now);
      assert g == Greeting(r1, Snap(), Views(workers), Some(requests));
      return r1, Some(requests), rs;
    }

    /** Lines 114-156: obeying the commandments of a reply, then the workers to wait on. */
    method Answer(cmds: seq<Commandment>, lazy0: seq<nat>, now: real) returns (r: Outcome<Option<seq<nat>>>)
      requires Apart(workers) && Indexes(lazy0, |workers|)
      modifies this`mustSend, this`lastInfo, this`heartbeat, this`arrhythmia, this`errorScale, this`hibernation, this`memory, workers
      ensures var o := Obeys(Obey(old(lastInfo), old(Snap().beat), old(Views(workers)), lazy0, None), cmds, |cmds|, Starting(paths, config.setup, now), now);
        r == (if o.failed.Some? then Raise(o.failed.value) else Ok(Some(BusyOnes(o.views, |o.views|))))
        && Snap() == old(Snap()).(lastInfo := o.lastInfo, beat := o.beat, mustSend := []) && Views(workers) == o.views
    {
      mustSend := [];
      var lazy, failed := ObeyAll(cmds, lazy0, now);
      if failed.Some? {
        return Raise(failed.value);
      }
      var waiting := Waiting();
      return Ok(Some(waiting));
    }

    /** Lines 175-181: the pause before the next hello, with `u` the value of `random.random()`. */
    method Pause(u: real) returns (hb: real)
      ensures hb == Backoff(Snap().beat, errors) + arrhythmia * u
    {
      hb := heartbeat;
      if errors != 0 {
        hb := hb * Pow(errorScale, errors);
        if hb > hibernation {
          hb := hibernation;
        }
      }
      hb := hb + arrhythmia * u;
    }

    /** Lines 166-188 once the hello `h`, which returned `waitOn`, is over. */
    method Settle(waitOn: Outcome<Option<seq<nat>>>, ghost h: Greeting, u: real) returns (r: Outcome<Rest>)
      requires h.result == waitOn && h.nv == Snap()
      modifies this`errors
      ensures (r, Snap()) == Rested(h, config.singleUse, u)
    {
      if waitOn.Raise? {
        return Raise(waitOn.error);
      }
      var wait: seq<nat> := [];
      if waitOn.value.None? {
        errors := errors + 1;
      } else {
        wait := waitOn.value.value;
        errors := 0;
      }
      var hb := Pause(u);
      RestedFacts(h, config.singleUse, u);
      if |wait| == 0 && config.singleUse {
        return Ok(Finish);
      }
      assert Rested(h, config.singleUse, u).0.value == Sleep(hb, wait);
      return Ok(Sleep(hb, wait));
    }

    /** Lines 165-188: one pass of `run`'s loop, with `u` the value of `random.random()`. */
    method Cycle(now: real, output: nat -> Option<string>, reply: Option<seq<Commandment>>, u: real)
      returns (r: Outcome<Rest>, posted: Option<seq<Request>>, ghost rs: seq<PollResult>)
      requires Apart(workers)
      modifies this, workers
      ensures PolledAll(old(Views(workers)), rs, now, output)
      ensures var h := Greeted(old(Snap()), old(Views(workers)), rs, config, paths, pathOrder, now, reply);
        (r, Snap()) == Rested(h, config.singleUse, u) && Views(workers) == h.views && posted == h.posted
    {
      var waitOn;
      waitOn, posted, rs := Hello(now, output, reply);
      r := Settle(waitOn, Greeting(waitOn, Snap(), Views(workers), posted), u);
    }
  }
}
