/**
 * The farm endpoint (bin/farm.py): a node posts a list of requests, the
 * server works through them in order against the scheduler and answers with
 * the list of commandments they produced.  An unknown request id answers
 * 418 and abandons the rest, keeping what the earlier requests changed.
 *
 * The batch is specified by `Run`, a fold of `Step` over the requests on a
 * snapshot of the scheduler (`State`); `Serve` does the same work through
 * the `Jobs.Scheduler` methods and is proved to end in the state and answer
 * `Run` gives.
 */
module Farm {
  import opened Py
  import opened Lists
  import opened Jobs

  /** The configuration values the endpoint reads (all through `float()`). */
  datatype Settings = Settings(heartbeat: real, hibernation: real, rateControl: real,
                               arrhythmia: real, errorScale: real, memory: real)

  /** One entry of the posted list, by its 'id'. */
  datatype Request =
    | Identify(name: string, offers: seq<string>, version: Option<string>)
    | AskInfo
    | AskTasks(count: int, paths: seq<string>, offers: seq<string>)
    | Progress(uuid: string, frame: Frame, done: int, total: int)
    | Finished(uuid: string, frame: Frame, time: real)
    | Unrecognised(id: string)

  /** One entry of the returned list. */
  datatype Commandment =
    | InfoCmd(heartbeat: real, arrhythmia: real, errorScale: real, hibernation: real, memory: real)
    | TaskCmd(task: Task)
    | KillCmd(uuid: string, frame: Frame)

  /** The HTTP outcome: 418, the JSON list, or an exception out of the handler. */
  datatype Answer = Teapot | Commandments(list: seq<Commandment>) | Failed(error: Error)

  /** The scheduler's mutable state, as a value. */
  datatype State = State(jobs: map<string, Stored<Job>>, jobOrder: seq<string>,
                         nodes: map<string, Stored<NodeRec>>, nodeOrder: seq<string>,
                         rates: map<string, real>, init: real)

  /** What stays true of the rates between requests, and what `task_select` needs. */
  ghost predicate Sound(st: State) {
    st.init > 0.0 && PositiveRates(st.rates)
  }

  /**
   * What does not change during a batch: the scheduler configuration, the
   * endpoint's settings, the clock, the project priorities and the uniform
   * draws, indexed by how many `task_select` calls came before.
   */
  datatype Env = Env(cfg: Config, settings: Settings, now: real,
                     priority: string -> real, draws: nat -> (real, real))

  /** The loop variables of `app`: the state, `name`, `node_state`, `commandments`, and the draws used. */
  datatype Cursor = Cursor(st: State, name: Option<string>, nodeState: Option<NodeRec>,
                           out: seq<Commandment>, used: nat)

  /** After one request: go on, or stop with an answer. */
  datatype Next = Continue(cursor: Cursor) | Stop(answer: Answer, st: State) {
    function After(): State {
      match this
      case Continue(c) => c.st
      case Stop(_, st) => st
    }
  }

  function Start(st: State): Cursor {
    Cursor(st, None, None, [], 0)
  }

  /** `name` where no identity came first is None; the scheduler records it as the empty ident. */
  function Ident(name: Option<string>): string {
    if name.Some? then name.value else ""
  }

  // ---------------------------------------------------------------------------
  // The steps

  /** Lines 39-41: `report` on the state. */
  function Reported(st: State, cfg: Config, ident: string, offered: seq<string>, version: Option<string>, now: real): (r: State)
    requires cfg.Valid() && Sound(st)
    ensures Sound(r)
    ensures r.jobs == st.jobs && r.jobOrder == st.jobOrder
    ensures ident + ".json" in r.nodes && r.nodes[ident + ".json"].Decoded?
    ensures forall n :: n in st.nodes ==> n in r.nodes
  {
    var fn := ident + ".json";
    RatesStayPositive(st.rates, st.init, offered, cfg);
    ShrinkPositive(st.init, cfg.requireShrink);
    st.(nodes := st.nodes[fn := Decoded(Sighted(Lookup(st.nodes, fn), ident, offered, version, now))],
        nodeOrder := if fn in st.nodes then st.nodeOrder else st.nodeOrder + [fn],
        rates := UpdateRates(st.rates, st.init, offered, cfg),
        init := Shrink(st.init, cfg.requireShrink))
  }

  /** Lines 49-50: `iternodes` run to the end deletes the stale node files. */
  function Swept(st: State, cfg: Config, now: real): State {
    var gone := StaleNames(st.nodeOrder, st.nodes, NodeCutoff(cfg, now));
    st.(nodes := Forgotten(st.nodes, gone), nodeOrder := Purged(st.nodeOrder, gone))
  }

  /** Lines 48-53: the yielded records seen no earlier than `tooOld`. */
  function CountSeen(live: seq<NodeRec>, tooOld: real): (c: nat)
    ensures c <= |live|
    decreases |live|
  {
    if |live| == 0 then 0
    else CountSeen(live[..|live| - 1], tooOld) + (if live[|live| - 1].seen < tooOld then 0 else 1)
  }

  /** The same count taken over the nodes directory: the records `iternodes` yields and line 51 keeps. */
  function Recent(order: seq<string>, nodes: map<string, Stored<NodeRec>>, cutoff: real, tooOld: real): (c: nat)
    ensures c <= |order|
    decreases |order|
  {
    if |order| == 0 then 0
    else
      var n := order[|order| - 1];
      Recent(order[..|order| - 1], nodes, cutoff, tooOld)
        + (if NodeFile(n, nodes) && nodes[n].value.seen > cutoff && !(nodes[n].value.seen < tooOld) then 1 else 0)
  }

  /** Counting the yielded records is counting over the directory. */
  lemma {:induction false} CountSeenLive(order: seq<string>, nodes: map<string, Stored<NodeRec>>, cutoff: real, tooOld: real)
    ensures CountSeen(LiveNodes(order, nodes, cutoff), tooOld) == Recent(order, nodes, cutoff, tooOld)
    decreases |order|
  {
    if |order| > 0 {
      var front := order[..|order| - 1];
      var n := order[|order| - 1];
      var rest := LiveNodes(front, nodes, cutoff);
      CountSeenLive(front, nodes, cutoff, tooOld);
      if NodeFile(n, nodes) && nodes[n].value.seen > cutoff {
        assert (rest + [nodes[n].value])[..|rest|] == rest;
      }
    }
  }

  /** Lines 55-59: the node's heartbeat, min(hibernation, max(heartbeat, rah)). */
  function Beat(heartbeat: real, hibernation: real, rah: real): (r: real)
    ensures r <= hibernation
    ensures r <= heartbeat || r <= rah
    ensures r == hibernation || (r >= heartbeat && r >= rah)
  {
    var raised := if heartbeat < rah then rah else heartbeat;
    if raised > hibernation then hibernation else raised
  }

  /** Lines 55-62: the info entry for `count` recent nodes, on the swept state. */
  function Heard(c: Cursor, st: State, count: nat, conf: Settings): Next {
    if conf.rateControl == 0.0 then Stop(Failed(ZeroDivisionError), st)
    else
      var hb := Beat(conf.heartbeat, conf.hibernation, count as real / conf.rateControl);
      Continue(c.(st := st, out := c.out + [InfoCmd(hb, conf.arrhythmia, conf.errorScale, conf.hibernation, conf.memory)]))
  }

  /** Lines 43-62. */
  function Informed(c: Cursor, e: Env): Next {
    Heard(c, Swept(c.st, e.cfg, e.now),
          Recent(c.st.nodeOrder, c.st.nodes, NodeCutoff(e.cfg, e.now), e.now - e.cfg.timeout), e.settings)
  }

  /** Lines 65-67: `node_state`, read from the node's file when not yet known. */
  function NodeState(c: Cursor): Outcome<Option<NodeRec>> {
    if c.nodeState.None? && c.name.Some? then
      var fn := c.name.value + ".json";
      if fn !in c.st.nodes then Raise(KeyError)
      else match c.st.nodes[fn]
        case Decoded(n) => Ok(Some(n))
        case Undecodable => Ok(None)
    else Ok(c.nodeState)
  }

  /**
   * One `task_select` call with the next pair of draws: its reply and the
   * state it leaves.  The rates are always positive between requests
   * (`StepSound`); without that the weights could not be formed, and the
   * call is taken to fail the way a zero rate would.
   */
  ghost function Choice(c: Cursor, paths: seq<string>, offered: seq<string>, e: Env): (r: (Outcome<Option<Task>>, State))
    ensures r.1 == c.st.(jobs := r.1.jobs)
  {
    if e.cfg.Valid() && Sound(c.st) then
      var u := e.draws(c.used);
      var sel := Select(c.st.jobOrder, c.st.jobs, c.st.rates, e.cfg, Ident(c.name), paths, offered, e.now, e.priority, u.0, u.1);
      (Reply(sel), c.st.(jobs := Written(c.st.jobs, sel)))
    else (Raise(ZeroDivisionError), c.st)
  }

  /** Lines 70-76: up to `n` calls of `pick`, stopping at the first None. */
  function Deals(c: Cursor, n: int, pick: Cursor -> (Outcome<Option<Task>>, State)): Next
    decreases n
  {
    if n <= 0 then Continue(c)
    else
      var (r, st) := pick(c);
      var c' := c.(st := st, used := c.used + 1);
      match r
      case Raise(err) => Stop(Failed(err), st)
      case Ok(None) => Continue(c')
      case Ok(Some(t)) => Deals(c'.(out := c'.out + [TaskCmd(t)]), n - 1, pick)
  }

  /** The task loop with `task_select` as the pick. */
  ghost function Dealt(c: Cursor, n: int, paths: seq<string>, offered: seq<string>, e: Env): Next {
    Deals(c, n, d => Choice(d, paths, offered, e))
  }

  /** Lines 64-76. */
  ghost function Tasked(c: Cursor, count: int, paths: seq<string>, offered: seq<string>, e: Env): Next
    requires e.cfg.Valid() && Sound(c.st)
  {
    match NodeState(c)
    case Raise(err) => Stop(Failed(err), c.st)
    case Ok(ns) =>
      var c' := c.(nodeState := ns);
      if ns.Some? && ns.value.paused then Continue(c')
      else Dealt(c', count, paths, offered, e)
  }

  /** Lines 78-80. */
  function Reporting(c: Cursor, uuid: string, frame: Frame, done: int, e: Env): Next {
    var (alive, jobs) := AliveAt(c.st.jobs, Ident(c.name), uuid, frame, done, e.now);
    var c' := c.(st := c.st.(jobs := jobs));
    match alive
    case Raise(err) => Stop(Failed(err), c'.st)
    case Ok(true) => Continue(c')
    case Ok(false) => Continue(c'.(out := c'.out + [KillCmd(uuid, frame)]))
  }

  /** Lines 82-83. */
  function Finishing(c: Cursor, uuid: string, frame: Frame, t: real): Next {
    var (ok, jobs) := DoneAt(c.st.jobs, uuid, frame, t);
    if ok.Raise? then Stop(Failed(ok.error), c.st.(jobs := jobs))
    else Continue(c.(st := c.st.(jobs := jobs)))
  }

  /** Lines 37-87: one pass of the loop. */
  ghost function Step(c: Cursor, r: Request, e: Env): (n: Next)
    requires e.cfg.Valid() && Sound(c.st)
  {
    match r
    case Identify(name, offers, version) =>
      Continue(c.(st := Reported(c.st, e.cfg, name, offers, version, e.now), name := Some(name)))
    case AskInfo => Informed(c, e)
    case AskTasks(count, paths, offers) => Tasked(c, count, paths, offers, e)
    case Progress(uuid, frame, done, _) => Reporting(c, uuid, frame, done, e)
    case Finished(uuid, frame, t) => Finishing(c, uuid, frame, t)
    case Unrecognised(_) => Stop(Teapot, c.st)
  }

  /** A pick that changes only the jobs leaves the rest of the state as it was. */
  lemma {:induction false} DealsKeeps(c: Cursor, n: int, pick: Cursor -> (Outcome<Option<Task>>, State))
    requires forall d :: pick(d).1 == d.st.(jobs := pick(d).1.jobs)
    ensures Deals(c, n, pick).After() == c.st.(jobs := Deals(c, n, pick).After().jobs)
    decreases n
  {
    if n > 0 {
      var (r, st) := pick(c);
      if r.Ok? && r.value.Some? {
        DealsKeeps(c.(st := st, used := c.used + 1, out := c.out + [TaskCmd(r.value.value)]), n - 1, pick);
      }
    }
  }

  /** The rates stay positive however a dealing ends. */
  lemma DealtSound(c: Cursor, n: int, paths: seq<string>, offered: seq<string>, e: Env)
    requires Sound(c.st)
    ensures Sound(Dealt(c, n, paths, offered, e).After())
  {
    var pick := d => Choice(d, paths, offered, e);
    forall d ensures pick(d).1 == d.st.(jobs := pick(d).1.jobs) {
      assert pick(d) == Choice(d, paths, offered, e);
    }
    DealsKeeps(c, n, pick);
  }

  /** Every step leaves the rates positive, so the next one may select. */
  lemma StepSound(c: Cursor, r: Request, e: Env)
    requires e.cfg.Valid() && Sound(c.st)
    ensures Sound(Step(c, r, e).After())
  {
    if r.AskTasks? {
      match NodeState(c)
      case Raise(_) =>
      case Ok(ns) =>
        if !(ns.Some? && ns.value.paused) {
          DealtSound(c.(nodeState := ns), r.count, r.paths, r.offers, e);
        }
    }
  }

  /** Lines 36-87: the loop over the requests. */
  ghost function Run(c: Cursor, reqs: seq<Request>, e: Env): Next
    requires e.cfg.Valid() && Sound(c.st)
    decreases |reqs|
  {
    if |reqs| == 0 then Continue(c)
    else
      StepSound(c, reqs[0], e);
      match Step(c, reqs[0], e)
      case Stop(a, st) => Stop(a, st)
      case Continue(c') => Run(c', reqs[1..], e)
  }

  /** Lines 21-91: the answer and the state the scheduler is left in. */
  ghost function App(body: Option<seq<Request>>, st: State, e: Env): (Answer, State)
    requires e.cfg.Valid() && Sound(st)
  {
    match body
    case None => (Teapot, st)
    case Some(reqs) =>
      match Run(Start(st), reqs, e)
      case Stop(a, st') => (a, st')
      case Continue(c) => (Commandments(c.out), c.st)
  }

  // ---------------------------------------------------------------------------
  // What the batch promises

  /** Running two lists one after the other is running their concatenation. */
  lemma {:induction false} RunAppend(c: Cursor, pre: seq<Request>, post: seq<Request>, e: Env)
    requires e.cfg.Valid() && Sound(c.st)
    ensures Run(c, pre, e).Continue? ==> Sound(Run(c, pre, e).cursor.st)
    ensures Run(c, pre + post, e) ==
      match Run(c, pre, e)
      case Stop(a, st) => Stop(a, st)
      case Continue(c') => Run(c', post, e)
    decreases |pre|
  {
    if |pre| > 0 {
      assert (pre + post)[0] == pre[0];
      assert (pre + post)[1..] == pre[1..] + post;
      StepSound(c, pre[0], e);
      if Step(c, pre[0], e).Continue? {
        RunAppend(Step(c, pre[0], e).cursor, pre[1..], post, e);
      }
    } else {
      assert pre + post == post;
    }
  }

  /**
   * Lines 85-87: an unrecognised id answers 418 and ignores the requests
   * after it; what the requests before it did to the scheduler is kept.
   */
  lemma UnknownStops(st: State, pre: seq<Request>, id: string, post: seq<Request>, e: Env)
    requires e.cfg.Valid() && Sound(st)
    requires Run(Start(st), pre, e).Continue?
    ensures App(Some(pre + [Unrecognised(id)] + post), st, e) == (Teapot, Run(Start(st), pre, e).cursor.st)
  {
    assert pre + [Unrecognised(id)] + post == pre + ([Unrecognised(id)] + post);
    RunAppend(Start(st), pre, [Unrecognised(id)] + post, e);
  }

  /** The name the last identity entry gave, if any. */
  function LastName(name: Option<string>, reqs: seq<Request>): Option<string>
    decreases |reqs|
  {
    if |reqs| == 0 then name
    else LastName(if reqs[0].Identify? then Some(reqs[0].name) else name, reqs[1..])
  }

  /** A dealing appends at most `n` tasks and nothing else. */
  lemma {:induction false} DealsAppends(c: Cursor, n: int, pick: Cursor -> (Outcome<Option<Task>>, State))
    ensures var d := Deals(c, n, pick);
      d.Continue? ==>
        d.cursor.name == c.name && d.cursor.nodeState == c.nodeState
        && c.out <= d.cursor.out && |d.cursor.out| <= |c.out| + (if n < 0 then 0 else n)
        && forall k :: |c.out| <= k < |d.cursor.out| ==> d.cursor.out[k].TaskCmd?
    decreases n
  {
    if n > 0 {
      var (r, st) := pick(c);
      if r.Ok? && r.value.Some? {
        DealsAppends(c.(st := st, used := c.used + 1, out := c.out + [TaskCmd(r.value.value)]), n - 1, pick);
      }
    }
  }

  /**
   * What each kind of request adds to the commandments: identity and done
   * add nothing, info adds one info entry, a task request adds at most
   * `count` tasks and none for a paused node, a report adds a kill exactly
   * when `task_alive` answers False.  Only identity changes `name`.
   */
  lemma StepAppends(c: Cursor, r: Request, e: Env)
    requires e.cfg.Valid() && Sound(c.st)
    ensures var n := Step(c, r, e);
      n.Continue? ==>
        c.out <= n.cursor.out
        && n.cursor.name == (if r.Identify? then Some(r.name) else c.name)
        && ((r.Identify? || r.Finished?) ==> n.cursor.out == c.out)
        && (r.AskInfo? ==> |n.cursor.out| == |c.out| + 1 && n.cursor.out[|c.out|].InfoCmd?)
        && (r.AskTasks? ==>
              |n.cursor.out| <= |c.out| + (if r.count < 0 then 0 else r.count)
              && (forall k :: |c.out| <= k < |n.cursor.out| ==> n.cursor.out[k].TaskCmd?)
              && (NodeState(c).Ok? && NodeState(c).value.Some? && NodeState(c).value.value.paused ==> n.cursor.out == c.out))
        && (r.Progress? ==>
              ((n.cursor.out == c.out + [KillCmd(r.uuid, r.frame)])
               <==> (AliveAt(c.st.jobs, Ident(c.name), r.uuid, r.frame, r.done, e.now).0 == Ok(false)))
              && (n.cursor.out == c.out || n.cursor.out == c.out + [KillCmd(r.uuid, r.frame)]))
  {
    if r.AskTasks? {
      match NodeState(c)
      case Raise(_) =>
      case Ok(ns) =>
        if !(ns.Some? && ns.value.paused) {
          DealsAppends(c.(nodeState := ns), r.count, d => Choice(d, r.paths, r.offers, e));
        }
    }
  }

  /**
   * A node is told to stop rendering a frame exactly when its job is gone or
   * another node has taken the frame over.
   */
  lemma KillIff(c: Cursor, uuid: string, frame: Frame, done: int, total: int, e: Env)
    requires e.cfg.Valid() && Sound(c.st)
    ensures var n := Step(c, Progress(uuid, frame, done, total), e);
      var fn := uuid + ".json";
      (n.Continue? && n.cursor.out == c.out + [KillCmd(uuid, frame)])
        <==> fn !in c.st.jobs || (c.st.jobs[fn].Decoded? && OwnedByOther(c.st.jobs[fn].value, Ident(c.name), frame))
  {
    AliveAtFalseIff(c.st.jobs, Ident(c.name), uuid, frame, done, e.now);
    StepAppends(c, Progress(uuid, frame, done, total), e);
  }

  /**
   * Over a whole batch the commandments only grow, in request order, and the
   * name in force is the one the last identity entry gave.
   */
  lemma {:induction false} RunAppends(c: Cursor, reqs: seq<Request>, e: Env)
    requires e.cfg.Valid() && Sound(c.st)
    ensures Run(c, reqs, e).Continue? ==>
      c.out <= Run(c, reqs, e).cursor.out && Run(c, reqs, e).cursor.name == LastName(c.name, reqs)
    decreases |reqs|
  {
    if |reqs| > 0 {
      StepAppends(c, reqs[0], e);
      StepSound(c, reqs[0], e);
      if Step(c, reqs[0], e).Continue? {
        RunAppends(Step(c, reqs[0], e).cursor, reqs[1..], e);
      }
    }
  }

  /** Yielded records all seen since `tooOld` are all counted. */
  lemma {:induction false} CountSeenAll(live: seq<NodeRec>, tooOld: real)
    requires forall k :: 0 <= k < |live| ==> live[k].seen >= tooOld
    ensures CountSeen(live, tooOld) == |live|
    decreases |live|
  {
    if |live| > 0 {
      CountSeenAll(live[..|live| - 1], tooOld);
    }
  }

  /**
   * Without the overdue display the cut-off of `iternodes` is the same
   * timeout, so the info count is the number of live nodes yielded.
   */
  lemma InfoCountsLive(st: State, e: Env)
    requires !e.cfg.showOverdue
    ensures Recent(st.nodeOrder, st.nodes, NodeCutoff(e.cfg, e.now), e.now - e.cfg.timeout)
      == |LiveNodes(st.nodeOrder, st.nodes, NodeCutoff(e.cfg, e.now))|
  {
    CountSeenAll(LiveNodes(st.nodeOrder, st.nodes, NodeCutoff(e.cfg, e.now)), e.now - e.cfg.timeout);
    CountSeenLive(st.nodeOrder, st.nodes, NodeCutoff(e.cfg, e.now), e.now - e.cfg.timeout);
  }

  // ---------------------------------------------------------------------------
  // The handler over the scheduler object

  /** The scheduler's invariant. */
  ghost predicate Ready(s: Scheduler)
    reads s
  {
    s.Valid()
  }

  function Snap(s: Scheduler): State
    reads s
  {
    State(s.jobs, s.jobOrder, s.nodes, s.nodeOrder, s.requireRate, s.requireInit)
  }

  /** Lines 48-53: the loop counting the yielded records. */
  method CountLive(live: seq<NodeRec>, tooOld: real) returns (count: nat)
    ensures count == CountSeen(live, tooOld)
  {
    count := 0;
    var i := 0;
    while i < |live|
      invariant 0 <= i <= |live|
      invariant count == CountSeen(live[..i], tooOld)
    {
      assert live[..i + 1][..i] == live[..i];
      if !(live[i].seen < tooOld) {
        count := count + 1;
      }
      i := i + 1;
    }
    assert live[..i] == live;
  }

  /** Line 71 on the scheduler: one `task_select` with the next draws. */
  method Select1(s: Scheduler, c: Cursor, paths: seq<string>, offered: seq<string>, e: Env) returns (t: Outcome<Option<Task>>)
    requires Ready(s) && Snap(s) == c.st && e.cfg == s.cfg
    modifies s
    ensures Ready(s) && (t, Snap(s)) == Choice(c, paths, offered, e)
  {
    var u := e.draws(c.used);
    t := s.TaskSelect(Ident(c.name), paths, offered, e.now, e.priority, u.0, u.1);
  }

  /** Lines 70-76 on the scheduler. */
  method Deal(s: Scheduler, c: Cursor, n: int, paths: seq<string>, offered: seq<string>, e: Env) returns (next: Next)
    requires Ready(s) && Snap(s) == c.st && e.cfg == s.cfg
    modifies s
    ensures Ready(s) && next == Dealt(c, n, paths, offered, e) && Snap(s) == next.After()
  {
    ghost var pick := d => Choice(d, paths, offered, e);
    var cur := c;
    var left := n;
    while left > 0
      invariant Ready(s) && Snap(s) == cur.st
      invariant Deals(c, n, pick) == Deals(cur, left, pick)
      decreases left
    {
      ghost var before := cur;
      var t := Select1(s, cur, paths, offered, e);
      assert pick(before) == (t, Snap(s));
      cur := cur.(st := Snap(s), used := cur.used + 1);
      if t.Raise? {
        return Stop(Failed(t.error), cur.st);
      }
      if t.value.None? {
        return Continue(cur);
      }
      cur := cur.(out := cur.out + [TaskCmd(t.value.value)]);
      left := left - 1;
    }
    return Continue(cur);
  }

  /** Line 49 on the scheduler: `iternodes` run to the end. */
  method Sweep(s: Scheduler, st: State, e: Env) returns (live: seq<NodeRec>)
    requires Ready(s) && Snap(s) == st && e.cfg == s.cfg
    modifies s
    ensures Ready(s) && Snap(s) == Swept(st, e.cfg, e.now)
    ensures live == LiveNodes(st.nodeOrder, st.nodes, NodeCutoff(e.cfg, e.now))
  {
    live := s.IterNodes(e.now);
  }

  /** Lines 47-53 on the scheduler: run `iternodes` and count the recent records. */
  method Census(s: Scheduler, st: State, e: Env) returns (count: nat)
    requires Ready(s) && Snap(s) == st && e.cfg == s.cfg
    modifies s
    ensures Ready(s) && Snap(s) == Swept(st, e.cfg, e.now)
    ensures count == Recent(st.nodeOrder, st.nodes, NodeCutoff(e.cfg, e.now), e.now - e.cfg.timeout)
  {
    var live := Sweep(s, st, e);
    count := CountLive(live, e.now - e.cfg.timeout);
    CountSeenLive(st.nodeOrder, st.nodes, NodeCutoff(e.cfg, e.now), e.now - e.cfg.timeout);
  }

  /** Lines 43-62 on the scheduler. */
  method Inform(s: Scheduler, c: Cursor, e: Env) returns (next: Next)
    requires Ready(s) && Snap(s) == c.st && e.cfg == s.cfg
    modifies s
    ensures Ready(s) && next == Informed(c, e) && Snap(s) == next.After()
  {
    ghost var swept := Swept(c.st, e.cfg, e.now);
    ghost var recent := Recent(c.st.nodeOrder, c.st.nodes, NodeCutoff(e.cfg, e.now), e.now - e.cfg.timeout);
    assert Informed(c, e) == Heard(c, swept, recent, e.settings);
    var count := Census(s, c.st, e);
    next := Heard(c, Snap(s), count, e.settings);
  }

  /** Lines 37-87 on the scheduler: one request. */
  method Handle(s: Scheduler, c: Cursor, r: Request, e: Env) returns (next: Next)
    requires Ready(s) && Snap(s) == c.st && e.cfg == s.cfg
    modifies s
    ensures Ready(s) && next == Step(c, r, e) && Snap(s) == next.After()
  {
    match r
    case Identify(name, offers, version) =>
      s.Report(name, offers, version, e.now);
      next := Continue(c.(st := Snap(s), name := Some(name)));
    case AskInfo =>
      next := Inform(s, c, e);
    case AskTasks(count, paths, offers) =>
      var ns := c.nodeState;
      if ns.None? && c.name.Some? {
        var fn := c.name.value + ".json";
        if fn !in s.nodes {
          return Stop(Failed(KeyError), c.st);
        }
        ns := if s.nodes[fn].Decoded? then Some(s.nodes[fn].value) else None;
      }
      var c' := c.(nodeState := ns);
      if ns.Some? && ns.value.paused {
        next := Continue(c');
      } else {
        next := Deal(s, c', count, paths, offers, e);
      }
    case Progress(uuid, frame, done, _) =>
      var alive := s.TaskAlive(Ident(c.name), uuid, frame, done, e.now);
      var c' := c.(st := Snap(s));
      if alive.Raise? {
        next := Stop(Failed(alive.error), c'.st);
      } else if alive.value {
        next := Continue(c');
      } else {
        next := Continue(c'.(out := c'.out + [KillCmd(uuid, frame)]));
      }
    case Finished(uuid, frame, t) =>
      var ok, _ := s.TaskDone(uuid, frame, t);
      if ok.Raise? {
        next := Stop(Failed(ok.error), Snap(s));
      } else {
        next := Continue(c.(st := Snap(s)));
      }
    case Unrecognised(_) =>
      next := Stop(Teapot, c.st);
  }

  /**
   * Lines 21-91: the handler.  `body` is the decoded post, None when it is
   * not a list; the answer and the scheduler's new state are those of `App`.
   */
  method Serve(s: Scheduler, body: Option<seq<Request>>, settings: Settings, now: real,
               priority: string -> real, draws: nat -> (real, real)) returns (a: Answer)
    requires s.Valid()
    modifies s
    ensures s.Valid()
    ensures (a, Snap(s)) == App(body, old(Snap(s)), Env(s.cfg, settings, now, priority, draws))
  {
    var e := Env(s.cfg, settings, now, priority, draws);
    if body.None? {
      return Teapot;
    }
    var reqs := body.value;
    var c := Start(Snap(s));
    var i := 0;
    while i < |reqs|
      invariant 0 <= i <= |reqs|
      invariant Ready(s) && Snap(s) == c.st
      invariant Run(Start(old(Snap(s))), reqs, e) == Run(c, reqs[i..], e)
    {
      assert reqs[i..][0] == reqs[i] && reqs[i..][1..] == reqs[i + 1..];
      var next := Handle(s, c, reqs[i], e);
      if next.Stop? {
        return next.answer;
      }
      c := next.cursor;
      i := i + 1;
    }
    return Commandments(c.out);
  }
}
