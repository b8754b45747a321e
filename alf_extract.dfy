/**
 * The walk over a parsed Alfred script, bin/prman_AlfParser.py lines 9-13
 * and 217-264: the texture commands of the 'Job Textures' tasks, the
 * commands of each frame keyed by its number, and the frame numbers.
 *
 * Each loop of the source is a method proved equal to a function that
 * folds over a prefix of the same sequence, and the properties the source
 * promises are lemmas about those functions.
 */
module AlfExtract {
  import opened Py
  import opened Alf

  // ---------------------------------------------------------------------------
  // Reading items

  /** `e[key]`: KeyError for a missing key, TypeError on a one-character string. */
  function Get(e: Elem, key: string): (r: Outcome<Value>)
    ensures r.Ok? <==> e.Entry? && key in e.d
    ensures r.Ok? ==> r.value == e.d[key]
    ensures r.Raise? ==> r.error == if e.Entry? then KeyError else TypeError
  {
    match e
    case Char(_) => Raise(TypeError)
    case Entry(d) => if key in d then Ok(d[key]) else Raise(KeyError)
  }

  /** A `for` loop over a value: the characters of a text, the items of a list; None is not iterable. */
  function Elements(v: Value): (r: Outcome<seq<Elem>>)
    ensures v.Null? <==> r.Raise?
    ensures r.Raise? ==> r.error == TypeError
    ensures v.Text? ==> |r.value| == |v.s| && forall i :: 0 <= i < |v.s| ==> r.value[i] == Char(v.s[i])
    ensures v.Items? ==> |r.value| == |v.list| && forall i :: 0 <= i < |v.list| ==> r.value[i] == Entry(v.list[i])
  {
    match v
    case Text(s) => Ok(seq(|s|, i requires 0 <= i < |s| => Char(s[i])))
    case Items(l) => Ok(seq(|l|, i requires 0 <= i < |l| => Entry(l[i])))
    case Null => Raise(TypeError)
  }

  /** `for t in e['subtasks']`: what the loop visits, or why it cannot start. */
  function SubtasksOf(e: Elem): Outcome<seq<Elem>> {
    match Get(e, "subtasks")
    case Raise(err) => Raise(err)
    case Ok(v) => Elements(v)
  }

  /**
   * Lines 226-230 and 238-242: `for c in t['cmds']` inside a `try`; any
   * exception leaves nothing gathered.
   */
  function CmdsOf(e: Elem): seq<Elem> {
    match Get(e, "cmds")
    case Raise(_) => []
    case Ok(v) => if v.Null? then [] else Elements(v).value
  }

  /** What `f` yields for each of `es`, one after another. */
  function Gather(es: seq<Elem>, f: Elem -> seq<Elem>): seq<Elem> {
    if |es| == 0 then [] else Gather(es[..|es| - 1], f) + f(es[|es| - 1])
  }

  /** Gathering keeps the order of the elements. */
  lemma {:induction false} GatherAppend(es: seq<Elem>, fs: seq<Elem>, f: Elem -> seq<Elem>)
    ensures Gather(es + fs, f) == Gather(es, f) + Gather(fs, f)
    decreases |fs|
  {
    if |fs| == 0 {
      assert es + fs == es;
    } else {
      var gs := fs[..|fs| - 1];
      var all := es + fs;
      assert all[..|all| - 1] == es + gs;
      assert all[|all| - 1] == fs[|fs| - 1];
      assert Gather(all, f) == Gather(es + gs, f) + f(fs[|fs| - 1]);
      GatherAppend(es, gs, f);
    }
  }

  /** Something is gathered exactly when it comes from one of the elements. */
  lemma {:induction false} GatherHas(es: seq<Elem>, f: Elem -> seq<Elem>, x: Elem)
    ensures x in Gather(es, f) <==> exists i :: 0 <= i < |es| && x in f(es[i])
  {
    if |es| > 0 {
      var n := |es| - 1;
      var front := es[..n];
      GatherHas(front, f, x);
      if x in Gather(front, f) {
        var i :| 0 <= i < n && x in f(front[i]);
        assert es[i] == front[i];
      }
      if exists i :: 0 <= i < |es| && x in f(es[i]) {
        var i :| 0 <= i < |es| && x in f(es[i]);
        if i < n {
          assert front[i] == es[i];
        }
      }
    }
  }

  /** The commands of the tasks `es`, one task after another. */
  function Gathered(es: seq<Elem>): seq<Elem> {
    Gather(es, CmdsOf)
  }

  /**
   * Lines 224-230 and 238-242 as the source runs them: each command of
   * `t['cmds']` appended in turn, and nothing when reading it raises.
   */
  method AppendCmds(acc: seq<Elem>, t: Elem) returns (r: seq<Elem>)
    ensures r == acc + CmdsOf(t)
  {
    r := acc;
    var inner := Get(t, "cmds");
    if inner.Raise? {
      return;
    }
    var cs := Elements(inner.value);
    if cs.Raise? {
      return;
    }
    r := Extend(acc, cs.value);
  }

  /** `for c in cs: acc.append(c)`. */
  method Extend(acc: seq<Elem>, cs: seq<Elem>) returns (r: seq<Elem>)
    ensures r == acc + cs
  {
    r := acc;
    for m := 0 to |cs|
      invariant r == acc + cs[..m]
    {
      r := r + [cs[m]];
      assert cs[..m + 1] == cs[..m] + [cs[m]];
    }
    assert cs[..|cs|] == cs;
  }

  // ---------------------------------------------------------------------------
  // Texture tasks (lines 235-243)

  /** Lines 235-243: the commands of every subtask of `task`, in order. */
  function TextureCommands(task: Dict): Outcome<seq<Elem>> {
    match SubtasksOf(Entry(task))
    case Raise(err) => Raise(err)
    case Ok(subs) => Ok(Gathered(subs))
  }

  /** The texture commands are exactly the commands of the subtasks. */
  lemma TextureCommandsHas(task: Dict, x: Elem)
    requires TextureCommands(task).Ok?
    ensures var subs := SubtasksOf(Entry(task)).value;
      x in TextureCommands(task).value <==> exists i :: 0 <= i < |subs| && x in CmdsOf(subs[i])
  {
    GatherHas(SubtasksOf(Entry(task)).value, CmdsOf, x);
  }

  /** Lines 235-243 as the source runs them. */
  method ExtractCommandsForTexture(task: Dict) returns (r: Outcome<seq<Elem>>)
    ensures r == TextureCommands(task)
  {
    var subs := SubtasksOf(Entry(task));
    if subs.Raise? {
      return Raise(subs.error);
    }
    var cmds := GatherCmds(subs.value);
    return Ok(cmds);
  }

  /** Lines 224-230 and 237-242: the loop over the tasks gathering their commands. */
  method GatherCmds(ts: seq<Elem>) returns (cmds: seq<Elem>)
    ensures cmds == Gathered(ts)
  {
    cmds := [];
    for k := 0 to |ts|
      invariant cmds == Gathered(ts[..k])
    {
      cmds := AppendCmds(cmds, ts[k]);
      assert ts[..k + 1][..k] == ts[..k];
    }
    assert ts[..|ts|] == ts;
  }

  // ---------------------------------------------------------------------------
  // Frame tasks (lines 217-233)

  /** Line 222: `int(t['taskName'].replace('Frame', ''))`; a name that is not text has no `replace`. */
  function FrameOf(e: Elem): Outcome<int> {
    match Get(e, "taskName")
    case Raise(err) => Raise(err)
    case Ok(v) =>
      if !v.Text? then Raise(AttributeError)
      else match ParseInt(Replace(v.s, "Frame", ""))
        case None => Raise(ValueError)
        case Some(n) => Ok(n)
  }

  /** Lines 224-230: the commands of the subtasks of a frame task. */
  function FrameCmds(e: Elem): Outcome<seq<Elem>> {
    match SubtasksOf(e)
    case Raise(err) => Raise(err)
    case Ok(subs) => Ok(Gathered(subs))
  }

  /** Line 222 on a task named `Frame<n>`: the frame number is `n`. */
  lemma FrameNamed(d: Dict, n: int)
    requires "taskName" in d && d["taskName"] == Text("Frame" + IntToString(n))
    ensures FrameOf(Entry(d)) == Ok(n)
  {
    FrameRemoved(n);
    ParseIntToString(n);
    assert FrameOf(Entry(d)) == match ParseInt(IntToString(n)) case None => Raise(ValueError) case Some(m) => Ok(m);
  }

  /** Removing 'Frame' from `Frame<n>` leaves the digits of `n`. */
  lemma FrameRemoved(n: int)
    ensures Replace("Frame" + IntToString(n), "Frame", "") == IntToString(n)
  {
    var digits := IntToString(n);
    ReplaceAtStart("Frame" + digits, "Frame", "", digits);
    ReplaceAbsent(digits, "Frame", "");
  }

  /** The `cmds` dictionary and the `frames` list of lines 218-233. */
  datatype Frames = Frames(cmds: map<string, seq<Elem>>, order: seq<int>)

  /**
   * Lines 220-232: one frame task added to what the earlier ones built,
   * its number read by `num` and its commands by `sub`.
   */
  function FrameStep(acc: Frames, e: Elem, num: Elem -> Outcome<int>, sub: Elem -> Outcome<seq<Elem>>): (r: Outcome<Frames>)
    ensures r.Raise? <==> num(e).Raise? || sub(e).Raise?
    ensures r.Ok? ==> r.value.order == acc.order + [num(e).value]
    ensures r.Ok? ==> r.value.cmds == if |sub(e).value| > 0 then acc.cmds[IntToString(num(e).value) := sub(e).value] else acc.cmds
  {
    match num(e)
    case Raise(err) => Raise(err)
    case Ok(n) =>
      match sub(e)
      case Raise(err) => Raise(err)
      case Ok(c) => Ok(Frames(if |c| > 0 then acc.cmds[IntToString(n) := c] else acc.cmds, acc.order + [n]))
  }

  /** Lines 218-233 over the tasks `ts`, with the readers of `FrameStep`. */
  function FramesBy(ts: seq<Elem>, num: Elem -> Outcome<int>, sub: Elem -> Outcome<seq<Elem>>): Outcome<Frames> {
    if |ts| == 0 then Ok(Frames(map[], []))
    else
      match FramesBy(ts[..|ts| - 1], num, sub)
      case Raise(err) => Raise(err)
      case Ok(acc) => FrameStep(acc, ts[|ts| - 1], num, sub)
  }

  /** Lines 218-233 over the tasks `ts`. */
  function FramesOf(ts: seq<Elem>): Outcome<Frames> {
    FramesBy(ts, FrameOf, FrameCmds)
  }

  /** Lines 217-233: the frames of the subtasks of `task`. */
  function FrameCommands(task: Dict): Outcome<Frames> {
    match SubtasksOf(Entry(task))
    case Raise(err) => Raise(err)
    case Ok(ts) => FramesOf(ts)
  }

  /** Reading the frame number or the commands of `e` raises. */
  predicate Unreadable(e: Elem, num: Elem -> Outcome<int>, sub: Elem -> Outcome<seq<Elem>>) {
    num(e).Raise? || sub(e).Raise?
  }

  /** The walk over the frame tasks raises exactly when reading one of them does. */
  lemma {:induction false} FramesRaise(ts: seq<Elem>, num: Elem -> Outcome<int>, sub: Elem -> Outcome<seq<Elem>>)
    ensures FramesBy(ts, num, sub).Raise? <==> exists i :: 0 <= i < |ts| && Unreadable(ts[i], num, sub)
  {
    if |ts| > 0 {
      var n := |ts| - 1;
      var front := ts[..n];
      FramesRaise(front, num, sub);
      if FramesBy(front, num, sub).Raise? {
        var i :| 0 <= i < n && Unreadable(front[i], num, sub);
        assert ts[i] == front[i];
      } else {
        forall i | 0 <= i < n ensures !Unreadable(ts[i], num, sub) {
          assert front[i] == ts[i];
        }
      }
    }
  }

  /** Once one frame task cannot be read, the walk raises whatever follows it. */
  lemma {:induction false} FramesStopped(ts: seq<Elem>, k: nat, num: Elem -> Outcome<int>, sub: Elem -> Outcome<seq<Elem>>)
    requires k < |ts| && FramesBy(ts[..k + 1], num, sub).Raise?
    ensures FramesBy(ts, num, sub) == FramesBy(ts[..k + 1], num, sub)
  {
    if |ts| > k + 1 {
      var front := ts[..|ts| - 1];
      assert front[..k + 1] == ts[..k + 1];
      FramesStopped(front, k, num, sub);
    } else {
      assert ts[..k + 1] == ts;
    }
  }

  /** A walk that succeeds is the walk over all but the last task, then one step over the last. */
  lemma FramesLast(ts: seq<Elem>, num: Elem -> Outcome<int>, sub: Elem -> Outcome<seq<Elem>>)
    requires |ts| > 0 && FramesBy(ts, num, sub).Ok?
    ensures FramesBy(ts[..|ts| - 1], num, sub).Ok?
    ensures FramesBy(ts, num, sub) == FrameStep(FramesBy(ts[..|ts| - 1], num, sub).value, ts[|ts| - 1], num, sub)
  {
  }

  /** Line 223: the frame numbers come in the order of the tasks, one per task. */
  lemma {:induction false} FramesOrder(ts: seq<Elem>, num: Elem -> Outcome<int>, sub: Elem -> Outcome<seq<Elem>>)
    requires FramesBy(ts, num, sub).Ok?
    ensures var order := FramesBy(ts, num, sub).value.order;
      |order| == |ts| && forall i :: 0 <= i < |ts| ==> num(ts[i]) == Ok(order[i])
  {
    if |ts| > 0 {
      var n := |ts| - 1;
      var front := ts[..n];
      FramesOrder(front, num, sub);
      FramesLast(ts, num, sub);
      var order := FramesBy(ts, num, sub).value.order;
      assert order == FramesBy(front, num, sub).value.order + [num(ts[n]).value];
      forall i | 0 <= i < |ts| ensures num(ts[i]) == Ok(order[i]) {
        if i < n {
          assert front[i] == ts[i];
        }
      }
    }
  }

  /** Lines 231-232: a frame has an entry only with commands. */
  lemma {:induction false} FramesNonEmpty(ts: seq<Elem>, num: Elem -> Outcome<int>, sub: Elem -> Outcome<seq<Elem>>)
    requires FramesBy(ts, num, sub).Ok?
    ensures var cmds := FramesBy(ts, num, sub).value.cmds;
      forall k :: k in cmds ==> |cmds[k]| > 0
  {
    if |ts| > 0 {
      FramesNonEmpty(ts[..|ts| - 1], num, sub);
    }
  }

  /** Task `e` has commands for the frame keyed `k`. */
  predicate Contributes(e: Elem, k: string, num: Elem -> Outcome<int>, sub: Elem -> Outcome<seq<Elem>>) {
    num(e).Ok? && sub(e).Ok? && |sub(e).value| > 0 && IntToString(num(e).value) == k
  }

  /** Lines 231-232: `str(frame)` is a key exactly when some task of that frame has commands. */
  lemma {:induction false} FramesKeys(ts: seq<Elem>, num: Elem -> Outcome<int>, sub: Elem -> Outcome<seq<Elem>>, k: string)
    requires FramesBy(ts, num, sub).Ok?
    ensures k in FramesBy(ts, num, sub).value.cmds <==> exists i :: 0 <= i < |ts| && Contributes(ts[i], k, num, sub)
  {
    if |ts| > 0 {
      var n := |ts| - 1;
      var front := ts[..n];
      FramesKeys(front, num, sub, k);
      FramesLast(ts, num, sub);
      StepKeeps(FramesBy(front, num, sub).value, ts[n], num, sub, k);
      ContributesSplit(ts, front, num, sub, k);
    }
  }

  /** Some task of `ts` contributes `k` exactly when one before the last does or the last does. */
  lemma ContributesSplit(ts: seq<Elem>, front: seq<Elem>, num: Elem -> Outcome<int>, sub: Elem -> Outcome<seq<Elem>>, k: string)
    requires |ts| > 0 && front == ts[..|ts| - 1]
    ensures (exists i :: 0 <= i < |ts| && Contributes(ts[i], k, num, sub))
      <==> (exists i :: 0 <= i < |front| && Contributes(front[i], k, num, sub)) || Contributes(ts[|ts| - 1], k, num, sub)
  {
    if i :| 0 <= i < |ts| && Contributes(ts[i], k, num, sub) {
      if i < |front| {
        assert front[i] == ts[i];
      }
    }
    if i :| 0 <= i < |front| && Contributes(front[i], k, num, sub) {
      assert front[i] == ts[i];
    }
  }

  /** Lines 231-232: a frame's entry holds the commands of the last task of that frame that has any. */
  lemma {:induction false} FramesLastWins(ts: seq<Elem>, num: Elem -> Outcome<int>, sub: Elem -> Outcome<seq<Elem>>, j: nat, k: string)
    requires FramesBy(ts, num, sub).Ok? && j < |ts| && Contributes(ts[j], k, num, sub)
    requires forall i :: j < i < |ts| ==> !Contributes(ts[i], k, num, sub)
    ensures k in FramesBy(ts, num, sub).value.cmds && FramesBy(ts, num, sub).value.cmds[k] == sub(ts[j]).value
  {
    var n := |ts| - 1;
    var front := ts[..n];
    FramesLast(ts, num, sub);
    StepKeeps(FramesBy(front, num, sub).value, ts[n], num, sub, k);
    if j < n {
      assert front[j] == ts[j];
      forall i | j < i < |front| ensures !Contributes(front[i], k, num, sub) {
        assert front[i] == ts[i];
      }
      FramesLastWins(front, num, sub, j, k);
      assert !Contributes(ts[n], k, num, sub);
    }
  }

  /** One step adds the key of its task when the task has commands, and keeps the other entries. */
  lemma StepKeeps(acc: Frames, e: Elem, num: Elem -> Outcome<int>, sub: Elem -> Outcome<seq<Elem>>, k: string)
    requires FrameStep(acc, e, num, sub).Ok?
    ensures var cmds := FrameStep(acc, e, num, sub).value.cmds;
      (k in cmds <==> k in acc.cmds || Contributes(e, k, num, sub))
      && (!Contributes(e, k, num, sub) && k in acc.cmds ==> cmds[k] == acc.cmds[k])
  {
  }

  /** Lines 217-233 as the source runs them. */
  method ExtractCommandsForFrame(task: Dict) returns (r: Outcome<Frames>)
    ensures r == FrameCommands(task)
  {
    var subs := SubtasksOf(Entry(task));
    if subs.Raise? {
      return Raise(subs.error);
    }
    var ts := subs.value;
    var frames: seq<int> := [];
    var cmds: map<string, seq<Elem>> := map[];
    for k := 0 to |ts|
      invariant FramesBy(ts[..k], FrameOf, FrameCmds) == Ok(Frames(cmds, frames))
    {
      var step := FrameTask(ts, k, Frames(cmds, frames));
      if step.Raise? {
        FramesStopped(ts, k, FrameOf, FrameCmds);
        return step;
      }
      cmds, frames := step.value.cmds, step.value.order;
    }
    assert ts[..|ts|] == ts;
    return Ok(Frames(cmds, frames));
  }

  /** Lines 220-232: one turn of that loop. */
  method FrameTask(ts: seq<Elem>, k: nat, acc: Frames) returns (r: Outcome<Frames>)
    requires k < |ts| && FramesBy(ts[..k], FrameOf, FrameCmds) == Ok(acc)
    ensures r == FramesBy(ts[..k + 1], FrameOf, FrameCmds)
  {
    assert ts[..k + 1][..k] == ts[..k];
    var t := ts[k];
    var frame := FrameOf(t);
    if frame.Raise? {
      return Raise(frame.error);
    }
    var frames := acc.order + [frame.value];
    var inner := SubtasksOf(t);
    if inner.Raise? {
      return Raise(inner.error);
    }
    var subcmds := GatherCmds(inner.value);
    var cmds := acc.cmds;
    if |subcmds| > 0 {
      cmds := cmds[IntToString(frame.value) := subcmds];
    }
    return Ok(Frames(cmds, frames));
  }
}
