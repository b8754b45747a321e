/**
 * bin/prman_AlfParser.py lines 9-13 and 245-264: `parseFile` and
 * `extractCommandHierarchy`, the walk over every task of every job that
 * collects the texture commands, merges the frame commands and keeps the
 * frame numbers of the last frame task.
 *
 * The walk is a fold over the jobs, each job a fold over its tasks; the
 * readers of a texture task and of a frame task are parameters of the
 * fold, so that the lemmas about it hold for any readers and the model
 * instantiates them with `TextureCommands` and `FrameCommands`.
 */
module AlfHierarchy {
  import opened Py
  import opened Alf
  import opened AlfExtract

  /** `textureCommands`, `commands` and `frames` so far; `frames` is unbound until a frame task is seen. */
  datatype Walk = Walk(textures: seq<Elem>, cmds: map<string, seq<Elem>>, frames: Option<seq<int>>)

  /** The three results of `parseFile` (line 13). */
  datatype Hierarchy = Hierarchy(textures: seq<Elem>, cmds: map<string, seq<Elem>>, frames: seq<int>)

  /** Lines 246-247: nothing collected, `frames` unbound. */
  const Fresh := Walk([], map[], None)

  /** Line 252: the task is the one named 'Job Textures'. */
  predicate IsTexture(t: Elem) {
    Get(t, "taskName") == Ok(Text("Job Textures"))
  }

  /** Lines 260-262: a task whose name can be read and is not 'Job Textures'. */
  predicate IsFrameTask(t: Elem) {
    Get(t, "taskName").Ok? && !IsTexture(t)
  }

  /** Line 252 raises, or line 261 raises on a frame task. */
  predicate Stuck(t: Elem, fr: Dict -> Outcome<Frames>) {
    Get(t, "taskName").Raise? || (IsFrameTask(t) && fr(t.d).Raise?)
  }

  /** Lines 253-258: what a task adds to the texture commands; nothing when reading them raises. */
  function TextureShare(t: Elem, tex: Dict -> Outcome<seq<Elem>>): seq<Elem> {
    if IsTexture(t) && tex(t.d).Ok? then tex(t.d).value else []
  }

  /** The frame task `t` has commands for the frame keyed `k`. */
  predicate Supplies(t: Elem, k: string, fr: Dict -> Outcome<Frames>) {
    IsFrameTask(t) && fr(t.d).Ok? && k in fr(t.d).value.cmds
  }

  /**
   * Lines 251-262: one task.  A texture task adds its commands, and a
   * failure to read them is swallowed; a frame task merges its commands
   * over the earlier ones and replaces `frames`.
   */
  function TaskStep(acc: Walk, t: Elem, tex: Dict -> Outcome<seq<Elem>>, fr: Dict -> Outcome<Frames>): (r: Outcome<Walk>)
    ensures r.Raise? <==> Stuck(t, fr)
    ensures r.Ok? && IsTexture(t) ==> r.value == acc.(textures := acc.textures + TextureShare(t, tex))
    ensures r.Ok? && IsFrameTask(t) ==> fr(t.d).Ok? && r.value == Walk(acc.textures, acc.cmds + fr(t.d).value.cmds, Some(fr(t.d).value.order))
  {
    match Get(t, "taskName")
    case Raise(err) => Raise(err)
    case Ok(v) =>
      if v == Text("Job Textures") then
        match tex(t.d)
        case Raise(_) => Ok(acc)
        case Ok(c) => Ok(acc.(textures := acc.textures + c))
      else
        match fr(t.d)
        case Raise(err) => Raise(err)
        case Ok(f) => Ok(Walk(acc.textures, acc.cmds + f.cmds, Some(f.order)))
  }

  /** Lines 251-262 over the tasks `ts`, starting from `acc`. */
  function TasksBy(acc: Walk, ts: seq<Elem>, tex: Dict -> Outcome<seq<Elem>>, fr: Dict -> Outcome<Frames>): Outcome<Walk> {
    if |ts| == 0 then Ok(acc)
    else
      match TasksBy(acc, ts[..|ts| - 1], tex, fr)
      case Raise(err) => Raise(err)
      case Ok(w) => TaskStep(w, ts[|ts| - 1], tex, fr)
  }

  /** Lines 250-262: the tasks of job `j`. */
  function JobStep(acc: Walk, j: Dict, tex: Dict -> Outcome<seq<Elem>>, fr: Dict -> Outcome<Frames>): Outcome<Walk> {
    match SubtasksOf(Entry(j))
    case Raise(err) => Raise(err)
    case Ok(ts) => TasksBy(acc, ts, tex, fr)
  }

  /** Lines 246-262 over the jobs `jobs`. */
  function JobsBy(jobs: seq<Dict>, tex: Dict -> Outcome<seq<Elem>>, fr: Dict -> Outcome<Frames>): Outcome<Walk> {
    if |jobs| == 0 then Ok(Fresh)
    else
      match JobsBy(jobs[..|jobs| - 1], tex, fr)
      case Raise(err) => Raise(err)
      case Ok(w) => JobStep(w, jobs[|jobs| - 1], tex, fr)
  }

  /** The texture commands of the tasks `ts`, one task after another. */
  function TexturesBy(ts: seq<Elem>, tex: Dict -> Outcome<seq<Elem>>): seq<Elem> {
    if |ts| == 0 then [] else TexturesBy(ts[..|ts| - 1], tex) + TextureShare(ts[|ts| - 1], tex)
  }

  /** Every task of every job, or the error of the first job whose tasks cannot be listed. */
  function AllTasks(jobs: seq<Dict>): Outcome<seq<Elem>> {
    if |jobs| == 0 then Ok([])
    else
      match AllTasks(jobs[..|jobs| - 1])
      case Raise(err) => Raise(err)
      case Ok(ts) =>
        match SubtasksOf(Entry(jobs[|jobs| - 1]))
        case Raise(err) => Raise(err)
        case Ok(us) => Ok(ts + us)
  }

  /** Lines 245-264: the result, UnboundLocalError when no frame task was seen. */
  function CommandHierarchy(jobs: seq<Dict>): Outcome<Hierarchy> {
    match JobsBy(jobs, TextureCommands, FrameCommands)
    case Raise(err) => Raise(err)
    case Ok(w) =>
      if w.frames.None? then Raise(UnboundLocalError)
      else Ok(Hierarchy(w.textures, w.cmds, w.frames.value))
  }

  /**
   * Lines 9-13: the script after its 17-character header parsed into items
   * and walked; a script with no item gives None, which line 248 cannot
   * iterate.
   */
  function ParsedFile(text: string): (r: Outcome<Hierarchy>)
    ensures KeywordAt(Slice(text, 17, |text|)) == NotFound ==> r == Raise(TypeError)
  {
    match CommandStructure(Slice(text, 17, |text|))
    case Raise(err) => Raise(err)
    case Ok(None) => Raise(TypeError)
    case Ok(Some(jobs)) => CommandHierarchy(jobs)
  }

  // ---------------------------------------------------------------------------
  // Lemmas about the walk over the tasks

  /** Walking two runs of tasks is walking the first and then the second. */
  lemma {:induction false} TasksAppend(acc: Walk, ts: seq<Elem>, us: seq<Elem>, tex: Dict -> Outcome<seq<Elem>>, fr: Dict -> Outcome<Frames>)
    ensures TasksBy(acc, ts + us, tex, fr) == match TasksBy(acc, ts, tex, fr) case Raise(err) => Raise(err) case Ok(w) => TasksBy(w, us, tex, fr)
    decreases |us|
  {
    if |us| == 0 {
      assert ts + us == ts;
    } else {
      var vs := us[..|us| - 1];
      var all := ts + us;
      assert all[..|all| - 1] == ts + vs;
      assert all[|all| - 1] == us[|us| - 1];
      TasksAppend(acc, ts, vs, tex, fr);
    }
  }

  /** Once one task is stuck, the walk raises whatever follows it. */
  lemma {:induction false} TasksStopped(acc: Walk, ts: seq<Elem>, k: nat, tex: Dict -> Outcome<seq<Elem>>, fr: Dict -> Outcome<Frames>)
    requires k < |ts| && TasksBy(acc, ts[..k + 1], tex, fr).Raise?
    ensures TasksBy(acc, ts, tex, fr) == TasksBy(acc, ts[..k + 1], tex, fr)
  {
    if |ts| > k + 1 {
      var front := ts[..|ts| - 1];
      assert front[..k + 1] == ts[..k + 1];
      TasksStopped(acc, front, k, tex, fr);
    } else {
      assert ts[..k + 1] == ts;
    }
  }

  /** Lines 252 and 261: the walk raises exactly when some task is stuck. */
  lemma {:induction false} TasksRaise(acc: Walk, ts: seq<Elem>, tex: Dict -> Outcome<seq<Elem>>, fr: Dict -> Outcome<Frames>)
    ensures TasksBy(acc, ts, tex, fr).Raise? <==> exists i :: 0 <= i < |ts| && Stuck(ts[i], fr)
  {
    if |ts| > 0 {
      var n := |ts| - 1;
      var front := ts[..n];
      TasksRaise(acc, front, tex, fr);
      if TasksBy(acc, front, tex, fr).Raise? {
        var i :| 0 <= i < n && Stuck(front[i], fr);
        assert ts[i] == front[i];
      } else {
        forall i | 0 <= i < n ensures !Stuck(ts[i], fr) {
          assert front[i] == ts[i];
        }
      }
    }
  }

  /** Lines 253-258: the texture commands are those of the texture tasks, in order. */
  lemma {:induction false} TasksTextures(acc: Walk, ts: seq<Elem>, tex: Dict -> Outcome<seq<Elem>>, fr: Dict -> Outcome<Frames>)
    requires TasksBy(acc, ts, tex, fr).Ok?
    ensures TasksBy(acc, ts, tex, fr).value.textures == acc.textures + TexturesBy(ts, tex)
  {
    if |ts| > 0 {
      var front := ts[..|ts| - 1];
      TasksTextures(acc, front, tex, fr);
    }
  }

  /** Line 261: without a frame task, `frames` is what it was before. */
  lemma {:induction false} TasksNoFrames(acc: Walk, ts: seq<Elem>, tex: Dict -> Outcome<seq<Elem>>, fr: Dict -> Outcome<Frames>)
    requires TasksBy(acc, ts, tex, fr).Ok?
    requires forall i :: 0 <= i < |ts| ==> !IsFrameTask(ts[i])
    ensures TasksBy(acc, ts, tex, fr).value.frames == acc.frames
    ensures TasksBy(acc, ts, tex, fr).value.cmds == acc.cmds
  {
    if |ts| > 0 {
      var n := |ts| - 1;
      var front := ts[..n];
      assert forall i :: 0 <= i < n ==> front[i] == ts[i];
      TasksNoFrames(acc, front, tex, fr);
    }
  }

  /** Line 261: `frames` are the frame numbers of the last frame task. */
  lemma {:induction false} TasksLastFrames(acc: Walk, ts: seq<Elem>, j: nat, tex: Dict -> Outcome<seq<Elem>>, fr: Dict -> Outcome<Frames>)
    requires TasksBy(acc, ts, tex, fr).Ok? && j < |ts| && IsFrameTask(ts[j])
    requires forall i :: j < i < |ts| ==> !IsFrameTask(ts[i])
    ensures fr(ts[j].d).Ok? && TasksBy(acc, ts, tex, fr).value.frames == Some(fr(ts[j].d).value.order)
  {
    var n := |ts| - 1;
    var front := ts[..n];
    if j < n {
      assert front[j] == ts[j];
      forall i | j < i < |front| ensures !IsFrameTask(front[i]) {
        assert front[i] == ts[i];
      }
      TasksLastFrames(acc, front, j, tex, fr);
    }
  }

  /** Line 262: a key is merged in exactly when it was there before or some frame task has it. */
  lemma {:induction false} TasksKeys(acc: Walk, ts: seq<Elem>, tex: Dict -> Outcome<seq<Elem>>, fr: Dict -> Outcome<Frames>, k: string)
    requires TasksBy(acc, ts, tex, fr).Ok?
    ensures k in TasksBy(acc, ts, tex, fr).value.cmds <==> k in acc.cmds || exists i :: 0 <= i < |ts| && Supplies(ts[i], k, fr)
  {
    if |ts| > 0 {
      var n := |ts| - 1;
      var front := ts[..n];
      TasksKeys(acc, front, tex, fr, k);
      if exists i :: 0 <= i < n && Supplies(front[i], k, fr) {
        var i :| 0 <= i < n && Supplies(front[i], k, fr);
        assert ts[i] == front[i];
      }
      if exists i :: 0 <= i < n && Supplies(ts[i], k, fr) {
        var i :| 0 <= i < n && Supplies(ts[i], k, fr);
        assert front[i] == ts[i];
      }
    }
  }

  /** Line 262: the later dictionary wins, so a key holds the commands of the last frame task that has it. */
  lemma {:induction false} TasksLastWins(acc: Walk, ts: seq<Elem>, j: nat, tex: Dict -> Outcome<seq<Elem>>, fr: Dict -> Outcome<Frames>, k: string)
    requires TasksBy(acc, ts, tex, fr).Ok? && j < |ts| && Supplies(ts[j], k, fr)
    requires forall i :: j < i < |ts| ==> !Supplies(ts[i], k, fr)
    ensures k in TasksBy(acc, ts, tex, fr).value.cmds
    ensures TasksBy(acc, ts, tex, fr).value.cmds[k] == fr(ts[j].d).value.cmds[k]
  {
    var n := |ts| - 1;
    var front := ts[..n];
    if j < n {
      assert front[j] == ts[j];
      forall i | j < i < |front| ensures !Supplies(front[i], k, fr) {
        assert front[i] == ts[i];
      }
      TasksLastWins(acc, front, j, tex, fr, k);
    }
  }

  // ---------------------------------------------------------------------------
  // From the jobs to their tasks

  /** The walk over the jobs is the walk over all their tasks, one job after another. */
  lemma {:induction false} JobsFlat(jobs: seq<Dict>, tex: Dict -> Outcome<seq<Elem>>, fr: Dict -> Outcome<Frames>)
    requires AllTasks(jobs).Ok?
    ensures JobsBy(jobs, tex, fr) == TasksBy(Fresh, AllTasks(jobs).value, tex, fr)
  {
    if |jobs| > 0 {
      var front := jobs[..|jobs| - 1];
      JobsFlat(front, tex, fr);
      var ts := AllTasks(front).value;
      var us := SubtasksOf(Entry(jobs[|jobs| - 1])).value;
      TasksAppend(Fresh, ts, us, tex, fr);
    }
  }

  /** Line 250: a job whose tasks cannot be listed makes the walk raise. */
  lemma {:induction false} JobsUnlisted(jobs: seq<Dict>, tex: Dict -> Outcome<seq<Elem>>, fr: Dict -> Outcome<Frames>)
    requires AllTasks(jobs).Raise?
    ensures JobsBy(jobs, tex, fr).Raise?
  {
    var front := jobs[..|jobs| - 1];
    if AllTasks(front).Raise? {
      JobsUnlisted(front, tex, fr);
    }
  }

  /** Once one job is stuck, the walk raises whatever follows it. */
  lemma {:induction false} JobsStopped(jobs: seq<Dict>, m: nat, tex: Dict -> Outcome<seq<Elem>>, fr: Dict -> Outcome<Frames>)
    requires m < |jobs| && JobsBy(jobs[..m + 1], tex, fr).Raise?
    ensures JobsBy(jobs, tex, fr) == JobsBy(jobs[..m + 1], tex, fr)
  {
    if |jobs| > m + 1 {
      var front := jobs[..|jobs| - 1];
      assert front[..m + 1] == jobs[..m + 1];
      JobsStopped(front, m, tex, fr);
    } else {
      assert jobs[..m + 1] == jobs;
    }
  }

  /** Line 261: `frames` stays unbound exactly when no task is a frame task. */
  lemma {:induction false} FramesUnbound(ts: seq<Elem>, tex: Dict -> Outcome<seq<Elem>>, fr: Dict -> Outcome<Frames>)
    requires TasksBy(Fresh, ts, tex, fr).Ok?
    ensures TasksBy(Fresh, ts, tex, fr).value.frames.None? <==> forall i :: 0 <= i < |ts| ==> !IsFrameTask(ts[i])
  {
    if |ts| > 0 {
      var n := |ts| - 1;
      var front := ts[..n];
      FramesUnbound(front, tex, fr);
      assert forall i :: 0 <= i < n ==> front[i] == ts[i];
    }
  }

  /**
   * Line 264: when every task can be walked, the result is UnboundLocalError
   * exactly when no task is a frame task.
   */
  lemma HierarchyUnbound(jobs: seq<Dict>)
    requires AllTasks(jobs).Ok? && JobsBy(jobs, TextureCommands, FrameCommands).Ok?
    ensures CommandHierarchy(jobs) == Raise(UnboundLocalError) <==>
      forall i :: 0 <= i < |AllTasks(jobs).value| ==> !IsFrameTask(AllTasks(jobs).value[i])
  {
    JobsFlat(jobs, TextureCommands, FrameCommands);
    FramesUnbound(AllTasks(jobs).value, TextureCommands, FrameCommands);
  }

  // ---------------------------------------------------------------------------
  // The loops of the source

  /** Lines 9-13 as the source runs them. */
  method ParseFile(text: string) returns (r: Outcome<Hierarchy>)
    ensures r == ParsedFile(text)
  {
    var commands := CommandStructure(Slice(text, 17, |text|));
    if commands.Raise? {
      return Raise(commands.error);
    }
    if commands.value.None? {
      return Raise(TypeError);
    }
    r := ExtractCommandHierarchy(commands.value.value);
  }

  /** Lines 245-264 as the source runs them. */
  method ExtractCommandHierarchy(jobs: seq<Dict>) returns (r: Outcome<Hierarchy>)
    ensures r == CommandHierarchy(jobs)
  {
    var w := Fresh;
    for m := 0 to |jobs|
      invariant JobsBy(jobs[..m], TextureCommands, FrameCommands) == Ok(w)
    {
      var step := JobTurn(jobs, m, w);
      if step.Raise? {
        JobsStopped(jobs, m, TextureCommands, FrameCommands);
        return Raise(step.error);
      }
      w := step.value;
    }
    assert jobs[..|jobs|] == jobs;
    if w.frames.None? {
      return Raise(UnboundLocalError);
    }
    return Ok(Hierarchy(w.textures, w.cmds, w.frames.value));
  }

  /** Lines 249-262: one turn of the loop over the jobs. */
  method JobTurn(jobs: seq<Dict>, m: nat, acc: Walk) returns (r: Outcome<Walk>)
    requires m < |jobs| && JobsBy(jobs[..m], TextureCommands, FrameCommands) == Ok(acc)
    ensures r == JobsBy(jobs[..m + 1], TextureCommands, FrameCommands)
  {
    assert jobs[..m + 1][..m] == jobs[..m];
    var subs := SubtasksOf(Entry(jobs[m]));
    if subs.Raise? {
      return Raise(subs.error);
    }
    var ts := subs.value;
    var w := acc;
    for k := 0 to |ts|
      invariant TasksBy(acc, ts[..k], TextureCommands, FrameCommands) == Ok(w)
    {
      var step := TaskTurn(acc, ts, k, w);
      if step.Raise? {
        TasksStopped(acc, ts, k, TextureCommands, FrameCommands);
        return step;
      }
      w := step.value;
    }
    assert ts[..|ts|] == ts;
    return Ok(w);
  }

  /** Lines 251-262: one turn of the loop over the tasks of a job. */
  method TaskTurn(start: Walk, ts: seq<Elem>, k: nat, acc: Walk) returns (r: Outcome<Walk>)
    requires k < |ts| && TasksBy(start, ts[..k], TextureCommands, FrameCommands) == Ok(acc)
    ensures r == TasksBy(start, ts[..k + 1], TextureCommands, FrameCommands)
  {
    assert ts[..k + 1][..k] == ts[..k];
    var t := ts[k];
    var name := Get(t, "taskName");
    if name.Raise? {
      return Raise(name.error);
    }
    if name.value == Text("Job Textures") {
      var newCommands := ExtractCommandsForTexture(t.d);
      if newCommands.Raise? {
        return Ok(acc);
      }
      var textures := Extend(acc.textures, newCommands.value);
      return Ok(acc.(textures := textures));
    }
    var f := ExtractCommandsForFrame(t.d);
    if f.Raise? {
      return Raise(f.error);
    }
    return Ok(Walk(acc.textures, acc.cmds + f.value.cmds, Some(f.value.order)));
  }
}
