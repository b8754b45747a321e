/**
 * The job table of the rendering page (bin/rendering.py, lines 29-95): each
 * job, in project-and-name order, has its expired working entries swept out
 * (back to todo, or to failed, with an error counted), its live entries
 * indexed by node, and its progress counts and control worked out.
 *
 * The sweep is the list comprehension over `working` whose test `keep_task`
 * updates the job and the index as it goes; `KeepTasks` does that with a
 * loop and is proved equal to the fold `Swept`, about which the promised
 * properties are lemmas.
 */
module Rendering {
  import opened Py
  import opened Lists
  import opened Sorting
  import opened Jobs

  /** Line 34: node ident -> job name -> the frames that node is rendering. */
  type Index = map<string, map<string, seq<Frame>>>

  /** `tasks[ident][name]`, empty where the defaultdict has no entry yet. */
  function Frames(ix: Index, ident: string, name: string): seq<Frame> {
    if ident in ix && name in ix[ident] then ix[ident][name] else []
  }

  /** Line 57: `tasks[ident][name].append(frame)`. */
  function Note(ix: Index, ident: string, name: string, f: Frame): Index {
    var inner := if ident in ix then ix[ident] else map[];
    ix[ident := inner[name := Frames(ix, ident, name) + [f]]]
  }

  /** Appending touches one list of the index and no other. */
  lemma NoteFrames(ix: Index, ident: string, name: string, f: Frame, i: string, n: string)
    ensures Frames(Note(ix, ident, name, f), i, n) ==
      if i == ident && n == name then Frames(ix, i, n) + [f] else Frames(ix, i, n)
  {
  }

  /** What `keep_task` changes as the sweep goes: todo, failed, errors, the entries kept, the index. */
  datatype Acc = Acc(todo: seq<int>, failed: seq<int>, errors: int, kept: seq<Work>, index: Index)

  function Start(job: Job, ix: Index): Acc {
    Acc(job.todo, job.failed, job.errors, [], ix)
  }

  predicate Expired(w: Work, tooOld: real) {
    w.seen < tooOld
  }

  /**
   * Lines 42-59: `keep_task` on one entry of a job with flag `video` and
   * name `name`.  An expired video entry resets todo to its whole range (a
   * plain frame number there fails at `task[0][0]`); an expired frame goes
   * back to todo or to failed (a pair, in a non-video job, is not listed
   * there, as those lists hold frame numbers); either way an error is
   * counted and the entry dropped.  A live entry is kept and indexed under
   * its node.
   */
  function Keep(a: Acc, w: Work, video: bool, name: string, tooOld: real, retry: bool): Outcome<Acc> {
    if Expired(w, tooOld) then
      if video then
        if w.frame.Single? then Raise(TypeError)
        else Ok(a.(todo := Range(w.frame.lo, w.frame.hi + 1), errors := a.errors + 1))
      else if retry then Ok(a.(todo := a.todo + Numbered(w.frame), errors := a.errors + 1))
      else Ok(a.(failed := a.failed + Numbered(w.frame), errors := a.errors + 1))
    else Ok(a.(kept := a.kept + [w], index := Note(a.index, w.ident, name, w.frame)))
  }

  /** Line 61 over the entries `ws`, in order, stopping at the first exception. */
  function Swept(a: Acc, ws: seq<Work>, video: bool, name: string, tooOld: real, retry: bool): Outcome<Acc>
    decreases |ws|
  {
    if |ws| == 0 then Ok(a)
    else
      var front := ws[..|ws| - 1];
      match Swept(a, front, video, name, tooOld, retry)
      case Raise(e) => Raise(e)
      case Ok(b) => Keep(b, ws[|ws| - 1], video, name, tooOld, retry)
  }

  /** Line 61: the job with the swept lists and its working list replaced by the kept entries, and the index. */
  function Sweep(job: Job, ix: Index, tooOld: real, retry: bool): Outcome<(Job, Index)>
  {
    match Swept(Start(job, ix), job.working, job.video, job.name, tooOld, retry)
    case Raise(e) => Raise(e)
    case Ok(a) => Ok((job.(todo := a.todo, failed := a.failed, errors := a.errors, working := a.kept), a.index))
  }

  // ---------------------------------------------------------------------------
  // What the sweep promises

  /** The entries that have not expired, in order. */
  function Live(ws: seq<Work>, tooOld: real): (r: seq<Work>)
    ensures |r| <= |ws|
    decreases |ws|
  {
    if |ws| == 0 then []
    else Live(ws[..|ws| - 1], tooOld) + (if Expired(ws[|ws| - 1], tooOld) then [] else [ws[|ws| - 1]])
  }

  /** The frame numbers of the expired entries, in order (a pair in a non-video job adds none). */
  function ExpiredFrames(ws: seq<Work>, tooOld: real): seq<int>
    decreases |ws|
  {
    if |ws| == 0 then []
    else
      var w := ws[|ws| - 1];
      ExpiredFrames(ws[..|ws| - 1], tooOld) + (if Expired(w, tooOld) then Numbered(w.frame) else [])
  }

  /** The frames of the entries of node `ident`, in order. */
  function ByNode(ws: seq<Work>, ident: string): seq<Frame>
    decreases |ws|
  {
    if |ws| == 0 then []
    else ByNode(ws[..|ws| - 1], ident) + (if ws[|ws| - 1].ident == ident then [ws[|ws| - 1].frame] else [])
  }

  /** The last expired entry, whose range a video job's todo is reset to. */
  function LastExpired(ws: seq<Work>, tooOld: real): Option<Work>
    decreases |ws|
  {
    if |ws| == 0 then None
    else if Expired(ws[|ws| - 1], tooOld) then Some(ws[|ws| - 1])
    else LastExpired(ws[..|ws| - 1], tooOld)
  }

  /** Lines 42-61: exactly the live entries are kept, in order, and one error is counted per expired entry. */
  lemma {:induction false} SweptKeeps(a: Acc, ws: seq<Work>, video: bool, name: string, tooOld: real, retry: bool)
    ensures var r := Swept(a, ws, video, name, tooOld, retry);
      r.Ok? ==>
        r.value.kept == a.kept + Live(ws, tooOld)
        && r.value.errors == a.errors + (|ws| - |Live(ws, tooOld)|)
    decreases |ws|
  {
    if |ws| > 0 {
      SweptKeeps(a, ws[..|ws| - 1], video, name, tooOld, retry);
    }
  }

  /** `ix` is `base` with the frames of `live` appended under their nodes and the job name `name`. */
  ghost predicate Indexed(ix: Index, base: Index, name: string, live: seq<Work>) {
    forall i, n :: Frames(ix, i, n) == Frames(base, i, n) + (if n == name then ByNode(live, i) else [])
  }

  /** Indexing one more live entry. */
  lemma IndexedNote(ix: Index, base: Index, name: string, live: seq<Work>, w: Work)
    requires Indexed(ix, base, name, live)
    ensures Indexed(Note(ix, w.ident, name, w.frame), base, name, live + [w])
  {
    assert (live + [w])[..|live|] == live;
    forall i, n ensures Frames(Note(ix, w.ident, name, w.frame), i, n) ==
        Frames(base, i, n) + (if n == name then ByNode(live + [w], i) else [])
    {
      NoteFrames(ix, w.ident, name, w.frame, i, n);
    }
  }

  /**
   * Lines 55-59: each kept entry is indexed under its node and this job's
   * name, after what the index held before; nothing else is indexed.
   */
  lemma {:induction false} SweptIndexes(a: Acc, ws: seq<Work>, video: bool, name: string, tooOld: real, retry: bool)
    ensures var r := Swept(a, ws, video, name, tooOld, retry);
      r.Ok? ==> Indexed(r.value.index, a.index, name, Live(ws, tooOld))
    decreases |ws|
  {
    if |ws| == 0 {
      assert Indexed(a.index, a.index, name, []);
    } else {
      var front := ws[..|ws| - 1];
      var w := ws[|ws| - 1];
      SweptIndexes(a, front, video, name, tooOld, retry);
      var r := Swept(a, front, video, name, tooOld, retry);
      if r.Ok? {
        if Expired(w, tooOld) {
          assert Live(ws, tooOld) == Live(front, tooOld);
        } else {
          assert Live(ws, tooOld) == Live(front, tooOld) + [w];
          IndexedNote(r.value.index, a.index, name, Live(front, tooOld), w);
        }
      }
    }
  }

  /** Every exception the sweep raises is the type error of line 46. */
  lemma {:induction false} SweptRaises(a: Acc, ws: seq<Work>, video: bool, name: string, tooOld: real, retry: bool)
    ensures var r := Swept(a, ws, video, name, tooOld, retry);
      r.Raise? ==> r.error == TypeError
    decreases |ws|
  {
    if |ws| > 0 {
      SweptRaises(a, ws[..|ws| - 1], video, name, tooOld, retry);
    }
  }

  /**
   * Lines 47-51: a non-video job never fails the sweep; each expired frame
   * goes back to todo when retrying is on and to failed when it is off, in
   * order, and the other list is left alone.
   */
  lemma {:induction false} SweptPlain(a: Acc, ws: seq<Work>, name: string, tooOld: real, retry: bool)
    ensures var r := Swept(a, ws, false, name, tooOld, retry);
      r.Ok?
      && (retry ==> r.value.todo == a.todo + ExpiredFrames(ws, tooOld) && r.value.failed == a.failed)
      && (!retry ==> r.value.failed == a.failed + ExpiredFrames(ws, tooOld) && r.value.todo == a.todo)
    decreases |ws|
  {
    if |ws| > 0 {
      SweptPlain(a, ws[..|ws| - 1], name, tooOld, retry);
    }
  }

  /** The range a video's todo is reset to by the last expired entry, if any. */
  function Reset(todo: seq<int>, last: Option<Work>): seq<int> {
    match last
    case None => todo
    case Some(w) => if w.frame.Span? then Range(w.frame.lo, w.frame.hi + 1) else todo
  }

  /**
   * Lines 45-46: on a video job whose entries are all ranges the sweep
   * succeeds and todo becomes the full range of the last expired entry, or
   * stays as it was when none expired.
   */
  lemma {:induction false} SweptVideo(a: Acc, ws: seq<Work>, name: string, tooOld: real, retry: bool)
    requires forall k :: 0 <= k < |ws| ==> ws[k].frame.Span?
    ensures var r := Swept(a, ws, true, name, tooOld, retry);
      r.Ok? && r.value.todo == Reset(a.todo, LastExpired(ws, tooOld)) && r.value.failed == a.failed
    decreases |ws|
  {
    if |ws| > 0 {
      SweptVideo(a, ws[..|ws| - 1], name, tooOld, retry);
    }
  }

  /** Line 46: an expired plain frame number in a video job fails the sweep. */
  lemma {:induction false} SweptVideoFails(a: Acc, ws: seq<Work>, name: string, tooOld: real, retry: bool, k: nat)
    requires k < |ws| && Expired(ws[k], tooOld) && ws[k].frame.Single?
    ensures Swept(a, ws, true, name, tooOld, retry) == Raise(TypeError)
    decreases |ws|
  {
    var front := ws[..|ws| - 1];
    SweptRaises(a, front, true, name, tooOld, retry);
    if k < |front| {
      assert front[k] == ws[k];
      SweptVideoFails(a, front, name, tooOld, retry, k);
    }
  }

  // ---------------------------------------------------------------------------
  // The sweep as the source performs it

  /** Lines 42-61: the comprehension over `working`, with `keep_task` updating the job and the index. */
  method KeepTasks(job0: Job, ix0: Index, tooOld: real, retry: bool) returns (r: Outcome<(Job, Index)>)
    ensures r == Sweep(job0, ix0, tooOld, retry)
  {
    var ws := job0.working;
    var job := job0;
    var kept: seq<Work> := [];
    var ix := ix0;
    var i := 0;
    while i < |ws|
      invariant 0 <= i <= |ws|
      invariant job == job0.(todo := job.todo, failed := job.failed, errors := job.errors)
      invariant Swept(Start(job0, ix0), ws[..i], job0.video, job0.name, tooOld, retry)
        == Ok(Acc(job.todo, job.failed, job.errors, kept, ix))
    {
      var w := ws[i];
      assert ws[..i + 1][..i] == ws[..i];
      if w.seen < tooOld {
        if job.video {
          if w.frame.Single? {
            SweptStops(Start(job0, ix0), ws, i + 1, job0.video, job0.name, tooOld, retry);
            return Raise(TypeError);
          }
          job := job.(todo := Range(w.frame.lo, w.frame.hi + 1));
        } else {
          if retry {
            job := job.(todo := job.todo + Numbered(w.frame));
          } else {
            job := job.(failed := job.failed + Numbered(w.frame));
          }
        }
        job := job.(errors := job.errors + 1);
      } else {
        ix := Note(ix, w.ident, job.name, w.frame);
        kept := kept + [w];
      }
      i := i + 1;
    }
    assert ws[..i] == ws;
    return Ok((job.(working := kept), ix));
  }

  /** An exception part-way through ends the whole sweep with it. */
  lemma {:induction false} SweptStops(a: Acc, ws: seq<Work>, i: nat, video: bool, name: string, tooOld: real, retry: bool)
    requires i <= |ws|
    requires Swept(a, ws[..i], video, name, tooOld, retry).Raise?
    ensures Swept(a, ws, video, name, tooOld, retry) == Swept(a, ws[..i], video, name, tooOld, retry)
    decreases |ws|
  {
    if i < |ws| {
      assert ws[..|ws| - 1][..i] == ws[..i];
      SweptStops(a, ws[..|ws| - 1], i, video, name, tooOld, retry);
    } else {
      assert ws[..i] == ws;
    }
  }

  // ---------------------------------------------------------------------------
  // Progress counts and the row

  datatype Counts = Counts(todo: int, working: int, done: int, total: int, percent: real)

  /**
   * Lines 66-78.  A video job in progress counts its remaining range as
   * working (a plain frame number there fails at `[0][1]`).
   */
  function Tally(job: Job): Outcome<Counts> {
    var todo := |job.todo|;
    var done := |job.done|;
    if job.video && |job.working| != 0 && job.working[0].frame.Single? then Raise(TypeError)
    else
      var working :=
        if job.video && |job.working| != 0 then job.working[0].frame.hi + 1 - job.working[0].frame.lo - done
        else |job.working|;
      var total := todo + working + done;
      var percent := if total > 0 then 100.0 * (done as real) / (total as real) else 100.0;
      Ok(Counts(todo, working, done, total, percent))
  }

  /** The control the row shows. */
  datatype Control = Complete | Paused | Working

  /** Lines 89-95. */
  function ControlOf(c: Counts, pause: bool): Control {
    if c.done == c.total then Complete
    else if pause then Paused
    else Working
  }

  /** Lines 80-85: the mean-frame-time cell. */
  datatype Mark = VideoMark | Untimed | Seconds(mean: real)

  function MarkOf(job: Job): Mark {
    if job.video then VideoMark
    else if job.timeCount == 0 then Untimed
    else Seconds(job.time)
  }

  /**
   * Lines 66-78 on a job without a video range: the total is the three list
   * lengths, the percentage lies in [0, 100] and is 100 exactly when
   * everything is done, which is when the row shows the done control.
   */
  lemma TallyPlain(job: Job, pause: bool)
    requires !job.video || |job.working| == 0
    ensures Tally(job).Ok?
    ensures var c := Tally(job).value;
      c.total == |job.todo| + |job.working| + |job.done|
      && 0.0 <= c.percent <= 100.0
      && (c.percent == 100.0 <==> c.done == c.total)
      && (ControlOf(c, pause) == Complete <==> c.percent == 100.0)
  {
    var c := Tally(job).value;
    if c.total > 0 {
      var d := c.done as real;
      var t := c.total as real;
      assert 0.0 <= d <= t;
      assert 100.0 * d <= 100.0 * t;
      assert c.percent * t == 100.0 * d;
      if c.percent == 100.0 {
        assert 100.0 * t == 100.0 * d;
      }
    }
  }

  /**
   * Lines 70-71: a video in progress counts its whole range as working or
   * done, so its total is todo plus the length of the range.
   */
  lemma TallyVideo(job: Job)
    requires job.video && |job.working| != 0 && job.working[0].frame.Span?
    ensures Tally(job).Ok?
    ensures var f := job.working[0].frame;
      Tally(job).value.total == |job.todo| + (f.hi + 1 - f.lo)
      && Tally(job).value.working + Tally(job).value.done == f.hi + 1 - f.lo
  {
  }

  /** One row of the job table (the project's display name and the priority widget are left out). */
  datatype Row = Row(uuid: string, name: string, errors: int, mark: Mark, counts: Counts, control: Control)

  /** Lines 40-98 for one job: sweep, count, and the row. */
  function RowOf(job: Job, ix: Index, tooOld: real, retry: bool): Outcome<(Row, Index)>
  {
    match Sweep(job, ix, tooOld, retry)
    case Raise(e) => Raise(e)
    case Ok((j, ix')) =>
      match Tally(j)
      case Raise(e) => Raise(e)
      case Ok(c) => Ok((Row(j.uuid, j.name, j.errors, MarkOf(j), c, ControlOf(c, j.pause)), ix'))
  }

  /** Lines 37-38: the order of the table, by project then name. */
  function ByProjectName(): (Job, Job) -> bool {
    (a: Job, b: Job) => StrLe(a.project + a.name, b.project + b.name)
  }

  /** Lines 40-98 over the sorted list: the rows and the node index they build. */
  function Rows(jobs: seq<Job>, ix: Index, tooOld: real, retry: bool): Outcome<(seq<Row>, Index)>
    decreases |jobs|
  {
    if |jobs| == 0 then Ok(([], ix))
    else
      match Rows(jobs[..|jobs| - 1], ix, tooOld, retry)
      case Raise(e) => Raise(e)
      case Ok((rows, ix')) =>
        match RowOf(jobs[|jobs| - 1], ix', tooOld, retry)
        case Raise(e) => Raise(e)
        case Ok((row, ix'')) => Ok((rows + [row], ix''))
  }

  /** One row per job, for that job, in the order given. */
  lemma {:induction false} RowsMatch(jobs: seq<Job>, ix: Index, tooOld: real, retry: bool)
    ensures var r := Rows(jobs, ix, tooOld, retry);
      r.Ok? ==> |r.value.0| == |jobs| && forall k :: 0 <= k < |jobs| ==>
        r.value.0[k].uuid == jobs[k].uuid && r.value.0[k].name == jobs[k].name
    decreases |jobs|
  {
    if |jobs| > 0 {
      var front := jobs[..|jobs| - 1];
      RowsMatch(front, ix, tooOld, retry);
    }
  }

  /** Lines 40-98 for one job: the sweep, the counts, the control and the row. */
  method MakeRow(job0: Job, ix: Index, tooOld: real, retry: bool) returns (r: Outcome<(Row, Index)>)
    ensures r == RowOf(job0, ix, tooOld, retry)
  {
    var swept := KeepTasks(job0, ix, tooOld, retry);
    if swept.Raise? {
      return Raise(swept.error);
    }
    var (job, ix') := swept.value;
    var counts := Tally(job);
    if counts.Raise? {
      return Raise(counts.error);
    }
    var c := counts.value;
    var control := if c.done == c.total then Complete else if job.pause then Paused else Working;
    return Ok((Row(job.uuid, job.name, job.errors, MarkOf(job), c, control), ix'));
  }

  /** Lines 36-38: the jobs in project-and-name order, one row each. */
  method Table(listed: seq<Job>, tooOld: real, retry: bool) returns (r: Outcome<(seq<Row>, Index)>)
    ensures r == Rows(Sort(listed, ByProjectName()), map[], tooOld, retry)
  {
    var jobs := Sort(listed, ByProjectName());
    r := Build(jobs, tooOld, retry);
  }

  /** The loop of lines 40-98 over the jobs, one row each, sharing one node index. */
  method Build(jobs: seq<Job>, tooOld: real, retry: bool) returns (r: Outcome<(seq<Row>, Index)>)
    ensures r == Rows(jobs, map[], tooOld, retry)
  {
    var rows: seq<Row> := [];
    var ix: Index := map[];
    var i := 0;
    while i < |jobs|
      invariant 0 <= i <= |jobs|
      invariant Rows(jobs[..i], map[], tooOld, retry) == Ok((rows, ix))
    {
      assert jobs[..i + 1][..i] == jobs[..i];
      var made := MakeRow(jobs[i], ix, tooOld, retry);
      if made.Raise? {
        RowsStop(jobs, i + 1, tooOld, retry);
        return Raise(made.error);
      }
      rows := rows + [made.value.0];
      ix := made.value.1;
      i := i + 1;
    }
    assert jobs[..i] == jobs;
    return Ok((rows, ix));
  }

  /** An exception at one job ends the table with it. */
  lemma {:induction false} RowsStop(jobs: seq<Job>, i: nat, tooOld: real, retry: bool)
    requires 0 < i <= |jobs|
    requires Rows(jobs[..i], map[], tooOld, retry).Raise?
    ensures Rows(jobs, map[], tooOld, retry) == Rows(jobs[..i], map[], tooOld, retry)
    decreases |jobs|
  {
    if i < |jobs| {
      assert jobs[..|jobs| - 1][..i] == jobs[..i];
      RowsStop(jobs[..|jobs| - 1], i, tooOld, retry);
    } else {
      assert jobs[..i] == jobs;
    }
  }

  /** The table is in project-and-name order. */
  lemma TableSorted(listed: seq<Job>)
    ensures Sorted(Sort(listed, ByProjectName()), ByProjectName())
  {
    var le := ByProjectName();
    forall a: Job, b: Job ensures le(a, b) || le(b, a) {
      StrLeTotal(a.project + a.name, b.project + b.name);
    }
    forall a: Job, b: Job, c: Job | le(a, b) && le(b, c) ensures le(a, c) {
      StrLeTrans(a.project + a.name, b.project + b.name, c.project + c.name);
    }
    SortSorted(listed, le);
  }
}
