/**
 * The RenderMan render slot of a node (node/prman_worker.py).  A task names
 * one frame; the worker looks up the list of shell commands the job's
 * Alfred file gives for that frame and runs them one after the other, each
 * in a thread that waits for the process and then calls `onExit`, which
 * moves a cursor (`frameCommandsTODO`, the number of commands still to
 * run) and starts the next command.
 *
 * As for the Blender worker, a child process is seen only through what
 * `poll()` would answer (`Worker.Proc`).  The end of a process (lines
 * 304-306, the thread's `communicate()` returning) and the callback that
 * follows (`onExit`, lines 247-273) are two separate steps, since the
 * node's own thread may poll the worker between them.  What each step does
 * is specified on a `PView` of the fields; the methods of `PrmanWorker`
 * change the fields as the source does and are proved to follow the view.
 */
module PrmanWorker {
  import opened Py
  import opened Jobs
  import opened Farm
  import W = Worker

  /** The fields of a RenderMan worker; `commands` holds the `command` string of each entry of `frameCommands`. */
  datatype PView = PView(threads: int, proc: W.Proc, uuid: string, fn: string, frame: Frame, cwd: string,
                         commands: seq<string>, todo: int, start: real, outLogs: seq<string>, errLogs: seq<string>)

  /**
   * What every step keeps: the cursor stays within the command list, a
   * running process has a command left, and without a process none is left.
   */
  predicate Sane(v: PView) {
    0 <= v.todo <= |v.commands| && (v.proc.Running? ==> v.todo > 0) && (v.proc == W.NoProc ==> v.todo == 0)
  }

  /** Lines 53-65: busy while commands are left, and otherwise while the process runs. */
  predicate IsBusy(v: PView) {
    v.todo > 0 || v.proc.Running?
  }

  /**
   * Lines 67-79: what the node may wait on.  While commands are left it is
   * a stand-in whose `poll()` answers None, that is one that runs.
   */
  function WaitOn(v: PView): W.Proc {
    if v.todo > 0 then W.Running else if v.proc.Running? then v.proc else W.NoProc
  }

  /** Lines 82-107: the message `state` gives, and the fields afterwards. */
  function Polled(v: PView, now: real): (Option<Request>, PView) {
    if v.proc == W.NoProc then (None, v)
    else if v.todo > 0 || v.proc.Running? then (Some(Progress(v.uuid, v.frame, 0, 1)), v)
    else if v.proc == W.Exited(0) then (Some(Finished(v.uuid, v.frame, now - v.start)), v.(proc := W.NoProc))
    else (None, v)
  }

  // ---------------------------------------------------------------------------
  // Rewriting a command line (lines 162-214)

  /**
   * Lines 171-180: where the value of `-cwd` ends, scanning from `i`: at
   * the first space when no quote came first, or at the quote that closes
   * the first one; -1 when neither comes.
   */
  function CwdEnd(c: string, i: nat, quoted: bool): (e: int)
    ensures e == -1 || i <= e < |c|
    decreases |c| - i
  {
    if i >= |c| then -1
    else if c[i] == '"' && quoted then i
    else if c[i] == '"' then CwdEnd(c, i + 1, true)
    else if !quoted && c[i] == ' ' then i
    else CwdEnd(c, i + 1, quoted)
  }

  /**
   * Lines 162-191 as written: the text replaced runs from `-cwd` up to and
   * including the character that ended the value, which for an unquoted
   * value is the space in front of the next argument.
   */
  function ReplaceCwdAsWritten(c: string, rep: string): string {
    match CwdTargetAsWritten(c)
    case None => c
    case Some(t) => Replace(c, t, rep)
  }

  /** The text replaced as written: from `-cwd` up to and including the character that ended the value. */
  function CwdTargetAsWritten(c: string): Option<string> {
    var s := Find(c, " -cwd");
    if s == -1 then None
    else
      var e := CwdEnd(c, s + 6, false);
      if e == -1 then None else Some(c[s + 1..e + 1])
  }

  /** The text `replace_cwd_arg` replaces, when it finds one: `-cwd` and its value, the closing quote included, the space after it not. */
  function CwdTarget(c: string): Option<string> {
    var s := Find(c, " -cwd");
    if s == -1 then None
    else
      var e := CwdEnd(c, s + 6, false);
      if e == -1 then None
      else Some(if c[e] == '"' then c[s + 1..e + 1] else c[s + 1..e])
  }

  /** Lines 162-191 with the space after an unquoted value kept. */
  function ReplaceCwd(c: string, rep: string): string {
    match CwdTarget(c)
    case None => c
    case Some(t) => Replace(c, t, rep)
  }

  /**
   * Lines 193-214 as written: the text replaced runs from `-t` up to and
   * including the first space from three characters on, so the next
   * argument is glued to the new one.
   */
  function ReplaceThreadsAsWritten(c: string, n: int): string {
    var s := Find(c, "-t");
    var arg := "-t:" + IntToString(n);
    if s == -1 then c + " " + arg
    else if OccursAt(c, "-t:-1", s) then Replace(c, "-t:-1", arg)
    else
      var e := FindFrom(c, " ", s + 3);
      if e == -1 then c else Replace(c, c[s..e + 1], arg)
  }

  /** Lines 193-214 with the space after the old argument kept. */
  function ReplaceThreads(c: string, n: int): string {
    var s := Find(c, "-t");
    var arg := "-t:" + IntToString(n);
    if s == -1 then c + " " + arg
    else if OccursAt(c, "-t:-1", s) then Replace(c, "-t:-1", arg)
    else
      var e := FindFrom(c, " ", s + 3);
      if e == -1 then c else Replace(c, c[s..e], arg)
  }

  /**
   * Lines 226-242: the command actually run.  `denoise` stands for
   * `replace_denoise_paths` (a regular expression over the quoted paths,
   * made absolute under the worker's directory); `override` is the
   * configuration's `prman_override_thread_count`.
   */
  function Prepared(cmd: string, cwd: string, threads: int, override: bool, denoise: string -> string): string {
    if StartsWith(cmd, "denoise") then
      var c := denoise(cmd);
      if override then ReplaceThreads(c, threads) else c
    else if StartsWith(cmd, "prman") then
      var c := ReplaceCwd(cmd, "-cwd \"" + cwd + "\"");
      if override then ReplaceThreads(c, threads) else c
    else cmd
  }

  // ---------------------------------------------------------------------------
  // The command cursor (lines 110-143 and 224-273)

  /** Python's `s[i]`, negative indices counting from the end. */
  function At(s: seq<string>, i: int): (r: Outcome<string>)
    ensures r.Ok? <==> -|s| <= i < |s|
    ensures 0 <= i < |s| ==> r == Ok(s[i])
  {
    if 0 <= i < |s| then Ok(s[i])
    else if -|s| <= i < 0 then Ok(s[|s| + i])
    else Raise(IndexError)
  }

  /** Lines 224-245: start the command under the cursor, `len - TODO`, and the fields afterwards. */
  function Launched(v: PView, now: real, override: bool, denoise: string -> string): (Outcome<string>, PView) {
    match At(v.commands, |v.commands| - v.todo)
    case Raise(e) => (Raise(e), v)
    case Ok(cmd) => (Ok(Prepared(cmd, v.cwd, v.threads, override, denoise)), v.(proc := W.Running, start := now))
  }

  /**
   * Lines 110-143: what `run` starts (None when it drops the task) and the
   * fields afterwards.  `local` is what the node's `to_local` makes of the
   * task's file, `dir` the directory the file is in, and `frames` the
   * commands per frame of the task's `prmanCommands`, keyed by the frame's
   * decimal text.
   */
  function Started(v: PView, task: Task, local: Outcome<string>, frames: map<string, seq<string>>, dir: string,
                   override: bool, denoise: string -> string, now: real): (Outcome<Option<string>>, PView)
  {
    if task.frame.Span? then (Ok(None), v)
    else
      var v1 := v.(uuid := task.uuid, frame := task.frame);
      match local
      case Raise(e) => (Raise(e), v1)
      case Ok(fn) =>
        var v2 := v1.(fn := fn, cwd := dir);
        var key := IntToString(task.frame.n);
        if key !in frames then (Raise(KeyError), v2)
        else
          var (r, w) := Launched(v2.(commands := frames[key], todo := |frames[key]|), now, override, denoise);
          (if r.Raise? then Raise(r.error) else Ok(Some(r.value)), w)
  }

  /** Lines 304-306: the running command ends with `code`, printing `out` and `err`. */
  function Ended(v: PView, code: int, out: string, err: string): PView {
    v.(proc := if v.proc == W.NoProc then W.NoProc else W.Exited(code), outLogs := v.outLogs + [out], errLogs := v.errLogs + [err])
  }

  /**
   * Lines 247-273 as written: one command fewer to go; the next one starts
   * while some are left, and after the last the process and the logs are
   * dropped.
   */
  function OnExitedAsWritten(v: PView, now: real, override: bool, denoise: string -> string): (Outcome<Option<string>>, PView) {
    var t := v.todo - 1;
    if t > 0 then
      var (r, w) := Launched(v.(todo := t), now, override, denoise);
      (if r.Raise? then Raise(r.error) else Ok(Some(r.value)), w)
    else (Ok(None), v.(todo := 0, proc := W.NoProc, outLogs := [], errLogs := []))
  }

  /** Lines 247-273 with the ended process kept after the last command, so that `state` can report it. */
  function OnExited(v: PView, now: real, override: bool, denoise: string -> string): (Outcome<Option<string>>, PView) {
    var t := v.todo - 1;
    if t > 0 then
      var (r, w) := Launched(v.(todo := t), now, override, denoise);
      (if r.Raise? then Raise(r.error) else Ok(Some(r.value)), w)
    else (Ok(None), v.(todo := 0, outLogs := [], errLogs := []))
  }

  /** Lines 145-151: only the process of this very task is killed, and no command is left. */
  function Killed(v: PView, uuid: string, frame: Frame): PView {
    if v.proc != W.NoProc && uuid == v.uuid && frame == v.frame then v.(todo := 0, proc := W.NoProc) else v
  }

  /** Lines 153-159. */
  function KilledAll(v: PView): PView {
    if v.proc != W.NoProc then v.(todo := 0, proc := W.NoProc) else v
  }

  /** One process end and the time its `onExit` runs. */
  datatype End = End(code: int, out: string, err: string, at: real)

  /** A run of process ends, each followed by its `onExit`: what the callbacks start, and the fields afterwards. */
  function Exits(v: PView, ends: seq<End>, override: bool, denoise: string -> string): (seq<Outcome<Option<string>>>, PView)
    decreases |ends|
  {
    if |ends| == 0 then ([], v)
    else
      var (rs, w) := Exits(v, ends[..|ends| - 1], override, denoise);
      var e := ends[|ends| - 1];
      var (r, x) := OnExited(Ended(w, e.code, e.out, e.err), e.at, override, denoise);
      (rs + [r], x)
  }

  // ---------------------------------------------------------------------------
  // Busy, state and the invariant

  /** Lines 53-79: the node has something to wait on exactly when the worker is busy, the stand-in while commands are left. */
  lemma WaitableWhenBusy(v: PView)
    ensures WaitOn(v) != W.NoProc <==> IsBusy(v)
    ensures v.todo > 0 ==> WaitOn(v) == W.Running
    ensures v.todo <= 0 ==> WaitOn(v) == (if v.proc.Running? then v.proc else W.NoProc)
  {
  }

  /**
   * Lines 82-107: a report while busy, a done message (and the process
   * forgotten) when the last command exited with 0, nothing otherwise.
   */
  lemma PolledFacts(v: PView, now: real)
    requires Sane(v)
    ensures var (r, w) := Polled(v, now);
      && (r.Some? <==> IsBusy(v) || v.proc == W.Exited(0))
      && (IsBusy(v) ==> r == Some(Progress(v.uuid, v.frame, 0, 1)) && w == v)
      && (!IsBusy(v) && v.proc == W.Exited(0) ==> r == Some(Finished(v.uuid, v.frame, now - v.start)) && w == v.(proc := W.NoProc))
      && (r.None? ==> w == v)
      && Sane(w)
  {
  }

  /** Every step keeps the invariant; `run` is only called on a worker that is not busy, and `onExit` follows the end of the process. */
  lemma SaneKept(v: PView, code: int, out: string, err: string, now: real, override: bool, denoise: string -> string,
                 uuid: string, frame: Frame)
    requires Sane(v)
    ensures Sane(Polled(v, now).1)
    ensures Sane(Ended(v, code, out, err))
    ensures !v.proc.Running? ==> Sane(OnExited(v, now, override, denoise).1)
    ensures Sane(Killed(v, uuid, frame)) && Sane(KilledAll(v))
  {
    if !v.proc.Running? && v.todo - 1 > 0 {
      assert 0 <= |v.commands| - (v.todo - 1) < |v.commands|;
    }
  }

  /**
   * Lines 110-143: a task for a frame range is dropped; otherwise the task
   * is taken, the frame's commands looked up by the frame's decimal text
   * (KeyError when missing), the cursor set to their number, and the first
   * one started (IndexError for an empty list).
   */
  lemma StartedFacts(v: PView, task: Task, local: Outcome<string>, frames: map<string, seq<string>>, dir: string,
                     override: bool, denoise: string -> string, now: real)
    requires Sane(v) && !IsBusy(v)
    ensures var (r, w) := Started(v, task, local, frames, dir, override, denoise, now);
      && Sane(w) && w.threads == v.threads
      && (task.frame.Span? ==> r == Ok(None) && w == v)
      && (task.frame.Single? ==> w.uuid == task.uuid && w.frame == task.frame)
      && (task.frame.Single? && local.Raise? ==> r == Raise(local.error) && !IsBusy(w))
      && (task.frame.Single? && local.Ok? ==>
            var key := IntToString(task.frame.n);
            && w.fn == local.value && w.cwd == dir
            && (key !in frames ==> r == Raise(KeyError) && !IsBusy(w))
            && (key in frames ==>
                  && w.commands == frames[key] && w.todo == |frames[key]|
                  && (|frames[key]| == 0 ==> r == Raise(IndexError))
                  && (|frames[key]| > 0 ==>
                        r == Ok(Some(Prepared(frames[key][0], dir, v.threads, override, denoise)))
                        && w.proc.Running? && w.start == now)))
  {
  }

  /**
   * Lines 224-257: while commands are left, each exit moves the cursor on
   * and starts a command, and only the cursor, the process, its start and
   * the logs change.
   */
  lemma {:induction false} ExitsAdvance(v: PView, ends: seq<End>, override: bool, denoise: string -> string)
    requires Sane(v) && v.proc.Running? && |ends| < v.todo
    ensures var (rs, w) := Exits(v, ends, override, denoise);
      && |rs| == |ends| && Sane(w) && w.proc.Running?
      && w == v.(todo := w.todo, proc := w.proc, start := w.start, outLogs := w.outLogs, errLogs := w.errLogs)
      && w.todo == v.todo - |ends|
      && (|ends| > 0 ==> w.start == ends[|ends| - 1].at)
    decreases |ends|
  {
    if |ends| > 0 {
      var front := ends[..|ends| - 1];
      ExitsAdvance(v, front, override, denoise);
      var w := Exits(v, front, override, denoise).1;
      var e := ends[|ends| - 1];
      var u := Ended(w, e.code, e.out, e.err);
      assert 0 <= |u.commands| - (u.todo - 1) < |u.commands|;
    }
  }

  /** Lines 224-257: the commands started after each exit are the next ones in list order, whatever the exit codes. */
  lemma {:induction false} ExitsInOrder(v: PView, ends: seq<End>, override: bool, denoise: string -> string)
    requires Sane(v) && v.proc.Running? && |ends| < v.todo
    ensures var rs := Exits(v, ends, override, denoise).0;
      && |rs| == |ends|
      && forall k :: 0 <= k < |ends| ==>
           rs[k] == Ok(Some(Prepared(v.commands[|v.commands| - v.todo + 1 + k], v.cwd, v.threads, override, denoise)))
    decreases |ends|
  {
    ExitsAdvance(v, ends, override, denoise);
    if |ends| > 0 {
      var n := |ends|;
      var front := ends[..n - 1];
      ExitsInOrder(v, front, override, denoise);
      ExitsAdvance(v, front, override, denoise);
      var (rs, w) := Exits(v, front, override, denoise);
      var e := ends[n - 1];
      var u := Ended(w, e.code, e.out, e.err);
      assert 0 <= |u.commands| - (u.todo - 1) < |u.commands|;
      var r := OnExited(u, e.at, override, denoise).0;
      assert r == Ok(Some(Prepared(v.commands[|v.commands| - v.todo + 1 + (n - 1)], v.cwd, v.threads, override, denoise)));
    }
  }

  /** Lines 247-257 and 270-273 as written: after the last command the process and the logs are dropped, so `state` answers nothing. */
  lemma LastExitAsWritten(v: PView, e: End, override: bool, denoise: string -> string, later: real)
    requires Sane(v) && v.proc.Running? && v.todo == 1
    ensures var (r, w) := OnExitedAsWritten(Ended(v, e.code, e.out, e.err), e.at, override, denoise);
      && r == Ok(None) && w == v.(todo := 0, proc := W.NoProc, outLogs := [], errLogs := [])
      && !IsBusy(w) && Polled(w, later) == (None, w)
  {
  }

  /** The invariant the steps as written keep: a process that ended is only ever seen with commands left. */
  predicate SaneAsWritten(v: PView) {
    Sane(v) && (v.proc.Exited? ==> v.todo > 0)
  }

  /** Lines 82-107 under the steps as written: `state` only ever reports progress and never a finished frame. */
  lemma AsWrittenNeverDone(v: PView, now: real)
    requires SaneAsWritten(v)
    ensures var (r, w) := Polled(v, now);
      w == v && (r.Some? ==> r.value == Progress(v.uuid, v.frame, 0, 1))
  {
  }

  /** Every step as written keeps `SaneAsWritten`. */
  lemma AsWrittenKept(v: PView, code: int, out: string, err: string, now: real, override: bool, denoise: string -> string,
                      uuid: string, frame: Frame, task: Task, local: Outcome<string>, frames: map<string, seq<string>>, dir: string)
    requires SaneAsWritten(v)
    ensures SaneAsWritten(Polled(v, now).1)
    ensures SaneAsWritten(Ended(v, code, out, err))
    ensures !v.proc.Running? ==> SaneAsWritten(OnExitedAsWritten(v, now, override, denoise).1)
    ensures !IsBusy(v) ==> SaneAsWritten(Started(v, task, local, frames, dir, override, denoise, now).1)
    ensures SaneAsWritten(Killed(v, uuid, frame)) && SaneAsWritten(KilledAll(v))
  {
    if !v.proc.Running? && v.todo - 1 > 0 {
      assert 0 <= |v.commands| - (v.todo - 1) < |v.commands|;
    }
  }

  /**
   * With the ended process kept, the first `state` after the last command
   * reports the frame done once, timed from the start of that command, and
   * a failed last command leaves the worker idle with nothing to report.
   */
  lemma LastExitReportsDone(v: PView, e: End, override: bool, denoise: string -> string, later: real, again: real)
    requires Sane(v) && v.proc.Running? && v.todo == 1
    ensures var (r, w) := OnExited(Ended(v, e.code, e.out, e.err), e.at, override, denoise);
      var (m, x) := Polled(w, later);
      && r == Ok(None) && !IsBusy(w) && Sane(w) && w.outLogs == [] && w.errLogs == []
      && (e.code == 0 ==> m == Some(Finished(v.uuid, v.frame, later - v.start)) && Polled(x, again) == (None, x))
      && (e.code != 0 ==> m == None && x == w)
  {
  }

  /**
   * Lines 145-159: `kill` acts only on the running task's uuid and frame,
   * and afterwards, as after `kill_all`, the worker is idle with nothing to report.
   */
  lemma KillFacts(v: PView, uuid: string, frame: Frame, now: real)
    requires Sane(v)
    ensures Killed(v, uuid, frame) != v ==> uuid == v.uuid && frame == v.frame
    ensures uuid == v.uuid && frame == v.frame ==>
      !IsBusy(Killed(v, uuid, frame)) && Polled(Killed(v, uuid, frame), now).0 == None
    ensures !IsBusy(KilledAll(v)) && Polled(KilledAll(v), now).0 == None
  {
  }

  // ---------------------------------------------------------------------------
  // The rewriters

  /** Scanning inside a quote: the end is the next quote. */
  lemma {:induction false} CwdEndQuoted(c: string, i: nat)
    ensures var e := CwdEnd(c, i, true);
      && (e != -1 ==> c[e] == '"' && forall k :: i <= k < e ==> c[k] != '"')
      && (e == -1 ==> forall k :: i <= k < |c| ==> c[k] != '"')
    decreases |c| - i
  {
    if i < |c| && c[i] != '"' {
      CwdEndQuoted(c, i + 1);
    }
  }

  /**
   * Lines 171-180: an unquoted value ends at the first space, with no quote
   * before it; a quoted one at the second quote, with no space before the
   * first; and when no end is found there is no space before the first
   * quote and no second quote.
   */
  lemma CwdEndFacts(c: string, i: nat)
    ensures var e := CwdEnd(c, i, false);
      && (e != -1 ==> c[e] == ' ' || c[e] == '"')
      && (e != -1 && c[e] == ' ' ==> forall k :: i <= k < e ==> c[k] != ' ' && c[k] != '"')
      && (e != -1 && c[e] == '"' ==>
            exists q :: i <= q < e && c[q] == '"' && (forall k :: i <= k < q ==> c[k] != ' ' && c[k] != '"')
                                   && (forall k :: q < k < e ==> c[k] != '"'))
      && (e == -1 ==> forall k, l :: i <= k < l < |c| && c[k] == '"' ==> c[l] != '"')
      && (e == -1 ==> forall k :: i <= k < |c| && c[k] == ' ' ==> exists q :: i <= q < k && c[q] == '"')
  {
    CwdEndFound(c, i);
    CwdEndMissing(c, i);
  }

  /** The half of `CwdEndFacts` about an end that is found. */
  lemma {:induction false} CwdEndFound(c: string, i: nat)
    ensures var e := CwdEnd(c, i, false);
      && (e != -1 ==> c[e] == ' ' || c[e] == '"')
      && (e != -1 && c[e] == ' ' ==> forall k :: i <= k < e ==> c[k] != ' ' && c[k] != '"')
      && (e != -1 && c[e] == '"' ==>
            exists q :: i <= q < e && c[q] == '"' && (forall k :: i <= k < q ==> c[k] != ' ' && c[k] != '"')
                                   && (forall k :: q < k < e ==> c[k] != '"'))
    decreases |c| - i
  {
    if i < |c| {
      if c[i] == '"' {
        CwdEndQuoted(c, i + 1);
        var e := CwdEnd(c, i, false);
        if e != -1 {
          assert c[i] == '"' && forall k :: i < k < e ==> c[k] != '"';
        }
      } else if c[i] != ' ' {
        CwdEndFound(c, i + 1);
        var e := CwdEnd(c, i, false);
        if e != -1 && c[e] == '"' {
          var q :| i + 1 <= q < e && c[q] == '"' && (forall k :: i + 1 <= k < q ==> c[k] != ' ' && c[k] != '"')
                                   && (forall k :: q < k < e ==> c[k] != '"');
          assert forall k :: i <= k < q ==> c[k] != ' ' && c[k] != '"';
        }
      }
    }
  }

  /** The half of `CwdEndFacts` about an end that is not found. */
  lemma {:induction false} CwdEndMissing(c: string, i: nat)
    ensures var e := CwdEnd(c, i, false);
      && (e == -1 ==> forall k, l :: i <= k < l < |c| && c[k] == '"' ==> c[l] != '"')
      && (e == -1 ==> forall k :: i <= k < |c| && c[k] == ' ' ==> exists q :: i <= q < k && c[q] == '"')
    decreases |c| - i
  {
    if i < |c| {
      if c[i] == '"' {
        CwdEndQuoted(c, i + 1);
      } else if c[i] != ' ' {
        CwdEndMissing(c, i + 1);
        var e := CwdEnd(c, i, false);
        if e == -1 {
          forall k | i <= k < |c| && c[k] == ' ' ensures exists q :: i <= q < k && c[q] == '"' {
            var q :| i + 1 <= q < k && c[q] == '"';
          }
        }
      }
    }
  }

  /** Lines 165-167 and 182-183: without ` -cwd`, or without an end to its value, the command is left as it is. */
  lemma CwdUnchanged(c: string, rep: string)
    ensures !Contains(c, " -cwd") ==> CwdTarget(c).None?
    ensures CwdTarget(c).None? ==> ReplaceCwd(c, rep) == c && ReplaceCwdAsWritten(c, rep) == c
  {
  }

  /**
   * Lines 165-191: what `replace_cwd_arg` replaces is `-cwd` and its value,
   * either quoted, up to the closing quote, or unquoted, up to and without
   * the space that ends it.
   */
  lemma CwdTargetFacts(c: string)
    ensures CwdTarget(c).Some? ==>
      var s := Find(c, " -cwd");
      var t := CwdTarget(c).value;
      && 5 <= |t| && OccursAt(c, " -cwd", s) && OccursAt(c, t, s + 1)
      && (|| (t[|t| - 1] == '"' && exists q :: 5 <= q < |t| - 1 && t[q] == '"')
          || (s + 1 + |t| < |c| && c[s + 1 + |t|] == ' ' && forall k :: 5 <= k < |t| ==> t[k] != ' ' && t[k] != '"'))
  {
    var s := Find(c, " -cwd");
    if s != -1 {
      var e := CwdEnd(c, s + 6, false);
      CwdEndFacts(c, s + 6);
      if e != -1 {
        var t := CwdTarget(c).value;
        if c[e] == '"' {
          var q :| s + 6 <= q < e && c[q] == '"';
          assert t[q - s - 1] == c[q];
        } else {
          forall k | 5 <= k < |t| ensures t[k] != ' ' && t[k] != '"' {
            assert t[k] == c[s + 1 + k];
          }
        }
      }
    }
  }

  /**
   * Lines 183-189: as written the text replaced is the same for a quoted
   * value, and for an unquoted one it takes the space after the value too.
   */
  lemma CwdAsWrittenTakesSpace(c: string)
    ensures CwdTarget(c).None? <==> CwdTargetAsWritten(c).None?
    ensures CwdTarget(c).Some? ==>
      var s := Find(c, " -cwd");
      var t := CwdTarget(c).value;
      || CwdTargetAsWritten(c) == CwdTarget(c)
      || (s + 1 + |t| < |c| && c[s + 1 + |t|] == ' ' && CwdTargetAsWritten(c) == Some(t + " "))
  {
    var s := Find(c, " -cwd");
    if s != -1 {
      var e := CwdEnd(c, s + 6, false);
      CwdEndFacts(c, s + 6);
      if e != -1 && c[e] != '"' {
        SliceSnoc(c, s + 1, e);
      }
    }
  }

  lemma SliceSnoc(c: string, i: nat, j: nat)
    requires i <= j < |c|
    ensures c[i..j + 1] == c[i..j] + [c[j]]
  {
  }

  /** Lines 193-214: what `replace_threads_arg` replaces. */
  lemma ThreadsFacts(c: string, n: int)
    ensures var s := Find(c, "-t");
      var arg := "-t:" + IntToString(n);
      && (s == -1 ==> ReplaceThreads(c, n) == c + " " + arg)
      && (s != -1 && OccursAt(c, "-t:-1", s) ==> ReplaceThreads(c, n) == Replace(c, "-t:-1", arg))
      && (s != -1 && !OccursAt(c, "-t:-1", s) ==>
            var e := FindFrom(c, " ", s + 3);
            && (e == -1 ==> ReplaceThreads(c, n) == c && forall k :: s + 3 <= k < |c| ==> c[k] != ' ')
            && (e != -1 ==> c[e] == ' ' && forall k :: s + 3 <= k < e ==> c[k] != ' '))
  {
    var s := Find(c, "-t");
    if s != -1 && !OccursAt(c, "-t:-1", s) {
      var e := FindFrom(c, " ", s + 3);
      FindSpace(c, s + 3);
    }
  }

  /** `s.find(' ', start)` is the first space at or after `start`. */
  lemma {:induction false} FindSpace(s: string, start: nat)
    ensures var r := FindFrom(s, " ", start);
      && (r != -1 ==> start <= r < |s| && s[r] == ' ' && forall k :: start <= k < r ==> s[k] != ' ')
      && (r == -1 ==> forall k :: start <= k < |s| ==> s[k] != ' ')
    decreases |s| - start
  {
    if start + 1 <= |s| {
      assert s[start..start + 1] == [s[start]];
      if s[start] != ' ' {
        FindSpace(s, start + 1);
      }
    }
  }

  /** Where `replace_threads_arg` looks in a command that starts with its thread argument. */
  lemma ThreadsAtStart(d: string, rest: string)
    requires ' ' !in d
    ensures var c := "-t:" + d + " " + rest;
      && Find(c, "-t") == 0 && FindFrom(c, " ", 3) == 3 + |d|
      && c == ("-t:" + d) + (" " + rest) && c == ("-t:" + d + " ") + rest
  {
    var c := "-t:" + d + " " + rest;
    assert OccursAt(c, "-t", 0);
    forall k | 3 <= k < 3 + |d| ensures !OccursAt(c, " ", k) {
      assert c[k] == d[k - 3];
    }
    assert OccursAt(c, " ", 3 + |d|);
  }

  /**
   * A command that starts with its thread argument: the new argument keeps
   * the space after the old one.
   */
  lemma ThreadsSpaceKept(d: string, rest: string, n: int)
    requires ' ' !in d && !OccursAt("-t:" + d + " " + rest, "-t:-1", 0)
    ensures ReplaceThreads("-t:" + d + " " + rest, n) == "-t:" + IntToString(n) + Replace(" " + rest, "-t:" + d, "-t:" + IntToString(n))
  {
    var c := "-t:" + d + " " + rest;
    ThreadsAtStart(d, rest);
    assert c[0..3 + |d|] == "-t:" + d;
    ReplaceAtStart(c, "-t:" + d, "-t:" + IntToString(n), " " + rest);
  }

  /** The same command as written: the next argument is glued to the new one. */
  lemma ThreadsSpaceLost(d: string, rest: string, n: int)
    requires ' ' !in d && !OccursAt("-t:" + d + " " + rest, "-t:-1", 0)
    ensures ReplaceThreadsAsWritten("-t:" + d + " " + rest, n) == "-t:" + IntToString(n) + Replace(rest, "-t:" + d + " ", "-t:" + IntToString(n))
  {
    var c := "-t:" + d + " " + rest;
    ThreadsAtStart(d, rest);
    assert c[0..3 + |d| + 1] == "-t:" + d + " ";
    ReplaceAtStart(c, "-t:" + d + " ", "-t:" + IntToString(n), rest);
  }

  /** Lines 193-214 on `-t:4 f`: as written the file name is glued to the new argument. */
  lemma ThreadsGlue()
    ensures ReplaceThreadsAsWritten("-t:4 f", 8) == "-t:8f"
  {
    ThreadsExample();
    ThreadsSpaceLost("4", "f", 8);
    assert Replace("f", "-t:4 ", "-t:8") == "f";
    assert "-t:" + "8" + "f" == "-t:8f";
  }

  /** The same command with the space kept. */
  lemma ThreadsKept()
    ensures ReplaceThreads("-t:4 f", 8) == "-t:8 f"
  {
    ThreadsExample();
    ThreadsSpaceKept("4", "f", 8);
    assert Replace("f", "-t:4", "-t:8") == "f";
    assert Replace(" f", "-t:4", "-t:8") == " f";
    assert "-t:" + "8" + " f" == "-t:8 f";
  }

  lemma ThreadsExample()
    ensures IntToString(8) == "8" && !OccursAt("-t:4 f", "-t:-1", 0) && "-t:" + "4" + " " + "f" == "-t:4 f"
  {
    assert IntToString(8) == "8";
    assert "-t:4 f"[0..5][3] != "-t:-1"[3];
  }

  /** An unquoted value ends at the first space. */
  lemma {:induction false} CwdEndPlain(c: string, i: nat, j: nat)
    requires i <= j < |c| && c[j] == ' ' && forall k :: i <= k < j ==> c[k] != ' ' && c[k] != '"'
    ensures CwdEnd(c, i, false) == j
    decreases j - i
  {
    if i < j {
      CwdEndPlain(c, i + 1, j);
    }
  }

  /** Where `replace_cwd_arg` looks in ` -cwd x rest` for an unquoted `x`. */
  lemma CwdPlainEnd(x: string, rest: string)
    requires ' ' !in x && '"' !in x
    ensures var c := " -cwd " + x + " " + rest;
      Find(c, " -cwd") == 0 && CwdEnd(c, 6, false) == 6 + |x|
  {
    var c := " -cwd " + x + " " + rest;
    assert OccursAt(c, " -cwd", 0);
    forall k | 6 <= k < 6 + |x| ensures c[k] != ' ' && c[k] != '"' {
      assert c[k] == x[k - 6];
    }
    CwdEndPlain(c, 6, 6 + |x|);
  }

  /** What `replace_cwd_arg` replaces in ` -cwd x rest` for an unquoted `x`. */
  lemma CwdPlain(x: string, rest: string)
    requires ' ' !in x && '"' !in x
    ensures var c := " -cwd " + x + " " + rest;
      CwdTargetAsWritten(c) == Some("-cwd " + x + " ") && CwdTarget(c) == Some("-cwd " + x)
  {
    var c := " -cwd " + x + " " + rest;
    CwdPlainEnd(x, rest);
    assert c[1..7 + |x|] == "-cwd " + x + " ";
    assert c[1..6 + |x|] == "-cwd " + x;
  }

  /**
   * ` -cwd x rest` for an unquoted `x` as written: the text after the
   * value loses its leading space and is glued to the new argument.
   */
  lemma CwdSpaceLost(x: string, rest: string, rep: string)
    requires ' ' !in x && '"' !in x
    ensures ReplaceCwdAsWritten(" -cwd " + x + " " + rest, rep) == " " + rep + Replace(rest, "-cwd " + x + " ", rep)
  {
    var t := "-cwd " + x + " ";
    CwdPlain(x, rest);
    Regroup(x, rest);
    ReplaceSpace(t + rest, t, rep);
    ReplaceAtStart(t + rest, t, rep, rest);
  }

  /** The same command with the space kept. */
  lemma CwdSpaceKept(x: string, rest: string, rep: string)
    requires ' ' !in x && '"' !in x
    ensures ReplaceCwd(" -cwd " + x + " " + rest, rep) == " " + rep + Replace(" " + rest, "-cwd " + x, rep)
  {
    var t := "-cwd " + x;
    CwdPlain(x, rest);
    Regroup(x, rest);
    ReplaceSpace(t + (" " + rest), t, rep);
    ReplaceAtStart(t + (" " + rest), t, rep, " " + rest);
  }

  /** Lines 162-191 on ` -cwd x y`: as written `y` is glued to the new argument. */
  lemma CwdGlue()
    ensures ReplaceCwdAsWritten(" -cwd x y", "R") == " Ry"
  {
    CwdSpaceLost("x", "y", "R");
    assert " -cwd " + "x" + " " + "y" == " -cwd x y";
    assert Replace("y", "-cwd " + "x" + " ", "R") == "y";
  }

  lemma Regroup(x: string, rest: string)
    ensures " -cwd " + x + " " + rest == " " + (("-cwd " + x + " ") + rest)
    ensures " -cwd " + x + " " + rest == " " + (("-cwd " + x) + (" " + rest))
  {
  }

  /** A leading space that the pattern does not start with is kept. */
  lemma ReplaceSpace(u: string, pat: string, rep: string)
    requires |pat| > 0 && pat[0] != ' '
    ensures Replace(" " + u, pat, rep) == " " + Replace(u, pat, rep)
  {
    assert (" " + u)[1..] == u;
  }

  /** Lines 162-191 with the scan of lines 171-180 as a loop. */
  method ReplaceCwdArg(c: string, rep: string) returns (r: string)
    ensures r == ReplaceCwd(c, rep)
  {
    var s := Find(c, " -cwd");
    if s == -1 {
      assert CwdTarget(c) == None;
      return c;
    }
    var e := -1;
    var quoted := false;
    var i := s + 6;
    while i < |c| && e == -1
      invariant s + 6 <= i && (i <= |c| || i == s + 6)
      invariant e == -1 ==> CwdEnd(c, s + 6, false) == CwdEnd(c, i, quoted)
      invariant e != -1 ==> e == CwdEnd(c, s + 6, false)
      decreases |c| - i
    {
      if c[i] == '"' {
        if quoted {
          e := i;
        } else {
          quoted := true;
        }
      }
      if e == -1 && !quoted && c[i] == ' ' {
        e := i;
      }
      i := i + 1;
    }
    if e == -1 {
      assert CwdTarget(c) == None;
      return c;
    }
    var t := if c[e] == '"' then c[s + 1..e + 1] else c[s + 1..e];
    assert CwdTarget(c) == Some(t);
    r := Replace(c, t, rep);
  }

  /** Lines 193-214 with the scan of lines 203-207 as a loop. */
  method ReplaceThreadsArg(c: string, n: int) returns (r: string)
    ensures r == ReplaceThreads(c, n)
  {
    var s := Find(c, "-t");
    var arg := "-t:" + IntToString(n);
    if s == -1 {
      return c + " " + arg;
    }
    if OccursAt(c, "-t:-1", s) {
      return Replace(c, "-t:-1", arg);
    }
    var e := -1;
    var i := s + 3;
    while i < |c| && e == -1
      invariant s + 3 <= i && (i <= |c| || i == s + 3)
      invariant e == -1 ==> FindFrom(c, " ", s + 3) == FindFrom(c, " ", i)
      invariant e != -1 ==> e == FindFrom(c, " ", s + 3)
      decreases |c| - i
    {
      assert c[i..i + 1] == [c[i]];
      if c[i] == ' ' {
        e := i;
      }
      i := i + 1;
    }
    if e == -1 {
      return c;
    }
    return Replace(c, c[s..e], arg);
  }

  // ---------------------------------------------------------------------------
  // The worker object

  class Prman {
    const threads: int
    var proc: W.Proc
    var uuid: string
    var fn: string
    var frame: Frame
    var cwd: string
    var commands: seq<string>
    var todo: int
    var start: real
    var outLogs: seq<string>
    var errLogs: seq<string>

    function Snap(): PView
      reads this
    {
      PView(threads, proc, uuid, fn, frame, cwd, commands, todo, start, outLogs, errLogs)
    }

    /** Lines 30-50: nothing run yet; `uuid`, `fn` and `frame` are only read once `run` has set them. */
    constructor (threads: int, now: real)
      ensures Snap() == PView(threads, W.NoProc, "", "", Single(0), "", [], 0, now, [], [])
      ensures SaneAsWritten(Snap())
    {
      this.threads := threads;
      proc := W.NoProc;
      uuid := "";
      fn := "";
      frame := Single(0);
      cwd := "";
      commands := [];
      todo := 0;
      start := now;
      outLogs := [];
      errLogs := [];
    }

    /** Lines 82-107. */
    method State(now: real) returns (r: Option<Request>)
      modifies this`proc
      ensures (r, Snap()) == Polled(old(Snap()), now)
    {
      if proc == W.NoProc {
        return None;
      }
      if todo > 0 || proc.Running? {
        return Some(Progress(uuid, frame, 0, 1));
      }
      if proc == W.Exited(0) {
        proc := W.NoProc;
        return Some(Finished(uuid, frame, now - start));
      }
      return None;
    }

    /** Lines 110-143. */
    method Run(task: Task, local: Outcome<string>, frames: map<string, seq<string>>, dir: string,
               override: bool, denoise: string -> string, now: real) returns (r: Outcome<Option<string>>)
      modifies this
      ensures (r, Snap()) == Started(old(Snap()), task, local, frames, dir, override, denoise, now)
    {
      if task.frame.Span? {
        return Ok(None);
      }
      uuid := task.uuid;
      frame := task.frame;
      if local.Raise? {
        return Raise(local.error);
      }
      fn := local.value;
      cwd := dir;
      var key := IntToString(task.frame.n);
      if key !in frames {
        return Raise(KeyError);
      }
      commands := frames[key];
      todo := |commands|;
      var c := LaunchNext(now, override, denoise);
      if c.Raise? {
        return Raise(c.error);
      }
      return Ok(Some(c.value));
    }

    /** Lines 224-245: the command under the cursor, rewritten, becomes the running process. */
    method LaunchNext(now: real, override: bool, denoise: string -> string) returns (r: Outcome<string>)
      modifies this`proc, this`start
      ensures (r, Snap()) == Launched(old(Snap()), now, override, denoise)
    {
      var i := |commands| - todo;
      if i < -|commands| || i >= |commands| {
        return Raise(IndexError);
      }
      var cmd := if i >= 0 then commands[i] else commands[|commands| + i];
      if StartsWith(cmd, "denoise") {
        cmd := denoise(cmd);
        if override {
          cmd := ReplaceThreadsArg(cmd, threads);
        }
      } else if StartsWith(cmd, "prman") {
        cmd := ReplaceCwdArg(cmd, "-cwd \"" + cwd + "\"");
        if override {
          cmd := ReplaceThreadsArg(cmd, threads);
        }
      }
      proc := W.Running;
      start := now;
      return Ok(cmd);
    }

    /** Lines 304-306: the process ends and its output is kept. */
    method ProcessEnds(code: int, out: string, err: string)
      modifies this`proc, this`outLogs, this`errLogs
      ensures Snap() == Ended(old(Snap()), code, out, err)
    {
      if proc != W.NoProc {
        proc := W.Exited(code);
      }
      outLogs := outLogs + [out];
      errLogs := errLogs + [err];
    }

    /** Lines 247-273, keeping the ended process after the last command. */
    method OnExit(now: real, override: bool, denoise: string -> string) returns (r: Outcome<Option<string>>)
      modifies this
      ensures (r, Snap()) == OnExited(old(Snap()), now, override, denoise)
    {
      todo := todo - 1;
      if todo > 0 {
        var c := LaunchNext(now, override, denoise);
        if c.Raise? {
          return Raise(c.error);
        }
        return Ok(Some(c.value));
      }
      todo := 0;
      outLogs := [];
      errLogs := [];
      return Ok(None);
    }

    /** Lines 145-151. */
    method Kill(uuid: string, frame: Frame)
      modifies this`todo, this`proc
      ensures Snap() == Killed(old(Snap()), uuid, frame)
    {
      if proc != W.NoProc && uuid == this.uuid && frame == this.frame {
        todo := 0;
        proc := W.NoProc;
      }
    }

    /** Lines 153-159. */
    method KillAll()
      modifies this`todo, this`proc
      ensures Snap() == KilledAll(old(Snap()))
    {
      if proc != W.NoProc {
        todo := 0;
        proc := W.NoProc;
      }
    }
  }
}
