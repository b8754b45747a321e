/**
 * One Blender render slot of a node (node/worker.py).  A worker holds at
 * most one child process; `run` starts Blender on the frame (or, for a
 * video, the frame range) of a task, `state` turns what the process is
 * doing into the message the node sends to the farm, and `kill` /
 * `kill_all` stop it.
 *
 * The child process is seen only through `poll()`: `Proc` is what a poll
 * would answer.  Its standard output, read without blocking, arrives as an
 * `Option<string>` (None when nothing could be read).  What each operation
 * does is specified on a `View` of the fields; the methods of `Worker`
 * change the fields as the source does and are proved to follow the view.
 */
module Worker {
  import opened Py
  import opened Jobs
  import opened Farm

  /** What `proc` is when polled: no process, one still running, or one that exited with a code. */
  datatype Proc = NoProc | Running | Exited(code: int)

  /** The node settings the worker reads: `nice`, the Blender path, `scripting` (if present) and whether fcntl loaded. */
  datatype Setup = Setup(nice: int, blender: string, scripting: Option<bool>, fcntl: bool)

  /** The fields of a worker. */
  datatype View = View(threads: int, proc: Proc, uuid: string, fn: string, frame: Frame, start: real, video: bool, lastLine: string)

  /** Lines 49-51: there is a process and it has not exited. */
  predicate IsBusy(v: View) {
    v.proc.Running?
  }

  // ---------------------------------------------------------------------------
  // Progress of a video render (lines 73-87)

  /** The last two lines of what Blender printed, which line 83 keeps. */
  function LastTwo(parts: seq<string>): string
    requires |parts| > 1
  {
    parts[|parts| - 2] + "\n" + parts[|parts| - 1]
  }

  /** Lines 85-87: a line whose first word is `Fra:N` tells that frame N is being rendered. */
  function FraDone(line: string, lo: int): Outcome<int> {
    var first := SplitChar(line, ' ')[0];
    if StartsWith(first, "Fra:") then
      match ParseInt(first[4..])
      case None => Raise(ValueError)
      case Some(n) => Ok(n - lo)
    else Ok(0)
  }

  /** Line 78: the text so far; a read that gave nothing (the TypeError of line 79) adds nothing. */
  function Gathered(lastLine: string, output: Option<string>): string {
    if output.Some? then lastLine + output.value else lastLine
  }

  /**
   * Lines 77-87 as written: the new `last_line` and the frames done.  Line
   * 85 reads `parts[-2]` even when the text has no line break yet, which
   * raises IndexError.
   */
  function VideoProgressAsWritten(lastLine: string, output: Option<string>, lo: int): (string, Outcome<int>) {
    var text := Gathered(lastLine, output);
    var parts := SplitChar(text, '\n');
    if |parts| > 1 then (LastTwo(parts), FraDone(parts[|parts| - 2], lo))
    else (text, Raise(IndexError))
  }

  /** Lines 77-87 with the second-to-last line read only when there is one; until then nothing is done. */
  function VideoProgress(lastLine: string, output: Option<string>, lo: int): (string, Outcome<int>) {
    var text := Gathered(lastLine, output);
    var parts := SplitChar(text, '\n');
    if |parts| > 1 then (LastTwo(parts), FraDone(parts[|parts| - 2], lo))
    else (text, Ok(0))
  }

  /** As written, a video render that has printed no complete line yet makes `state` raise. */
  lemma VideoProgressAsWrittenFails(lastLine: string, output: Option<string>, lo: int)
    requires '\n' !in Gathered(lastLine, output)
    ensures VideoProgressAsWritten(lastLine, output, lo) == (Gathered(lastLine, output), Raise(IndexError))
    ensures VideoProgress(lastLine, output, lo) == (Gathered(lastLine, output), Ok(0))
  {
    SplitCharWhole(Gathered(lastLine, output), '\n');
  }

  /** The two agree once a line break has been printed. */
  lemma VideoProgressAgrees(lastLine: string, output: Option<string>, lo: int)
    requires '\n' in Gathered(lastLine, output)
    ensures VideoProgress(lastLine, output, lo) == VideoProgressAsWritten(lastLine, output, lo)
  {
    var text := Gathered(lastLine, output);
    var i :| 0 <= i < |text| && text[i] == '\n';
    assert text == text[..i] + ['\n'] + text[i + 1..];
    SplitCharAround(text[..i], text[i + 1..], '\n');
  }

  /** The digits of a number hold no space and no line break. */
  lemma IntToStringPlain(n: int)
    ensures ' ' !in IntToString(n) && '\n' !in IntToString(n)
  {
    var d := NatDigits(if n < 0 then -n else n);
    assert forall k :: 0 <= k < |d| ==> IsDigit(d[k]);
  }

  /** The last two lines of a text, split apart. */
  lemma LastLines(pre: string, line: string, tail: string)
    requires '\n' !in line && '\n' !in tail
    ensures SplitChar(pre + "\n" + line + "\n" + tail, '\n') == SplitChar(pre, '\n') + [line] + [tail]
  {
    assert pre + "\n" + line + "\n" + tail == pre + ['\n'] + (line + ['\n'] + tail);
    SplitCharAround(pre, line + ['\n'] + tail, '\n');
    SplitCharAround(line, tail, '\n');
    SplitCharWhole(line, '\n');
    SplitCharWhole(tail, '\n');
  }

  /** The first word of a line that starts with a word and then a space or nothing. */
  lemma FirstWord(word: string, rest: string)
    requires ' ' !in word && (|rest| == 0 || rest[0] == ' ')
    ensures SplitChar(word + rest, ' ')[0] == word
  {
    SplitCharWhole(word, ' ');
    if |rest| != 0 {
      assert word + rest == word + [' '] + rest[1..] by {
        assert rest == [' '] + rest[1..];
      }
      SplitCharAround(word, rest[1..], ' ');
    } else {
      assert word + rest == word;
    }
  }

  /** The number after `Fra:`. */
  lemma FraNumber(n: int, first: string)
    requires first == "Fra:" + IntToString(n)
    ensures StartsWith(first, "Fra:") && ParseInt(first[4..]) == Some(n)
  {
    assert first[4..] == IntToString(n);
    ParseIntToString(n);
  }

  /** `FraDone` once the first word is known to be `Fra:` and a number. */
  lemma FraDoneOf(line: string, lo: int, n: int)
    requires StartsWith(SplitChar(line, ' ')[0], "Fra:") && ParseInt(SplitChar(line, ' ')[0][4..]) == Some(n)
    ensures FraDone(line, lo) == Ok(n - lo)
  {
  }

  /** A line whose first word is `Fra:N` reports N minus the first frame. */
  lemma FraLine(n: int, rest: string, lo: int)
    requires |rest| == 0 || rest[0] == ' '
    ensures FraDone("Fra:" + IntToString(n) + rest, lo) == Ok(n - lo)
  {
    var word := "Fra:" + IntToString(n);
    IntToStringPlain(n);
    assert ' ' !in word;
    FirstWord(word, rest);
    FraNumber(n, SplitChar(word + rest, ' ')[0]);
    FraDoneOf(word + rest, lo, n);
  }

  /**
   * Lines 81-87: when the second-to-last line starts with the word `Fra:N`,
   * N minus the first frame of the range is reported done, and the last two
   * lines are kept for the next report.
   */
  lemma VideoProgressFra(lastLine: string, output: Option<string>, lo: int,
                         pre: string, n: int, rest: string, tail: string)
    requires '\n' !in rest && '\n' !in tail && (|rest| == 0 || rest[0] == ' ')
    requires Gathered(lastLine, output) == pre + "\n" + ("Fra:" + IntToString(n) + rest) + "\n" + tail
    ensures VideoProgress(lastLine, output, lo) == (("Fra:" + IntToString(n) + rest) + "\n" + tail, Ok(n - lo))
  {
    var line := "Fra:" + IntToString(n) + rest;
    IntToStringPlain(n);
    assert '\n' !in line;
    LastLines(pre, line, tail);
    FraLine(n, rest, lo);
  }

  // ---------------------------------------------------------------------------
  // The operations on a view

  /** Lines 61-97: the message `state` gives, and the fields afterwards. */
  function Polled(v: View, now: real, output: Option<string>): (Outcome<Option<Request>>, View) {
    match v.proc
    case NoProc => (Ok(None), v)
    case Running =>
      if !v.video then (Ok(Some(Progress(v.uuid, v.frame, 0, 1))), v)
      else if v.frame.Single? then (Raise(TypeError), v)
      else
        var (lo, hi) := (v.frame.lo, v.frame.hi);
        var (line, done) := VideoProgress(v.lastLine, output, lo);
        var r := if done.Raise? then Raise(done.error) else Ok(Some(Progress(v.uuid, v.frame, done.value, hi + 1 - lo)));
        (r, v.(lastLine := line))
    case Exited(code) =>
      if code == 0 then (Ok(Some(Finished(v.uuid, v.frame, now - v.start))), v.(proc := NoProc))
      else (Ok(None), v)
  }

  /** Line 119-122: `-y` unless the configuration sets `scripting` false. */
  function Script(scripting: Option<bool>): string {
    if scripting == Some(false) then "-Y" else "-y"
  }

  /** Line 132: the command line Blender is started with. */
  function Argv(setup: Setup, threads: int, fn: string, first: int, last: int): seq<string> {
    ["nice", "-n", IntToString(setup.nice), setup.blender, "-t", IntToString(threads), Script(setup.scripting),
     "-b", fn, "-s", IntToString(first), "-e", IntToString(last), "-a"]
  }

  /** Lines 110-117: a frame number renders from itself to itself; a pair is a video range. */
  function Bounds(frame: Frame): (int, int, bool) {
    match frame
    case Single(n) => (n, n, false)
    case Span(lo, hi) => (lo, hi, true)
  }

  /**
   * Lines 100-139: what `run` starts (None when it drops the task) and the
   * fields afterwards.  `local` is what the node's `to_local` makes of the
   * task's file; its KeyError leaves uuid and frame already set.
   */
  function Started(v: View, task: Task, local: Outcome<string>, setup: Setup, now: real)
    : (Outcome<Option<seq<string>>>, View)
  {
    if task.frame.Span? && !setup.fcntl then (Ok(None), v)
    else
      var v1 := v.(uuid := task.uuid, frame := task.frame);
      match local
      case Raise(e) => (Raise(e), v1)
      case Ok(fn) =>
        var (first, last, video) := Bounds(task.frame);
        (Ok(Some(Argv(setup, v.threads, fn, first, last))),
         v1.(fn := fn, video := video, proc := Running, start := now, lastLine := if video then "" else v.lastLine))
  }

  /** Lines 142-147: only the process of this very task is killed. */
  function Killed(v: View, uuid: string, frame: Frame): View {
    if v.proc != NoProc && uuid == v.uuid && frame == v.frame then v.(proc := NoProc) else v
  }

  // ---------------------------------------------------------------------------
  // What the operations promise

  /**
   * Lines 63-97: a poll sends nothing exactly when there is no process or it
   * failed; a finished render is announced once with its elapsed time and
   * the process forgotten; a running plain frame reports 0 of 1.  Only
   * `proc` and `last_line` ever change.
   */
  lemma PolledFacts(v: View, now: real, output: Option<string>)
    ensures var (r, w) := Polled(v, now, output);
      (r == Ok(None) <==> v.proc == NoProc || (v.proc.Exited? && v.proc.code != 0))
      && (r.Ok? && r.value.Some? ==> r.value.value.Progress? || r.value.value.Finished?)
      && (r.Ok? && r.value.Some? && r.value.value.Finished? <==> v.proc == Exited(0))
      && (v.proc == Exited(0) ==>
            (r == Ok(Some(Finished(v.uuid, v.frame, now - v.start))) && w.proc == NoProc
             && Polled(w, now, output).0 == Ok(None)))
      && (v.proc == Running && !v.video ==> r == Ok(Some(Progress(v.uuid, v.frame, 0, 1))))
      && w == v.(proc := w.proc, lastLine := w.lastLine)
      && (w.proc == v.proc || v.proc == Exited(0))
  {
  }

  /**
   * Lines 73-89: a running video reports the length of its range as the
   * total, and the done count `VideoProgress` finds.
   */
  lemma PolledVideo(v: View, now: real, output: Option<string>)
    requires v.proc == Running && v.video && v.frame.Span?
    ensures var (line, done) := VideoProgress(v.lastLine, output, v.frame.lo);
      Polled(v, now, output).1.lastLine == line
      && (done.Ok? ==> Polled(v, now, output).0 == Ok(Some(Progress(v.uuid, v.frame, done.value, v.frame.hi + 1 - v.frame.lo))))
  {
  }

  /**
   * Lines 119-132: the command line names the file, renders from the first
   * to the last frame, and passes `-Y` exactly when scripting is configured off.
   */
  lemma ArgvShape(setup: Setup, threads: int, fn: string, first: int, last: int)
    ensures var a := Argv(setup, threads, fn, first, last);
      |a| == 14 && a[0] == "nice" && a[3] == setup.blender && a[8] == fn && a[13] == "-a"
      && (a[6] == "-Y" <==> setup.scripting == Some(false))
      && a[10] == IntToString(first) && a[12] == IntToString(last)
  {
  }

  /**
   * Lines 100-133: a video task is dropped when fcntl is missing; otherwise,
   * once the file is found, the worker is busy with this task, a frame
   * number rendering just itself and a pair rendering its range as a video.
   */
  lemma StartedFacts(v: View, task: Task, local: Outcome<string>, setup: Setup, now: real)
    ensures var (r, w) := Started(v, task, local, setup, now);
      (r == Ok(None) <==> task.frame.Span? && !setup.fcntl)
      && (r == Ok(None) ==> w == v)
      && (r.Raise? <==> local.Raise? && !(task.frame.Span? && !setup.fcntl))
      && (r.Ok? && r.value.Some? ==>
            IsBusy(w) && w.uuid == task.uuid && w.frame == task.frame && w.fn == local.value
            && (w.video <==> task.frame.Span?) && w.start == now
            && r.value.value == Argv(setup, v.threads, local.value, Bounds(task.frame).0, Bounds(task.frame).1))
      && (task.frame.Single? ==> Bounds(task.frame).0 == Bounds(task.frame).1 == task.frame.n)
  {
  }

  /**
   * A started task is what the next poll reports: its uuid and frame, 0 of
   * 1 for a frame number, and for a video nothing done yet out of the
   * length of its range.  For a video this holds of the corrected progress
   * reading; as written, that first poll raises IndexError.
   */
  lemma StartedThenPolled(v: View, task: Task, fn: string, setup: Setup, now: real, later: real)
    requires !(task.frame.Span? && !setup.fcntl)
    ensures var w := Started(v, task, Ok(fn), setup, now).1;
      Polled(w, later, None).0 == Ok(Some(Progress(task.uuid, task.frame, 0,
        match task.frame case Single(_) => 1 case Span(lo, hi) => hi + 1 - lo)))
      && (task.frame.Span? ==> VideoProgressAsWritten(w.lastLine, None, task.frame.lo).1 == Raise(IndexError))
  {
    var w := Started(v, task, Ok(fn), setup, now).1;
    if task.frame.Span? {
      assert w.lastLine == "";
      VideoProgressAsWrittenFails(w.lastLine, None, task.frame.lo);
    }
  }

  /** Lines 142-147: `kill` stops the process exactly when it runs this uuid and frame, and changes nothing else. */
  lemma KilledFacts(v: View, uuid: string, frame: Frame)
    ensures var w := Killed(v, uuid, frame);
      w == v.(proc := w.proc)
      && (w.proc == NoProc <==> v.proc == NoProc || (uuid == v.uuid && frame == v.frame))
      && !IsBusy(Killed(v, v.uuid, v.frame))
  {
  }

  // ---------------------------------------------------------------------------
  // The worker object

  /** Lines 77-87 step by step. */
  method ReadProgress(lastLine0: string, output: Option<string>, lo: int) returns (lastLine: string, done: Outcome<int>)
    ensures (lastLine, done) == VideoProgress(lastLine0, output, lo)
  {
    lastLine := lastLine0;
    if output.Some? {
      lastLine := lastLine + output.value;
    }
    var parts := SplitChar(lastLine, '\n');
    done := Ok(0);
    if |parts| > 1 {
      lastLine := parts[|parts| - 2] + "\n" + parts[|parts| - 1];
      done := FraDone(parts[|parts| - 2], lo);
    }
  }

  class Worker {
    const threads: int
    var proc: Proc
    var uuid: string
    var fn: string
    var frame: Frame
    var start: real
    var video: bool
    var lastLine: string

    /** The fields as a value. */
    function Snap(): View
      reads this
    {
      View(threads, proc, uuid, fn, frame, start, video, lastLine)
    }

    /** Lines 32-46; the uuid, file and frame that start as None are never read before `run` sets them. */
    constructor (threads: int, now: real)
      ensures this.threads == threads
      ensures Snap() == View(threads, NoProc, "", "", Single(0), now, false, "")
    {
      this.threads := threads;
      proc := NoProc;
      uuid := "";
      fn := "";
      frame := Single(0);
      start := now;
      video := false;
      lastLine := "";
    }

    /** Lines 53-58: the process to wait on, exactly while it runs. */
    function Waitable(): (p: Proc)
      reads this
      ensures p != NoProc <==> IsBusy(Snap())
      ensures p != NoProc ==> p == proc
    {
      if proc.Running? then proc else NoProc
    }

  /** Lines 61-97. */
    method State(now: real, output: Option<string>) returns (r: Outcome<Option<Request>>)
      modifies this
      ensures (r, Snap()) == Polled(old(Snap()), now, output)
    {
      if proc == NoProc {
        return Ok(None);
      }
      if proc == Running {
        var done := 0;
        var total := 1;
        if video {
          if frame.Single? {
            return Raise(TypeError);
          }
          total := frame.hi + 1 - frame.lo;
          var progress;
          lastLine, progress := ReadProgress(lastLine, output, frame.lo);
          if progress.Raise? {
            return Raise(progress.error);
          }
          done := progress.value;
        }
        return Ok(Some(Progress(uuid, frame, done, total)));
      }
      if proc == Exited(0) {
        proc := NoProc;
        return Ok(Some(Finished(uuid, frame, now - start)));
      }
      return Ok(None);
    }

    /** Lines 100-139. */
    method Run(task: Task, local: Outcome<string>, setup: Setup, now: real) returns (r: Outcome<Option<seq<string>>>)
      modifies this
      ensures (r, Snap()) == Started(old(Snap()), task, local, setup, now)
    {
      if task.frame.Span? && !setup.fcntl {
        return Ok(None);
      }
      uuid := task.uuid;
      frame := task.frame;
      if local.Raise? {
        return Raise(local.error);
      }
      fn := local.value;
      var first, last;
      if frame.Single? {
        first, last := frame.n, frame.n;
        video := false;
      } else {
        first, last := frame.lo, frame.hi;
        video := true;
      }
      var script := if setup.scripting == Some(false) then "-Y" else "-y";
      var argv := ["nice", "-n", IntToString(setup.nice), setup.blender, "-t", IntToString(threads), script,
                   "-b", fn, "-s", IntToString(first), "-e", IntToString(last), "-a"];
      proc := Running;
      start := now;
      if video {
        lastLine := "";
      }
      return Ok(Some(argv));
    }

    /** Lines 142-147. */
    method Kill(uuid: string, frame: Frame)
      modifies this
      ensures Snap() == Killed(old(Snap()), uuid, frame)
    {
      if proc != NoProc && uuid == this.uuid && frame == this.frame {
        proc := NoProc;
      }
    }

    /** Lines 149-154: afterwards there is no process, whatever there was. */
    method KillAll()
      modifies this
      ensures Snap() == old(Snap()).(proc := NoProc)
    {
      if proc != NoProc {
        proc := NoProc;
      }
    }
  }
}
