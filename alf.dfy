/**
 * The Alfred job-script reader of bin/prman_AlfParser.py, lines 5-13 and
 * 127-264: the recursive split of a script into Job, Task and RemoteCmd
 * items, and the walk over the items that gathers the texture commands,
 * the commands of each frame and the frame numbers.
 *
 * Items are dictionaries whose values are text, a list of items (what the
 * `subtasks` and `cmds` options become once re-parsed) or None.  Looping
 * over a value yields its dictionaries, or the one-character strings of a
 * text, which is what the source does when a value was never re-parsed.
 */
module Alf {
  import opened Py
  import opened AlfArgs

  /** A value stored in an item. */
  datatype Value = Text(s: string) | Items(list: seq<map<string, Value>>) | Null

  type Dict = map<string, Value>

  /** What a `for` loop over a value hands out. */
  datatype Elem = Entry(d: Dict) | Char(c: char)

  // ---------------------------------------------------------------------------
  // Items (lines 127-167)

  /** The options of a command as item values. */
  function ToDict(m: map<string, string>): (d: Dict)
    ensures d.Keys == m.Keys
    ensures forall k :: k in d ==> d[k] == Text(m[k])
  {
    map k | k in m :: Text(m[k])
  }

  /** The texts that the parse goes on to read again are no longer than `n`. */
  predicate NestedWithin(d: Dict, n: nat) {
    ("subtasks" in d && d["subtasks"].Text? ==> |d["subtasks"].s| <= n)
    && ("cmds" in d && d["cmds"].Text? ==> |d["cmds"].s| <= n)
  }

  /** The options of `t`, then the keys the item kind sets on top of them. */
  function Tagged(m: map<string, string>, t: string, kind: string): (d: Dict)
    requires forall k :: k in m ==> |m[k]| <= |t|
    ensures d.Keys == m.Keys + {"type"}
    ensures d["type"] == Text(kind)
    ensures NestedWithin(d, |t|)
    ensures forall k :: k in m && k != "type" ==> d[k] == Text(m[k])
  {
    ToDict(m)["type" := Text(kind)]
  }

  /** An item of kind `kind` that also names its `key` (the task name, the command). */
  function Keyed(m: map<string, string>, t: string, kind: string, key: string, v: string): (d: Dict)
    requires forall k :: k in m ==> |m[k]| <= |t|
    requires key != "type" && key != "subtasks" && key != "cmds"
    ensures d.Keys == m.Keys + {"type", key}
    ensures d["type"] == Text(kind) && d[key] == Text(v)
    ensures NestedWithin(d, |t|)
    ensures forall k :: k in m && k != "type" && k != key ==> d[k] == Text(m[k])
  {
    Tagged(m, t, kind)[key := Text(v)]
  }

  /** The item of an options parse: its exception, or its options keyed as `Keyed` does. */
  function KeyedOutcome(o: Outcome<map<string, string>>, t: string, kind: string, key: string, v: string): (r: Outcome<Dict>)
    requires o.Ok? ==> forall k :: k in o.value ==> |o.value[k]| <= |t|
    requires key != "type" && key != "subtasks" && key != "cmds"
    ensures r.Raise? <==> o.Raise?
    ensures r.Raise? ==> r.error == o.error
    ensures r.Ok? ==> r.value == Keyed(o.value, t, kind, key, v)
  {
    match o
    case Raise(e) => Raise(e)
    case Ok(m) => Ok(Keyed(m, t, kind, key, v))
  }

  /** Lines 127-130: a Job line is its options and the type. */
  function JobItem(t: string): (r: Outcome<Dict>)
    ensures r.Raise? <==> Options(t).Raise?
    ensures r.Raise? ==> r.error == IndexError
    ensures r.Ok? ==> "type" in r.value && r.value["type"] == Text("job") && NestedWithin(r.value, |t|)
    ensures r.Ok? ==> Options(t).Ok? && r.value.Keys == Options(t).value.Keys + {"type"}
    ensures r.Ok? ==> forall k :: k in Options(t).value && k != "type" ==> r.value[k] == Text(Options(t).value[k])
  {
    match Options(t)
    case Raise(e) => Raise(e)
    case Ok(m) => Ok(Tagged(m, t, "job"))
  }

  /**
   * Lines 154-167: the task name runs from after the first '{' to the next
   * '}', or to the end; the options come after that '}'.  When nothing
   * follows the first '{' the loop never binds `i`.
   */
  function TaskItem(t: string): (r: Outcome<Dict>)
    ensures r.Raise? ==> r.error == UnboundLocalError || r.error == IndexError
    ensures r.Raise? && r.error == UnboundLocalError <==> Find(t, "{") + 1 >= |t|
    ensures r.Ok? ==> "type" in r.value && r.value["type"] == Text("task") && "taskName" in r.value && NestedWithin(r.value, |t|)
  {
    var start := Find(t, "{") + 1;
    if start >= |t| then Raise(UnboundLocalError)
    else TaskSplit(t, start, CharFrom(t, '}', start))
  }

  /**
   * Lines 158-167 once the loop has stopped at the '}' at `close`, or run
   * out (`close` is -1): the name, then the options of what follows.
   */
  function TaskSplit(t: string, start: nat, close: int): (r: Outcome<Dict>)
    requires start < |t| && (close == -1 || start <= close < |t|)
    ensures r.Raise? ==> r.error == IndexError
    ensures r.Ok? ==> "type" in r.value && r.value["type"] == Text("task") && "taskName" in r.value && NestedWithin(r.value, |t|)
  {
    if close < 0 then KeyedOutcome(Options(t[|t|..]), t, "task", "taskName", t[start..])
    else KeyedOutcome(Options(t[close + 1..]), t, "task", "taskName", t[start..close])
  }

  /**
   * Lines 132-152 walk back from `i` while `i > 0`, stopping at `c`: the
   * index of the last `c` in `(0, i]`, or `i` itself once it is 0 or less.
   */
  function Back(t: string, c: char, i: int): (r: int)
    requires i < |t|
    ensures r <= i && (r > 0 ==> t[r] == c) && (r <= 0 ==> r == if i <= 0 then i else 0)
    ensures forall j :: r < j <= i && 0 < j ==> t[j] != c
    decreases if i < 0 then 0 else i
  {
    if i <= 0 then i else if t[i] == c then i else Back(t, c, i - 1)
  }

  /**
   * Lines 132-152: the command is the last '{...}' group with its braces
   * stripped, and the options are what precedes its '{'.
   */
  function RemoteItem(t: string): (r: Outcome<Dict>)
    ensures r.Raise? ==> r.error == IndexError
    ensures r.Ok? ==> "type" in r.value && r.value["type"] == Text("remoteCommand") && "command" in r.value && NestedWithin(r.value, |t|)
  {
    var close := Back(t, '}', |t| - 1);
    RemoteSplit(t, Back(t, '{', close), close)
  }

  /**
   * Lines 140-152 once the walks have stopped: the text from `open` (or
   * from 1) through `close` is the braced command, the text before `open`
   * holds the options.
   */
  function RemoteSplit(t: string, open: int, close: int): (r: Outcome<Dict>)
    requires open <= close < |t|
    ensures r.Raise? ==> r.error == IndexError
    ensures r.Ok? ==> "type" in r.value && r.value["type"] == Text("remoteCommand") && "command" in r.value && NestedWithin(r.value, |t|)
  {
    var actual := if close <= 0 then "" else t[if open > 0 then open else 1..close + 1];
    KeyedOutcome(Options(Slice(t, 0, open)), t, "remoteCommand", "command", Unbraced(actual))
  }

  /** The forward search stops at `i`: the `c` there, or the end when none came before. */
  lemma CharFromStops(t: string, c: char, j: nat, i: nat)
    requires j <= i < |t| && (t[i] == c || i == |t| - 1)
    requires forall k :: j <= k < i ==> t[k] != c
    ensures CharFrom(t, c, j) == if t[i] == c then i else -1
  {
  }

  /** Lines 154-167 once the name loop has stopped at `i`. */
  lemma TaskItemAt(t: string, i: nat, name: string, rest: string)
    requires Find(t, "{") + 1 <= i < |t|
    requires forall j :: Find(t, "{") + 1 <= j < i ==> t[j] != '}'
    requires t[i] == '}' || i == |t| - 1
    requires name == if t[i] == '}' then t[Find(t, "{") + 1..i] else t[Find(t, "{") + 1..]
    requires rest == t[i + 1..]
    ensures TaskItem(t) == KeyedOutcome(Options(rest), t, "task", "taskName", name)
  {
    var start := Find(t, "{") + 1;
    CharFromStops(t, '}', start, i);
    var close := CharFrom(t, '}', start);
    if t[i] == '}' {
      TaskSplitClosed(t, start, i);
    } else {
      TaskSplitOpen(t, start);
    }
    assert TaskItem(t) == TaskSplit(t, start, close);
  }

  /** The name and the rest where the name loop stops at a '}'. */
  lemma TaskSplitClosed(t: string, start: nat, i: nat)
    requires start <= i < |t| && t[i] == '}'
    ensures TaskSplit(t, start, i) == KeyedOutcome(Options(t[i + 1..]), t, "task", "taskName", t[start..i])
  {
  }

  /** The name and the rest when the name loop runs out. */
  lemma TaskSplitOpen(t: string, start: nat)
    requires start < |t|
    ensures TaskSplit(t, start, -1) == KeyedOutcome(Options(t[|t|..]), t, "task", "taskName", t[start..])
  {
  }

  /** Lines 132-152 for the indices the two walks stop at. */
  lemma RemoteItemIs(t: string, close: int, open: int, actual: string)
    requires close == Back(t, '}', |t| - 1) && open == Back(t, '{', close)
    requires actual == if close <= 0 then "" else t[if open > 0 then open else 1..close + 1]
    ensures RemoteItem(t) == KeyedOutcome(Options(Slice(t, 0, open)), t, "remoteCommand", "command", Unbraced(actual))
  {
    assert RemoteItem(t) == RemoteSplit(t, open, close);
  }

  /**
   * Lines 154-167 on a line `pre{name}rest`: the task is named `name` and
   * its options are those of `rest`.
   */
  lemma TaskItemNamed(pre: string, name: string, rest: string)
    requires '{' !in pre && '}' !in name
    ensures var t := pre + "{" + name + "}" + rest;
      TaskItem(t) == KeyedOutcome(Options(rest), t, "task", "taskName", name)
  {
    var t := pre + "{" + name + "}" + rest;
    assert t == pre + ['{'] + (name + "}" + rest);
    FindFirstChar(pre, '{', name + "}" + rest);
    var start := |pre| + 1;
    var q := start + |name|;
    assert t[q] == '}';
    forall j | start <= j < q ensures t[j] != '}' { assert t[j] == name[j - start]; }
    assert t[start..q] == name;
    assert t[q + 1..] == rest;
    TaskItemAt(t, q, name, rest);
  }

  /**
   * Lines 154-167 on a line `pre{name` with no closing brace: the name runs
   * to the end and there are no options.
   */
  lemma TaskItemUnclosed(pre: string, name: string)
    requires '{' !in pre && '}' !in name && |name| > 0
    ensures var r := TaskItem(pre + "{" + name);
      r.Ok? && r.value == map["type" := Text("task"), "taskName" := Text(name)]
  {
    var t := pre + "{" + name;
    assert t == pre + ['{'] + name;
    FindFirstChar(pre, '{', name);
    var start := |pre| + 1;
    forall j | start <= j < |t| ensures t[j] != '}' { assert t[j] == name[j - start]; }
    assert CharFrom(t, '}', start) == -1;
    assert t[start..] == name;
    assert t[|t|..] == "";
    assert Options("") == Ok(map[]);
  }

  /** The backward walk of lines 132-152 stops at the first `c` it meets. */
  lemma BackStops(t: string, c: char, i: int, q: nat)
    requires 0 < q <= i < |t| && t[q] == c
    requires forall j :: q < j <= i ==> t[j] != c
    ensures Back(t, c, i) == q
  {
  }

  /** Where the walks of lines 132-152 stop on `pre{body}post`. */
  lemma RemotePieces(pre: string, body: string, post: string)
    requires |pre| > 0 && '{' !in body && '}' !in body && '}' !in post
    ensures var t := pre + "{" + body + "}" + post;
      var close := |pre| + 1 + |body|;
      Back(t, '}', |t| - 1) == close && Back(t, '{', close) == |pre|
      && t[..|pre|] == pre && t[|pre| + 1..close] == body
  {
    var t := pre + "{" + body + "}" + post;
    var q := |pre| + 1 + |body|;
    assert t[q] == '}';
    forall j | q < j <= |t| - 1 ensures t[j] != '}' { assert t[j] == post[j - q - 1]; }
    BackStops(t, '}', |t| - 1, q);
    assert t[|pre|] == '{';
    forall j | |pre| < j <= q ensures t[j] != '{' {
      if j < q { assert t[j] == body[j - |pre| - 1]; }
    }
    BackStops(t, '{', q, |pre|);
    forall j | 0 <= j < |body| ensures t[|pre| + 1..q][j] == body[j] {
      assert t[|pre| + 1 + j] == body[j];
    }
  }

  /** Lines 132-152 once the walks have stopped at `open` and `close`. */
  lemma RemoteItemAt(t: string, open: nat, close: nat, pre: string, body: string)
    requires 0 < open < close < |t|
    requires Back(t, '}', |t| - 1) == close && Back(t, '{', close) == open
    requires t[..open] == pre && t[open + 1..close] == body
    ensures RemoteItem(t) == KeyedOutcome(Options(pre), t, "remoteCommand", "command", body)
  {
    var b := t[open..close + 1];
    SliceOfSlice(t, open, close + 1, 1, |b| - 1);
    assert Unbraced(b) == body;
    assert Slice(t, 0, open) == pre;
  }

  /**
   * Lines 132-152 on a line `pre{body}post`: the command is `body` and the
   * options are those of `pre`.
   */
  lemma RemoteItemCommand(pre: string, body: string, post: string)
    requires |pre| > 0 && '{' !in body && '}' !in body && '}' !in post
    ensures var t := pre + "{" + body + "}" + post;
      RemoteItem(t) == KeyedOutcome(Options(pre), t, "remoteCommand", "command", body)
  {
    var t := pre + "{" + body + "}" + post;
    RemotePieces(pre, body, post);
    var close := |pre| + 1 + |body|;
    RemoteItemAt(t, |pre|, close, pre, body);
  }

  /** Lines 188-196: the item for keyword `kind` (0 Job, 1 Task, 2 RemoteCmd). */
  function Item(kind: nat, t: string): (r: Outcome<Dict>)
    requires kind < 3
    ensures r.Raise? ==> r.error == IndexError || r.error == UnboundLocalError
    ensures r.Ok? ==> Typed(r.value) && NestedWithin(r.value, |t|)
    ensures r.Ok? ==> "type" in r.value && r.value["type"] == Text(KindName(kind))
  {
    if kind == 0 then JobItem(t) else if kind == 1 then TaskItem(t) else RemoteItem(t)
  }

  function KindName(kind: nat): string {
    if kind == 0 then "job" else if kind == 1 then "task" else "remoteCommand"
  }

  /** An item of one of the three kinds, with the key its kind adds. */
  predicate Typed(d: Dict) {
    "type" in d
    && (d["type"] == Text("job")
        || (d["type"] == Text("task") && "taskName" in d)
        || (d["type"] == Text("remoteCommand") && "command" in d))
  }

  /** Lines 154-167 as the source runs them: a name built up character by character. */
  method ParseTask(t: string) returns (r: Outcome<Dict>)
    ensures r == TaskItem(t)
  {
    var start := Find(t, "{") + 1;
    if start >= |t| {
      return Raise(UnboundLocalError);
    }
    var name := "";
    var i := start;
    while true
      invariant start <= i < |t|
      invariant name == t[start..i]
      invariant forall j :: start <= j < i ==> t[j] != '}'
      decreases |t| - i
    {
      if t[i] == '}' {
        break;
      }
      name := name + [t[i]];
      if i == |t| - 1 {
        assert name == t[start..];
        break;
      }
      i := i + 1;
    }
    assert name == if t[i] == '}' then t[start..i] else t[start..];
    var options := ParseOptions(t[i + 1..]);
    r := KeyedOutcome(options, t, "task", "taskName", name);
    TaskItemAt(t, i, name, t[i + 1..]);
  }

  /** Lines 132-152 as the source runs them: two walks back, the second gathering the command. */
  method ParseRemoteCmd(t: string) returns (r: Outcome<Dict>)
    ensures r == RemoteItem(t)
  {
    var i := |t| - 1;
    while i > 0
      invariant i <= |t| - 1
      invariant Back(t, '}', i) == Back(t, '}', |t| - 1)
      decreases i
    {
      if t[i] == '}' {
        break;
      }
      i := i - 1;
    }
    var close := i;
    var open, actual := GatherCommand(t, close);
    var options := ParseOptions(Slice(t, 0, open));
    r := KeyedOutcome(options, t, "remoteCommand", "command", Unbraced(actual));
    RemoteItemIs(t, close, open, actual);
  }

  /** Lines 141-147: the walk back from `close` to the '{', gathering the command as it goes. */
  method GatherCommand(t: string, close: int) returns (open: int, actual: string)
    requires close < |t|
    ensures open == Back(t, '{', close)
    ensures actual == if close <= 0 then "" else t[if open > 0 then open else 1..close + 1]
  {
    var i := close;
    actual := "";
    while i > 0
      invariant i <= close
      invariant close > 0 ==> -1 <= i && actual == t[i + 1..close + 1]
      invariant close <= 0 ==> i == close && actual == ""
      invariant Back(t, '{', i) == Back(t, '{', close)
      decreases i
    {
      actual := [t[i]] + actual;
      if t[i] == '{' {
        break;
      }
      i := i - 1;
    }
    open := i;
  }

  // ---------------------------------------------------------------------------
  // The command structure (lines 169-215)

  /** Lines 7 and 173-176: the keywords, and what stands in for one that is absent. */
  const Keywords: seq<string> := ["Job", "Task", "RemoteCmd"]
  const NotFound: int := 111111111111111111

  /** Lines 174-176: where a keyword first occurs, or `NotFound`. */
  function Found(text: string, k: string): (r: int)
    ensures r == NotFound <==> Find(text, k) == -1 || Find(text, k) == NotFound
    ensures r != NotFound ==> OccursAt(text, k, r) && r == Find(text, k)
    ensures r == NotFound || 0 <= r <= |text| - |k|
  {
    var f := Find(text, k);
    if f < 0 then NotFound else f
  }

  /** Line 177: `starts.index(min(starts))`, the first keyword whose start is least. */
  function Lowest(a: int, b: int, c: int): (k: nat)
    ensures k < 3
    ensures var m := [a, b, c][k]; m <= a && m <= b && m <= c
    ensures forall j :: 0 <= j < k ==> [a, b, c][j] > [a, b, c][k]
  {
    if a <= b && a <= c then 0 else if b <= c then 1 else 2
  }

  /** Lines 184-188: step back over the tabs before index `s`. */
  function BackOverTabs(text: string, s: nat): (r: nat)
    requires s <= |text|
    ensures r <= s && (r == 0 || text[r - 1] != '\t')
    ensures forall j :: r <= j < s ==> text[j] == '\t'
  {
    if s > 0 && text[s - 1] == '\t' then BackOverTabs(text, s - 1) else s
  }

  /** Lines 198-207: the value a re-parse leaves under `key`; an exception leaves it as it was. */
  function Attach(d: Dict, key: string, sub: Outcome<Option<seq<Dict>>>): (r: Dict)
    requires key in d
    ensures r.Keys == d.Keys
    ensures forall k :: k in d && k != key ==> r[k] == d[k]
    ensures sub.Raise? ==> r == d
  {
    match sub
    case Raise(_) => d
    case Ok(None) => d[key := Null]
    case Ok(Some(items)) => d[key := Items(items)]
  }

  /** Lines 173-177: the keyword that occurs first (0 Job, 1 Task, 2 RemoteCmd). */
  function Keyword(text: string): (k: nat)
    ensures k < 3
  {
    Lowest(Found(text, "Job"), Found(text, "Task"), Found(text, "RemoteCmd"))
  }

  /** Lines 180-183: where that keyword starts, or `NotFound`. */
  function KeywordAt(text: string): (at: int)
    ensures at == NotFound || (0 <= at < |text| && OccursAt(text, Keywords[Keyword(text)], at))
  {
    var a, b, c := Found(text, "Job"), Found(text, "Task"), Found(text, "RemoteCmd");
    [a, b, c][Lowest(a, b, c)]
  }

  /**
   * Lines 169-215: `__parseCommandStructure`.  The earliest keyword starts
   * an item whose text runs for `determineCommandLength` characters from
   * the start of its line; None when no keyword occurs.
   */
  function CommandStructure(text: string): (r: Outcome<Option<seq<Dict>>>)
    ensures r.Raise? ==> r.error == IndexError || r.error == UnboundLocalError
    ensures r.Ok? && r.value.Some? ==> |r.value.value| > 0 && forall d :: d in r.value.value ==> Typed(d)
    ensures r.Ok? && r.value.Some? ==> "type" in r.value.value[0] && r.value.value[0]["type"] == Text(KindName(Keyword(text)))
    decreases |text|, 2
  {
    var at := KeywordAt(text);
    if at == NotFound then Ok(None)
    else
      var s := BackOverTabs(text, at);
      assert text[s] != '\n' by {
        if s == at {
          var k := Keywords[Keyword(text)];
          assert text[at..at + |k|][0] == text[at];
        }
      }
      ItemsFrom(text, Keyword(text), s)
  }

  /**
   * Lines 189-215: the item whose line starts at `s`, with its `subtasks`
   * and `cmds` parsed again, followed by the items of the rest of the text.
   */
  function ItemsFrom(text: string, kind: nat, s: nat): (r: Outcome<Option<seq<Dict>>>)
    requires kind < 3 && s < |text|
    ensures r.Raise? && text[s] != '\n' ==> r.error == IndexError || r.error == UnboundLocalError
    ensures r.Ok? ==> r.value.Some? && |r.value.value| > 0 && forall d :: d in r.value.value ==> Typed(d)
    ensures r.Ok? ==> "type" in r.value.value[0] && r.value.value[0]["type"] == Text(KindName(kind))
    decreases |text|, 1
  {
    match CommandLength(text[s..])
    case Raise(e) => Raise(e)
    case Ok(length) => ItemSpan(text, kind, s, length)
  }

  /** Lines 189-215 once the item is known to span `length` characters from `s`. */
  function ItemSpan(text: string, kind: nat, s: nat, length: nat): (r: Outcome<Option<seq<Dict>>>)
    requires kind < 3 && s < |text| && 0 < length <= |text| - s
    ensures r.Raise? ==> r.error == IndexError || r.error == UnboundLocalError
    ensures r.Ok? ==> r.value.Some? && |r.value.value| > 0 && forall d :: d in r.value.value ==> Typed(d)
    ensures r.Ok? ==> "type" in r.value.value[0] && r.value.value[0]["type"] == Text(KindName(kind))
    decreases |text|, 0
  {
    var skip := if kind == 0 then 3 else if kind == 1 then 4 else 9;
    var t := Slice(text, s + skip, s + length);
    match Item(kind, t)
    case Raise(e) => Raise(e)
    case Ok(d0) =>
      Followed(Reparsed(d0, |t|), CommandStructure(text[s + length..]))
  }

  /** Lines 208-215: the item, then whatever the rest of the text holds. */
  function Followed(d: Dict, rest: Outcome<Option<seq<Dict>>>): (r: Outcome<Option<seq<Dict>>>)
    requires Typed(d)
    requires rest.Ok? && rest.value.Some? ==> forall x :: x in rest.value.value ==> Typed(x)
    ensures rest.Raise? <==> r.Raise?
    ensures r.Ok? ==> r.value.Some? && |r.value.value| > 0 && r.value.value[0] == d
    ensures r.Ok? ==> forall x :: x in r.value.value ==> Typed(x)
    ensures rest.Ok? && rest.value.Some? ==> r.Ok? && r.value.value[1..] == rest.value.value
    ensures rest.Ok? && rest.value.None? ==> r == Ok(Some([d]))
  {
    match rest
    case Raise(e) => Raise(e)
    case Ok(None) => Ok(Some([d]))
    case Ok(Some(more)) => Ok(Some([d] + more))
  }

  /** Lines 198-207: `subtasks` and then `cmds` parsed again, when they are text. */
  function Reparsed(d0: Dict, n: nat): (d: Dict)
    requires NestedWithin(d0, n)
    ensures d.Keys == d0.Keys
    ensures forall k :: k in d0 && k != "subtasks" && k != "cmds" ==> d[k] == d0[k]
    ensures Typed(d0) ==> Typed(d)
    decreases n, 4
  {
    var d1 := Reparse(d0, "subtasks", n);
    Reparse(d1, "cmds", n)
  }

  /** Lines 198-207: the text under `key` parsed again, an exception leaving it as it was. */
  function Reparse(d: Dict, key: string, n: nat): (r: Dict)
    requires key in d && d[key].Text? ==> |d[key].s| <= n
    ensures r.Keys == d.Keys
    ensures forall k :: k in d && k != key ==> r[k] == d[k]
    decreases n, 3
  {
    if key in d && d[key].Text? then Attach(d, key, CommandStructure(LStripChar(d[key].s, '\n')))
    else d
  }

  /** Lines 178-183: the structure is None exactly when no keyword occurs (for texts shorter than the stand-in). */
  lemma NoneIffNoKeyword(text: string)
    requires |text| < NotFound
    ensures CommandStructure(text) == Ok(None)
        <==> !Contains(text, "Job") && !Contains(text, "Task") && !Contains(text, "RemoteCmd")
  {
    if KeywordAt(text) == NotFound {
      NoKeyword(text);
      assert CommandStructure(text) == Ok(None);
    } else {
      SomeKeyword(text);
    }
  }

  lemma NoKeyword(text: string)
    requires |text| < NotFound && KeywordAt(text) == NotFound
    ensures !Contains(text, "Job") && !Contains(text, "Task") && !Contains(text, "RemoteCmd")
  {
    var a, b, c := Found(text, "Job"), Found(text, "Task"), Found(text, "RemoteCmd");
    assert [a, b, c][Lowest(a, b, c)] == NotFound;
    assert a == NotFound && b == NotFound && c == NotFound;
  }

  lemma SomeKeyword(text: string)
    requires KeywordAt(text) != NotFound
    ensures CommandStructure(text) != Ok(None)
    ensures Contains(text, "Job") || Contains(text, "Task") || Contains(text, "RemoteCmd")
  {
    var at := KeywordAt(text);
    assert CommandStructure(text) == ItemsFrom(text, Keyword(text), BackOverTabs(text, at));
    assert Contains(text, Keywords[Keyword(text)]);
  }
}
