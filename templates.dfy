/**
 * The templating system (bin/templates.py): `PrefixDict`, which answers a
 * key `prefix:name` from the dictionary registered under that prefix, and
 * `Templates`, which loads the `.html` templates with their parents and
 * renders a template inside its chain of parents.
 *
 * Python dictionaries keep insertion order, so a dictionary is a `Table`:
 * a sequence of key/value pairs.  The `%` formatting of a template is the
 * parameter `fill` of the rendering.
 */
module Templates {
  import opened Py

  // ---------------------------------------------------------------------------
  // Dictionaries in insertion order

  /** A Python dict: its pairs in insertion order. */
  type Table<V> = seq<(string, V)>

  /** The keys of `t`, in order. */
  function Keys<V>(t: Table<V>): (r: seq<string>)
    ensures |r| == |t| && forall i :: 0 <= i < |t| ==> r[i] == t[i].0
  {
    seq(|t|, i requires 0 <= i < |t| => t[i].0)
  }

  /** No key occurs twice. */
  predicate Unique<V>(t: Table<V>) {
    forall i, j :: 0 <= i < j < |t| ==> t[i].0 != t[j].0
  }

  /** `t[k]` when `k in t`. */
  function Lookup<V>(t: Table<V>, k: string): (r: Option<V>)
    ensures r.None? <==> forall i :: 0 <= i < |t| ==> t[i].0 != k
    ensures r.Some? ==> exists i :: 0 <= i < |t| && t[i] == (k, r.value)
    decreases |t|
  {
    if |t| == 0 then None
    else if t[0].0 == k then Some(t[0].1)
    else
      var r := Lookup(t[1..], k);
      assert r.Some? ==> exists i :: 0 <= i < |t| && t[i] == (k, r.value) by {
        if r.Some? {
          var i :| 0 <= i < |t[1..]| && t[1..][i] == (k, r.value);
          assert t[i + 1] == (k, r.value);
        }
      }
      assert r.None? ==> forall i :: 0 <= i < |t| ==> t[i].0 != k by {
        if r.None? {
          forall i | 0 <= i < |t| ensures t[i].0 != k {
            if i > 0 {
              assert t[1..][i - 1] == t[i];
            }
          }
        }
      }
      r
  }

  /** In a table without repeated keys, the pair at `i` is what its key looks up. */
  lemma LookupUnique<V>(t: Table<V>, i: nat)
    requires Unique(t) && i < |t|
    ensures Lookup(t, t[i].0) == Some(t[i].1)
  {
    var r := Lookup(t, t[i].0);
    var j :| 0 <= j < |t| && t[j] == (t[i].0, r.value);
    assert j == i;
  }

  /** `t[k] = v`: the value replaced where `k` stands, or the pair appended. */
  function Assign<V>(t: Table<V>, k: string, v: V): (r: Table<V>)
    ensures Lookup(r, k) == Some(v)
    ensures forall q :: q != k ==> Lookup(r, q) == Lookup(t, q)
    decreases |t|
  {
    if |t| == 0 then [(k, v)]
    else if t[0].0 == k then [(k, v)] + t[1..]
    else
      var r := [t[0]] + Assign(t[1..], k, v);
      assert r[1..] == Assign(t[1..], k, v);
      r
  }

  /** Every pair after `t[k] = v` is the new one or one `t` had. */
  lemma {:induction false} AssignEntries<V>(t: Table<V>, k: string, v: V, i: nat)
    requires i < |Assign(t, k, v)|
    ensures Assign(t, k, v)[i] == (k, v) || Assign(t, k, v)[i] in t
    decreases |t|
  {
    if |t| > 0 && t[0].0 != k && i > 0 {
      assert Assign(t, k, v)[i] == Assign(t[1..], k, v)[i - 1];
      AssignEntries(t[1..], k, v, i - 1);
    } else if |t| > 0 && t[0].0 == k && i > 0 {
      assert Assign(t, k, v)[i] == t[i];
    }
  }

  /** Assigning a key keeps every key once. */
  lemma {:induction false} AssignUnique<V>(t: Table<V>, k: string, v: V)
    requires Unique(t)
    ensures Unique(Assign(t, k, v))
    decreases |t|
  {
    if |t| > 0 && t[0].0 != k {
      AssignUnique(t[1..], k, v);
      var rest := Assign(t[1..], k, v);
      assert Assign(t, k, v) == [t[0]] + rest;
      assert Lookup(t[1..], t[0].0).None? by {
        forall j | 0 <= j < |t[1..]| ensures t[1..][j].0 != t[0].0 {
          assert t[1..][j] == t[j + 1];
        }
      }
      assert Lookup(rest, t[0].0).None?;
    }
  }
  /** Assigning a key a table has keeps its keys, in place. */
  lemma {:induction false} AssignInPlace<V>(t: Table<V>, k: string, v: V)
    requires Lookup(t, k).Some?
    ensures Keys(Assign(t, k, v)) == Keys(t)
    decreases |t|
  {
    if t[0].0 != k {
      assert Lookup(t[1..], k).Some? by {
        var i :| 0 <= i < |t| && t[i].0 == k;
        assert t[1..][i - 1] == t[i];
      }
      AssignInPlace(t[1..], k, v);
      var r := Assign(t, k, v);
      assert r == [t[0]] + Assign(t[1..], k, v);
      forall i | 0 <= i < |t| ensures r[i].0 == t[i].0 {
        if i > 0 {
          assert r[i] == Assign(t[1..], k, v)[i - 1];
          assert Keys(Assign(t[1..], k, v))[i - 1] == Keys(t[1..])[i - 1];
        }
      }
    }
  }

  // ---------------------------------------------------------------------------
  // PrefixDict (lines 24-53)

  /** Line 28: the dictionaries by prefix; the empty prefix stands for no prefix. */
  datatype PrefixDict = PrefixDict(dicts: Table<Table<string>>)

  /** Lines 31-37: the prefix and the key proper; without ':' the prefix is empty. */
  function SplitKey(key: string): (r: (string, string))
    ensures !Contains(key, ":") ==> r == ("", key)
    ensures Contains(key, ":") ==> r.0 + ":" + r.1 == key && !Contains(r.0, ":")
  {
    match SplitOnce(key, ":")
    case None => ("", key)
    case Some(p) => p
  }

  /** Lines 30-41: a missing prefix or a missing key gives ''. */
  function GetItem(p: PrefixDict, key: string): (r: string)
    ensures Lookup(p.dicts, SplitKey(key).0).None? ==> r == ""
    ensures Lookup(p.dicts, SplitKey(key).0).Some? && Lookup(Lookup(p.dicts, SplitKey(key).0).value, SplitKey(key).1).None? ==> r == ""
  {
    var (base, k) := SplitKey(key);
    match Lookup(p.dicts, base)
    case None => ""
    case Some(d) =>
      match Lookup(d, k)
      case None => ""
      case Some(v) => v
  }

  /** Lines 52-53: the sizes of the dictionaries added up. */
  function Len(p: PrefixDict): nat {
    Sizes(p.dicts)
  }

  /** The sizes of the dictionaries of `ds` added up. */
  function Sizes(ds: Table<Table<string>>): nat {
    if |ds| == 0 then 0 else Sizes(ds[..|ds| - 1]) + |ds[|ds| - 1].1|
  }

  /** Lines 45-50: the names under which the keys of `d` are reached. */
  function Named(prefix: string, d: Table<string>): (r: seq<string>)
    ensures |r| == |d|
  {
    if prefix == "" then Keys(d) else seq(|d|, i requires 0 <= i < |d| => prefix + ":" + d[i].0)
  }

  /** Lines 43-50 as evidently intended: every key of every dictionary, prefixed by its dictionary's prefix. */
  function Iter(p: PrefixDict): seq<string> {
    Names(p.dicts)
  }

  /** The names of the keys of the dictionaries `ds`, one dictionary after another. */
  function Names(ds: Table<Table<string>>): seq<string> {
    if |ds| == 0 then [] else Names(ds[..|ds| - 1]) + Named(ds[|ds| - 1].0, ds[|ds| - 1].1)
  }

  /** Lines 43-44 as written: Python 3 dictionaries have no `iteritems`, so iterating raises. */
  function IterAsWritten(p: PrefixDict): Outcome<seq<string>> {
    Raise(AttributeError)
  }

  /** Iterating as intended visits exactly `len` names. */
  lemma {:induction false} IterLen(p: PrefixDict)
    ensures |Iter(p)| == Len(p)
  {
    NamesSizes(p.dicts);
  }

  lemma {:induction false} NamesSizes(ds: Table<Table<string>>)
    ensures |Names(ds)| == Sizes(ds)
  {
    if |ds| > 0 {
      NamesSizes(ds[..|ds| - 1]);
    }
  }

  /** Line 44 as written: a dictionary that reports keys cannot be iterated at all. */
  lemma IterAsWrittenFails(p: PrefixDict)
    requires Len(p) > 0
    ensures IterAsWritten(p) == Raise(AttributeError) && |Iter(p)| > 0
  {
    IterLen(p);
  }

  /** A prefix and a key that `GetItem` takes apart again. */
  predicate Separable(prefix: string, key: string) {
    !Contains(prefix, ":") && (prefix == "" ==> !Contains(key, ":"))
  }

  /** The name of the key `k` under `prefix` splits back into the two. */
  lemma SplitNamed(prefix: string, k: string)
    requires Separable(prefix, k)
    ensures SplitKey(if prefix == "" then k else prefix + ":" + k) == (prefix, k)
  {
    if prefix != "" {
      var key := prefix + ":" + k;
      ContainsChar(prefix, ':');
      FindFirstChar(prefix, ':', k);
      assert Contains(key, ":") by {
        OccursAtChar(key, ':', |prefix|);
      }
      var r := SplitKey(key);
      assert |r.0| == |prefix| by {
        assert Find(key, ":") == |prefix|;
      }
      assert r.0 == key[..|prefix|];
      assert r.1 == key[|prefix| + 1..];
    }
  }

  /**
   * Lines 30-53: looking up the name under which iteration reports the key
   * of pair `m` of dictionary `j` gives that pair's value, when no prefix
   * or key repeats and every name splits back.
   */
  lemma GetNamed(p: PrefixDict, j: nat, m: nat)
    requires Unique(p.dicts) && j < |p.dicts| && Unique(p.dicts[j].1) && m < |p.dicts[j].1|
    requires Separable(p.dicts[j].0, p.dicts[j].1[m].0)
    ensures GetItem(p, Named(p.dicts[j].0, p.dicts[j].1)[m]) == p.dicts[j].1[m].1
  {
    var (prefix, d) := p.dicts[j];
    SplitNamed(prefix, d[m].0);
    assert Named(prefix, d)[m] == if prefix == "" then d[m].0 else prefix + ":" + d[m].0;
    LookupUnique(p.dicts, j);
    LookupUnique(d, m);
  }

  // ---------------------------------------------------------------------------
  // Templates (lines 57-100)

  /** Line 63: a template's text and the name of its parent. */
  datatype Template = Template(data: string, parent: Option<string>)

  /** Line 61: the file is an `.html` file. */
  predicate IsHtml(fn: string) {
    Slice(fn, -5, |fn|) == ".html"
  }

  /** Lines 73-78: `name:parent.html`, or `name.html` without a parent. */
  function NameParent(fn: string): (string, Option<string>) {
    var naked := Slice(fn, 0, -5);
    match SplitOnce(naked, ":")
    case None => (naked, None)
    case Some(p) => (p.0, Some(p.1))
  }

  /** A file named `name:parent.html` gives the template `name` with parent `parent`. */
  lemma NameParentOf(name: string, parent: string)
    requires !Contains(name, ":")
    ensures NameParent(name + ":" + parent + ".html") == (name, Some(parent))
  {
    var fn := name + ":" + parent + ".html";
    var naked := name + ":" + parent;
    assert Slice(fn, 0, -5) == naked by {
      assert fn[..|fn| - 5] == naked;
    }
    ContainsChar(name, ':');
    FindFirstChar(name, ':', parent);
    OccursAtChar(naked, ':', |name|);
    assert naked[..|name|] == name;
    assert naked[|name| + 1..] == parent;
  }

  /** A file named `name.html` with no ':' gives the template `name` without a parent. */
  lemma NameWithoutParent(name: string)
    requires !Contains(name, ":")
    ensures NameParent(name + ".html") == (name, None)
  {
    var fn := name + ".html";
    assert Slice(fn, 0, -5) == name by {
      assert fn[..|fn| - 5] == name;
    }
  }

  /** Lines 61-81: the templates of the files `files` (name and text), a later file of the same name replacing an earlier. */
  function Loaded(files: seq<(string, string)>): map<string, Template> {
    if |files| == 0 then map[]
    else
      var (fn, data) := files[|files| - 1];
      var ts := Loaded(files[..|files| - 1]);
      if IsHtml(fn) then
        var (name, parent) := NameParent(fn);
        ts[name := Template(data, parent)]
      else ts
  }

  /** The file `f` is an `.html` file of the template `name`. */
  predicate Gives(f: (string, string), name: string) {
    IsHtml(f.0) && NameParent(f.0).0 == name
  }

  /** A template is loaded exactly when some `.html` file gives its name. */
  lemma {:induction false} LoadedNames(files: seq<(string, string)>, name: string)
    ensures name in Loaded(files) <==> exists i :: 0 <= i < |files| && Gives(files[i], name)
  {
    if |files| > 0 {
      var n := |files| - 1;
      var front := files[..n];
      LoadedNames(front, name);
      assert name in Loaded(files) <==> name in Loaded(front) || Gives(files[n], name);
      if exists i :: 0 <= i < n && Gives(front[i], name) {
        var i :| 0 <= i < n && Gives(front[i], name);
        assert files[i] == front[i];
      }
      if exists i :: 0 <= i < n && Gives(files[i], name) {
        var i :| 0 <= i < n && Gives(files[i], name);
        assert front[i] == files[i];
      }
    }
  }

  /** Line 81: the template of a name comes from the last `.html` file that gives that name. */
  lemma {:induction false} LoadedLastWins(files: seq<(string, string)>, j: nat)
    requires j < |files| && IsHtml(files[j].0)
    requires forall i :: j < i < |files| ==> !Gives(files[i], NameParent(files[j].0).0)
    ensures var (name, parent) := NameParent(files[j].0);
      name in Loaded(files) && Loaded(files)[name] == Template(files[j].1, parent)
  {
    var n := |files| - 1;
    if j < n {
      var front := files[..n];
      assert front[j] == files[j];
      forall i | j < i < |front| ensures !Gives(front[i], NameParent(front[j].0).0) {
        assert front[i] == files[i];
      }
      LoadedLastWins(front, j);
    }
  }

  /** Line 92: the dictionary a template is filled from. */
  function Prefixed(dic: Table<string>, language: Table<string>, session: Table<string>): PrefixDict {
    PrefixDict([("", dic), ("text", language), ("session", session)])
  }

  /** How a call of `__call__` ends: with the text, with a KeyError for a missing template, or never, on a cycle of parents. */
  datatype Run = Rendered(text: string) | Missing | Endless

  /**
   * Lines 94-98 from the template `name`, with `ret` the text so far and
   * `seen` the templates already rendered: the ending and `dic` afterwards.
   * Meeting a template again means the source's loop never ends.
   */
  function Render(ts: map<string, Template>, name: string, c: Carried, language: Table<string>,
                  session: Table<string>, fill: (string, PrefixDict) -> string, seen: set<string>): (Run, Table<string>)
    requires seen <= ts.Keys
    decreases |ts.Keys - seen|
  {
    if name !in ts then (Missing, c.1)
    else if name in seen then (Endless, c.1)
    else
      var next := Step(ts[name], c, language, session, fill);
      match ts[name].parent
      case None => (Rendered(next.0.value), next.1)
      case Some(up) =>
        assert ts.Keys - (seen + {name}) < ts.Keys - seen;
        Render(ts, up, next, language, session, fill, seen + {name})
  }

  /** The templates visited from `name`: each the parent of the one before. */
  datatype Trail = Ends(names: seq<string>) | Broken(names: seq<string>) | Loops(names: seq<string>)

  /** Lines 94-98: following the parents from `name`, not counting the ones in `seen`. */
  function Chain(ts: map<string, Template>, name: string, seen: set<string>): (r: Trail)
    requires seen <= ts.Keys
    ensures forall n :: n in r.names ==> n in ts && n !in seen
    ensures r.Ends? ==> |r.names| > 0
    decreases |ts.Keys - seen|
  {
    if name !in ts then Broken([])
    else if name in seen then Loops([])
    else
      match ts[name].parent
      case None => Ends([name])
      case Some(up) =>
        assert ts.Keys - (seen + {name}) < ts.Keys - seen;
        match Chain(ts, up, seen + {name})
        case Ends(ns) => Ends([name] + ns)
        case Broken(ns) => Broken([name] + ns)
        case Loops(ns) => Loops([name] + ns)
  }

  /** What the loop carries: the text so far (`ret`) and `dic`. */
  type Carried = (Option<string>, Table<string>)

  /** Lines 95-97: one template filled, 'inner' first set to the text so far. */
  function Step(t: Template, c: Carried, language: Table<string>, session: Table<string>,
                fill: (string, PrefixDict) -> string): (r: Carried)
    ensures r.0.Some?
  {
    var d := if c.0.Some? then Assign(c.1, "inner", c.0.value) else c.1;
    (Some(fill(t.data, Prefixed(d, language, session))), d)
  }

  /** Lines 95-97 for the templates `names` in turn. */
  function Along(ts: map<string, Template>, names: seq<string>, c: Carried, language: Table<string>,
                 session: Table<string>, fill: (string, PrefixDict) -> string): (r: Carried)
    requires forall n :: n in names ==> n in ts
    ensures |names| > 0 ==> r.0.Some?
    decreases |names|
  {
    if |names| == 0 then c
    else Along(ts, names[1..], Step(ts[names[0]], c, language, session, fill), language, session, fill)
  }

  /** The templates of a chain are loaded, and each is the parent of the one before. */
  lemma {:induction false} ChainLinks(ts: map<string, Template>, name: string, seen: set<string>)
    requires seen <= ts.Keys
    ensures var ns := Chain(ts, name, seen).names;
      (|ns| > 0 ==> ns[0] == name) &&
      (forall i :: 0 <= i < |ns| - 1 ==> ts[ns[i]].parent == Some(ns[i + 1]))
    ensures Chain(ts, name, seen).Ends? ==>
      (|Chain(ts, name, seen).names| > 0 && ts[Chain(ts, name, seen).names[|Chain(ts, name, seen).names| - 1]].parent.None?)
    decreases |ts.Keys - seen|
  {
    if name in ts && name !in seen && ts[name].parent.Some? {
      var up := ts[name].parent.value;
      assert ts.Keys - (seen + {name}) < ts.Keys - seen;
      ChainLinks(ts, up, seen + {name});
      var ns := Chain(ts, up, seen + {name}).names;
      var all := Chain(ts, name, seen).names;
      assert all == [name] + ns;
      forall i | 0 <= i < |all| - 1 ensures ts[all[i]].parent == Some(all[i + 1]) {
        if i > 0 {
          assert all[i] == ns[i - 1] && all[i + 1] == ns[i];
        }
      }
    }
  }

  /**
   * Lines 94-98: rendering walks the chain of parents, filling each
   * template in turn; it ends with the last text when the chain ends, with
   * KeyError when it reaches a missing template, and never on a cycle.
   */
  lemma {:induction false} RenderAlong(ts: map<string, Template>, name: string, c: Carried, language: Table<string>,
                                       session: Table<string>, fill: (string, PrefixDict) -> string, seen: set<string>)
    requires seen <= ts.Keys
    ensures var trail := Chain(ts, name, seen);
      var last := Along(ts, trail.names, c, language, session, fill);
      Render(ts, name, c, language, session, fill, seen) ==
        match trail
        case Ends(_) => (Rendered(last.0.value), last.1)
        case Broken(_) => (Missing, last.1)
        case Loops(_) => (Endless, last.1)
    decreases |ts.Keys - seen|
  {
    if name in ts && name !in seen && ts[name].parent.Some? {
      var up := ts[name].parent.value;
      assert ts.Keys - (seen + {name}) < ts.Keys - seen;
      var next := Step(ts[name], c, language, session, fill);
      RenderAlong(ts, up, next, language, session, fill, seen + {name});
      var ns := Chain(ts, up, seen + {name}).names;
      assert ([name] + ns)[1..] == ns;
    }
  }

  /** Lines 96-97: the last template is filled with 'inner' set to the text of the ones before it. */
  lemma {:induction false} AlongLast(ts: map<string, Template>, names: seq<string>, c: Carried, language: Table<string>,
                                     session: Table<string>, fill: (string, PrefixDict) -> string)
    requires |names| > 0 && forall n :: n in names ==> n in ts
    ensures Along(ts, names, c, language, session, fill) ==
      Step(ts[names[|names| - 1]], Along(ts, names[..|names| - 1], c, language, session, fill), language, session, fill)
    decreases |names|
  {
    if |names| > 1 {
      var next := Step(ts[names[0]], c, language, session, fill);
      AlongLast(ts, names[1..], next, language, session, fill);
      assert names[1..][..|names[1..]| - 1] == names[..|names| - 1][1..];
      assert names[1..][|names[1..]| - 1] == names[|names| - 1];
    }
  }

  /** Line 96: 'inner' is set to the text so far, if there is one, and no other key changes. */
  lemma StepInner(t: Template, c: Carried, language: Table<string>, session: Table<string>,
                  fill: (string, PrefixDict) -> string)
    ensures var d := Step(t, c, language, session, fill).1;
      (c.0.Some? ==> Lookup(d, "inner") == c.0) && (c.0.None? ==> d == c.1) &&
      forall q :: q != "inner" ==> Lookup(d, q) == Lookup(c.1, q)
  {
  }

  /** Lines 57-100: the loaded templates, and the call that renders one. */
  class Templates {
    var templates: map<string, Template>

    /** Lines 59-84, the directory listing given as its files' names and texts. */
    constructor(files: seq<(string, string)>)
      ensures templates == Loaded(files)
    {
      var loaded := map[];
      for k := 0 to |files|
        invariant loaded == Loaded(files[..k])
      {
        var (fn, data) := files[k];
        assert files[..k + 1][..k] == files[..k];
        if IsHtml(fn) {
          var (name, parent) := NameParent(fn);
          loaded := loaded[name := Template(data, parent)];
        }
      }
      assert files[..|files|] == files;
      templates := loaded;
    }

    /**
     * Lines 87-100: the ending of the call and `dic` afterwards.  The
     * source loops for ever on a cycle; this loop notices the repetition
     * and answers Endless.
     */
    method Call(name: string, dic: Table<string>, language: Table<string>, session: Table<string>,
                fill: (string, PrefixDict) -> string) returns (r: Run, after: Table<string>)
      ensures (r, after) == Render(templates, name, (None, dic), language, session, fill, {})
    {
      var ret: Option<string> := None;
      var current := name;
      after := dic;
      var seen: set<string> := {};
      while true
        invariant seen <= templates.Keys
        invariant Render(templates, current, (ret, after), language, session, fill, seen) ==
                  Render(templates, name, (None, dic), language, session, fill, {})
        decreases |templates.Keys - seen|
      {
        if current !in templates {
          return Missing, after;
        }
        if current in seen {
          return Endless, after;
        }
        var template := templates[current];
        if ret.Some? {
          after := Assign(after, "inner", ret.value);
        }
        var out := fill(template.data, Prefixed(after, language, session));
        ret := Some(out);
        if template.parent.None? {
          return Rendered(out), after;
        }
        assert templates.Keys - (seen + {current}) < templates.Keys - seen;
        seen := seen + {current};
        current := template.parent.value;
      }
    }
  }
}
