/**
 * Task priorities (bin/priority.py): the priority of an asset boosted by
 * the assets that depend on it, each user's task list in priority order,
 * and each user's most urgent task.
 *
 * A project's database is a map from the path of every JSON file to its
 * metadata, None for a file that reads as None; `paths` is the order in which iterating the database
 * yields paths.  The project settings, the state table's 'boost' flags (None for a state it does not hold) and
 * the name of the directory holding old versions are parameters.
 */
module Priority {
  import opened Py
  import opened Sorting

  type Path = seq<string>

  /** The 'owner' entry: missing, None, or a user ident. */
  datatype Owner = Absent | Nobody | Owned(ident: string)

  /** The metadata of an asset; `typed` says whether it has a 'type' entry. */
  datatype Meta = Meta(priority: real, state: string, dependencies: seq<string>, typed: bool, owner: Owner)

  type Db = map<Path, Option<Meta>>

  /** The database holds `path` and its file reads as metadata. */
  predicate Readable(db: Db, path: Path) {
    path in db && db[path].Some?
  }

  /** The 'boosting' switch and 'boost' amount of `priority.json`. */
  datatype Settings = Settings(boosting: bool, boost: real)

  /** Lines 32-33: the database path of the metadata of dependency `child`. */
  function DepPath(child: string): (r: Path)
    ensures |r| >= 1 && EndsWith(r[|r| - 1], ".json")
  {
    var parts := SplitChar(child, '/');
    var n := |parts| - 1;
    var last := parts[n] + ".json";
    assert last[|last| - 5..] == ".json";
    parts[..n] + [last]
  }

  // ---------------------------------------------------------------------------
  // true_priority

  /**
   * Lines 25-27: whether the asset's state boosts it.  `getState` answers
   * None for an unknown state, and `state['boost']` then raises TypeError;
   * with boosting off the state is not looked at.
   */
  function Boosts(m: Meta, s: Settings, boost: string -> Option<bool>): (r: Outcome<bool>)
    ensures r.Raise? <==> s.boosting && boost(m.state).None?
    ensures r.Raise? ==> r.error == TypeError
    ensures r == Ok(true) <==> s.boosting && boost(m.state) == Some(true)
  {
    if !s.boosting then Ok(false)
    else match boost(m.state)
      case None => Raise(TypeError)
      case Some(b) => Ok(b)
  }

  /**
   * Lines 18-42 as written: line 36 calls `priority`, a name the module
   * does not define, so the first dependency of a boosted asset raises
   * NameError, once line 34 has found it (KeyError when it does not
   * exist), whether or not its file reads as metadata.  A path with no
   * readable metadata raises TypeError at line 24.
   */
  function TruePriorityAsWritten(db: Db, path: Path, s: Settings, boost: string -> Option<bool>): Outcome<real> {
    if !Readable(db, path) then Raise(TypeError)
    else
      var m := db[path].value;
      match Boosts(m, s, boost)
      case Raise(e) => Raise(e)
      case Ok(b) =>
        if b && |m.dependencies| > 0 then
          (if DepPath(m.dependencies[0]) !in db then Raise(KeyError) else Raise(NameError))
        else Ok(m.priority)
  }

  /**
   * Lines 18-42 with line 36 calling `true_priority` itself: the largest of
   * the asset's own priority and each dependency's priority plus the boost.
   * `chain` holds the assets whose priority is being worked out further up;
   * meeting one again is unbounded recursion, which Python stops with
   * RecursionError.
   */
  function TruePriority(db: Db, path: Path, s: Settings, boost: string -> Option<bool>, chain: set<Path>): Outcome<real>
    decreases |db.Keys - chain|, 0, 0
  {
    if !Readable(db, path) then Raise(TypeError)
    else if path in chain then Raise(RecursionError)
    else
      var m := db[path].value;
      match Boosts(m, s, boost)
      case Raise(e) => Raise(e)
      case Ok(b) =>
        if b then
          assert |db.Keys - (chain + {path})| < |db.Keys - chain| by {
            assert db.Keys - (chain + {path}) == (db.Keys - chain) - {path};
          }
          DepsMax(db, m.dependencies, s, boost, chain + {path}, m.priority)
        else Ok(m.priority)
  }

  /**
   * Lines 31-40: `ret` raised to each dependency's priority plus the boost;
   * `db[path]` raises KeyError for a dependency the database does not hold;
   * one whose file reads as None fails at line 24 of the recursive call.
   */
  function DepsMax(db: Db, deps: seq<string>, s: Settings, boost: string -> Option<bool>, chain: set<Path>, ret: real): Outcome<real>
    decreases |db.Keys - chain|, 1, |deps|
  {
    if |deps| == 0 then Ok(ret)
    else if DepPath(deps[0]) !in db then Raise(KeyError)
    else
      match TruePriority(db, DepPath(deps[0]), s, boost, chain)
      case Raise(err) => Raise(err)
      case Ok(p) => DepsMax(db, deps[1..], s, boost, chain, if p + s.boost > ret then p + s.boost else ret)
  }

  /** The dependency `d` reaches `x` once boosted. */
  predicate DepBelow(db: Db, d: string, s: Settings, boost: string -> Option<bool>, chain: set<Path>, x: real) {
    var p := TruePriority(db, DepPath(d), s, boost, chain);
    p.Ok? && p.value + s.boost <= x
  }

  /** The dependency `d` reaches exactly `x` once boosted. */
  predicate DepGives(db: Db, d: string, s: Settings, boost: string -> Option<bool>, chain: set<Path>, x: real) {
    var p := TruePriority(db, DepPath(d), s, boost, chain);
    p.Ok? && p.value + s.boost == x
  }

  /** Lines 31-40: the running maximum only grows, bounds every boosted dependency and is one of them or the start. */
  lemma {:induction false} DepsMaxIsMax(db: Db, deps: seq<string>, s: Settings, boost: string -> Option<bool>, chain: set<Path>, ret: real)
    requires DepsMax(db, deps, s, boost, chain, ret).Ok?
    ensures var r := DepsMax(db, deps, s, boost, chain, ret).value;
      ret <= r && (forall i :: 0 <= i < |deps| ==> DepBelow(db, deps[i], s, boost, chain, r))
      && (r == ret || exists i :: 0 <= i < |deps| && DepGives(db, deps[i], s, boost, chain, r))
  {
    if |deps| > 0 {
      var p := TruePriority(db, DepPath(deps[0]), s, boost, chain).value;
      var next := if p + s.boost > ret then p + s.boost else ret;
      DepsMaxIsMax(db, deps[1..], s, boost, chain, next);
      var r := DepsMax(db, deps, s, boost, chain, ret).value;
      assert r == DepsMax(db, deps[1..], s, boost, chain, next).value;
      forall i | 0 <= i < |deps| ensures DepBelow(db, deps[i], s, boost, chain, r) {
        if i > 0 {
          assert deps[i] == deps[1..][i - 1];
        }
      }
      if r != ret {
        if r == next {
          assert DepGives(db, deps[0], s, boost, chain, r);
        } else {
          var i :| 0 <= i < |deps[1..]| && DepGives(db, deps[1..][i], s, boost, chain, r);
          assert deps[1..][i] == deps[i + 1];
        }
      }
    }
  }

  /**
   * Lines 24-42: the priority is at least the asset's own.  Boosted, it is
   * the largest of its own and each dependency's priority plus the boost;
   * otherwise it is its own.
   */
  lemma PriorityIsMax(db: Db, path: Path, s: Settings, boost: string -> Option<bool>, chain: set<Path>)
    requires TruePriority(db, path, s, boost, chain).Ok?
    ensures Readable(db, path) && path !in chain
    ensures var r := TruePriority(db, path, s, boost, chain).value;
      var m := db[path].value;
      m.priority <= r && Boosts(m, s, boost).Ok?
      && (Boosts(m, s, boost) == Ok(false) ==> r == m.priority)
      && (Boosts(m, s, boost) == Ok(true) ==>
            (forall i :: 0 <= i < |m.dependencies| ==> DepBelow(db, m.dependencies[i], s, boost, chain + {path}, r))
            && (r == m.priority || exists i :: 0 <= i < |m.dependencies| && DepGives(db, m.dependencies[i], s, boost, chain + {path}, r)))
  {
    var m := db[path].value;
    if Boosts(m, s, boost) == Ok(true) {
      DepsMaxIsMax(db, m.dependencies, s, boost, chain + {path}, m.priority);
    }
  }

  /**
   * Lines 23-34: no readable metadata and, once boosting is on, an unknown
   * state are TypeErrors; a boosted asset's first dependency that the
   * database does not hold is a KeyError, and one whose file reads as None
   * is a TypeError.
   */
  lemma PriorityErrors(db: Db, path: Path, s: Settings, boost: string -> Option<bool>)
    ensures !Readable(db, path) ==> TruePriority(db, path, s, boost, {}) == Raise(TypeError)
    ensures Readable(db, path) && s.boosting && boost(db[path].value.state).None? ==> TruePriority(db, path, s, boost, {}) == Raise(TypeError)
    ensures (Readable(db, path) && Boosts(db[path].value, s, boost) == Ok(true) && |db[path].value.dependencies| > 0
             && DepPath(db[path].value.dependencies[0]) !in db) ==> TruePriority(db, path, s, boost, {}) == Raise(KeyError)
    ensures (Readable(db, path) && Boosts(db[path].value, s, boost) == Ok(true) && |db[path].value.dependencies| > 0
             && DepPath(db[path].value.dependencies[0]) in db && !Readable(db, DepPath(db[path].value.dependencies[0])))
            ==> TruePriority(db, path, s, boost, {}) == Raise(TypeError)
  {
    if Readable(db, path) && Boosts(db[path].value, s, boost) == Ok(true) && |db[path].value.dependencies| > 0 {
      var m := db[path].value;
      var dep := DepPath(m.dependencies[0]);
      assert {} + {path} == {path};
      if dep in db && !Readable(db, dep) {
        assert TruePriority(db, dep, s, boost, {path}) == Raise(TypeError);
        assert DepsMax(db, m.dependencies, s, boost, {path}, m.priority) == Raise(TypeError);
      }
    }
  }

  /** Line 36 as written: a boosted asset with a dependency never gets a priority. */
  lemma AsWrittenNeverBoosts(db: Db, path: Path, s: Settings, boost: string -> Option<bool>)
    requires Readable(db, path) && s.boosting && boost(db[path].value.state) == Some(true) && |db[path].value.dependencies| > 0
    ensures TruePriorityAsWritten(db, path, s, boost)
      == Raise(if DepPath(db[path].value.dependencies[0]) in db then NameError else KeyError)
    ensures TruePriority(db, path, s, boost, {}).Ok? ==> TruePriority(db, path, s, boost, {}).value >= db[path].value.priority
  {
    if TruePriority(db, path, s, boost, {}).Ok? {
      PriorityIsMax(db, path, s, boost, {});
    }
  }

  /** A boosted asset whose first dependency is itself recurses without end. */
  lemma SelfDependency(db: Db, path: Path, s: Settings, boost: string -> Option<bool>)
    requires Readable(db, path) && s.boosting && boost(db[path].value.state) == Some(true)
    requires |db[path].value.dependencies| > 0 && DepPath(db[path].value.dependencies[0]) == path
    ensures TruePriority(db, path, s, boost, {}) == Raise(RecursionError)
  {
    var m := db[path].value;
    assert {} + {path} == {path};
    assert TruePriority(db, DepPath(m.dependencies[0]), s, boost, {path}) == Raise(RecursionError);
    assert DepsMax(db, m.dependencies, s, boost, {path}, m.priority) == Raise(RecursionError);
  }

  /** Lines 32-33: the dependency path, joined with '/', is the dependency with '.json' added. */
  lemma DepPathJoin(child: string)
    ensures Join(DepPath(child), "/") == child + ".json"
  {
    var parts := SplitChar(child, '/');
    var n := |parts| - 1;
    assert DepPath(child) == parts[..n] + [parts[n] + ".json"];
    assert Join(parts, "/") == child by {
      JoinSplitChar(child, '/');
    }
    assert Join(parts[..n] + [parts[n] + ".json"], "/") == Join(parts, "/") + ".json" by {
      JoinExtended(parts, "/", ".json");
    }
  }

  /** Extending the last part extends the joined text. */
  lemma JoinExtended(parts: seq<string>, sep: string, x: string)
    requires |parts| >= 1
    ensures Join(parts[..|parts| - 1] + [parts[|parts| - 1] + x], sep) == Join(parts, sep) + x
  {
    var n := |parts| - 1;
    var q := parts[..n] + [parts[n] + x];
    if n > 0 {
      JoinSnoc(q, sep, n);
      JoinSnoc(parts, sep, n);
      assert q[..n + 1] == q && parts[..n + 1] == parts;
      assert q[..n] == parts[..n];
    }
  }

  /** Lines 18-42 (line 36 corrected), as the source runs them: a loop over the dependencies. */
  method Prioritise(db: Db, path: Path, s: Settings, boost: string -> Option<bool>, chain: set<Path>) returns (r: Outcome<real>)
    ensures r == TruePriority(db, path, s, boost, chain)
    decreases |db.Keys - chain|
  {
    if path !in db || db[path].None? {
      return Raise(TypeError);
    }
    if path in chain {
      return Raise(RecursionError);
    }
    var m := db[path].value;
    var ret := m.priority;
    var lift := false;
    if s.boosting {
      var state := boost(m.state);
      if state.None? {
        return Raise(TypeError);
      }
      lift := state.value;
    }
    if lift {
      var deps := m.dependencies;
      var inner := chain + {path};
      assert |db.Keys - inner| < |db.Keys - chain| by {
        assert db.Keys - inner == (db.Keys - chain) - {path};
      }
      for k := 0 to |deps|
        invariant DepsMax(db, deps[k..], s, boost, inner, ret) == DepsMax(db, deps, s, boost, inner, m.priority)
      {
        assert deps[k..][0] == deps[k] && deps[k..][1..] == deps[k + 1..];
        if DepPath(deps[k]) !in db {
          return Raise(KeyError);
        }
        var p := Prioritise(db, DepPath(deps[k]), s, boost, inner);
        if p.Raise? {
          return Raise(p.error);
        }
        var boosted := p.value + s.boost;
        if boosted > ret {
          ret := boosted;
        }
      }
    }
    return Ok(ret);
  }

  // ---------------------------------------------------------------------------
  // Candidates

  /**
   * Lines 56-60 and 79-83: not under the old-versions directory, a readable
   * JSON file, with 'type' and 'owner' entries.
   */
  predicate Eligible(db: Db, path: Path, stale: string) {
    stale !in path && Readable(db, path) && |path| > 0 && EndsWith(path[|path| - 1], ".json")
    && db[path].value.typed && !db[path].value.owner.Absent?
  }

  /** An eligible asset owned by `user`. */
  predicate OwnedBy(db: Db, path: Path, stale: string, user: string) {
    Eligible(db, path, stale) && db[path].value.owner == Owned(user)
  }

  // ---------------------------------------------------------------------------
  // user_task_list

  /** Lines 55-61: the assets of `user`, in iteration order. */
  function Mine(db: Db, paths: seq<Path>, stale: string, user: string): (r: seq<Path>)
    ensures forall p :: p in r <==> p in paths && OwnedBy(db, p, stale, user)
  {
    if |paths| == 0 then []
    else
      var n := |paths| - 1;
      Mine(db, paths[..n], stale, user) + (if OwnedBy(db, paths[n], stale, user) then [paths[n]] else [])
  }

  /** Line 65: each asset with its priority; the first that raises stops it. */
  function Keyed(ps: seq<Path>, prio: Path -> Outcome<real>): (r: Outcome<seq<(Path, real)>>)
    ensures r.Ok? ==> |r.value| == |ps| && forall i :: 0 <= i < |ps| ==> prio(ps[i]).Ok? && r.value[i] == (ps[i], prio(ps[i]).value)
  {
    if |ps| == 0 then Ok([])
    else
      var n := |ps| - 1;
      match Keyed(ps[..n], prio)
      case Raise(err) => Raise(err)
      case Ok(ks) => if prio(ps[n]).Raise? then Raise(prio(ps[n]).error) else Ok(ks + [(ps[n], prio(ps[n]).value)])
  }

  /** Line 65: higher priority first. */
  function ByPriority(): ((Path, real), (Path, real)) -> bool {
    (a: (Path, real), b: (Path, real)) => a.1 >= b.1
  }

  /** The paths of keyed assets. */
  function Firsts(ks: seq<(Path, real)>): (r: seq<Path>)
    ensures |r| == |ks| && forall i :: 0 <= i < |ks| ==> r[i] == ks[i].0
  {
    if |ks| == 0 then [] else [ks[0].0] + Firsts(ks[1..])
  }

  /** Lines 46-66, over the priority `prio` of each path. */
  function UserTaskList(db: Db, paths: seq<Path>, stale: string, user: string, prio: Path -> Outcome<real>): Outcome<seq<Path>> {
    match Keyed(Mine(db, paths, stale, user), prio)
    case Raise(err) => Raise(err)
    case Ok(ks) => Ok(Firsts(Sort(ks, ByPriority())))
  }

  /** Line 65's priority: `true_priority` with nothing further up. */
  function PrioOf(db: Db, s: Settings, boost: string -> Option<bool>): Path -> Outcome<real> {
    (p: Path) => TruePriority(db, p, s, boost, {})
  }

  lemma ByPriorityTotal()
    ensures TotalPreorder(ByPriority())
  {
  }

  /**
   * Lines 55-66: the list holds exactly the user's assets, each once per
   * time iteration yields it, highest priority first.
   */
  lemma TaskListOrdered(db: Db, paths: seq<Path>, stale: string, user: string, prio: Path -> Outcome<real>)
    requires UserTaskList(db, paths, stale, user, prio).Ok?
    ensures var r := UserTaskList(db, paths, stale, user, prio).value;
      multiset(r) == multiset(Mine(db, paths, stale, user))
      && (forall p :: p in r <==> p in paths && OwnedBy(db, p, stale, user))
      && (forall i :: 0 <= i < |r| ==> prio(r[i]).Ok?)
      && (forall i, j :: 0 <= i < j < |r| ==> prio(r[i]).value >= prio(r[j]).value)
  {
    var mine := Mine(db, paths, stale, user);
    var ks := Keyed(mine, prio).value;
    var sorted := Sort(ks, ByPriority());
    var r := Firsts(sorted);
    assert multiset(r) == multiset(mine) by {
      KeyedFirsts(mine, ks, prio);
      FirstsSort(ks, ByPriority());
    }
    forall p ensures p in r <==> p in mine {
      assert p in r <==> p in multiset(r);
      assert p in mine <==> p in multiset(mine);
    }
    forall i | 0 <= i < |sorted| ensures prio(r[i]).Ok? && sorted[i].1 == prio(r[i]).value {
      assert sorted[i] in multiset(ks);
      var j :| 0 <= j < |ks| && ks[j] == sorted[i];
    }
    assert Sorted(sorted, ByPriority()) by {
      ByPriorityTotal();
      SortSorted(ks, ByPriority());
    }
    forall i, j | 0 <= i < j < |r| ensures prio(r[i]).value >= prio(r[j]).value {
      assert ByPriority()(sorted[i], sorted[j]);
    }
  }

  /** Line 65: assets of equal priority keep the order iteration found them in. */
  lemma TaskListStable(ks: seq<(Path, real)>, k: (Path, real))
    ensures EqualRank(Sort(ks, ByPriority()), k, ByPriority()) == EqualRank(ks, k, ByPriority())
  {
    ByPriorityTotal();
    SortStable(ks, k, ByPriority());
  }

  /** The keyed list's paths are the list keyed. */
  lemma KeyedFirsts(ps: seq<Path>, ks: seq<(Path, real)>, prio: Path -> Outcome<real>)
    requires Keyed(ps, prio) == Ok(ks)
    ensures Firsts(ks) == ps
  {
  }

  /** Inserting a keyed path adds its path. */
  lemma {:induction false} FirstsInsert(x: (Path, real), t: seq<(Path, real)>, le: ((Path, real), (Path, real)) -> bool)
    ensures multiset(Firsts(Insert(x, t, le))) == multiset(Firsts(t)) + multiset{x.0}
  {
    if |t| > 0 && !le(x, t[0]) {
      var rest := Insert(x, t[1..], le);
      FirstsInsert(x, t[1..], le);
      InsertAfter(x, t, le);
      FirstsCons(t[0], rest);
      assert Firsts(t) == [t[0].0] + Firsts(t[1..]);
      ConsKeeps(Firsts(rest), Firsts(t[1..]), t[0].0, x.0, Firsts(Insert(x, t, le)), Firsts(t));
    } else if |t| > 0 {
      assert Insert(x, t, le) == [x] + t;
      FirstsCons(x, t);
      ConsMultiset(x.0, Firsts(t));
    } else {
      assert Insert(x, t, le) == [x];
      FirstsCons(x, []);
    }
  }

  /** An element ranked after the head is inserted into the tail. */
  lemma InsertAfter(x: (Path, real), t: seq<(Path, real)>, le: ((Path, real), (Path, real)) -> bool)
    requires |t| > 0 && !le(x, t[0])
    ensures Insert(x, t, le) == [t[0]] + Insert(x, t[1..], le)
  {
  }

  /** Putting the same path in front of two lists keeps the one path the first has over the second. */
  lemma ConsKeeps(a: seq<Path>, b: seq<Path>, h: Path, y: Path, ha: seq<Path>, hb: seq<Path>)
    requires multiset(a) == multiset(b) + multiset{y}
    requires ha == [h] + a && hb == [h] + b
    ensures multiset(ha) == multiset(hb) + multiset{y}
  {
    ConsMultiset(h, a);
    ConsMultiset(h, b);
  }

  /** A path in front adds that path to the multiset. */
  lemma ConsMultiset(h: Path, a: seq<Path>)
    ensures multiset([h] + a) == multiset(a) + multiset{h}
  {
  }

  /** The paths of a list with a first element: that element's path, then the rest's. */
  lemma FirstsCons(k: (Path, real), ks: seq<(Path, real)>)
    ensures Firsts([k] + ks) == [k.0] + Firsts(ks)
  {
    assert ([k] + ks)[1..] == ks;
  }

  /** Sorting keyed paths permutes their paths. */
  lemma {:induction false} FirstsSort(ks: seq<(Path, real)>, le: ((Path, real), (Path, real)) -> bool)
    ensures multiset(Firsts(Sort(ks, le))) == multiset(Firsts(ks))
  {
    if |ks| > 0 {
      FirstsSort(ks[1..], le);
      FirstsInsert(ks[0], Sort(ks[1..], le), le);
    }
  }

  /** Lines 46-66 as the source runs them. */
  method TaskList(db: Db, paths: seq<Path>, stale: string, user: string, s: Settings, boost: string -> Option<bool>)
    returns (r: Outcome<seq<Path>>)
    ensures r == UserTaskList(db, paths, stale, user, PrioOf(db, s, boost))
  {
    var ret := Collect(db, paths, stale, user);
    var keyed := KeyAll(db, ret, s, boost);
    if keyed.Raise? {
      return Raise(keyed.error);
    }
    return Ok(Firsts(Sort(keyed.value, ByPriority())));
  }

  /** Lines 55-63: the loop gathering the user's assets. */
  method Collect(db: Db, paths: seq<Path>, stale: string, user: string) returns (ret: seq<Path>)
    ensures ret == Mine(db, paths, stale, user)
  {
    ret := [];
    for k := 0 to |paths|
      invariant ret == Mine(db, paths[..k], stale, user)
    {
      assert paths[..k + 1][..k] == paths[..k];
      var path := paths[k];
      if stale in path {
        continue;
      }
      if path in db && |path| > 0 && EndsWith(path[|path| - 1], ".json") {
        var meta := db[path];
        if meta.Some? && meta.value.typed && meta.value.owner == Owned(user) {
          ret := ret + [path];
        }
      }
    }
    assert paths[..|paths|] == paths;
  }

  /** Line 65: each gathered asset keyed by its priority, stopping at the first exception. */
  method KeyAll(db: Db, ret: seq<Path>, s: Settings, boost: string -> Option<bool>) returns (r: Outcome<seq<(Path, real)>>)
    ensures r == Keyed(ret, PrioOf(db, s, boost))
  {
    var ks: seq<(Path, real)> := [];
    for k := 0 to |ret|
      invariant Keyed(ret[..k], PrioOf(db, s, boost)) == Ok(ks)
    {
      assert ret[..k + 1][..k] == ret[..k];
      var p := Prioritise(db, ret[k], s, boost, {});
      if p.Raise? {
        KeyedStopped(ret, k, PrioOf(db, s, boost));
        return Raise(p.error);
      }
      ks := ks + [(ret[k], p.value)];
    }
    assert ret[..|ret|] == ret;
    return Ok(ks);
  }

  /** Once one priority raises, keying the whole list raises with it. */
  lemma {:induction false} KeyedStopped(ps: seq<Path>, k: nat, prio: Path -> Outcome<real>)
    requires k < |ps| && Keyed(ps[..k], prio).Ok? && prio(ps[k]).Raise?
    ensures Keyed(ps, prio) == Raise(prio(ps[k]).error)
  {
    if |ps| > k + 1 {
      var front := ps[..|ps| - 1];
      assert front[..k] == ps[..k] && front[k] == ps[k];
      KeyedStopped(front, k, prio);
    } else {
      assert ps[..k + 1] == ps;
      assert ps[..k + 1][..k] == ps[..k];
    }
  }

  // ---------------------------------------------------------------------------
  // project_tasks

  type Best = map<string, (real, Path)>

  /** Lines 81-86 for one path. */
  function BestStep(acc: Best, db: Db, path: Path, stale: string, prio: Path -> Outcome<real>): Outcome<Best> {
    if !Eligible(db, path, stale) || !db[path].value.owner.Owned? then Ok(acc)
    else
      var u := db[path].value.owner.ident;
      match prio(path)
      case Raise(err) => Raise(err)
      case Ok(p) => if u !in acc || acc[u].0 < p then Ok(acc[u := (p, path)]) else Ok(acc)
  }

  /** Lines 78-86: for each owner, the best priority found and its asset. */
  function BestFold(db: Db, paths: seq<Path>, stale: string, prio: Path -> Outcome<real>): Outcome<Best> {
    if |paths| == 0 then Ok(map[])
    else
      var n := |paths| - 1;
      match BestFold(db, paths[..n], stale, prio)
      case Raise(err) => Raise(err)
      case Ok(acc) => BestStep(acc, db, paths[n], stale, prio)
  }

  /** Lines 70-91: each owner's most urgent asset. */
  function ProjectTasks(db: Db, paths: seq<Path>, stale: string, prio: Path -> Outcome<real>): Outcome<map<string, Path>> {
    match BestFold(db, paths, stale, prio)
    case Raise(err) => Raise(err)
    case Ok(best) => Ok(map u | u in best :: best[u].1)
  }

  /** An asset owned by `u` whose priority is known. */
  predicate Rated(db: Db, path: Path, stale: string, u: string, prio: Path -> Outcome<real>) {
    OwnedBy(db, path, stale, u) && prio(path).Ok?
  }

  /**
   * `e` is the entry for `u` taken from `paths[i]`: no asset of `u` rates
   * higher and none before it rates as high.
   */
  predicate Winner(db: Db, paths: seq<Path>, stale: string, u: string, prio: Path -> Outcome<real>, i: int, e: (real, Path)) {
    0 <= i < |paths| && Rated(db, paths[i], stale, u, prio) && e == (prio(paths[i]).value, paths[i])
    && (forall j :: 0 <= j < |paths| && OwnedBy(db, paths[j], stale, u) ==> Rated(db, paths[j], stale, u, prio) && prio(paths[j]).value <= e.0)
    && (forall j :: 0 <= j < i && OwnedBy(db, paths[j], stale, u) ==> prio(paths[j]).value < e.0)
  }

  /**
   * Lines 78-86: an owner has an entry exactly when one of their assets is
   * eligible, and the entry is their highest-priority asset, the first of
   * them on a tie.
   */
  lemma {:induction false} BestWins(db: Db, paths: seq<Path>, stale: string, prio: Path -> Outcome<real>, u: string)
    requires BestFold(db, paths, stale, prio).Ok?
    ensures var best := BestFold(db, paths, stale, prio).value;
      (u in best <==> exists i :: 0 <= i < |paths| && OwnedBy(db, paths[i], stale, u))
      && (u in best ==> exists i :: Winner(db, paths, stale, u, prio, i, best[u]))
  {
    if |paths| > 0 {
      var n := |paths| - 1;
      var front := paths[..n];
      var acc := BestFold(db, front, stale, prio).value;
      BestWins(db, front, stale, prio, u);
      var best := BestFold(db, paths, stale, prio).value;
      assert forall j :: 0 <= j < n ==> paths[j] == front[j];
      if OwnedBy(db, paths[n], stale, u) {
        var p := prio(paths[n]).value;
        if u !in acc || acc[u].0 < p {
          assert best[u] == (p, paths[n]);
          if u in acc {
            var i :| Winner(db, front, stale, u, prio, i, acc[u]);
          }
          assert Winner(db, paths, stale, u, prio, n, best[u]);
        } else {
          assert best[u] == acc[u];
          var i :| Winner(db, front, stale, u, prio, i, acc[u]);
          assert Winner(db, paths, stale, u, prio, i, best[u]);
        }
      } else {
        assert u in best <==> u in acc;
        if u in acc {
          assert best[u] == acc[u];
          var i :| Winner(db, front, stale, u, prio, i, acc[u]);
          assert Winner(db, paths, stale, u, prio, i, best[u]);
        }
      }
    }
  }

  /** Lines 84-86: the task map raises exactly when the priority of some eligible owned asset does. */
  lemma {:induction false} BestRaise(db: Db, paths: seq<Path>, stale: string, prio: Path -> Outcome<real>)
    ensures BestFold(db, paths, stale, prio).Raise? <==>
      exists i :: 0 <= i < |paths| && Eligible(db, paths[i], stale) && db[paths[i]].value.owner.Owned? && prio(paths[i]).Raise?
  {
    if |paths| > 0 {
      var n := |paths| - 1;
      BestRaise(db, paths[..n], stale, prio);
      assert forall j :: 0 <= j < n ==> paths[j] == paths[..n][j];
    }
  }

  /** Lines 70-91 as the source runs them. */
  method Tasks(db: Db, paths: seq<Path>, stale: string, s: Settings, boost: string -> Option<bool>)
    returns (r: Outcome<map<string, Path>>)
    ensures r == ProjectTasks(db, paths, stale, PrioOf(db, s, boost))
  {
    var ret: Best := map[];
    for k := 0 to |paths|
      invariant BestFold(db, paths[..k], stale, PrioOf(db, s, boost)) == Ok(ret)
    {
      assert paths[..k + 1][..k] == paths[..k];
      var path := paths[k];
      if stale in path {
        continue;
      }
      if path in db && |path| > 0 && EndsWith(path[|path| - 1], ".json") {
        var meta := db[path];
        if meta.Some? && meta.value.typed && meta.value.owner.Owned? {
          var p := Prioritise(db, path, s, boost, {});
          if p.Raise? {
            BestStopped(db, paths, k, stale, PrioOf(db, s, boost));
            return Raise(p.error);
          }
          var u := meta.value.owner.ident;
          if u !in ret || ret[u].0 < p.value {
            ret := ret[u := (p.value, path)];
          }
        }
      }
    }
    assert paths[..|paths|] == paths;
    return Ok(map u | u in ret :: ret[u].1);
  }

  /** Once one priority raises, the task map raises with it. */
  lemma {:induction false} BestStopped(db: Db, paths: seq<Path>, k: nat, stale: string, prio: Path -> Outcome<real>)
    requires k < |paths| && BestFold(db, paths[..k + 1], stale, prio).Raise?
    ensures BestFold(db, paths, stale, prio) == BestFold(db, paths[..k + 1], stale, prio)
  {
    if |paths| > k + 1 {
      var front := paths[..|paths| - 1];
      assert front[..k + 1] == paths[..k + 1];
      BestStopped(db, front, k, stale, prio);
    } else {
      assert paths[..k + 1] == paths;
    }
  }
}
