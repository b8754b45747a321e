/**
 * The server state of bin/rfam.py: the project and user indices rebuilt
 * from their directories, the databases opened per project, the lookup of
 * asset types, and the figures `format_render_time` reports.
 *
 * The clock, the directory listings and the records read from them are
 * parameters; an FSDB opened for a project is represented by the
 * directory string it was opened for.
 */
module Rfam {
  import opened Py
  import opened Templates
  import opened Handlers
  import Lists

  // ---------------------------------------------------------------------------
  // Asset types (lines 253-275)

  /** A record of the defaults' `asset_types` directory: its 'ident' and its other keys. */
  datatype TypeRec = TypeRec(ident: string, fields: map<string, Field>)

  /** Lines 265-275: the first type record with the given ident, in listing order. */
  function GetType(types: seq<TypeRec>, ident: string): (r: Option<TypeRec>)
    ensures r.None? <==> forall i :: 0 <= i < |types| ==> types[i].ident != ident
    ensures r.Some? ==> (exists i :: 0 <= i < |types| && types[i] == r.value && r.value.ident == ident
                           && forall j :: 0 <= j < i ==> types[j].ident != ident)
    decreases |types|
  {
    if |types| == 0 then None
    else if types[0].ident == ident then Some(types[0])
    else
      var r := GetType(types[1..], ident);
      assert forall i :: 1 <= i < |types| ==> types[i] == types[1..][i - 1];
      if r.Some? then
        var i :| 0 <= i < |types[1..]| && types[1..][i] == r.value && r.value.ident == ident
                 && forall j :: 0 <= j < i ==> types[1..][j].ident != ident;
        assert types[i + 1] == r.value;
        r
      else r
  }

  /** Lines 253-262: the idents of the type records, in listing order. */
  function TypeIdents(types: seq<TypeRec>): (r: seq<string>)
    ensures |r| == |types| && forall i :: 0 <= i < |types| ==> r[i] == types[i].ident
  {
    seq(|types|, i requires 0 <= i < |types| => types[i].ident)
  }

  /** An ident is among the listed ones exactly when `getType` finds its record. */
  lemma TypeListed(types: seq<TypeRec>, ident: string)
    ensures ident in TypeIdents(types) <==> GetType(types, ident).Some?
  {
    if ident in TypeIdents(types) {
      var i :| 0 <= i < |types| && TypeIdents(types)[i] == ident;
      assert types[i].ident == ident;
    }
  }
  // ---------------------------------------------------------------------------
  // The project and user indices and the databases opened per project (lines 144-245)

  /** What the server reads from a project's `.json` record. */
  datatype ProjectInfo = ProjectInfo(ident: string, directory: string, default: string)

  /** What the server reads from a user's `.json` record. */
  datatype UserInfo = UserInfo(ident: string, projects: seq<string>)

  function ProjectIdent(p: ProjectInfo): string { p.ident }

  function UserIdent(u: UserInfo): string { u.ident }

  /** The registered path a project's database (`dir`) or defaults database (`!dir`) is opened on. */
  function Location(p: ProjectInfo, dir: bool): string {
    if dir then p.directory else p.default
  }

  /** No two records carry the same ident. */
  predicate DistinctIdents(ps: seq<ProjectInfo>) {
    forall i, j :: 0 <= i < j < |ps| ==> ps[i].ident != ps[j].ident
  }

  /** `d = dict(); for r in records: d[r['ident']] = r`. */
  function Index<T>(s: seq<T>, key: T -> string): Table<T>
    decreases |s|
  {
    if |s| == 0 then [] else Assign(Index(s[..|s| - 1], key), key(s[|s| - 1]), s[|s| - 1])
  }

  /** An ident is in the index exactly when some record carries it, and it maps to the last such record. */
  lemma {:induction false} IndexLookup<T>(s: seq<T>, key: T -> string, x: string)
    ensures Lookup(Index(s, key), x).None? <==> forall i :: 0 <= i < |s| ==> key(s[i]) != x
    ensures Lookup(Index(s, key), x).Some? ==>
      exists i :: 0 <= i < |s| && key(s[i]) == x && s[i] == Lookup(Index(s, key), x).value
                  && forall j :: i < j < |s| ==> key(s[j]) != x
    decreases |s|
  {
    if |s| > 0 {
      var init := s[..|s| - 1];
      var last := s[|s| - 1];
      IndexLookup(init, key, x);
      assert forall i :: 0 <= i < |init| ==> s[i] == init[i];
      assert Index(s, key) == Assign(Index(init, key), key(last), last);
      if key(last) == x {
        assert Lookup(Index(s, key), x) == Some(last);
      } else {
        assert Lookup(Index(s, key), x) == Lookup(Index(init, key), x);
        Unmatched(s, key, x, -1);
        if Lookup(Index(s, key), x).Some? {
          var i :| 0 <= i < |init| && key(init[i]) == x && init[i] == Lookup(Index(init, key), x).value
                   && forall j :: i < j < |init| ==> key(init[j]) != x;
          Unmatched(s, key, x, i);
        }
      }
    }
  }

  /** When the last record does not carry `x`, neither does any record after `i` once none before the last does. */
  lemma Unmatched<T>(s: seq<T>, key: T -> string, x: string, i: int)
    requires |s| > 0 && key(s[|s| - 1]) != x
    requires i >= -1
    ensures (forall j :: i < j < |s| - 1 ==> key(s[j]) != x) ==> forall j :: i < j < |s| ==> key(s[j]) != x
  {
  }

  /** The caches while the loop of lines 153-165 runs: what is left of the old index, and the open databases. */
  datatype Caches = Caches(prev: Table<ProjectInfo>, dbs: map<string, string>, defaults: map<string, string>)

  function Opened(c: Caches, dir: bool): map<string, string> {
    if dir then c.dbs else c.defaults
  }

  /**
   * `del m[ident]` when the record changed: the as-written code (`!guarded`)
   * raises KeyError when that database was never opened.
   */
  function Drop(m: map<string, string>, ident: string, changed: bool, guarded: bool): (r: Outcome<map<string, string>>)
    ensures r.Raise? <==> changed && ident !in m && !guarded
    ensures r.Ok? ==> r.value == if changed then m - {ident} else m
  {
    if !changed then Ok(m)
    else if ident in m then Ok(m - {ident})
    else if guarded then Ok(m)
    else Raise(KeyError)
  }

  /** Lines 158-165 for one project record `p`. */
  function Visit(c: Caches, p: ProjectInfo, guarded: bool): Outcome<Caches> {
    match Lookup(c.prev, p.ident)
    case None => Ok(c)
    case Some(q) =>
      match Drop(c.dbs, p.ident, q.directory != p.directory, guarded)
      case Raise(e) => Raise(e)
      case Ok(dbs) =>
        match Drop(c.defaults, p.ident, q.default != p.default, guarded)
        case Raise(e) => Raise(e)
        case Ok(defaults) => Ok(Caches(Delete(c.prev, p.ident), dbs, defaults))
  }

  /** Lines 153-165 over the project records in listing order; the first exception stops the loop. */
  function Visited(c: Caches, ps: seq<ProjectInfo>, guarded: bool): Outcome<Caches>
    decreases |ps|
  {
    if |ps| == 0 then Ok(c)
    else
      match Visited(c, ps[..|ps| - 1], guarded)
      case Raise(e) => Raise(e)
      case Ok(d) => Visit(d, ps[|ps| - 1], guarded)
  }

  /** Lines 167-169: the projects no longer listed lose both databases. */
  function Purged(c: Caches): Caches {
    var gone := set k | k in Keys(c.prev);
    c.(dbs := c.dbs - gone, defaults := c.defaults - gone)
  }

  /**
   * Lines 150-169: the new project index and the databases kept open, from
   * the old index and the open databases.  `guarded` puts the membership
   * test lines 160 and 163 leave out in front of the deletes.
   */
  function Rebuilt(index: Table<ProjectInfo>, dbs: map<string, string>, defaults: map<string, string>,
                   ps: seq<ProjectInfo>, guarded: bool): Outcome<Caches>
  {
    match Visited(Caches(index, dbs, defaults), ps, guarded)
    case Raise(e) => Raise(e)
    case Ok(c) => Ok(Purged(c))
  }

  /** Every database open for a project was opened on the path the index now records for it. */
  predicate Coherent(index: Table<ProjectInfo>, m: map<string, string>, dir: bool) {
    forall id :: id in m ==> Lookup(index, id).Some? && Location(Lookup(index, id).value, dir) == m[id]
  }

  /** An open database agrees with the new index (records seen) or with what is left of the old one. */
  predicate Agrees(c: Caches, seen: Table<ProjectInfo>, id: string, dir: bool)
    requires id in Opened(c, dir)
  {
    (Lookup(seen, id).Some? && Location(Lookup(seen, id).value, dir) == Opened(c, dir)[id])
    || (Lookup(c.prev, id).Some? && Location(Lookup(c.prev, id).value, dir) == Opened(c, dir)[id])
  }

  /** What the loop keeps: the above, and no ident both seen and still in the old index. */
  ghost predicate Tracked(c: Caches, seen: Table<ProjectInfo>, dir: bool) {
    (forall id :: id in Opened(c, dir) ==> Agrees(c, seen, id, dir))
    && (forall id :: Lookup(seen, id).Some? ==> Lookup(c.prev, id).None?)
  }

  /** One record not seen before keeps the loop's invariant. */
  lemma VisitTracked(c: Caches, seen: Table<ProjectInfo>, p: ProjectInfo, dir: bool)
    requires Tracked(c, seen, dir) && Lookup(seen, p.ident).None?
    ensures Visit(c, p, true).Ok?
    ensures Tracked(Visit(c, p, true).value, Assign(seen, p.ident, p), dir)
  {
    var seen' := Assign(seen, p.ident, p);
    match Lookup(c.prev, p.ident)
    case None =>
      assert Visit(c, p, true) == Ok(c);
      forall id | id in Opened(c, dir) ensures Agrees(c, seen', id, dir) {
        assert Agrees(c, seen, id, dir);
      }
    case Some(q) =>
      var m := Opened(c, dir);
      var m' := if Location(q, dir) != Location(p, dir) then m - {p.ident} else m;
      var c' := Visit(c, p, true).value;
      assert Opened(c', dir) == m';
      assert c'.prev == Delete(c.prev, p.ident);
      forall id | id in m' ensures Agrees(c', seen', id, dir) {
        assert Agrees(c, seen, id, dir);
        if id == p.ident {
          assert Location(q, dir) == m[id];
        }
      }
  }

  /** The guarded loop never raises, and with distinct idents it keeps its invariant. */
  lemma {:induction false} VisitedTracked(index: Table<ProjectInfo>, dbs: map<string, string>,
                                          defaults: map<string, string>, ps: seq<ProjectInfo>, dir: bool)
    requires Coherent(index, if dir then dbs else defaults, dir) && DistinctIdents(ps)
    ensures Visited(Caches(index, dbs, defaults), ps, true).Ok?
    ensures Tracked(Visited(Caches(index, dbs, defaults), ps, true).value, Index(ps, ProjectIdent), dir)
    decreases |ps|
  {
    var c := Caches(index, dbs, defaults);
    if |ps| == 0 {
      forall id | id in Opened(c, dir) ensures Agrees(c, [], id, dir) {
      }
    } else {
      var init := ps[..|ps| - 1];
      var p := ps[|ps| - 1];
      assert DistinctIdents(init) by {
        forall i, j | 0 <= i < j < |init| ensures init[i].ident != init[j].ident {
          assert init[i] == ps[i] && init[j] == ps[j];
        }
      }
      VisitedTracked(index, dbs, defaults, init, dir);
      assert Lookup(Index(init, ProjectIdent), p.ident).None? by {
        IndexLookup(init, ProjectIdent, p.ident);
        forall i | 0 <= i < |init| ensures ProjectIdent(init[i]) != p.ident {
          assert init[i] == ps[i];
        }
      }
      VisitTracked(Visited(c, init, true).value, Index(init, ProjectIdent), p, dir);
    }
  }

  /** With distinct idents, the guarded rebuild leaves only databases coherent with the new index. */
  lemma RebuiltCoherent(index: Table<ProjectInfo>, dbs: map<string, string>, defaults: map<string, string>,
                        ps: seq<ProjectInfo>, dir: bool)
    requires Coherent(index, if dir then dbs else defaults, dir) && DistinctIdents(ps)
    ensures Rebuilt(index, dbs, defaults, ps, true).Ok?
    ensures Coherent(Index(ps, ProjectIdent), Opened(Rebuilt(index, dbs, defaults, ps, true).value, dir), dir)
  {
    VisitedTracked(index, dbs, defaults, ps, dir);
    var c := Visited(Caches(index, dbs, defaults), ps, true).value;
    var r := Purged(c);
    forall id | id in Opened(r, dir)
      ensures Lookup(Index(ps, ProjectIdent), id).Some?
      ensures Location(Lookup(Index(ps, ProjectIdent), id).value, dir) == Opened(r, dir)[id]
    {
      assert id !in Keys(c.prev);
      assert Lookup(c.prev, id).None?;
      assert Agrees(c, Index(ps, ProjectIdent), id, dir);
    }
  }
  /** Where the deletes of lines 160 and 163 do not raise, they do what the guarded ones do. */
  lemma {:induction false} VisitedAsWritten(c: Caches, ps: seq<ProjectInfo>)
    ensures Visited(c, ps, true).Ok?
    ensures Visited(c, ps, false).Ok? ==> Visited(c, ps, false) == Visited(c, ps, true)
    decreases |ps|
  {
    if |ps| > 0 {
      VisitedAsWritten(c, ps[..|ps| - 1]);
    }
  }

  /**
   * A project whose directory changes before its database was ever opened
   * makes the refresh as written raise KeyError at line 160; the guarded
   * refresh closes nothing and keeps the caches coherent.
   */
  lemma RebuildAsWrittenFails()
    ensures Rebuilt([("a", ProjectInfo("a", "d1", "x"))], map[], map[], [ProjectInfo("a", "d2", "x")], false) == Raise(KeyError)
    ensures Rebuilt([("a", ProjectInfo("a", "d1", "x"))], map[], map[], [ProjectInfo("a", "d2", "x")], true)
            == Ok(Caches([], map[], map[]))
  {
    var p := ProjectInfo("a", "d2", "x");
    var c := Caches([("a", ProjectInfo("a", "d1", "x"))], map[], map[]);
    assert [p][..0] == [];
    assert Visited(c, [p], false) == Visit(c, p, false);
    assert Visited(c, [p], true) == Visit(c, p, true);
  }


  /** `list(filter(on_proj, users.keys()))` (lines 242-245): the users, in index order, whose 'projects' list the project. */
  function OnProject(t: Table<UserInfo>, keys: seq<string>, project: string): (r: seq<string>)
    ensures forall x :: x in r <==> x in keys && Lookup(t, x).Some? && project in Lookup(t, x).value.projects
    ensures |r| <= |keys|
    decreases |keys|
  {
    if |keys| == 0 then []
    else
      var rest := OnProject(t, keys[1..], project);
      assert forall x :: x in keys <==> x == keys[0] || x in keys[1..];
      var u := Lookup(t, keys[0]);
      if u.Some? && project in u.value.projects then [keys[0]] + rest else rest
  }

  /** The loop of lines 153-165: the new index, and what is left of the old one and of the open databases. */
  method Reindex(start: Caches, listing: seq<ProjectInfo>) returns (index: Table<ProjectInfo>, c: Caches)
    ensures index == Index(listing, ProjectIdent)
    ensures Visited(start, listing, true) == Ok(c)
  {
    var prev := start.prev;
    var keptDbs := start.dbs;
    var keptDefaults := start.defaults;
    index := [];
    var i := 0;
    while i < |listing|
      invariant 0 <= i <= |listing|
      invariant index == Index(listing[..i], ProjectIdent)
      invariant Visited(start, listing[..i], true) == Ok(Caches(prev, keptDbs, keptDefaults))
    {
      var p := listing[i];
      assert listing[..i + 1][..i] == listing[..i] && listing[..i + 1][i] == p;
      index := Assign(index, p.ident, p);
      var q := Lookup(prev, p.ident);
      if q.Some? {
        if q.value.directory != p.directory && p.ident in keptDbs {
          keptDbs := keptDbs - {p.ident};
        }
        if q.value.default != p.default && p.ident in keptDefaults {
          keptDefaults := keptDefaults - {p.ident};
        }
        prev := Delete(prev, p.ident);
      }
      i := i + 1;
    }
    assert listing[..i] == listing;
    c := Caches(prev, keptDbs, keptDefaults);
  }

  /** Lines 167-169. */
  method Purge(c: Caches) returns (d: Caches)
    ensures d == Purged(c)
  {
    var keys := Keys(c.prev);
    var keptDbs := c.dbs;
    var keptDefaults := c.defaults;
    var j := 0;
    while j < |keys|
      invariant 0 <= j <= |keys|
      invariant keptDbs == c.dbs - set k | k in keys[..j]
      invariant keptDefaults == c.defaults - set k | k in keys[..j]
    {
      assert forall k :: k in keys[..j + 1] <==> k in keys[..j] || k == keys[j];
      if keys[j] in keptDbs {
        keptDbs := keptDbs - {keys[j]};
      }
      if keys[j] in keptDefaults {
        keptDefaults := keptDefaults - {keys[j]};
      }
      j := j + 1;
    }
    assert keys[..j] == keys;
    d := c.(dbs := keptDbs, defaults := keptDefaults);
  }

  /** Lines 171-176. */
  method IndexUsers(people: seq<UserInfo>) returns (t: Table<UserInfo>)
    ensures t == Index(people, UserIdent)
  {
    t := [];
    var k := 0;
    while k < |people|
      invariant 0 <= k <= |people|
      invariant t == Index(people[..k], UserIdent)
    {
      assert people[..k + 1][..k] == people[..k] && people[..k + 1][k] == people[k];
      t := Assign(t, people[k].ident, people[k]);
      k := k + 1;
    }
    assert people[..k] == people;
  }


  /**
   * The maps `d` and `f` of open databases are `d0` and `f0` with at most
   * the one database `r` names added, to `d` when `dir` and to `f` otherwise.
   */
  predicate AddedOne(d0: map<string, string>, f0: map<string, string>, d: map<string, string>, f: map<string, string>,
                     ident: string, dir: bool, r: Outcome<string>) {
    if dir then f == f0 && d == (if r.Ok? then d0[ident := r.value] else d0)
    else d == d0 && f == (if r.Ok? then f0[ident := r.value] else f0)
  }

  /**
   * The server's caches.  `dbs` and `defaults` map a project's ident to the
   * registered path its database (for `proj`) or defaults database (for
   * `proj_defaults`) was opened on.
   */
  class Server {
    const paths: map<string, string>
    const cache: real
    var lastRefresh: real
    var projects: Table<ProjectInfo>
    var users: Table<UserInfo>
    var dbs: map<string, string>
    var defaults: map<string, string>

    /** Every open database belongs to an indexed project and was opened on its current path. */
    predicate Valid()
      reads this
    {
      Coherent(projects, dbs, true) && Coherent(projects, defaults, false)
    }

    /** Lines 39-69: the first refresh is due at once. */
    constructor(paths: map<string, string>, cache: real, now: real)
      ensures this.paths == paths && this.cache == cache && lastRefresh == now - cache
      ensures projects == [] && users == [] && dbs == map[] && defaults == map[]
      ensures Valid()
    {
      this.paths := paths;
      this.cache := cache;
      lastRefresh := now - cache;
      projects := [];
      users := [];
      dbs := map[];
      defaults := map[];
    }

    /** The indices after `__refresh` at time `now` over the given project and user records. */
    twostate predicate Indexed(now: real, listing: seq<ProjectInfo>, people: seq<UserInfo>)
      reads this
    {
      if now < old(lastRefresh) + cache then
        lastRefresh == old(lastRefresh) && projects == old(projects) && users == old(users)
      else
        lastRefresh == now && projects == Index(listing, ProjectIdent) && users == Index(people, UserIdent)
    }

    /** The open databases after `__refresh`. */
    twostate predicate Kept(now: real, listing: seq<ProjectInfo>)
      reads this
    {
      if now < old(lastRefresh) + cache then
        dbs == old(dbs) && defaults == old(defaults)
      else
        var r := Rebuilt(old(projects), old(dbs), old(defaults), listing, true);
        r.Ok? && dbs == r.value.dbs && defaults == r.value.defaults
    }

    /** The open databases after `__refresh` and then one `Open` of `ident` that answered `r`. */
    twostate predicate KeptOpening(now: real, listing: seq<ProjectInfo>, ident: string, dir: bool, r: Outcome<string>)
      reads this
    {
      if now < old(lastRefresh) + cache then
        AddedOne(old(dbs), old(defaults), dbs, defaults, ident, dir, r)
      else
        var k := Rebuilt(old(projects), old(dbs), old(defaults), listing, true);
        k.Ok? && AddedOne(k.value.dbs, k.value.defaults, dbs, defaults, ident, dir, r)
    }

    /**
     * Lines 144-176 with the deletes of lines 160 and 163 guarded: nothing
     * happens before the cache time has passed; afterwards both indices are
     * rebuilt, a database whose path changed is closed, and so are those of
     * projects no longer listed.
     */
    method Refresh(now: real, listing: seq<ProjectInfo>, people: seq<UserInfo>)
      modifies this
      ensures Indexed(now, listing, people) && Kept(now, listing)
      ensures old(Valid()) && DistinctIdents(listing) ==> Valid()
    {
      if now < lastRefresh + cache {
        return;
      }
      var index, c := Reindex(Caches(projects, dbs, defaults), listing);
      var kept := Purge(c);
      var people' := IndexUsers(people);
      if old(Valid()) && DistinctIdents(listing) {
        RebuiltCoherent(projects, dbs, defaults, listing, true);
        RebuiltCoherent(projects, dbs, defaults, listing, false);
      }
      lastRefresh := now;
      projects := index;
      users := people';
      dbs := kept.dbs;
      defaults := kept.defaults;
    }
    /**
     * Lines 197-205 (`dir`) and 213-218 (`!dir`) after the refresh: an open
     * database is returned as it is; otherwise an unknown project is a
     * TypeError (`None['directory']`), a path that does not convert raises,
     * and a converted one is opened and remembered.
     */
    method Open(ident: string, dir: bool) returns (r: Outcome<string>)
      modifies this
      ensures ident in old(if dir then dbs else defaults) ==>
        r == Ok(old(if dir then dbs else defaults)[ident]) && unchanged(this)
      ensures ident !in old(if dir then dbs else defaults) && Lookup(projects, ident).None? ==>
        r == Raise(TypeError) && unchanged(this)
      ensures (ident !in old(if dir then dbs else defaults) && Lookup(projects, ident).Some?
               && ToLocal(paths, Location(Lookup(projects, ident).value, dir)).Raise?) ==>
        r == Raise(ToLocal(paths, Location(Lookup(projects, ident).value, dir)).error) && unchanged(this)
      ensures r.Ok? ==> ident in (if dir then dbs else defaults) && r.value == (if dir then dbs else defaults)[ident]
      ensures r.Raise? ==> ident !in (if dir then dbs else defaults) && unchanged(this)
      ensures dir ==> defaults == old(defaults)
      ensures !dir ==> dbs == old(dbs)
      ensures r.Ok? ==> (if dir then dbs else defaults) == old(if dir then dbs else defaults)[ident := r.value]
      ensures lastRefresh == old(lastRefresh) && projects == old(projects) && users == old(users)
      ensures old(Valid()) ==> Valid()
      ensures Valid() && r.Ok? ==> Lookup(projects, ident).Some? && r.value == Location(Lookup(projects, ident).value, dir)
    {
      var m := if dir then dbs else defaults;
      if ident in m {
        return Ok(m[ident]);
      }
      var p := Lookup(projects, ident);
      if p.None? {
        return Raise(TypeError);
      }
      var local := ToLocal(paths, Location(p.value, dir));
      if local.Raise? {
        return Raise(local.error);
      }
      r := Ok(Location(p.value, dir));
      if dir {
        dbs := dbs[ident := r.value];
      } else {
        defaults := defaults[ident := r.value];
      }
    }

    /** `proj` (lines 194-207): the project's database, opened on its current directory. */
    method Proj(ident: string, now: real, listing: seq<ProjectInfo>, people: seq<UserInfo>) returns (r: Outcome<string>)
      modifies this
      ensures Indexed(now, listing, people)
      ensures old(Valid()) && DistinctIdents(listing) ==> Valid()
      ensures r.Ok? <==> ident in dbs
      ensures r.Ok? ==> r.value == dbs[ident]
      ensures Valid() && r.Ok? ==> Lookup(projects, ident).Some? && r.value == Lookup(projects, ident).value.directory
      ensures Lookup(projects, ident).None? ==> r == Raise(TypeError) || ident in dbs
      ensures KeptOpening(now, listing, ident, true, r)
    {
      Refresh(now, listing, people);
      assert Kept(now, listing);
      r := Open(ident, true);
    }

    /** `proj_defaults` (lines 210-220): the project's defaults database, opened on its current 'default' path. */
    method ProjDefaults(ident: string, now: real, listing: seq<ProjectInfo>, people: seq<UserInfo>) returns (r: Outcome<string>)
      modifies this
      ensures Indexed(now, listing, people)
      ensures old(Valid()) && DistinctIdents(listing) ==> Valid()
      ensures r.Ok? <==> ident in defaults
      ensures r.Ok? ==> r.value == defaults[ident]
      ensures Valid() && r.Ok? ==> Lookup(projects, ident).Some? && r.value == Lookup(projects, ident).value.default
      ensures Lookup(projects, ident).None? ==> r == Raise(TypeError) || ident in defaults
      ensures KeptOpening(now, listing, ident, false, r)
    {
      Refresh(now, listing, people);
      assert Kept(now, listing);
      r := Open(ident, false);
    }

    /** `getProjects` (lines 179-182). */
    method Projects(now: real, listing: seq<ProjectInfo>, people: seq<UserInfo>) returns (r: seq<string>)
      modifies this
      ensures Indexed(now, listing, people) && Kept(now, listing)
      ensures old(Valid()) && DistinctIdents(listing) ==> Valid()
      ensures r == Keys(projects)
    {
      Refresh(now, listing, people);
      r := Keys(projects);
    }

    /** `getProject` (lines 185-191): None for an ident the index does not have. */
    method GetProject(ident: string, now: real, listing: seq<ProjectInfo>, people: seq<UserInfo>) returns (r: Option<ProjectInfo>)
      modifies this
      ensures Indexed(now, listing, people) && Kept(now, listing)
      ensures old(Valid()) && DistinctIdents(listing) ==> Valid()
      ensures r == Lookup(projects, ident)
    {
      Refresh(now, listing, people);
      r := Lookup(projects, ident);
    }

    /** `getUsers` (lines 223-226). */
    method Users(now: real, listing: seq<ProjectInfo>, people: seq<UserInfo>) returns (r: seq<string>)
      modifies this
      ensures Indexed(now, listing, people) && Kept(now, listing)
      ensures old(Valid()) && DistinctIdents(listing) ==> Valid()
      ensures r == Keys(users)
    {
      Refresh(now, listing, people);
      r := Keys(users);
    }

    /** `getUser` (lines 229-235): None for an ident the index does not have. */
    method GetUser(ident: string, now: real, listing: seq<ProjectInfo>, people: seq<UserInfo>) returns (r: Option<UserInfo>)
      modifies this
      ensures Indexed(now, listing, people) && Kept(now, listing)
      ensures old(Valid()) && DistinctIdents(listing) ==> Valid()
      ensures r == Lookup(users, ident)
    {
      Refresh(now, listing, people);
      r := Lookup(users, ident);
    }

    /** `getUsersByProject` (lines 238-245). */
    method UsersOf(project: string, now: real, listing: seq<ProjectInfo>, people: seq<UserInfo>) returns (r: seq<string>)
      modifies this
      ensures Indexed(now, listing, people) && Kept(now, listing)
      ensures old(Valid()) && DistinctIdents(listing) ==> Valid()
      ensures forall x :: x in r <==> Lookup(users, x).Some? && project in Lookup(users, x).value.projects
    {
      Refresh(now, listing, people);
      r := OnProject(users, Keys(users), project);
      forall x | Lookup(users, x).Some? ensures x in Keys(users) {
        var i :| 0 <= i < |users| && users[i] == (x, Lookup(users, x).value);
        assert Keys(users)[i] == x;
      }
    }
  }
  // ---------------------------------------------------------------------------
  // The state menu of an asset (lines 324-344)

  /** What `stateChoice` reads from a record of the defaults' `states` directory. */
  datatype StateRec = StateRec(ident: string, name: string)

  /** Lines 278-288: the first state record with the given ident, in listing order. */
  function GetState(states: seq<StateRec>, ident: string): (r: Option<StateRec>)
    ensures r.None? <==> forall i :: 0 <= i < |states| ==> states[i].ident != ident
    ensures r.Some? ==> (exists i :: 0 <= i < |states| && states[i] == r.value && r.value.ident == ident
                           && forall j :: 0 <= j < i ==> states[j].ident != ident)
    decreases |states|
  {
    if |states| == 0 then None
    else if states[0].ident == ident then Some(states[0])
    else
      var r := GetState(states[1..], ident);
      assert forall i :: 1 <= i < |states| ==> states[i] == states[1..][i - 1];
      if r.Some? then
        var i :| 0 <= i < |states[1..]| && states[1..][i] == r.value && r.value.ident == ident
                 && forall j :: 0 <= j < i ==> states[1..][j].ident != ident;
        assert states[i + 1] == r.value;
        r
      else r
  }

  /** `s.index(x)`: the first position of `x`, or None where Python raises ValueError. */
  function Position(s: seq<string>, x: string): (r: Option<nat>)
    ensures r.None? <==> x !in s
    ensures r.Some? ==> r.value < |s| && s[r.value] == x && forall k :: 0 <= k < r.value ==> s[k] != x
    decreases |s|
  {
    if |s| == 0 then None
    else if s[0] == x then Some(0)
    else
      match Position(s[1..], x)
      case None => None
      case Some(i) =>
        assert forall k :: 1 <= k <= i ==> s[k] == s[1..][k - 1];
        Some(i + 1)
  }

  /** Line 338: one state's option. */
  function StateOption(st: StateRec, selected: string): string {
    "<option " + (if selected == st.ident then "selected" else "") + " value=\"" + st.ident + "\">" + Escape(st.name) + "</option>"
  }

  /**
   * `ret` after the loop of lines 333-341 over the state records: each
   * record whose ident the type lists fills the slot of that ident's first
   * position; a later record with the same ident overwrites it.
   */
  function Slots(listed: seq<string>, states: seq<StateRec>, selected: string): (r: seq<Option<string>>)
    ensures |r| == |listed|
    decreases |states|
  {
    if |states| == 0 then seq(|listed|, _ => None)
    else
      var prev := Slots(listed, states[..|states| - 1], selected);
      var st := states[|states| - 1];
      match Position(listed, st.ident)
      case None => prev
      case Some(pos) => prev[pos := Some(StateOption(st, selected))]
  }

  predicate AllFilled(slots: seq<Option<string>>) {
    forall i :: 0 <= i < |slots| ==> slots[i].Some?
  }

  /** Line 344: joining a list that still holds None is a TypeError. */
  function Joined(slots: seq<Option<string>>): (r: Outcome<string>)
    ensures r.Ok? <==> AllFilled(slots)
  {
    if AllFilled(slots) then Ok(Join(seq(|slots|, i requires 0 <= i < |slots| => slots[i].value), "")) else Raise(TypeError)
  }

  /**
   * Lines 328-344: the type's record is looked up first (an unknown type is
   * a TypeError on `None['states']`), and its 'states' list must be there.
   */
  function StateMenu(types: seq<TypeRec>, at: string, states: seq<StateRec>, selected: string): Outcome<string> {
    match GetType(types, at)
    case None => Raise(TypeError)
    case Some(t) =>
      if "states" !in t.fields then Raise(KeyError)
      else if !t.fields["states"].Strs? then Raise(TypeError)
      else Joined(Slots(t.fields["states"].items, states, selected))
  }

  /** Some record carries the ident. */
  predicate Recorded(states: seq<StateRec>, x: string) {
    exists k :: 0 <= k < |states| && states[k].ident == x
  }

  /** The last record either fills slot `p` or leaves it as the records before it did. */
  lemma SlotStep(listed: seq<string>, states: seq<StateRec>, selected: string, p: nat)
    requires p < |listed| && |states| > 0
    ensures Slots(listed, states, selected)[p] ==
      if Position(listed, states[|states| - 1].ident) == Some(p) then Some(StateOption(states[|states| - 1], selected))
      else Slots(listed, states[..|states| - 1], selected)[p]
  {
  }

  /** A slot is filled exactly when its position is the first at which its ident is listed and some record carries that ident. */
  lemma {:induction false} SlotFilled(listed: seq<string>, states: seq<StateRec>, selected: string, p: nat)
    requires p < |listed|
    ensures Slots(listed, states, selected)[p].Some? <==> Position(listed, listed[p]) == Some(p) && Recorded(states, listed[p])
    decreases |states|
  {
    if |states| > 0 {
      var init := states[..|states| - 1];
      var st := states[|states| - 1];
      SlotFilled(listed, init, selected, p);
      SlotStep(listed, states, selected, p);
      if Recorded(states, listed[p]) && st.ident != listed[p] {
        var k :| 0 <= k < |states| && states[k].ident == listed[p];
        assert init[k] == states[k];
      }
      if Recorded(init, listed[p]) {
        var k :| 0 <= k < |init| && init[k].ident == listed[p];
        assert states[k] == init[k];
      }
      if st.ident == listed[p] {
        assert Recorded(states, listed[p]);
      }
    }
  }

  /** A filled slot holds the option of the last record carrying its ident. */
  lemma {:induction false} SlotHolds(listed: seq<string>, states: seq<StateRec>, selected: string, p: nat)
    requires p < |listed| && Slots(listed, states, selected)[p].Some?
    ensures exists k :: 0 <= k < |states| && states[k].ident == listed[p]
                        && Slots(listed, states, selected)[p] == Some(StateOption(states[k], selected))
                        && forall j :: k < j < |states| ==> states[j].ident != listed[p]
    decreases |states|
  {
    var init := states[..|states| - 1];
    var st := states[|states| - 1];
    SlotStep(listed, states, selected, p);
    if Position(listed, st.ident) == Some(p) {
      assert states[|states| - 1].ident == listed[p];
    } else {
      SlotHolds(listed, init, selected, p);
      var k :| 0 <= k < |init| && init[k].ident == listed[p]
               && Slots(listed, init, selected)[p] == Some(StateOption(init[k], selected))
               && forall j :: k < j < |init| ==> init[j].ident != listed[p];
      assert states[k] == init[k];
      assert st.ident != listed[p] by {
        SlotFilled(listed, init, selected, p);
      }
      forall j | k < j < |states| ensures states[j].ident != listed[p] {
        if j < |init| {
          assert states[j] == init[j];
        }
      }
    }
  }

  /**
   * The menu is built exactly when the type lists each state once and every
   * listed state has a record; its options then follow the type's order.
   */
  lemma MenuBuilt(listed: seq<string>, states: seq<StateRec>, selected: string)
    ensures Joined(Slots(listed, states, selected)).Ok? <==>
      Lists.Distinct(listed) && forall p :: 0 <= p < |listed| ==> Recorded(states, listed[p])
  {
    var slots := Slots(listed, states, selected);
    if AllFilled(slots) {
      forall i, j | 0 <= i < j < |listed| ensures listed[i] != listed[j] {
        SlotFilled(listed, states, selected, j);
      }
      forall p | 0 <= p < |listed| ensures Recorded(states, listed[p]) {
        SlotFilled(listed, states, selected, p);
      }
    }
    if Lists.Distinct(listed) && forall p :: 0 <= p < |listed| ==> Recorded(states, listed[p]) {
      forall p | 0 <= p < |listed| ensures slots[p].Some? {
        SlotFilled(listed, states, selected, p);
        var q := Position(listed, listed[p]).value;
        assert listed[q] == listed[p];
      }
    }
  }

  /** Lines 324-344, with the slots in an array as `ret` is a list of fixed length. */
  method StateChoice(types: seq<TypeRec>, at: string, states: seq<StateRec>, selected: string) returns (r: Outcome<string>)
    ensures r == StateMenu(types, at, states, selected)
  {
    var t := GetType(types, at);
    if t.None? {
      return Raise(TypeError);
    }
    if "states" !in t.value.fields {
      return Raise(KeyError);
    }
    if !t.value.fields["states"].Strs? {
      return Raise(TypeError);
    }
    var listed := t.value.fields["states"].items;
    var ret := new Option<string>[|listed|](_ => None);
    assert ret[..] == Slots(listed, [], selected);
    var i := 0;
    while i < |states|
      invariant 0 <= i <= |states|
      invariant ret.Length == |listed|
      invariant ret[..] == Slots(listed, states[..i], selected)
    {
      assert states[..i + 1][..i] == states[..i] && states[..i + 1][i] == states[i];
      var pos := Position(listed, states[i].ident);
      if pos.Some? {
        ret[pos.value] := Some(StateOption(states[i], selected));
      }
      i := i + 1;
    }
    assert states[..i] == states;
    r := Joined(ret[..]);
  }
  // ---------------------------------------------------------------------------
  // Render times (lines 371-456)

  /** An asset's 'render_time': the seconds each render of a frame took, by the frame's key, in insertion order. */
  type Times = Table<seq<real>>

  /** A frame and the seconds its last render took. */
  type Sample = (int, real)

  /** Lines 397 and 404: `int(frame)` raises ValueError first, `times[-1]` IndexError next. */
  function Read(e: (string, seq<real>)): (r: Outcome<Sample>)
    ensures r.Ok? <==> ParseInt(e.0).Some? && |e.1| > 0
    ensures r.Ok? ==> r.value == (ParseInt(e.0).value, e.1[|e.1| - 1])
    ensures r.Raise? ==> r.error == if ParseInt(e.0).None? then ValueError else IndexError
  {
    match ParseInt(e.0)
    case None => Raise(ValueError)
    case Some(f) => if |e.1| == 0 then Raise(IndexError) else Ok((f, e.1[|e.1| - 1]))
  }

  /** The first pass reads the entries in order; the first that fails raises. */
  function Samples(rt: Times): (r: Outcome<seq<Sample>>)
    ensures r.Ok? ==> |r.value| == |rt|
    decreases |rt|
  {
    if |rt| == 0 then Ok([])
    else
      match Samples(rt[..|rt| - 1])
      case Raise(e) => Raise(e)
      case Ok(s) =>
        match Read(rt[|rt| - 1])
        case Raise(e) => Raise(e)
        case Ok(x) => Ok(s + [x])
  }

  /** Each sample is what its entry reads as. */
  lemma {:induction false} SampleAt(rt: Times, i: nat)
    requires Samples(rt).Ok? && i < |rt|
    ensures Read(rt[i]).Ok? && Samples(rt).value[i] == Read(rt[i]).value
    decreases |rt|
  {
    var init := rt[..|rt| - 1];
    SamplesSnoc(rt);
    var s := Samples(init).value;
    var x := Read(rt[|rt| - 1]).value;
    assert Samples(rt).value == s + [x];
    if i < |init| {
      SampleAt(init, i);
      assert init[i] == rt[i];
      assert (s + [x])[i] == s[i];
    } else {
      assert (s + [x])[i] == x;
    }
  }

  /** A successful pass is the pass over all entries but the last, followed by the last one's sample. */
  lemma SamplesSnoc(rt: Times)
    requires Samples(rt).Ok? && |rt| > 0
    ensures Samples(rt[..|rt| - 1]).Ok? && Read(rt[|rt| - 1]).Ok?
    ensures Samples(rt).value == Samples(rt[..|rt| - 1]).value + [Read(rt[|rt| - 1]).value]
  {
  }

  /** An entry that fails stops the pass: what follows cannot change the outcome. */
  lemma {:induction false} SamplesStop(rt: Times, i: nat)
    requires i <= |rt| && Samples(rt[..i]).Raise?
    ensures Samples(rt) == Samples(rt[..i])
    decreases |rt| - i
  {
    if i < |rt| {
      assert rt[..i + 1][..i] == rt[..i];
      SamplesStop(rt, i + 1);
    } else {
      assert rt[..i] == rt;
    }
  }

  /** The first pass succeeds exactly when every entry reads. */
  lemma SamplesAll(rt: Times)
    ensures Samples(rt).Ok? <==> forall i :: 0 <= i < |rt| ==> Read(rt[i]).Ok?
  {
    if Samples(rt).Ok? {
      forall i | 0 <= i < |rt| ensures Read(rt[i]).Ok? {
        SampleAt(rt, i);
      }
    } else if forall i :: 0 <= i < |rt| ==> Read(rt[i]).Ok? {
      AllRead(rt);
    }
  }

  /** Entries that all read make a first pass that goes through. */
  lemma {:induction false} AllRead(rt: Times)
    requires forall i :: 0 <= i < |rt| ==> Read(rt[i]).Ok?
    ensures Samples(rt).Ok?
    decreases |rt|
  {
    if |rt| > 0 {
      var init := rt[..|rt| - 1];
      assert forall i :: 0 <= i < |init| ==> init[i] == rt[i];
      AllRead(init);
    }
  }

  /** The list of times under `key`, empty when there is none. */
  function Prior(rt: Option<Times>, key: string): seq<real> {
    if rt.None? then [] else match Lookup(rt.value, key) case None => [] case Some(ts) => ts
  }

  /**
   * Lines 470-489 and 504-521 of bin/jobs.py: `task_done` appends the render
   * time to the list under `key` in the asset's 'render_time', starting the
   * list, and the table when the asset has none, where needed.
   */
  function NoteTime(rt: Option<Times>, key: string, t: real): (r: Times)
    ensures Lookup(r, key) == Some(Prior(rt, key) + [t])
    ensures forall q :: q != key ==> Lookup(r, q) == if rt.None? then None else Lookup(rt.value, q)
  {
    var d := if rt.None? then [] else rt.value;
    Assign(d, key, Prior(rt, key) + [t])
  }

  /**
   * A frame's time noted by `task_done` is read back by `format_render_time`:
   * a first pass that went through still goes through, and the frame's
   * last render is the time just noted.
   */
  lemma NotedFrameReads(rt: Option<Times>, n: int, t: real)
    requires rt.None? || Samples(rt.value).Ok?
    ensures var r := NoteTime(rt, IntToString(n), t); Samples(r).Ok? && Known(r, n) == Some(t)
  {
    var key := IntToString(n);
    var d := if rt.None? then [] else rt.value;
    var r := NoteTime(rt, key, t);
    ParseIntToString(n);
    SamplesAll(d);
    forall i | 0 <= i < |r| ensures Read(r[i]).Ok? {
      AssignedReads(d, key, Prior(rt, key) + [t], i);
    }
    SamplesAll(r);
  }

  /** After `d[key] = ts` with an integer key and a render in `ts`, the entry at `i` reads when all of `d` did. */
  lemma AssignedReads(d: Times, key: string, ts: seq<real>, i: nat)
    requires forall j :: 0 <= j < |d| ==> Read(d[j]).Ok?
    requires ParseInt(key).Some? && |ts| > 0 && i < |Assign(d, key, ts)|
    ensures Read(Assign(d, key, ts)[i]).Ok?
  {
    AssignEntries(d, key, ts, i);
    var e := Assign(d, key, ts)[i];
    if e != (key, ts) {
      var j :| 0 <= j < |d| && d[j] == e;
    }
  }

  /** A key that is not an integer, such as a pair's, makes the first pass raise. */
  lemma UnreadableKey(rt: Option<Times>, key: string, t: real)
    requires ParseInt(key).None?
    ensures Samples(NoteTime(rt, key, t)).Raise?
  {
    var r := NoteTime(rt, key, t);
    SamplesAll(r);
    var i :| 0 <= i < |r| && r[i] == (key, Prior(rt, key) + [t]);
    assert Read(r[i]).Raise?;
  }

  /** The figures of the first pass. */
  datatype Stats = Stats(low: int, high: int, minTime: real, minFrame: int, maxTime: real, maxFrame: int, count: nat, mean: real)

  function Lasts(s: seq<Sample>): (r: seq<real>)
    ensures |r| == |s| && forall i :: 0 <= i < |s| ==> r[i] == s[i].1
  {
    seq(|s|, i requires 0 <= i < |s| => s[i].1)
  }

  /** `t` is the smallest time and `f` the frame of its first occurrence. */
  predicate FirstLeast(s: seq<Sample>, f: int, t: real) {
    (forall i :: 0 <= i < |s| ==> t <= s[i].1)
    && exists i :: 0 <= i < |s| && s[i] == (f, t) && forall j :: 0 <= j < i ==> s[j].1 > t
  }

  /** `t` is the largest time and `f` the frame of its first occurrence. */
  predicate FirstGreatest(s: seq<Sample>, f: int, t: real) {
    (forall i :: 0 <= i < |s| ==> s[i].1 <= t)
    && exists i :: 0 <= i < |s| && s[i] == (f, t) && forall j :: 0 <= j < i ==> s[j].1 < t
  }

  /** `lo` and `hi` are the lowest and the highest frame. */
  predicate FrameRange(s: seq<Sample>, lo: int, hi: int) {
    (forall i :: 0 <= i < |s| ==> lo <= s[i].0 <= hi)
    && (exists i :: 0 <= i < |s| && s[i].0 == lo)
    && (exists i :: 0 <= i < |s| && s[i].0 == hi)
  }

  /**
   * What the first pass promises about the samples: the lowest and highest
   * frame, the quickest and slowest last render with the first frame that
   * took it, and the mean of the last renders.
   */
  predicate Summarises(st: Stats, s: seq<Sample>) {
    |s| > 0 && st.count == |s|
    && FrameRange(s, st.low, st.high)
    && FirstLeast(s, st.minFrame, st.minTime)
    && FirstGreatest(s, st.maxFrame, st.maxTime)
    && st.mean == Lists.Sum(Lasts(s)) / (|s| as real)
  }

  /** Lines 399-412 for the first entry (every figure still None, `mean` 0.0). */
  function Start(x: Sample): Stats {
    Stats(x.0, x.0, x.1, x.0, x.1, x.0, 1, 0.0 + (x.1 - 0.0) / 1.0)
  }

  /** Lines 399-412 for a later entry: strict comparisons, so the first frame wins a tie. */
  function Update(st: Stats, x: Sample): Stats {
    var count := st.count + 1;
    Stats(if st.low > x.0 then x.0 else st.low,
          if st.high < x.0 then x.0 else st.high,
          if st.minTime > x.1 then x.1 else st.minTime,
          if st.minTime > x.1 then x.0 else st.minFrame,
          if st.maxTime < x.1 then x.1 else st.maxTime,
          if st.maxTime < x.1 then x.0 else st.maxFrame,
          count,
          st.mean + (x.1 - st.mean) / (count as real))
  }

  /** The running mean of line 412 is the mean of what it has seen. */
  lemma MeanStep(sum: real, x: real, n: nat)
    requires n > 0
    ensures sum / (n as real) + (x - sum / (n as real)) / ((n + 1) as real) == (sum + x) / ((n + 1) as real)
  {
    var m := sum / (n as real);
    assert m * (n as real) == sum;
    var k := (n + 1) as real;
    assert (m + (x - m) / k) * k == m * k + (x - m);
    assert m * k + (x - m) == sum + x;
  }

  lemma SummarisesStart(x: Sample)
    ensures Summarises(Start(x), [x])
  {
    assert Lasts([x]) == [x.1];
    assert [x][0] == x;
  }

  lemma RangeUpdate(s: seq<Sample>, lo: int, hi: int, x: Sample)
    requires FrameRange(s, lo, hi)
    ensures FrameRange(s + [x], if lo > x.0 then x.0 else lo, if hi < x.0 then x.0 else hi)
  {
    var s' := s + [x];
    assert forall i :: 0 <= i < |s| ==> s'[i] == s[i];
    assert s'[|s|] == x;
    var l :| 0 <= l < |s| && s[l].0 == lo;
    var h :| 0 <= h < |s| && s[h].0 == hi;
    assert s'[l] == s[l] && s'[h] == s[h];
  }

  lemma LeastUpdate(s: seq<Sample>, f: int, t: real, x: Sample)
    requires FirstLeast(s, f, t)
    ensures FirstLeast(s + [x], if t > x.1 then x.0 else f, if t > x.1 then x.1 else t)
  {
    var s' := s + [x];
    assert forall i :: 0 <= i < |s| ==> s'[i] == s[i];
    assert s'[|s|] == x;
    var i :| 0 <= i < |s| && s[i] == (f, t) && forall j :: 0 <= j < i ==> s[j].1 > t;
    assert s'[i] == s[i];
  }

  lemma GreatestUpdate(s: seq<Sample>, f: int, t: real, x: Sample)
    requires FirstGreatest(s, f, t)
    ensures FirstGreatest(s + [x], if t < x.1 then x.0 else f, if t < x.1 then x.1 else t)
  {
    var s' := s + [x];
    assert forall i :: 0 <= i < |s| ==> s'[i] == s[i];
    assert s'[|s|] == x;
    var i :| 0 <= i < |s| && s[i] == (f, t) && forall j :: 0 <= j < i ==> s[j].1 < t;
    assert s'[i] == s[i];
  }

  lemma MeanUpdate(s: seq<Sample>, mean: real, x: Sample)
    requires |s| > 0 && mean == Lists.Sum(Lasts(s)) / (|s| as real)
    ensures mean + (x.1 - mean) / ((|s| + 1) as real) == Lists.Sum(Lasts(s + [x])) / ((|s| + 1) as real)
  {
    assert Lasts(s + [x]) == Lasts(s) + [x.1];
    Lists.SumAppend(Lasts(s), x.1);
    MeanStep(Lists.Sum(Lasts(s)), x.1, |s|);
  }

  /** Each later entry keeps the first pass's promises. */
  lemma SummarisesUpdate(st: Stats, s: seq<Sample>, x: Sample)
    requires Summarises(st, s)
    ensures Summarises(Update(st, x), s + [x])
  {
    RangeUpdate(s, st.low, st.high, x);
    LeastUpdate(s, st.minFrame, st.minTime, x);
    GreatestUpdate(s, st.maxFrame, st.maxTime, x);
    MeanUpdate(s, st.mean, x);
  }

  /** The figures after the first pass over the samples `s`. */
  function Pass(s: seq<Sample>): Stats
    requires |s| > 0
  {
    if |s| == 1 then Start(s[0]) else Update(Pass(s[..|s| - 1]), s[|s| - 1])
  }

  lemma {:induction false} PassSummarises(s: seq<Sample>)
    requires |s| > 0
    ensures Summarises(Pass(s), s)
  {
    if |s| == 1 {
      SummarisesStart(s[0]);
      assert s == [s[0]];
    } else {
      PassSummarises(s[..|s| - 1]);
      SummarisesUpdate(Pass(s[..|s| - 1]), s[..|s| - 1], s[|s| - 1]);
      assert s[..|s| - 1] + [s[|s| - 1]] == s;
    }
  }

  /**
   * Lines 385-412.  An empty record leaves `min_time` None, and line 420
   * then raises TypeError.
   */
  method FirstPass(rt: Times) returns (r: Outcome<Stats>)
    ensures Samples(rt).Raise? ==> r == Raise(Samples(rt).error)
    ensures Samples(rt).Ok? && |rt| == 0 ==> r == Raise(TypeError)
    ensures Samples(rt).Ok? && |rt| > 0 ==> r == Ok(Pass(Samples(rt).value))
  {
    var st := Stats(0, 0, 0.0, 0, 0.0, 0, 0, 0.0);
    ghost var s: seq<Sample> := [];
    var i := 0;
    while i < |rt|
      invariant 0 <= i <= |rt|
      invariant Samples(rt[..i]) == Ok(s)
      invariant |s| == i && (i > 0 ==> st == Pass(s))
    {
      assert rt[..i + 1][..i] == rt[..i] && rt[..i + 1][i] == rt[i];
      var e := Read(rt[i]);
      if e.Raise? {
        SamplesStop(rt, i + 1);
        return Raise(e.error);
      }
      var x := e.value;
      assert Samples(rt[..i + 1]) == Ok(s + [x]);
      if i == 0 {
        assert s + [x] == [x];
        st := Start(x);
      } else {
        assert (s + [x])[..|s|] == s;
        st := Update(st, x);
      }
      s := s + [x];
      i := i + 1;
    }
    assert rt[..i] == rt;
    if i == 0 {
      return Raise(TypeError);
    }
    r := Ok(st);
  }

  /**
   * `rt[str(frame)][-1]` when `str(frame) in rt` (lines 433-434): the
   * frame's last render under its canonical key.  After a first pass that
   * did not raise, every entry has a render, so None means the key is absent.
   */
  function Known(rt: Times, f: int): Option<real> {
    match Lookup(rt, IntToString(f))
    case Some(ts) => if |ts| > 0 then Some(ts[|ts| - 1]) else None
    case None => None
  }

  lemma KnownAt(rt: Times, f: int)
    requires Samples(rt).Ok?
    ensures Known(rt, f).None? <==> Lookup(rt, IntToString(f)).None?
  {
    if Lookup(rt, IntToString(f)).Some? {
      var k :| 0 <= k < |rt| && rt[k] == (IntToString(f), Lookup(rt, IntToString(f)).value);
      SampleAt(rt, k);
    }
  }

  /** Lines 432-442: the frames `lo`..`hi` add their last render, or `guess` where there is none. */
  function Total(rt: Times, lo: int, hi: int, guess: real): real
    decreases hi - lo
  {
    if hi < lo then 0.0
    else Total(rt, lo, hi - 1, guess) + (match Known(rt, hi) case Some(t) => t case None => guess)
  }

  /** Some frame in `lo`..`hi` has no render under its canonical key. */
  predicate Gap(rt: Times, lo: int, hi: int) {
    exists f :: lo <= f <= hi && Known(rt, f).None?
  }

  /** Line 442, accumulated over the frames `lo`..`hi`. */
  function Guessed(rt: Times, lo: int, hi: int): bool
    decreases hi - lo
  {
    if hi < lo then false else Guessed(rt, lo, hi - 1) || Known(rt, hi).None?
  }

  /** `guessed` ends up set exactly when some frame of the range has no render of its own. */
  lemma {:induction false} GuessedGap(rt: Times, lo: int, hi: int)
    ensures Guessed(rt, lo, hi) <==> Gap(rt, lo, hi)
    decreases hi - lo
  {
    if hi >= lo {
      GuessedGap(rt, lo, hi - 1);
      if Gap(rt, lo, hi) && Known(rt, hi).Some? {
        var f :| lo <= f <= hi && Known(rt, f).None?;
        assert f != hi;
        assert Gap(rt, lo, hi - 1);
      }
      if Gap(rt, lo, hi - 1) {
        var f :| lo <= f <= hi - 1 && Known(rt, f).None?;
        assert lo <= f <= hi;
      }
    }
  }

  /** The totals of lines 427-442: low, mean and high estimate, and whether any frame was guessed. */
  datatype Totals = Totals(low: real, mean: real, high: real, guessed: bool)

  /** Lines 427-442. */
  method SecondPass(rt: Times, st: Stats) returns (t: Totals)
    ensures t.low == Total(rt, st.low, st.high, st.minTime)
    ensures t.mean == Total(rt, st.low, st.high, st.mean)
    ensures t.high == Total(rt, st.low, st.high, st.maxTime)
    ensures t.guessed == Guessed(rt, st.low, st.high)
  {
    t := Totals(0.0, 0.0, 0.0, false);
    if st.high < st.low {
      return;
    }
    var frame := st.low;
    while frame <= st.high
      invariant st.low <= frame <= st.high + 1
      invariant t.low == Total(rt, st.low, frame - 1, st.minTime)
      invariant t.mean == Total(rt, st.low, frame - 1, st.mean)
      invariant t.high == Total(rt, st.low, frame - 1, st.maxTime)
      invariant t.guessed == Guessed(rt, st.low, frame - 1)
      decreases st.high - frame
    {
      var known := Known(rt, frame);
      if known.Some? {
        t := Totals(t.low + known.value, t.mean + known.value, t.high + known.value, t.guessed);
      } else {
        t := Totals(t.low + st.minTime, t.mean + st.mean, t.high + st.maxTime, true);
      }
      frame := frame + 1;
    }
  }

  /** What `format_render_time` reports, before the language's texts and `timedelta` formatting. */
  datatype Report = NoTimes | Video(seconds: real) | Frames(stats: Stats, estimate: real, range: Option<(real, real)>)

  /** Lines 371-456. */
  method FormatRenderTime(asset: Option<Times>) returns (r: Outcome<Report>)
    ensures asset.None? ==> r == Ok(NoTimes)
    ensures asset.Some? && Lookup(asset.value, "video").Some? ==>
      var v := Lookup(asset.value, "video").value;
      r == if |v| == 0 then Raise(IndexError) else Ok(Video(v[|v| - 1]))
    ensures asset.Some? && Lookup(asset.value, "video").None? && Samples(asset.value).Raise? ==>
      r == Raise(Samples(asset.value).error)
    ensures asset.Some? && Lookup(asset.value, "video").None? && Samples(asset.value).Ok? ==>
      (r.Ok? <==> |asset.value| > 0)
    ensures r.Ok? && r.value.Frames? ==>
      (var rt := asset.value; var st := r.value.stats;
       Lookup(rt, "video").None? && Samples(rt).Ok? && |rt| > 0 && st == Pass(Samples(rt).value)
       && r.value.estimate == Total(rt, st.low, st.high, st.mean)
       && (r.value.range.Some? <==> Guessed(rt, st.low, st.high))
       && (r.value.range.Some? ==>
             r.value.range.value == (Total(rt, st.low, st.high, st.minTime), Total(rt, st.low, st.high, st.maxTime))))
  {
    if asset.None? {
      return Ok(NoTimes);
    }
    var rt := asset.value;
    var v := Lookup(rt, "video");
    if v.Some? {
      if |v.value| == 0 {
        return Raise(IndexError);
      }
      return Ok(Video(v.value[|v.value| - 1]));
    }
    var first := FirstPass(rt);
    if first.Raise? {
      return Raise(first.error);
    }
    var t := SecondPass(rt, first.value);
    r := Ok(Frames(first.value, t.mean, if t.guessed then Some((t.low, t.high)) else None));
  }

  /** The mean lies between the quickest and the slowest render. */
  lemma MeanBetween(st: Stats, s: seq<Sample>)
    requires Summarises(st, s)
    ensures st.minTime <= st.mean <= st.maxTime
  {
    var ws := Lasts(s);
    assert forall i :: 0 <= i < |ws| ==> st.minTime <= ws[i] <= st.maxTime;
    SumBetween(ws, st.minTime, st.maxTime);
    DivBetween(Lists.Sum(ws), |s| as real, st.minTime, st.maxTime);
  }

  lemma DivBetween(sum: real, n: real, lo: real, hi: real)
    requires n > 0.0 && n * lo <= sum <= n * hi
    ensures lo <= sum / n <= hi
  {
    var m := sum / n;
    assert m * n == sum;
  }

  lemma {:induction false} SumBetween(ws: seq<real>, lo: real, hi: real)
    requires forall i :: 0 <= i < |ws| ==> lo <= ws[i] <= hi
    ensures (|ws| as real) * lo <= Lists.Sum(ws) <= (|ws| as real) * hi
  {
    if |ws| > 0 {
      assert forall i :: 0 <= i < |ws[1..]| ==> ws[1..][i] == ws[i + 1];
      SumBetween(ws[1..], lo, hi);
      var n := |ws[1..]| as real;
      assert (|ws| as real) == n + 1.0;
      assert (|ws| as real) * lo == n * lo + lo;
      assert (|ws| as real) * hi == n * hi + hi;
      assert Lists.Sum(ws) == ws[0] + Lists.Sum(ws[1..]);
    }
  }

  /** A larger guess never gives a smaller total. */
  lemma {:induction false} TotalMonotone(rt: Times, lo: int, hi: int, a: real, b: real)
    requires a <= b
    ensures Total(rt, lo, hi, a) <= Total(rt, lo, hi, b)
    decreases hi - lo
  {
    if hi >= lo {
      TotalMonotone(rt, lo, hi - 1, a, b);
    }
  }

  /** Without a gap every frame is known, and the guess does not matter. */
  lemma {:induction false} TotalWithoutGap(rt: Times, lo: int, hi: int, a: real, b: real)
    requires !Gap(rt, lo, hi)
    ensures Total(rt, lo, hi, a) == Total(rt, lo, hi, b)
    decreases hi - lo
  {
    if hi >= lo {
      TotalWithoutGap(rt, lo, hi - 1, a, b);
      assert Known(rt, hi).Some?;
    }
  }

  /**
   * The estimate lies between the low and the high estimate, and all three
   * agree when no frame of the range had to be guessed.
   */
  lemma EstimateBetween(rt: Times, st: Stats)
    requires Samples(rt).Ok? && Summarises(st, Samples(rt).value)
    ensures Total(rt, st.low, st.high, st.minTime) <= Total(rt, st.low, st.high, st.mean) <= Total(rt, st.low, st.high, st.maxTime)
    ensures !Gap(rt, st.low, st.high) ==>
      Total(rt, st.low, st.high, st.minTime) == Total(rt, st.low, st.high, st.mean) == Total(rt, st.low, st.high, st.maxTime)
  {
    MeanBetween(st, Samples(rt).value);
    TotalMonotone(rt, st.low, st.high, st.minTime, st.mean);
    TotalMonotone(rt, st.low, st.high, st.mean, st.maxTime);
    if !Gap(rt, st.low, st.high) {
      TotalWithoutGap(rt, st.low, st.high, st.minTime, st.mean);
      TotalWithoutGap(rt, st.low, st.high, st.mean, st.maxTime);
    }
  }
}
