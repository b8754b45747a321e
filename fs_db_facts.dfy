/**
 * What the cached tree of bin/fs_db.py promises across several calls: a
 * read after a write, the cache time of a listing, lock names kept out of
 * listings, `create` building and then finding a chain of directories, and
 * `remove` taking a file out of its directory for good.
 */
module FsDbFacts {
  import opened Py
  import opened Lists
  import opened FsDb

  // ---------------------------------------------------------------------------
  // read after write (lines 153-190)

  /**
   * A read after a successful write gives back the data written and leaves
   * the cache alone; so does a read through a new cache over the same disk,
   * where the node is fresh and the file is decoded from the disk.
   */
  lemma ReadAfterWrite<D>(s: St<D>, p: Path, data: D, now: real, u: St<D>)
    requires p in s.nodes && Write(s, p, data, now).0.Ok?
    requires u.disk == Write(s, p, data, now).1.disk && p in u.nodes
    requires u.nodes[p] == Fresh(Name(p), u.types) && Typed(Name(p), u.types)
    ensures Read(Write(s, p, data, now).1, p) == (Ok(Some(data)), Write(s, p, data, now).1)
    ensures Read(u, p).0 == Ok(Some(data))
  {
    var t := Write(s, p, data, now).1;
    assert t.disk[p] == DiskFile(now, Some(data));
    assert t.nodes[p].update == Some(now) && t.nodes[p].data == Some(data);
  }

  /** A second read returns what the first did and changes nothing more: the file is decoded at most once per change. */
  lemma ReadTwice<D>(s: St<D>, p: Path)
    requires p in s.nodes
    ensures Read(Read(s, p).1, p) == (Read(s, p).0, Read(s, p).1)
  {
    var (v, t) := Read(s, p);
    var nd := s.nodes[p];
    if nd.typed && p in s.disk && s.disk[p].DiskFile? && (nd.update.None? || nd.update.value < s.disk[p].mtime) {
      assert t.nodes[p].update == Some(s.disk[p].mtime);
    }
  }

  // ---------------------------------------------------------------------------
  // The cache time of a listing (lines 103-118)

  /**
   * Inside the cache time a directory's listing is not looked at again:
   * whatever the disk holds by now, `isa` answers from the cache and the
   * children stay as they were.
   */
  lemma WithinCacheTime<D>(s: St<D>, p: Path, disk: map<Path, OnDisk<D>>, now: real)
    requires p in s.nodes && s.nodes[p].kind == Directory && s.nodes[p].update.Some?
    requires now <= s.nodes[p].update.value + s.cacheTime
    ensures Isa(s.(disk := disk), p, now) == (Ok(Directory), s.(disk := disk))
  {
  }

  /**
   * Once the cache time has passed, the listing shows exactly the names on
   * the disk that are not lock names: names added meanwhile appear, names
   * removed meanwhile disappear.  The names already shown come first, in
   * their old order.
   */
  lemma AfterCacheTime<D>(s: St<D>, p: Path, now: real)
    requires p in s.nodes && s.nodes[p].kind == Directory && s.nodes[p].update.Some?
    requires s.nodes[p].update.value + s.cacheTime < now
    requires p in s.disk && s.disk[p].DiskDir?
    requires forall n :: n in s.nodes[p].children ==> Unlocked(n)
    ensures Isa(s, p, now).0 == Ok(Directory)
    ensures forall n :: n in Isa(s, p, now).1.nodes[p].children <==> n in s.disk[p].names && Unlocked(n)
    ensures Isa(s, p, now).1.nodes[p].children[..|Keep(s.nodes[p].children, InPool(s.disk[p].names))|]
         == Keep(s.nodes[p].children, InPool(s.disk[p].names))
  {
    var fnl := s.disk[p].names;
    var kept := Keep(s.nodes[p].children, InPool(fnl));
    var births := Keep(LockFree(fnl), OutOf(s.nodes[p].children));
    assert Isa(s, p, now).1.nodes[p].children == kept + births;
    assert (kept + births)[..|kept|] == kept;
  }

  /** The first look at a directory lists the disk's names less the lock names, in the disk's order. */
  lemma FirstListing<D>(s: St<D>, p: Path, now: real)
    requires p in s.nodes && s.nodes[p].kind == Uninitialised
    requires p in s.disk && s.disk[p].DiskDir?
    ensures Isa(s, p, now).0 == Ok(Directory)
    ensures Isa(s, p, now).1.nodes[p].children == LockFree(s.disk[p].names)
  {
  }

  /**
   * Lines 96-98 and 116-118: whether it is the first listing or a later
   * one, `isa` never makes a lock name a child of a directory whose
   * children were free of them.
   */
  lemma ListingHidesLocks<D>(s: St<D>, p: Path, now: real)
    requires p in s.nodes
    requires forall n :: n in s.nodes[p].children ==> Unlocked(n)
    ensures forall n :: n in Isa(s, p, now).1.nodes[p].children ==> Unlocked(n)
  {
    var nd := s.nodes[p];
    if nd.kind == Directory && nd.update.Some? && nd.update.value + s.cacheTime < now && p in s.disk && s.disk[p].DiskDir? {
      var fnl := s.disk[p].names;
      assert Isa(s, p, now).1.nodes[p].children == Keep(nd.children, InPool(fnl)) + Keep(LockFree(fnl), OutOf(nd.children));
    }
  }

  /** The directory of the unit tests: two text files, a directory holding one, and a lock directory. */
  function TestDisk(): (d: map<Path, OnDisk<()>>)
    ensures [] in d && d[[]].DiskDir? && DiskOk(d)
  {
    var d: map<Path, OnDisk<()>> := map[
      [] := DiskDir(["cabbage.txt", "turnip.txt", "penguins", ".lock_spiders.txt"]),
      ["cabbage.txt"] := DiskFile(0.0, None),
      ["turnip.txt"] := DiskFile(0.0, None),
      ["penguins"] := DiskDir(["fly.txt"]),
      ["penguins", "fly.txt"] := DiskFile(0.0, None),
      [".lock_spiders.txt"] := DiskDir([])];
    assert Child([], "cabbage.txt") == ["cabbage.txt"] && Child([], "turnip.txt") == ["turnip.txt"];
    assert Child([], "penguins") == ["penguins"] && Child([], ".lock_spiders.txt") == [".lock_spiders.txt"];
    assert Child(["penguins"], "fly.txt") == ["penguins", "fly.txt"];
    assert DiskOk(d) by {
      forall q | q in d && d[q].DiskDir? ensures Distinct(d[q].names) && forall n :: n in d[q].names ==> Child(q, n) in d {
        assert q == [] || q == ["penguins"] || q == [".lock_spiders.txt"];
      }
    }
    d
  }

  /** The root of the test directory shows three children: the lock directory is hidden. */
  lemma TestRootListing(now: real)
    ensures var s := St([], 30.0, map[[] := Fresh("", [])], TestDisk());
      Isa(s, [], now).1.nodes[[]].children == ["cabbage.txt", "turnip.txt", "penguins"]
  {
    var s := St([], 30.0, map[[] := Fresh("", [])], TestDisk());
    FirstListing(s, [], now);
    TestRootNames();
  }

  /** Of the test root's four names, `.lock_spiders.txt` is the lock name. */
  lemma TestRootNames()
    ensures LockFree(TestDisk()[[]].names) == ["cabbage.txt", "turnip.txt", "penguins"]
  {
    var names := TestDisk()[[]].names;
    assert names == ["cabbage.txt", "turnip.txt", "penguins", ".lock_spiders.txt"];
    assert StartsWith(".lock_spiders.txt", LockPrefix) by {
      assert ".lock_spiders.txt"[..|LockPrefix|] == LockPrefix;
    }
    assert !StartsWith("cabbage.txt", LockPrefix) by {
      assert "cabbage.txt"[0] != LockPrefix[0];
    }
    assert !StartsWith("turnip.txt", LockPrefix) by {
      assert "turnip.txt"[0] != LockPrefix[0];
    }
    assert !StartsWith("penguins", LockPrefix) by {
      assert "penguins"[0] != LockPrefix[0];
    }
    assert names[1..][1..][1..][1..] == [];
  }

  /** Lines 340-341: a file seen for the first time counts one. */
  lemma CountsFile<D>(s: St<D>, q: Path, now: real)
    requires Inv(s) && q in s.nodes && s.nodes[q].kind == Uninitialised
    requires q in s.disk && s.disk[q].DiskFile?
    ensures Count(s, q, now).0 == Ok(1)
  {
  }

  /** Lines 89-101: a directory's first listing records each name it keeps as a fresh child. */
  lemma FirstChildren<D>(s: St<D>, p: Path, now: real)
    requires p in s.nodes && s.nodes[p].kind == Uninitialised
    requires p in s.disk && s.disk[p].DiskDir?
    ensures var r := Isa(s, p, now).1;
      r.nodes[p].children == LockFree(s.disk[p].names)
      && forall n :: n in LockFree(s.disk[p].names) ==> Child(p, n) in r.nodes && r.nodes[Child(p, n)] == Fresh(n, s.types)
  {
    var names := LockFree(s.disk[p].names);
    forall n | n in names ensures Child(p, n) in Isa(s, p, now).1.nodes && Isa(s, p, now).1.nodes[Child(p, n)] == Fresh(n, s.types) {
      AdoptAt(s.nodes, p, names, s.types, Child(p, n));
      assert Child(p, n)[..|p|] == p && Child(p, n)[|p|] == n;
    }
  }

  /** After a directory's `isa`, the cache still holds together and has a record for each child. */
  lemma DirReady<D>(s: St<D>, p: Path, now: real)
    requires Inv(s) && p in s.nodes && Isa(s, p, now).0 == Ok(Directory)
    ensures var s1 := Isa(s, p, now).1;
      Inv(s1) && forall n :: n in s1.nodes[p].children ==> Child(p, n) in s1.nodes
  {
    var s1 := Isa(s, p, now).1;
    assert Closed(s1.nodes);
    assert s1.nodes[p].kind == Directory;
  }

  lemma CountDir<D>(s: St<D>, p: Path, now: real)
    requires Inv(s) && p in s.nodes && Isa(s, p, now).0 == Ok(Directory)
    requires var s1 := Isa(s, p, now).1;
      Inv(s1) && forall n :: n in s1.nodes[p].children ==> Child(p, n) in s1.nodes
    ensures var s1 := Isa(s, p, now).1; var rest := CountChildren(s1, p, s1.nodes[p].children, now).0;
      Count(s, p, now).0 == if rest.Raise? then Raise(rest.error) else Ok(1 + rest.value)
  {
    var (k, s1) := Isa(s, p, now);
    BelowChild(Tree(s), p, "");
    var (rest, s2) := CountChildren(s1, p, s1.nodes[p].children, now);
  }

  // ---------------------------------------------------------------------------
  // new and clone (lines 209-258)

  /** Lines 211-213 and 241-242: neither `new` nor `clone` works on a node that is not a directory. */
  lemma OnlyDirectoriesHold<D>(s: St<D>, p: Path, name: string, data: Option<D>, source: Path, now: real)
    requires p in s.nodes && Closed(s.nodes)
    requires Isa(s, p, now).0.Ok? && Isa(s, p, now).0.value != Directory
    ensures New(s, p, name, data, now) == (Raise(TypeError), Isa(s, p, now).1)
    ensures Clone(s, p, name, source, now) == (Raise(TypeError), Isa(s, p, now).1)
  {
  }

  /** Line 217: asked for a directory it already lists, `new` hands back that child and changes nothing more. */
  lemma NewFindsChild<D>(s: St<D>, p: Path, name: string, now: real)
    requires p in s.nodes && Closed(s.nodes)
    requires Isa(s, p, now).0 == Ok(Directory) && name in Isa(s, p, now).1.nodes[p].children
    ensures New(s, p, name, None, now) == (Ok(Child(p, name)), Isa(s, p, now).1)
  {
  }

  /**
   * Lines 219-224: a new directory is listed after the others, recorded as
   * a fresh node and made on the disk, empty; a path the disk already
   * holds makes `os.makedirs` fail.
   */
  lemma NewMakesDirectory<D>(s: St<D>, p: Path, name: string, now: real)
    requires p in s.nodes && Closed(s.nodes)
    requires Isa(s, p, now).0 == Ok(Directory) && name !in Isa(s, p, now).1.nodes[p].children
    ensures var r := New(s, p, name, None, now);
      var q := Child(p, name);
      (r.0.Ok? ==>
         r.1.nodes[p].children == Isa(s, p, now).1.nodes[p].children + [name]
         && r.1.nodes[q] == Fresh(name, s.types) && q in r.1.disk && r.1.disk[q] == DiskDir([]))
      && (q in s.disk ==> r.0 == Raise(OSError))
  {
    var s1 := Isa(s, p, now).1;
    var s2 := AddChild(s1, p, name);
    assert s2.nodes[p].children == s1.nodes[p].children + [name];
  }

  /**
   * Lines 226-236: with data, a listed child that is not a file raises
   * TypeError; otherwise the child is listed, and the data is on the disk
   * with time `now` and cached in the node.
   */
  lemma NewWritesFile<D>(s: St<D>, p: Path, name: string, data: D, now: real)
    requires p in s.nodes && Closed(s.nodes) && Isa(s, p, now).0 == Ok(Directory)
    ensures var s1 := Isa(s, p, now).1;
      var q := Child(p, name);
      name in s1.nodes[p].children && Isa(s1, q, now).0.Ok? && Isa(s1, q, now).0.value != File ==>
        New(s, p, name, Some(data), now).0 == Raise(TypeError)
    ensures var r := New(s, p, name, Some(data), now);
      var q := Child(p, name);
      r.0.Ok? ==>
        name in r.1.nodes[p].children && q in r.1.disk && r.1.disk[q] == DiskFile(now, Some(data))
        && r.1.nodes[q].data == Some(data) && r.1.nodes[q].update == Some(now)
  {
    var s1 := Isa(s, p, now).1;
    var q := Child(p, name);
    if name in s1.nodes[p].children {
      var s2 := Isa(s1, q, now).1;
      assert s2.nodes[p] == s1.nodes[p] by { assert !Extends(p, q); }
      var w := Write(s2, q, data, now);
      if w.0.Ok? {
        assert w.1.nodes[p] == s2.nodes[p] by { assert !Extends(p, q); }
      }
    } else {
      var s2 := AddChild(s1, p, name);
      var w := Write(s2, q, data, now);
      if w.0.Ok? {
        assert w.1.nodes[p] == s2.nodes[p] by { assert !Extends(p, q); }
      }
    }
  }

  /**
   * Lines 244-258: a listed child that is not a file raises TypeError; a
   * source the system cannot copy raises OSError; a copy leaves the child
   * listed, holding the source's entry (data and time), with nothing cached.
   */
  lemma CloneCopies<D>(s: St<D>, p: Path, name: string, source: Path, now: real)
    requires p in s.nodes && Closed(s.nodes) && Isa(s, p, now).0 == Ok(Directory)
    ensures var s1 := Isa(s, p, now).1;
      var q := Child(p, name);
      name in s1.nodes[p].children && Isa(s1, q, now).0.Ok? && Isa(s1, q, now).0.value != File ==>
        Clone(s, p, name, source, now).0 == Raise(TypeError)
    ensures var s1 := Isa(s, p, now).1;
      CloneTarget(s1, p, name, now).0.Ok? && (source !in s.disk || s.disk[source].DiskDir? || source == Child(p, name)) ==>
        Clone(s, p, name, source, now).0 == Raise(OSError)
    ensures var r := Clone(s, p, name, source, now);
      var q := Child(p, name);
      r.0.Ok? ==>
        name in r.1.nodes[p].children && source in s.disk && q in r.1.disk && r.1.disk[q] == s.disk[source]
        && r.1.nodes[q].update.None? && r.1.nodes[q].data.None?
  {
    var s1 := Isa(s, p, now).1;
    var q := Child(p, name);
    if name in s1.nodes[p].children {
      var s2 := Isa(s1, q, now).1;
      assert s2.nodes[p] == s1.nodes[p] by { assert !Extends(p, q); }
    } else {
      var s2 := AddChild(s1, p, name);
      assert s2.nodes[p].children == s1.nodes[p].children + [name];
    }
  }

  // ---------------------------------------------------------------------------
  // create (lines 261-278)

  /** The directories from `p` along `key` are known, settled at `now`, and each lists the next name. */
  ghost predicate Chain<D>(s: St<D>, p: Path, key: Path, now: real)
    decreases |key|
  {
    p in s.nodes && s.nodes[p].kind == Directory && Settled(s.nodes[p], s.cacheTime, now)
    && (|key| > 0 ==> key[0] in s.nodes[p].children && Chain(s, Child(p, key[0]), key[1..], now))
  }

  /** A successful create leaves the chain of directories along `key` in the cache. */
  lemma {:induction false} CreateChain<D>(s: St<D>, p: Path, key: Path, now: real, repaired: bool)
    requires p in s.nodes && Closed(s.nodes) && s.cacheTime >= 0.0
    ensures Create(s, p, key, now, repaired).0.Ok? ==> Chain(Create(s, p, key, now, repaired).1, p, key, now)
    decreases |key|, 1
  {
    var (k, s1) := Isa(s, p, now);
    if k.Ok? && k.value == Deleted && repaired {
      match MakeDirs(s1.disk, p)
      case Raise(_) =>
      case Ok(d) =>
        var s2 := s1.(disk := d, nodes := s1.nodes[p := s1.nodes[p].(kind := Directory, update := Some(now), children := [], ext := NoExt)]);
        assert Closed(s2.nodes) by {
          forall x, m | x in s2.nodes && s2.nodes[x].kind == Directory && m in s2.nodes[x].children ensures Child(x, m) in s2.nodes {
            assert x != p && s2.nodes[x] == s1.nodes[x];
          }
        }
        CreateRestChain(s2, p, key, now, repaired);
    } else if k.Ok? && k.value == Directory {
      CreateRestChain(s1, p, key, now, repaired);
    }
  }

  lemma {:induction false} CreateRestChain<D>(s: St<D>, p: Path, key: Path, now: real, repaired: bool)
    requires p in s.nodes && s.nodes[p].kind == Directory && Closed(s.nodes) && s.cacheTime >= 0.0
    requires Settled(s.nodes[p], s.cacheTime, now)
    ensures CreateRest(s, p, key, now, repaired).0.Ok? ==> Chain(CreateRest(s, p, key, now, repaired).1, p, key, now)
    decreases |key|, 0
  {
    if |key| > 0 {
      var n := key[0];
      var q := Child(p, n);
      assert !Extends(p, q);
      if n in s.nodes[p].children {
        CreateChain(s, q, key[1..], now, repaired);
      } else {
        match Mkdir(s.disk, q)
        case Raise(_) =>
        case Ok(d) =>
          var s2 := AddChild(s, p, n).(disk := d);
          CreateChain(s2, q, key[1..], now, repaired);
      }
    }
  }

  /** Along a chain `create` finds every step and changes nothing. */
  lemma {:induction false} CreateAlongChain<D>(s: St<D>, p: Path, key: Path, now: real, repaired: bool)
    requires Chain(s, p, key, now) && Closed(s.nodes)
    ensures Create(s, p, key, now, repaired) == (Ok(p + key), s)
    decreases |key|
  {
    assert Isa(s, p, now) == (Ok(Directory), s);
    if |key| > 0 {
      var q := Child(p, key[0]);
      CreateAlongChain(s, q, key[1..], now, repaired);
      assert q + key[1..] == p + key;
    } else {
      assert p + key == p;
    }
  }

  /**
   * `create` is idempotent: after it succeeds, the same call at the same
   * time finds the whole chain of directories it built and returns the same
   * path without changing anything.
   */
  lemma CreateIdempotent<D>(s: St<D>, p: Path, key: Path, now: real, repaired: bool)
    requires p in s.nodes && Closed(s.nodes) && s.cacheTime >= 0.0
    requires Create(s, p, key, now, repaired).0.Ok?
    ensures Chain(Create(s, p, key, now, repaired).1, p, key, now)
    ensures var t := Create(s, p, key, now, repaired).1;
      Create(t, p, key, now, repaired) == (Ok(p + key), t)
  {
    CreateChain(s, p, key, now, repaired);
    CreateAlongChain(Create(s, p, key, now, repaired).1, p, key, now, repaired);
  }

  /** The walk along `key` from `p` meets a file before it runs out of names. */
  ghost predicate HitsFile<D>(s: St<D>, p: Path, key: Path, now: real)
    decreases |key|
  {
    p in s.nodes
    && (s.nodes[p].kind == File
        || (s.nodes[p].kind == Directory && Settled(s.nodes[p], s.cacheTime, now)
            && |key| > 0 && key[0] in s.nodes[p].children && HitsFile(s, Child(p, key[0]), key[1..], now)))
  }

  /** A file on the way, including the last step, makes `create` raise TypeError and change nothing. */
  lemma {:induction false} CreateHitsFile<D>(s: St<D>, p: Path, key: Path, now: real, repaired: bool)
    requires HitsFile(s, p, key, now) && Closed(s.nodes)
    ensures Create(s, p, key, now, repaired) == (Raise(TypeError), s)
    decreases |key|
  {
    if s.nodes[p].kind == File {
      assert Isa(s, p, now) == (Ok(File), s);
    } else {
      assert Isa(s, p, now) == (Ok(Directory), s);
      CreateHitsFile(s, Child(p, key[0]), key[1..], now, repaired);
    }
  }

  /** A removed node, as written: `create` raises NameError, since line 268 reads `ret`, which is not bound there. */
  lemma CreateDeletedAsWritten<D>(s: St<D>, p: Path, key: Path, now: real)
    requires p in s.nodes && Closed(s.nodes) && Isa(s, p, now).0 == Ok(Deleted)
    ensures Create(s, p, key, now, false) == (Raise(NameError), Isa(s, p, now).1)
  {
  }

  /** A removed node, as intended: `create` makes its directory on the disk and the node is an empty directory again. */
  lemma CreateDeletedRepaired<D>(s: St<D>, p: Path, now: real)
    requires p in s.nodes && Closed(s.nodes) && Isa(s, p, now).0 == Ok(Deleted)
    requires MakeDirs(Isa(s, p, now).1.disk, p).Ok?
    ensures var r := Create(s, p, [], now, true);
      r.0 == Ok(p) && r.1.nodes[p].kind == Directory && r.1.nodes[p].children == []
      && r.1.disk == MakeDirs(Isa(s, p, now).1.disk, p).value && r.1.disk[p] == DiskDir([])
  {
  }

  // ---------------------------------------------------------------------------
  // remove (lines 281-289)

  /**
   * After a successful remove the node is deleted and gone from the disk,
   * and its directory does not contain it at any later time, whether or
   * not the directory's listing is read again.
   */
  lemma RemoveGone<D>(s: St<D>, p: Path, now: real, later: real)
    requires p in s.nodes && Remove(s, p, now).0.Ok?
    ensures var t := Remove(s, p, now).1;
      |p| > 0 && t.nodes[p].kind == Deleted && p !in t.disk && Parent(p) in t.nodes
      && Name(p) !in t.nodes[Parent(p)].children
      && (Parent(p) in t.disk && t.disk[Parent(p)].DiskDir? ==> Name(p) !in t.disk[Parent(p)].names)
    ensures var t := Remove(s, p, now).1;
      FsDb.Contains(t, Parent(p), Name(p), later).0 != Ok(true)
  {
    var t := Remove(s, p, now).1;
    RemovedStaysOut(t, Parent(p), Name(p), later);
  }

  /** A name that neither the listing nor the disk's directory holds is not contained, whatever the time. */
  lemma RemovedStaysOut<D>(t: St<D>, up: Path, name: string, later: real)
    requires up in t.nodes && name !in t.nodes[up].children
    requires up in t.disk && t.disk[up].DiskDir? ==> name !in t.disk[up].names
    ensures FsDb.Contains(t, up, name, later).0 != Ok(true)
  {
    var nd := t.nodes[up];
    if nd.kind == Directory && nd.update.Some? && nd.update.value + t.cacheTime < later && up in t.disk && t.disk[up].DiskDir? {
      var fnl := t.disk[up].names;
      assert Isa(t, up, later).1.nodes[up].children == Keep(nd.children, InPool(fnl)) + Keep(LockFree(fnl), OutOf(nd.children));
    }
  }

  /** Only a file can be removed: any other kind raises TypeError. */
  lemma RemoveOnlyFiles<D>(s: St<D>, p: Path, now: real)
    requires p in s.nodes && Isa(s, p, now).0.Ok? && Isa(s, p, now).0.value != File
    ensures Remove(s, p, now) == (Raise(TypeError), Isa(s, p, now).1)
  {
  }
}
