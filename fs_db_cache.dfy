/**
 * The `FSDB` object of bin/fs_db.py and the `Node` operations that change
 * it, as a class.  Its fields are the registered extensions, the cache time,
 * the node records by path and the disk.  A method is given the path of the
 * node it acts on, which the source reaches as `self`.  Each method changes
 * the fields as the matching function of `FsDb` says the call changes the
 * cache.  So everything proved about those functions, in `FsDb` and
 * `FsDbFacts`, holds for the object.
 */
module FsDbCache {
  import opened Py
  import opened Lists
  import S = FsDb

  /** The names of `names` that pass `keep`, gathered by a loop. */
  method Filter(names: seq<string>, keep: string -> bool) returns (r: seq<string>)
    ensures r == S.Keep(names, keep)
  {
    r := [];
    var i := 0;
    while i < |names|
      invariant 0 <= i <= |names|
      invariant r == S.Keep(names[..i], keep)
    {
      assert names[..i + 1] == names[..i] + [names[i]];
      S.KeepAppend(names[..i], names[i], keep);
      if keep(names[i]) {
        r := r + [names[i]];
      }
      i := i + 1;
    }
    assert names[..i] == names;
  }

  class Db<D> {
    var types: seq<string>
    var cacheTime: real
    var nodes: map<S.Path, S.Node<D>>
    var disk: map<S.Path, S.OnDisk<D>>

    /** The whole state, as the functions of `FsDb` take it. */
    function Snap(): S.St<D>
      reads this
    {
      S.St(types, cacheTime, nodes, disk)
    }

    ghost predicate Valid()
      reads this
    {
      [] in nodes && S.Inv(Snap())
    }

    /** Lines 407-415: no file types, a cache time of 30 seconds and a root not yet looked at. */
    constructor (disk0: map<S.Path, S.OnDisk<D>>)
      requires S.DiskOk(disk0)
      ensures types == [] && cacheTime == 30.0 && disk == disk0
      ensures nodes == map[[] := S.Fresh("", [])]
      ensures Valid()
    {
      types := [];
      cacheTime := 30.0;
      nodes := map[[] := S.Node(S.Uninitialised, false, None, [], None, S.NoExt)];
      disk := disk0;
    }

    /** Lines 422-424. */
    method SetCacheTime(t: real)
      modifies this
      ensures cacheTime == t
      ensures types == old(types) && nodes == old(nodes) && disk == old(disk)
    {
      cacheTime := t;
    }

    /**
     * Lines 427-429: the extension joins the registered ones (a dictionary
     * key: registering it again keeps its place).  Names of nodes made from
     * now on are typed when they end with it.
     */
    method Register(ext: string)
      modifies this
      ensures types == if ext in old(types) then old(types) else old(types) + [ext]
      ensures forall n :: S.Typed(n, types) <==> S.Typed(n, old(types)) || EndsWith(n, ext)
      ensures cacheTime == old(cacheTime) && nodes == old(nodes) && disk == old(disk)
    {
      if ext !in types {
        types := types + [ext];
        assert ext == types[|types| - 1];
        assert forall k :: 0 <= k < |old(types)| ==> types[k] == old(types)[k];
      } else {
        var k :| 0 <= k < |types| && types[k] == ext;
      }
    }

    /** Lines 96-98 and 116-118: `self.contents[fn] = Node(self.owner, self, fn)` for each name. */
    method Adopt(p: S.Path, names: seq<string>)
      modifies this
      ensures nodes == S.Adopt(old(nodes), p, names, types)
      ensures types == old(types) && cacheTime == old(cacheTime) && disk == old(disk)
    {
      var i := 0;
      while i < |names|
        invariant 0 <= i <= |names|
        invariant nodes == S.Adopt(old(nodes), p, names[..i], types)
        invariant types == old(types) && cacheTime == old(cacheTime) && disk == old(disk)
      {
        assert names[..i + 1][..i] == names[..i];
        nodes := nodes[S.Child(p, names[i]) := S.Fresh(names[i], types)];
        i := i + 1;
      }
      assert names[..i] == names;
    }

    /** Lines 73-120, as `FsDb.Isa` describes them. */
    method Isa(p: S.Path, now: real) returns (k: Outcome<S.Kind>)
      requires p in nodes
      modifies this
      ensures (k, Snap()) == S.Isa(old(Snap()), p, now)
    {
      var nd := nodes[p];
      if nd.kind == S.Uninitialised {
        if p !in disk {
          nodes := nodes[p := nd.(kind := S.Deleted)];
          return Ok(S.Deleted);
        } else if disk[p].DiskFile? {
          nodes := nodes[p := nd.(kind := S.File)];
          return Ok(S.File);
        }
        var names := Filter(disk[p].names, S.Unlocked);
        Adopt(p, names);
        nodes := nodes[p := nd.(kind := S.Directory, update := Some(now), children := names)];
        return Ok(S.Directory);
      }
      if nd.kind == S.Directory && nd.update.None? {
        return Raise(TypeError);
      }
      if nd.kind == S.Directory && nd.update.value + cacheTime < now {
        if p !in disk || !disk[p].DiskDir? {
          nodes := nodes[p := nd.(update := Some(now), ext := S.NoExt)];
          return Raise(OSError);
        }
        var fnl := disk[p].names;
        var kept := Filter(nd.children, S.InPool(fnl));
        var free := Filter(fnl, S.Unlocked);
        var births := Filter(free, S.OutOf(nd.children));
        Adopt(p, births);
        nodes := nodes[p := nd.(update := Some(now), ext := S.NoExt, children := kept + births)];
        return Ok(S.Directory);
      }
      return Ok(nd.kind);
    }

    /** Lines 153-171, as `FsDb.Read` describes them. */
    method Read(p: S.Path) returns (r: Outcome<Option<D>>)
      requires p in nodes
      modifies this
      ensures (r, Snap()) == S.Read(old(Snap()), p)
    {
      var nd := nodes[p];
      if !nd.typed {
        return Raise(TypeError);
      }
      if p !in disk || disk[p].DiskDir? {
        return Raise(OSError);
      }
      var f := disk[p];
      if nd.update.None? || nd.update.value < f.mtime {
        nodes := nodes[p := nd.(update := Some(f.mtime), data := f.data)];
      }
      return Ok(nodes[p].data);
    }

    /** Lines 174-190, as `FsDb.Write` describes them. */
    method Write(p: S.Path, data: D, now: real) returns (r: Outcome<()>)
      requires p in nodes
      modifies this
      ensures (r, Snap()) == S.Write(old(Snap()), p, data, now)
    {
      var nd := nodes[p];
      if !nd.typed {
        return Raise(TypeError);
      }
      if |p| == 0 || S.Parent(p) !in disk || !disk[S.Parent(p)].DiskDir? || (p in disk && disk[p].DiskDir?) {
        return Raise(OSError);
      }
      disk := S.Store(disk, p, S.DiskFile(now, Some(data)));
      nodes := nodes[p := nd.(update := Some(now), data := Some(data))];
      return Ok(());
    }

    /** `self.contents[name] = Node(self.owner, self, name)`. */
    method AddChild(p: S.Path, name: string)
      requires p in nodes
      modifies this
      ensures Snap() == S.AddChild(old(Snap()), p, name)
    {
      var nd := nodes[p];
      nodes := nodes[S.Child(p, name) := S.Fresh(name, types)][p := nd.(children := nd.children + [name])];
    }

    /** Lines 209-236, as `FsDb.New` describes them. */
    method New(p: S.Path, name: string, data: Option<D>, now: real) returns (r: Outcome<S.Path>)
      requires p in nodes && S.Closed(nodes)
      modifies this
      ensures (r, Snap()) == S.New(old(Snap()), p, name, data, now)
    {
      var k := Isa(p, now);
      var q := S.Child(p, name);
      if k.Raise? {
        return Raise(k.error);
      }
      if k.value != S.Directory {
        return Raise(TypeError);
      }
      if data.None? {
        if name in nodes[p].children {
          return Ok(q);
        }
        AddChild(p, name);
        var made := S.MakeDirs(disk, q);
        if made.Raise? {
          return Raise(made.error);
        }
        disk := made.value;
        return Ok(q);
      }
      if name in nodes[p].children {
        var kq := Isa(q, now);
        if kq.Raise? {
          return Raise(kq.error);
        }
        if kq.value != S.File {
          return Raise(TypeError);
        }
      } else {
        AddChild(p, name);
      }
      var w := Write(q, data.value, now);
      if w.Raise? {
        return Raise(w.error);
      }
      return Ok(q);
    }

    /** Lines 281-289, as `FsDb.Remove` describes them. */
    method Remove(p: S.Path, now: real) returns (r: Outcome<()>)
      requires p in nodes
      modifies this
      ensures (r, Snap()) == S.Remove(old(Snap()), p, now)
    {
      var k := Isa(p, now);
      if k.Raise? {
        return Raise(k.error);
      }
      if k.value != S.File {
        return Raise(TypeError);
      }
      if p !in disk || disk[p].DiskDir? {
        return Raise(OSError);
      }
      disk := if |p| == 0 then disk - {p} else S.Unlink(disk, p);
      nodes := nodes[p := nodes[p].(kind := S.Deleted)];
      if |p| == 0 {
        return Raise(AttributeError);
      }
      var up := S.Parent(p);
      if up !in nodes || S.Name(p) !in nodes[up].children {
        return Raise(KeyError);
      }
      nodes := nodes[up := nodes[up].(children := Without(nodes[up].children, S.Name(p)))];
      return Ok(());
    }

    /** Lines 376-380: `Node.__contains__`. */
    method NodeContains(p: S.Path, key: string, now: real) returns (r: Outcome<bool>)
      requires p in nodes
      modifies this
      ensures (r, Snap()) == S.Contains(old(Snap()), p, key, now)
    {
      var k := Isa(p, now);
      if k.Raise? {
        return Raise(k.error);
      }
      if k.value != S.Directory {
        return Ok(false);
      }
      return Ok(key in nodes[p].children);
    }

    /** Lines 383-386: `Node.__getitem__`. */
    method NodeGetItem(p: S.Path, key: string, now: real) returns (r: Outcome<S.Path>)
      requires p in nodes && S.Closed(nodes)
      modifies this
      ensures (r, Snap()) == S.GetItem(old(Snap()), p, key, now)
    {
      var k := Isa(p, now);
      if k.Raise? {
        return Raise(k.error);
      }
      if k.value != S.Directory || key !in nodes[p].children {
        return Raise(KeyError);
      }
      return Ok(S.Child(p, key));
    }

    /** Lines 437-448: the walk down the key from the root, False at the first name not there. */
    method Contains(key: S.Path, now: real) returns (r: Outcome<bool>)
      requires [] in nodes && S.Closed(nodes)
      modifies this
      ensures (r, Snap()) == S.DbContains(old(Snap()), [], key, now)
    {
      var targ: S.Path := [];
      var i := 0;
      while i < |key|
        invariant 0 <= i <= |key|
        invariant targ in nodes && S.Closed(nodes)
        invariant S.DbContains(old(Snap()), [], key, now) == S.DbContains(Snap(), targ, key[i..], now)
      {
        assert key[i..][0] == key[i] && key[i..][1..] == key[i + 1..];
        var k := Isa(targ, now);
        if k.Raise? {
          return Raise(k.error);
        }
        var c := NodeContains(targ, key[i], now);
        if c.Raise? {
          return Raise(c.error);
        }
        if !c.value {
          return Ok(false);
        }
        var g := NodeGetItem(targ, key[i], now);
        if g.Raise? {
          return Raise(g.error);
        }
        targ := g.value;
        i := i + 1;
      }
      return Ok(true);
    }

    /** Lines 451-461: the walk down the key from the root, KeyError at the first name not there. */
    method GetItem(key: S.Path, now: real) returns (r: Outcome<S.Path>)
      requires [] in nodes && S.Closed(nodes)
      modifies this
      ensures (r, Snap()) == S.DbGetItem(old(Snap()), [], key, now)
    {
      var targ: S.Path := [];
      var i := 0;
      while i < |key|
        invariant 0 <= i <= |key|
        invariant targ in nodes && S.Closed(nodes)
        invariant S.DbGetItem(old(Snap()), [], key, now) == S.DbGetItem(Snap(), targ, key[i..], now)
      {
        assert key[i..][0] == key[i] && key[i..][1..] == key[i + 1..];
        var k := Isa(targ, now);
        if k.Raise? {
          return Raise(k.error);
        }
        var g := NodeGetItem(targ, key[i], now);
        if g.Raise? {
          return Raise(g.error);
        }
        targ := g.value;
        i := i + 1;
      }
      return Ok(targ);
    }

    /** Lines 464-467 and 292-307: every path of the tree, depth first from the root. */
    method Iter(now: real) returns (r: Outcome<seq<S.Path>>)
      requires Valid()
      modifies this
      ensures (r, Snap()) == S.Iterate(old(Snap()), [], now)
      ensures Valid()
    {
      var w := S.Iterate(Snap(), [], now);
      nodes := w.1.nodes;
      r := w.0;
    }

    /** Lines 470-472 and 333-347: as many as `Iter` yields. */
    method Len(now: real) returns (r: Outcome<nat>)
      requires Valid()
      modifies this
      ensures (r, Snap()) == S.Count(old(Snap()), [], now)
      ensures Valid()
    {
      var c := S.Count(Snap(), [], now);
      nodes := c.1.nodes;
      r := c.0;
    }
  }
}
