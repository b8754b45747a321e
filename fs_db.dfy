/**
 * The cached view of a directory tree kept by `fs_db.FSDB` (bin/fs_db.py).
 *
 * A node is named by its path, the tuple of names from the root, so the tree
 * of `Node` objects becomes a map from paths to node records; the child
 * `name` of the node at `p` lives at `p + [name]`.  The operating system's
 * files are a second map, `disk`, from paths to a directory (with its
 * listing, in the order the system returns it) or a file (with its
 * modification time and its decoded contents, `None` when the codec
 * rejects the text).  The clock is the parameter `now`.
 */
module FsDb {
  import opened Py
  import opened Lists

  type Path = seq<string>

  /** Directories with this prefix hold the lock files and are never shown (line 406). */
  const LockPrefix: string := ".lock_"

  function Child(p: Path, n: string): Path {
    p + [n]
  }

  /** The node's own name; the root has none. */
  function Name(p: Path): string
    requires |p| > 0
  {
    p[|p| - 1]
  }

  function Parent(p: Path): (r: Path)
    requires |p| > 0
    ensures Child(r, Name(p)) == p
  {
    p[..|p| - 1]
  }

  /** `q` is `p` or lies below it. */
  predicate Extends(q: Path, p: Path) {
    |p| <= |q| && q[..|p|] == p
  }

  lemma ChildExtends(p: Path, n: string, q: Path)
    requires Extends(q, Child(p, n))
    ensures Extends(q, p) && q != p
  {
    assert q[..|p|] == q[..|p| + 1][..|p|];
  }

  // ---------------------------------------------------------------------------
  // State

  datatype Kind = Uninitialised | Deleted | Directory | File

  /** What the operating system holds at a path. */
  datatype OnDisk<D> = DiskDir(names: seq<string>) | DiskFile(mtime: real, data: Option<D>)

  /** The `ext` slot: a file's cached extension test, or a directory's answers by extension. */
  datatype ExtCache = NoExt | FileExt(matched: bool) | DirExt(known: map<string, bool>)

  /**
   * The fields of a `Node`: its state, whether a file type was registered for
   * its name when it was made, the `update` time, the children (for a
   * directory, in dictionary order), the cached file contents and `ext`.
   */
  datatype Node<D> = Node(kind: Kind, typed: bool, update: Option<real>, children: seq<string>, data: Option<D>, ext: ExtCache)

  /** Everything a call may read or change. */
  datatype St<D> = St(types: seq<string>, cacheTime: real, nodes: map<Path, Node<D>>, disk: map<Path, OnDisk<D>>)

  /** Lines 67-70: some registered extension ends the name. */
  predicate Typed(name: string, types: seq<string>) {
    exists k :: 0 <= k < |types| && EndsWith(name, types[k])
  }

  /** Lines 54-70: a node as constructed. */
  function Fresh<D>(name: string, types: seq<string>): Node<D> {
    Node(Uninitialised, Typed(name, types), None, [], None, NoExt)
  }

  /** Every child a directory node names has a record. */
  ghost predicate Closed<D>(nodes: map<Path, Node<D>>) {
    forall p, n :: p in nodes && nodes[p].kind == Directory && n in nodes[p].children ==> Child(p, n) in nodes
  }

  /** A directory lists each name once, and each name it lists exists. */
  ghost predicate DiskOk<D>(disk: map<Path, OnDisk<D>>) {
    forall q :: q in disk && disk[q].DiskDir? ==>
      Distinct(disk[q].names) && forall n :: n in disk[q].names ==> Child(q, n) in disk
  }

  ghost predicate Inv<D>(s: St<D>) {
    Closed(s.nodes) && DiskOk(s.disk)
  }

  /** Every path the cache or the disk knows. */
  function Tree<D>(s: St<D>): set<Path> {
    s.nodes.Keys + s.disk.Keys
  }

  /** The paths of `t` at or below `p`: what a walk from `p` can still visit. */
  function Under(t: set<Path>, p: Path): set<Path> {
    set q | q in t && Extends(q, p)
  }

  /** The paths of `t` strictly below `p`. */
  function Beneath(t: set<Path>, p: Path): set<Path> {
    set q | q in t && Extends(q, p) && q != p
  }

  lemma BelowChild(t: set<Path>, p: Path, n: string)
    ensures Under(t, Child(p, n)) <= Beneath(t, p)
    ensures p in t ==> Beneath(t, p) < Under(t, p)
  {
    forall q | q in Under(t, Child(p, n)) ensures q in Beneath(t, p) {
      ChildExtends(p, n, q);
    }
    if p in t {
      assert Extends(p, p);
      assert p in Under(t, p) && p !in Beneath(t, p);
    }
  }

  // ---------------------------------------------------------------------------
  // Listings

  /** The names of `names` that pass `keep`, in order. */
  function Keep(names: seq<string>, keep: string -> bool): (r: seq<string>)
    ensures forall n :: n in r <==> n in names && keep(n)
    ensures Distinct(names) ==> Distinct(r)
  {
    if |names| == 0 then []
    else
      var rest := Keep(names[1..], keep);
      assert forall n :: n in names <==> n == names[0] || n in names[1..];
      if keep(names[0]) then
        DistinctCons(names);
        [names[0]] + rest
      else
        rest
  }

  lemma DistinctCons(names: seq<string>)
    requires |names| > 0
    ensures Distinct(names) ==> Distinct(names[1..]) && names[0] !in names[1..]
    ensures forall rest :: Distinct(rest) && names[0] !in rest ==> Distinct([names[0]] + rest)
  {
    if Distinct(names) {
      forall k | 0 <= k < |names| - 1 ensures names[1..][k] != names[0] {
        assert names[1..][k] == names[k + 1];
      }
    }
    forall rest | Distinct(rest) && names[0] !in rest ensures Distinct([names[0]] + rest) {
      var r := [names[0]] + rest;
      forall i, j | 0 <= i < j < |r| ensures r[i] != r[j] {
        if i > 0 {
          assert r[i] == rest[i - 1] && r[j] == rest[j - 1];
        } else {
          assert r[j] == rest[j - 1];
        }
      }
    }
  }

  predicate Unlocked(n: string) {
    !StartsWith(n, LockPrefix)
  }

  /** The test "is listed in `pool`". */
  function InPool(pool: seq<string>): string -> bool {
    n => n in pool
  }

  /** The test "is not listed in `pool`". */
  function OutOf(pool: seq<string>): string -> bool {
    n => n !in pool
  }

  lemma {:induction false} KeepAppend(names: seq<string>, n: string, keep: string -> bool)
    ensures Keep(names + [n], keep) == Keep(names, keep) + (if keep(n) then [n] else [])
  {
    if |names| > 0 {
      assert (names + [n])[1..] == names[1..] + [n];
      KeepAppend(names[1..], n, keep);
    } else {
      assert (names + [n])[1..] == [];
    }
  }

  /** Lines 96-98 and 116-118: names with the lock prefix are never shown. */
  function LockFree(names: seq<string>): (r: seq<string>)
    ensures forall n :: n in r <==> n in names && !StartsWith(n, LockPrefix)
    ensures Distinct(names) ==> Distinct(r)
  {
    Keep(names, Unlocked)
  }

  /** `q` is the child of `p` named by one of `names`. */
  predicate IsKid(p: Path, q: Path, names: seq<string>) {
    |q| == |p| + 1 && q[..|p|] == p && q[|p|] in names
  }

  /** `self.contents[fn] = Node(self.owner, self, fn)` for each name in turn. */
  function Adopt<D>(nodes: map<Path, Node<D>>, p: Path, names: seq<string>, types: seq<string>): map<Path, Node<D>>
    decreases |names|
  {
    if |names| == 0 then nodes
    else
      var n := names[|names| - 1];
      Adopt(nodes, p, names[..|names| - 1], types)[Child(p, n) := Fresh(n, types)]
  }

  lemma {:induction false} AdoptAt<D>(nodes: map<Path, Node<D>>, p: Path, names: seq<string>, types: seq<string>, q: Path)
    ensures q in Adopt(nodes, p, names, types) <==> q in nodes || IsKid(p, q, names)
    ensures IsKid(p, q, names) ==> Adopt(nodes, p, names, types)[q] == Fresh(q[|p|], types)
    ensures !IsKid(p, q, names) && q in nodes ==> Adopt(nodes, p, names, types)[q] == nodes[q]
    decreases |names|
  {
    if |names| > 0 {
      var front := names[..|names| - 1];
      var n := names[|names| - 1];
      AdoptAt(nodes, p, front, types, q);
      assert forall x :: x in names <==> x in front || x == n;
      if q == Child(p, n) {
        assert q[..|p|] == p && q[|p|] == n;
      }
      if IsKid(p, q, names) && q != Child(p, n) {
        assert q == Child(p, q[|p|]);
      }
    }
  }

  /** What adopting children does to the whole map. */
  lemma AdoptFacts<D>(nodes: map<Path, Node<D>>, p: Path, names: seq<string>, types: seq<string>)
    ensures nodes.Keys <= Adopt(nodes, p, names, types).Keys
    ensures forall n :: n in names ==> Child(p, n) in Adopt(nodes, p, names, types)
    ensures forall q :: q in nodes && !Extends(q, p) ==> Adopt(nodes, p, names, types)[q] == nodes[q]
    ensures forall q :: q in Adopt(nodes, p, names, types) && q !in nodes ==> IsKid(p, q, names)
    ensures forall q :: q in nodes && Adopt(nodes, p, names, types)[q] != nodes[q] ==> IsKid(p, q, names)
  {
    forall q | q in nodes ensures q in Adopt(nodes, p, names, types) {
      AdoptAt(nodes, p, names, types, q);
    }
    forall n | n in names ensures Child(p, n) in Adopt(nodes, p, names, types) {
      AdoptAt(nodes, p, names, types, Child(p, n));
    }
    forall q | q in Adopt(nodes, p, names, types) ensures q in nodes || IsKid(p, q, names) {
      AdoptAt(nodes, p, names, types, q);
    }
    forall q | q in nodes && !IsKid(p, q, names) ensures Adopt(nodes, p, names, types)[q] == nodes[q] {
      AdoptAt(nodes, p, names, types, q);
    }
  }

  /** Adopting children named in a directory's listing adds no path the disk does not know. */
  lemma AdoptTree<D>(s: St<D>, p: Path, names: seq<string>)
    requires p in s.disk && s.disk[p].DiskDir?
    requires forall n :: n in names ==> n in s.disk[p].names
    ensures DiskOk(s.disk) ==> Tree(s.(nodes := Adopt(s.nodes, p, names, s.types))) == Tree(s)
  {
    AdoptFacts(s.nodes, p, names, s.types);
    if DiskOk(s.disk) {
      forall q | q in Adopt(s.nodes, p, names, s.types) && q !in s.nodes ensures q in s.disk {
        assert q == Child(p, q[|p|]);
      }
    }
  }

  /** The node needs no second look at `now`: its kind is known and its listing is recent. */
  predicate Settled<D>(nd: Node<D>, cacheTime: real, now: real) {
    nd.kind != Uninitialised && (nd.kind == Directory ==> nd.update.Some? && nd.update.value + cacheTime >= now)
  }

  // ---------------------------------------------------------------------------
  // isa (lines 73-120)

  /** The facts every step on the cache keeps. */
  ghost predicate Steps<D>(s: St<D>, t: St<D>, p: Path) {
    t.types == s.types && t.cacheTime == s.cacheTime
    && s.nodes.Keys <= t.nodes.Keys
    && (forall q :: q in s.nodes && !Extends(q, p) ==> t.nodes[q] == s.nodes[q])
    && (Closed(s.nodes) ==> Closed(t.nodes))
  }

  /** The node at `p` becomes `nd` after its new children, named by `births`, are made. */
  function Relist<D>(s: St<D>, p: Path, births: seq<string>, nd: Node<D>): (t: St<D>)
    requires p in s.nodes
    requires forall n :: n in nd.children ==> n in births || (s.nodes[p].kind == Directory && n in s.nodes[p].children)
    ensures p in t.nodes && t.nodes[p] == nd && t.disk == s.disk && Steps(s, t, p)
    ensures p in s.disk && s.disk[p].DiskDir? && (forall n :: n in births ==> n in s.disk[p].names) && DiskOk(s.disk) ==> Tree(t) == Tree(s)
  {
    var t := s.(nodes := Adopt(s.nodes, p, births, s.types)[p := nd]);
    AdoptFacts(s.nodes, p, births, s.types);
    RelistClosed(s.nodes, p, births, nd, s.types);
    if p in s.disk && s.disk[p].DiskDir? && (forall n :: n in births ==> n in s.disk[p].names) then
      AdoptTree(s, p, births);
      t
    else
      t
  }

  lemma RelistClosed<D>(nodes: map<Path, Node<D>>, p: Path, births: seq<string>, nd: Node<D>, types: seq<string>)
    requires p in nodes
    requires forall n :: n in nd.children ==> n in births || (nodes[p].kind == Directory && n in nodes[p].children)
    ensures Closed(nodes) ==> Closed(Adopt(nodes, p, births, types)[p := nd])
  {
    var t := Adopt(nodes, p, births, types)[p := nd];
    if Closed(nodes) {
      forall x, n | x in t && t[x].kind == Directory && n in t[x].children ensures Child(x, n) in t {
        AdoptAt(nodes, p, births, types, x);
        AdoptAt(nodes, p, births, types, Child(x, n));
        if x == p {
          AdoptAt(nodes, p, births, types, Child(p, n));
          assert Child(p, n)[..|p|] == p && Child(p, n)[|p|] == n;
        }
      }
    }
  }

  /** Lines 76-100: the first look at a node. */
  function Init<D>(s: St<D>, p: Path, now: real): (r: (Outcome<Kind>, St<D>))
    requires p in s.nodes
    ensures p in r.1.nodes && r.1.disk == s.disk && Steps(s, r.1, p)
    ensures r.0.Ok? && r.0.value != Uninitialised && r.1.nodes[p].kind == r.0.value
    ensures DiskOk(s.disk) ==> Tree(r.1) == Tree(s)
  {
    var nd := s.nodes[p];
    if p !in s.disk then
      (Ok(Deleted), s.(nodes := s.nodes[p := nd.(kind := Deleted)]))
    else if s.disk[p].DiskFile? then
      (Ok(File), s.(nodes := s.nodes[p := nd.(kind := File)]))
    else
      var names := LockFree(s.disk[p].names);
      (Ok(Directory), Relist(s, p, names, nd.(kind := Directory, update := Some(now), children := names)))
  }

  /** Lines 103-118: a directory listing older than the cache time is re-read. */
  function Refresh<D>(s: St<D>, p: Path, now: real): (r: (Outcome<Kind>, St<D>))
    requires p in s.nodes && s.nodes[p].kind == Directory
    ensures p in r.1.nodes && r.1.disk == s.disk && Steps(s, r.1, p)
    ensures r.0.Ok? ==> r.0.value == Directory && r.1.nodes[p].kind == Directory
    ensures DiskOk(s.disk) ==> Tree(r.1) == Tree(s)
  {
    var nd := s.nodes[p];
    if p !in s.disk || !s.disk[p].DiskDir? then
      (Raise(OSError), s.(nodes := s.nodes[p := nd.(update := Some(now), ext := NoExt)]))
    else
      var fnl := s.disk[p].names;
      var kept := Keep(nd.children, InPool(fnl));
      var births := Keep(LockFree(fnl), OutOf(nd.children));
      (Ok(Directory), Relist(s, p, births, nd.(update := Some(now), ext := NoExt, children := kept + births)))
  }

  /**
   * Lines 73-120.  A node not yet looked at takes its kind from the disk; a
   * directory then lists its children, leaving out lock names.  A
   * directory whose listing is older than the cache time re-lists: names
   * gone from the disk are dropped, new ones (not lock names) are added
   * after the kept ones.  A re-listing of a directory the disk no longer
   * holds fails with OSError after resetting the time and the `ext` cache.
   */
  function Isa<D>(s: St<D>, p: Path, now: real): (r: (Outcome<Kind>, St<D>))
    requires p in s.nodes
    ensures p in r.1.nodes && r.1.disk == s.disk && Steps(s, r.1, p)
    ensures r.0.Ok? ==> r.0.value != Uninitialised && r.1.nodes[p].kind == r.0.value
    ensures r.0.Ok? && s.cacheTime >= 0.0 ==> Settled(r.1.nodes[p], s.cacheTime, now)
    ensures DiskOk(s.disk) ==> Tree(r.1) == Tree(s)
  {
    var nd := s.nodes[p];
    if nd.kind == Uninitialised then Init(s, p, now)
    else if nd.kind == Directory && nd.update.None? then (Raise(TypeError), s)
    else if nd.kind == Directory && nd.update.value + s.cacheTime < now then Refresh(s, p, now)
    else (Ok(nd.kind), s)
  }

  // ---------------------------------------------------------------------------
  // The disk

  /** The parent directory lists the name `p` ends with. */
  function Link<D>(disk: map<Path, OnDisk<D>>, p: Path): (d: map<Path, OnDisk<D>>)
    requires |p| > 0 && Parent(p) in disk && disk[Parent(p)].DiskDir?
    ensures d.Keys == disk.Keys && Parent(p) in d && d[Parent(p)].DiskDir?
    ensures Name(p) in d[Parent(p)].names
    ensures forall q :: q in disk && q != Parent(p) ==> d[q] == disk[q]
    ensures forall n :: n in disk[Parent(p)].names ==> n in d[Parent(p)].names
    ensures forall n :: n in d[Parent(p)].names ==> n in disk[Parent(p)].names || n == Name(p)
    ensures Distinct(disk[Parent(p)].names) ==> Distinct(d[Parent(p)].names)
  {
    var names := disk[Parent(p)].names;
    if Name(p) in names then disk
    else
      assert Distinct(names) ==> Distinct(names + [Name(p)]) by {
        if Distinct(names) {
          var t := names + [Name(p)];
          forall i, j | 0 <= i < j < |t| ensures t[i] != t[j] {
            if j == |names| {
              assert t[i] == names[i];
            }
          }
        }
      }
      disk[Parent(p) := DiskDir(names + [Name(p)])]
  }

  /** A file or an empty directory written at `p` and listed in its directory. */
  function Store<D>(disk: map<Path, OnDisk<D>>, p: Path, e: OnDisk<D>): (d: map<Path, OnDisk<D>>)
    requires |p| > 0 && Parent(p) in disk && disk[Parent(p)].DiskDir?
    ensures d.Keys == disk.Keys + {p} && d[p] == e
    ensures forall q :: q in disk && q != p && q != Parent(p) ==> d[q] == disk[q]
    ensures DiskOk(disk) && (e.DiskFile? || e.names == []) ==> DiskOk(d)
  {
    var linked := Link(disk, p);
    var d := linked[p := e];
    assert DiskOk(disk) && (e.DiskFile? || e.names == []) ==> DiskOk(d) by {
      if DiskOk(disk) && (e.DiskFile? || e.names == []) {
        forall q | q in d && d[q].DiskDir? ensures Distinct(d[q].names) && forall n :: n in d[q].names ==> Child(q, n) in d {
          if q != p && q != Parent(p) {
            assert d[q] == disk[q];
          }
        }
      }
    }
    d
  }

  /** `os.unlink`: the entry goes, and so does its name in the parent's listing. */
  function Unlink<D>(disk: map<Path, OnDisk<D>>, p: Path): (d: map<Path, OnDisk<D>>)
    requires |p| > 0
    ensures d.Keys == disk.Keys - {p}
    ensures forall q :: q in d && q != Parent(p) ==> d[q] == disk[q]
    ensures Parent(p) in d && d[Parent(p)].DiskDir? ==> Name(p) !in d[Parent(p)].names
    ensures DiskOk(disk) ==> DiskOk(d)
  {
    var gone := disk - {p};
    if Parent(p) in gone && gone[Parent(p)].DiskDir? then
      var names := gone[Parent(p)].names;
      var d := gone[Parent(p) := DiskDir(Without(names, Name(p)))];
      assert DiskOk(disk) ==> DiskOk(d) by {
        if DiskOk(disk) {
          forall q | q in d && d[q].DiskDir? ensures Distinct(d[q].names) && forall n :: n in d[q].names ==> Child(q, n) in d {
            if q == Parent(p) {
              WithoutDistinct(names, Name(p));
              forall n | n in d[q].names ensures Child(q, n) in d {
                assert n != Name(p);
              }
            } else {
              forall n | n in d[q].names ensures Child(q, n) in d {
                assert Parent(Child(q, n)) == q;
              }
            }
          }
        }
      }
      d
    else
      assert DiskOk(disk) ==> DiskOk(gone) by {
        if DiskOk(disk) {
          forall q | q in gone && gone[q].DiskDir? ensures forall n :: n in gone[q].names ==> Child(q, n) in gone {
            forall n | n in gone[q].names ensures Child(q, n) in gone {
              assert Parent(Child(q, n)) == q;
            }
          }
        }
      }
      gone
  }

  /** `os.makedirs`: the missing directories down to `q`; OSError when `q` exists or a step is a file. */
  function MakeDirs<D>(disk: map<Path, OnDisk<D>>, q: Path): (r: Outcome<map<Path, OnDisk<D>>>)
    ensures r.Ok? ==> q in r.value && r.value[q] == DiskDir([]) && disk.Keys <= r.value.Keys
    ensures r.Ok? ==> forall x :: x in disk && !Extends(q, x) ==> r.value[x] == disk[x]
    ensures r.Ok? && DiskOk(disk) ==> DiskOk(r.value)
    ensures q in disk ==> r == Raise(OSError)
    decreases |q|
  {
    if q in disk then Raise(OSError)
    else if |q| == 0 then Ok(disk[q := DiskDir([])])
    else
      var up := if Parent(q) !in disk then MakeDirs(disk, Parent(q))
                else if disk[Parent(q)].DiskDir? then Ok(disk) else Raise(OSError);
      if up.Raise? then Raise(up.error)
      else
        assert forall x :: Extends(Parent(q), x) ==> Extends(q, x);
        Ok(Store(up.value, q, DiskDir([])))
  }

  /** `os.mkdir` of a single directory. */
  function Mkdir<D>(disk: map<Path, OnDisk<D>>, q: Path): (r: Outcome<map<Path, OnDisk<D>>>)
    requires |q| > 0
    ensures r.Ok? <==> q !in disk && Parent(q) in disk && disk[Parent(q)].DiskDir?
    ensures r.Raise? ==> r.error == OSError
    ensures r.Ok? ==> r.value == Store(disk, q, DiskDir([]))
  {
    if q in disk || Parent(q) !in disk || !disk[Parent(q)].DiskDir? then Raise(OSError)
    else Ok(Store(disk, q, DiskDir([])))
  }

  // ---------------------------------------------------------------------------
  // read and write (lines 153-190)

  /**
   * Lines 153-171: a node without a file type raises TypeError; otherwise
   * the file is decoded again when its modification time is later than the
   * cached one (or nothing is cached), and the cached contents are returned.
   */
  function Read<D>(s: St<D>, p: Path): (r: (Outcome<Option<D>>, St<D>))
    requires p in s.nodes
    ensures p in r.1.nodes && r.1.disk == s.disk && Steps(s, r.1, p)
    ensures !s.nodes[p].typed ==> r == (Raise(TypeError), s)
  {
    var nd := s.nodes[p];
    if !nd.typed then (Raise(TypeError), s)
    else if p !in s.disk || s.disk[p].DiskDir? then (Raise(OSError), s)
    else
      var f := s.disk[p];
      if nd.update.None? || nd.update.value < f.mtime then
        (Ok(f.data), s.(nodes := s.nodes[p := nd.(update := Some(f.mtime), data := f.data)]))
      else
        (Ok(nd.data), s)
  }

  /**
   * Lines 174-190: a node without a file type raises TypeError; otherwise
   * the data is written (the file's time becomes `now`) and cached with
   * that time.  Writing fails with OSError where the system would refuse:
   * no directory to hold the file, or a directory in its place.
   */
  function Write<D>(s: St<D>, p: Path, data: D, now: real): (r: (Outcome<()>, St<D>))
    requires p in s.nodes
    ensures p in r.1.nodes && Steps(s, r.1, p)
    ensures !s.nodes[p].typed ==> r == (Raise(TypeError), s)
    ensures r.0.Raise? ==> r.1 == s
    ensures DiskOk(s.disk) ==> DiskOk(r.1.disk)
  {
    var nd := s.nodes[p];
    if !nd.typed then (Raise(TypeError), s)
    else if |p| == 0 || Parent(p) !in s.disk || !s.disk[Parent(p)].DiskDir? || (p in s.disk && s.disk[p].DiskDir?) then
      (Raise(OSError), s)
    else
      (Ok(()), s.(disk := Store(s.disk, p, DiskFile(now, Some(data))),
                  nodes := s.nodes[p := nd.(update := Some(now), data := Some(data))]))
  }

  // ---------------------------------------------------------------------------
  // new, clone, create, remove (lines 209-289)

  /** `self.contents[name] = Node(self.owner, self, name)` for a name not yet there. */
  function AddChild<D>(s: St<D>, p: Path, n: string): (t: St<D>)
    requires p in s.nodes
    ensures p in t.nodes && Child(p, n) in t.nodes && t.nodes[Child(p, n)] == Fresh(n, s.types)
    ensures t.nodes[p] == s.nodes[p].(children := s.nodes[p].children + [n])
    ensures t.disk == s.disk && Steps(s, t, p)
  {
    var nd := s.nodes[p];
    var t := s.(nodes := s.nodes[Child(p, n) := Fresh(n, s.types)][p := nd.(children := nd.children + [n])]);
    assert Closed(s.nodes) ==> Closed(t.nodes) by {
      if Closed(s.nodes) {
        forall x, m | x in t.nodes && t.nodes[x].kind == Directory && m in t.nodes[x].children ensures Child(x, m) in t.nodes {
          if x != p && x != Child(p, n) {
            assert t.nodes[x] == s.nodes[x];
          }
        }
      }
    }
    assert forall q :: Extends(q, Child(p, n)) ==> Extends(q, p) by {
      forall q | Extends(q, Child(p, n)) ensures Extends(q, p) {
        ChildExtends(p, n, q);
      }
    }
    t
  }

  /** The result of a write, as the path written. */
  function Written<D>(w: (Outcome<()>, St<D>), q: Path): (Outcome<Path>, St<D>) {
    (if w.0.Raise? then Raise(w.0.error) else Ok(q), w.1)
  }

  /**
   * Lines 209-236: only a directory can hold a new node (TypeError).
   * Without data the child is returned if present, else recorded and made
   * as a directory; with data an existing child that is not a file raises
   * TypeError, and otherwise the data is written to the child.
   */
  function New<D>(s: St<D>, p: Path, name: string, data: Option<D>, now: real): (r: (Outcome<Path>, St<D>))
    requires p in s.nodes && Closed(s.nodes)
    ensures Closed(r.1.nodes) && Steps(s, r.1, p)
    ensures r.0.Ok? ==> r.0.value == Child(p, name) && Child(p, name) in r.1.nodes
  {
    var (k, s1) := Isa(s, p, now);
    var q := Child(p, name);
    if k.Raise? then (Raise(k.error), s1)
    else if k.value != Directory then (Raise(TypeError), s1)
    else if data.None? then
      if name in s1.nodes[p].children then (Ok(q), s1)
      else
        var s2 := AddChild(s1, p, name);
        match MakeDirs(s2.disk, q)
        case Raise(e) => (Raise(e), s2)
        case Ok(d) => (Ok(q), s2.(disk := d))
    else if name in s1.nodes[p].children then
      var (kq, s2) := Isa(s1, q, now);
      ChildSteps(s1, s2, p, name);
      if kq.Raise? then (Raise(kq.error), s2)
      else if kq.value != File then (Raise(TypeError), s2)
      else
        ChildSteps(s2, Write(s2, q, data.value, now).1, p, name);
        Written(Write(s2, q, data.value, now), q)
    else
      var s2 := AddChild(s1, p, name);
      ChildSteps(s2, Write(s2, q, data.value, now).1, p, name);
      Written(Write(s2, q, data.value, now), q)
  }

  /** A step below a child is a step below its parent. */
  lemma ChildSteps<D>(s: St<D>, t: St<D>, p: Path, n: string)
    requires Steps(s, t, Child(p, n))
    ensures Steps(s, t, p)
  {
    forall q | Extends(q, Child(p, n)) ensures Extends(q, p) {
      ChildExtends(p, n, q);
    }
  }

  /** A file node's cached contents are forgotten. */
  function Forget<D>(s: St<D>, q: Path): (t: St<D>)
    requires q in s.nodes && s.nodes[q].kind == File
    ensures t.nodes.Keys == s.nodes.Keys && t.disk == s.disk && Steps(s, t, q)
    ensures t.nodes[q] == s.nodes[q].(update := None, data := None)
  {
    var t := s.(nodes := s.nodes[q := s.nodes[q].(update := None, data := None)]);
    assert Extends(q, q);
    assert Closed(s.nodes) ==> Closed(t.nodes) by {
      if Closed(s.nodes) {
        forall x, m | x in t.nodes && t.nodes[x].kind == Directory && m in t.nodes[x].children ensures Child(x, m) in t.nodes {
          assert x != q && t.nodes[x] == s.nodes[x];
        }
      }
    }
    t
  }

  /**
   * Lines 240-249: the node `name` of the directory `p` that will hold the
   * copy; an existing one must be a file and forgets its contents, a new
   * one is added to the listing.
   */
  function CloneTarget<D>(s: St<D>, p: Path, name: string, now: real): (r: (Outcome<()>, St<D>))
    requires p in s.nodes && Closed(s.nodes) && s.nodes[p].kind == Directory
    ensures Closed(r.1.nodes) && Steps(s, r.1, p) && r.1.disk == s.disk
    ensures r.0.Ok? ==> Child(p, name) in r.1.nodes
  {
    var q := Child(p, name);
    if name in s.nodes[p].children then
      var (kq, s2) := Isa(s, q, now);
      ChildSteps(s, s2, p, name);
      if kq.Raise? then (Raise(kq.error), s2)
      else if kq.value != File then (Raise(TypeError), s2)
      else
        var s3 := Forget(s2, q);
        ChildSteps(s2, s3, p, name);
        (Ok(()), s3)
    else
      (Ok(()), AddChild(s, p, name))
  }

  /**
   * Lines 239-258: only a directory can hold the copy (TypeError); an
   * existing child must be a file (TypeError) and forgets its cached
   * contents.  The copy keeps the source's modification time; the system
   * refuses to copy a directory, a missing file or a file onto itself.
   */
  function Clone<D>(s: St<D>, p: Path, name: string, source: Path, now: real): (r: (Outcome<Path>, St<D>))
    requires p in s.nodes && Closed(s.nodes)
    ensures Closed(r.1.nodes) && Steps(s, r.1, p)
    ensures r.0.Ok? ==> r.0.value == Child(p, name) && Child(p, name) in r.1.nodes
  {
    var (k, s1) := Isa(s, p, now);
    var q := Child(p, name);
    if k.Raise? then (Raise(k.error), s1)
    else if k.value != Directory then (Raise(TypeError), s1)
    else
      var step := CloneTarget(s1, p, name, now);
      var s2 := step.1;
      if step.0.Raise? then (Raise(step.0.error), s2)
      else if source !in s2.disk || s2.disk[source].DiskDir? || source == q
              || Parent(q) !in s2.disk || !s2.disk[Parent(q)].DiskDir? || (q in s2.disk && s2.disk[q].DiskDir?) then
        (Raise(OSError), s2)
      else
        (Ok(q), s2.(disk := Store(s2.disk, q, s2.disk[source])))
  }

  /**
   * Lines 261-278 with the deleted-node branch either as written (`repaired`
   * false: the name `ret` is not defined there, a NameError) or as intended
   * (`repaired` true: the node's directory is made and the node becomes an
   * empty directory).  A node that is a file raises TypeError; each missing
   * step is made with `os.mkdir` and recorded, and the walk goes on below it.
   */
  function Create<D>(s: St<D>, p: Path, key: Path, now: real, repaired: bool): (r: (Outcome<Path>, St<D>))
    requires p in s.nodes && Closed(s.nodes)
    ensures Closed(r.1.nodes) && Steps(s, r.1, p)
    ensures r.0.Ok? ==> r.0.value == p + key && p + key in r.1.nodes
    decreases |key|, 1
  {
    var (k, s1) := Isa(s, p, now);
    if k.Raise? then (Raise(k.error), s1)
    else if k.value == Deleted then
      if !repaired then (Raise(NameError), s1)
      else match MakeDirs(s1.disk, p)
        case Raise(e) => (Raise(e), s1)
        case Ok(d) =>
          var s2 := s1.(disk := d, nodes := s1.nodes[p := s1.nodes[p].(kind := Directory, update := Some(now), children := [], ext := NoExt)]);
          CreateRest(s2, p, key, now, repaired)
    else if k.value != Directory then (Raise(TypeError), s1)
    else CreateRest(s1, p, key, now, repaired)
  }

  /** Lines 272-278: the walk from a directory node. */
  function CreateRest<D>(s: St<D>, p: Path, key: Path, now: real, repaired: bool): (r: (Outcome<Path>, St<D>))
    requires p in s.nodes && s.nodes[p].kind == Directory && Closed(s.nodes)
    ensures Closed(r.1.nodes) && Steps(s, r.1, p)
    ensures r.0.Ok? ==> r.0.value == p + key && p + key in r.1.nodes
    decreases |key|, 0
  {
    if |key| == 0 then
      assert p + key == p;
      (Ok(p), s)
    else
      var n := key[0];
      var q := Child(p, n);
      assert q + key[1..] == p + key;
      if n in s.nodes[p].children then
        var r := Create(s, q, key[1..], now, repaired);
        ChildSteps(s, r.1, p, n);
        r
      else
        match Mkdir(s.disk, q)
        case Raise(e) => (Raise(e), s)
        case Ok(d) =>
          var s2 := AddChild(s, p, n).(disk := d);
          var r := Create(s2, q, key[1..], now, repaired);
          ChildSteps(s2, r.1, p, n);
          r
  }

  /**
   * Lines 281-289: only a file can be removed (TypeError).  The file goes
   * from the disk, the node becomes deleted and its name leaves the
   * parent's children; the root has no parent (AttributeError).
   */
  function Remove<D>(s: St<D>, p: Path, now: real): (r: (Outcome<()>, St<D>))
    requires p in s.nodes
    ensures p in r.1.nodes && s.nodes.Keys <= r.1.nodes.Keys
    ensures r.1.types == s.types && r.1.cacheTime == s.cacheTime
    ensures Closed(s.nodes) ==> Closed(r.1.nodes)
  {
    var (k, s1) := Isa(s, p, now);
    if k.Raise? then (Raise(k.error), s1)
    else if k.value != File then (Raise(TypeError), s1)
    else if p !in s1.disk || s1.disk[p].DiskDir? then (Raise(OSError), s1)
    else
      var s2 := s1.(disk := if |p| == 0 then s1.disk - {p} else Unlink(s1.disk, p),
                    nodes := s1.nodes[p := s1.nodes[p].(kind := Deleted)]);
      if |p| == 0 then (Raise(AttributeError), s2)
      else if Parent(p) !in s2.nodes || Name(p) !in s2.nodes[Parent(p)].children then (Raise(KeyError), s2)
      else
        var up := s2.nodes[Parent(p)];
        var s3 := s2.(nodes := s2.nodes[Parent(p) := up.(children := Without(up.children, Name(p)))]);
        assert Closed(s.nodes) ==> Closed(s3.nodes) by {
          if Closed(s.nodes) {
            forall x, m | x in s3.nodes && s3.nodes[x].kind == Directory && m in s3.nodes[x].children ensures Child(x, m) in s3.nodes {
              if x != p && x != Parent(p) {
                assert s3.nodes[x] == s1.nodes[x];
              }
            }
          }
        }
        (Ok(()), s3)
  }

  /** Lines 376-380: a non-directory contains nothing. */
  function Contains<D>(s: St<D>, p: Path, key: string, now: real): (r: (Outcome<bool>, St<D>))
    requires p in s.nodes
    ensures p in r.1.nodes && r.1.disk == s.disk && Steps(s, r.1, p)
    ensures r.0.Ok? ==> (r.0.value <==> r.1.nodes[p].kind == Directory && key in r.1.nodes[p].children)
  {
    var (k, s1) := Isa(s, p, now);
    if k.Raise? then (Raise(k.error), s1)
    else if k.value != Directory then (Ok(false), s1)
    else (Ok(key in s1.nodes[p].children), s1)
  }

  /** Lines 383-386: KeyError for a non-directory or a missing name. */
  function GetItem<D>(s: St<D>, p: Path, key: string, now: real): (r: (Outcome<Path>, St<D>))
    requires p in s.nodes && Closed(s.nodes)
    ensures p in r.1.nodes && r.1.disk == s.disk && Steps(s, r.1, p)
    ensures r.0.Ok? <==> (Isa(s, p, now).0.Ok? && r.1.nodes[p].kind == Directory && key in r.1.nodes[p].children)
    ensures r.0.Ok? ==> r.0.value == Child(p, key) && Child(p, key) in r.1.nodes
    ensures r.0.Raise? && Isa(s, p, now).0.Ok? ==> r.0.error == KeyError
  {
    var (k, s1) := Isa(s, p, now);
    if k.Raise? then (Raise(k.error), s1)
    else if k.value != Directory || key !in s1.nodes[p].children then (Raise(KeyError), s1)
    else (Ok(Child(p, key)), s1)
  }

  /** Lines 437-448: walk the key from `targ`; False at the first missing name. */
  function DbContains<D>(s: St<D>, targ: Path, key: Path, now: real): (r: (Outcome<bool>, St<D>))
    requires targ in s.nodes && Closed(s.nodes)
    ensures Closed(r.1.nodes) && r.1.disk == s.disk && s.nodes.Keys <= r.1.nodes.Keys
    decreases |key|
  {
    if |key| == 0 then (Ok(true), s)
    else
      var (k, s1) := Isa(s, targ, now);
      if k.Raise? then (Raise(k.error), s1)
      else
        var (c, s2) := Contains(s1, targ, key[0], now);
        if c.Raise? then (Raise(c.error), s2)
        else if !c.value then (Ok(false), s2)
        else
          var (g, s3) := GetItem(s2, targ, key[0], now);
          if g.Raise? then (Raise(g.error), s3)
          else DbContains(s3, g.value, key[1..], now)
  }

  /** Lines 451-461: walk the key from `targ`; KeyError at the first missing name. */
  function DbGetItem<D>(s: St<D>, targ: Path, key: Path, now: real): (r: (Outcome<Path>, St<D>))
    requires targ in s.nodes && Closed(s.nodes)
    ensures Closed(r.1.nodes) && r.1.disk == s.disk && s.nodes.Keys <= r.1.nodes.Keys
    ensures r.0.Ok? ==> r.0.value == targ + key && targ + key in r.1.nodes
    decreases |key|
  {
    if |key| == 0 then
      assert targ + key == targ;
      (Ok(targ), s)
    else
      var (k, s1) := Isa(s, targ, now);
      if k.Raise? then (Raise(k.error), s1)
      else
        var (g, s2) := GetItem(s1, targ, key[0], now);
        assert Child(targ, key[0]) + key[1..] == targ + key;
        if g.Raise? then (Raise(g.error), s2)
        else DbGetItem(s2, g.value, key[1..], now)
  }

  // ---------------------------------------------------------------------------
  // Walks over the tree (lines 292-373)

  /** Every path of `ys` lies at or below `p`, strictly below when `strict`, and has a record in `nodes`. */
  ghost predicate Found<D>(ys: seq<Path>, p: Path, strict: bool, nodes: map<Path, Node<D>>) {
    forall k :: 0 <= k < |ys| ==> Extends(ys[k], p) && (strict ==> ys[k] != p) && ys[k] in nodes
  }

  /**
   * Lines 292-307: a deleted node yields nothing; any other node yields its
   * own path, and a directory then yields each child's walk in turn.
   */
  function Iterate<D>(s: St<D>, p: Path, now: real): (r: (Outcome<seq<Path>>, St<D>))
    requires Inv(s) && p in s.nodes
    ensures Inv(r.1) && Tree(r.1) == Tree(s) && r.1.disk == s.disk && Steps(s, r.1, p)
    ensures r.0.Ok? ==> Found(r.0.value, p, false, r.1.nodes)
    ensures r.0.Ok? ==> (r.0.value == [] <==> r.1.nodes[p].kind == Deleted)
    ensures r.0.Ok? && r.0.value != [] ==> r.0.value[0] == p
    decreases Under(Tree(s), p), 0
  {
    var (k, s1) := Isa(s, p, now);
    if k.Raise? then (Raise(k.error), s1)
    else if k.value == Deleted then (Ok([]), s1)
    else if k.value == File then
      assert Extends(p, p);
      (Ok([p]), s1)
    else
      BelowChild(Tree(s), p, "");
      var (rest, s2) := IterChildren(s1, p, s1.nodes[p].children, now);
      if rest.Raise? then (Raise(rest.error), s2)
      else
        assert Extends(p, p);
        (Ok([p] + rest.value), s2)
  }

  /** Lines 305-307: the children's walks, one after another. */
  function IterChildren<D>(s: St<D>, p: Path, names: seq<string>, now: real): (r: (Outcome<seq<Path>>, St<D>))
    requires Inv(s) && forall n :: n in names ==> Child(p, n) in s.nodes
    ensures Inv(r.1) && Tree(r.1) == Tree(s) && r.1.disk == s.disk && Steps(s, r.1, p)
    ensures r.0.Ok? ==> Found(r.0.value, p, true, r.1.nodes)
    ensures p in s.nodes ==> r.1.nodes[p] == s.nodes[p]
    decreases Beneath(Tree(s), p), |names| + 1
  {
    if |names| == 0 then (Ok([]), s)
    else
      var q := Child(p, names[0]);
      BelowChild(Tree(s), p, names[0]);
      var (head, s1) := Iterate(s, q, now);
      ChildSteps(s, s1, p, names[0]);
      if head.Raise? then (Raise(head.error), s1)
      else
        assert forall n :: n in names[1..] ==> n in names;
        var (rest, s2) := IterChildren(s1, p, names[1..], now);
        if rest.Raise? then (Raise(rest.error), s2)
        else
          Join(p, names[0], head.value, rest.value, s1.nodes, s2.nodes, None, false);
          (Ok(head.value + rest.value), s2)
  }

  /** Lines 333-347: a deleted node counts 0, a file 1, a directory 1 and its children's counts. */
  function Count<D>(s: St<D>, p: Path, now: real): (r: (Outcome<nat>, St<D>))
    requires Inv(s) && p in s.nodes
    ensures Inv(r.1) && Tree(r.1) == Tree(s) && r.1.disk == s.disk && Steps(s, r.1, p)
    decreases Under(Tree(s), p), 0
  {
    var (k, s1) := Isa(s, p, now);
    if k.Raise? then (Raise(k.error), s1)
    else if k.value == Deleted then (Ok(0), s1)
    else if k.value == File then (Ok(1), s1)
    else
      BelowChild(Tree(s), p, "");
      var (rest, s2) := CountChildren(s1, p, s1.nodes[p].children, now);
      if rest.Raise? then (Raise(rest.error), s2) else (Ok(1 + rest.value), s2)
  }

  function CountChildren<D>(s: St<D>, p: Path, names: seq<string>, now: real): (r: (Outcome<nat>, St<D>))
    requires Inv(s) && forall n :: n in names ==> Child(p, n) in s.nodes
    ensures Inv(r.1) && Tree(r.1) == Tree(s) && r.1.disk == s.disk && Steps(s, r.1, p)
    ensures p in s.nodes ==> r.1.nodes[p] == s.nodes[p]
    decreases Beneath(Tree(s), p), |names| + 1
  {
    if |names| == 0 then (Ok(0), s)
    else
      BelowChild(Tree(s), p, names[0]);
      var head := Count(s, Child(p, names[0]), now);
      ChildSteps(s, head.1, p, names[0]);
      if head.0.Raise? then head
      else
        assert forall n :: n in names[1..] ==> n in names;
        var rest := CountChildren(head.1, p, names[1..], now);
        if rest.0.Raise? then rest else (Ok(head.0.value + rest.0.value), rest.1)
  }

  /** The same outcome of a count and of a walk: both fail alike or both succeed. */
  predicate Tallies(c: Outcome<nat>, w: Outcome<seq<Path>>) {
    match c
    case Ok(n) => w.Ok? && n == |w.value|
    case Raise(e) => w == Raise(e)
  }

  /** `count()` is the number of paths `iterate()` yields, and leaves the cache as the walk does. */
  lemma {:induction false} CountIterate<D>(s: St<D>, p: Path, now: real)
    requires Inv(s) && p in s.nodes
    ensures Count(s, p, now).1 == Iterate(s, p, now).1
    ensures Tallies(Count(s, p, now).0, Iterate(s, p, now).0)
    decreases Under(Tree(s), p), 0
  {
    var (k, s1) := Isa(s, p, now);
    if k.Ok? && k.value == Directory {
      BelowChild(Tree(s), p, "");
      CountIterateChildren(s1, p, s1.nodes[p].children, now);
    }
  }

  lemma {:induction false} CountIterateChildren<D>(s: St<D>, p: Path, names: seq<string>, now: real)
    requires Inv(s) && forall n :: n in names ==> Child(p, n) in s.nodes
    ensures CountChildren(s, p, names, now).1 == IterChildren(s, p, names, now).1
    ensures Tallies(CountChildren(s, p, names, now).0, IterChildren(s, p, names, now).0)
    decreases Beneath(Tree(s), p), |names| + 1
  {
    if |names| > 0 {
      var q := Child(p, names[0]);
      BelowChild(Tree(s), p, names[0]);
      CountIterate(s, q, now);
      var (head, s1) := Iterate(s, q, now);
      if head.Ok? {
        assert forall n :: n in names[1..] ==> n in names;
        CountIterateChildren(s1, p, names[1..], now);
      }
    }
  }

  /**
   * Depth first, a directory before what it holds: each path of `ys` other
   * than `p` has its parent either at `p` or earlier in `ys`.
   */
  ghost predicate PreOrder(ys: seq<Path>, p: Path) {
    forall k :: 0 <= k < |ys| && ys[k] != p ==>
      |ys[k]| > 0 && (Parent(ys[k]) == p || exists j :: 0 <= j < k && ys[j] == Parent(ys[k]))
  }

  /** Lines 292-307: `iterate()` yields each directory before anything below it. */
  lemma {:induction false} IteratePreOrder<D>(s: St<D>, p: Path, now: real)
    requires Inv(s) && p in s.nodes
    ensures Iterate(s, p, now).0.Ok? ==> PreOrder(Iterate(s, p, now).0.value, p)
    decreases Under(Tree(s), p), 0
  {
    var (k, s1) := Isa(s, p, now);
    if k.Ok? && k.value != Deleted && k.value != File {
      BelowChild(Tree(s), p, "");
      IterChildrenPreOrder(s1, p, s1.nodes[p].children, now);
      var rest := IterChildren(s1, p, s1.nodes[p].children, now).0;
      if rest.Ok? {
        ConsPreOrder(p, rest.value);
      }
    }
  }

  /** The directory itself, then a walk below it. */
  lemma ConsPreOrder(p: Path, rest: seq<Path>)
    requires PreOrder(rest, p)
    ensures PreOrder([p] + rest, p)
  {
    var ys := [p] + rest;
    forall k | 0 <= k < |ys| && ys[k] != p
      ensures |ys[k]| > 0 && (Parent(ys[k]) == p || exists j :: 0 <= j < k && ys[j] == Parent(ys[k]))
    {
      assert ys[k] == rest[k - 1];
      if Parent(ys[k]) != p {
        var j :| 0 <= j < k - 1 && rest[j] == Parent(ys[k]);
        assert ys[j + 1] == rest[j];
      }
    }
  }

  /** Lines 305-307: the children's walks, one after another, keep that order below the directory. */
  lemma {:induction false} IterChildrenPreOrder<D>(s: St<D>, p: Path, names: seq<string>, now: real)
    requires Inv(s) && forall n :: n in names ==> Child(p, n) in s.nodes
    ensures IterChildren(s, p, names, now).0.Ok? ==> PreOrder(IterChildren(s, p, names, now).0.value, p)
    decreases Beneath(Tree(s), p), |names| + 1
  {
    if |names| > 0 {
      var q := Child(p, names[0]);
      BelowChild(Tree(s), p, names[0]);
      IteratePreOrder(s, q, now);
      var (head, s1) := Iterate(s, q, now);
      if head.Ok? {
        assert forall n :: n in names[1..] ==> n in names;
        IterChildrenPreOrder(s1, p, names[1..], now);
        var rest := IterChildren(s1, p, names[1..], now).0;
        if rest.Ok? {
          JoinPreOrder(p, names[0], head.value, rest.value, s1.nodes);
        }
      }
    }
  }

  /** The walk of the child `n`, which starts at the child, followed by a walk below `p`. */
  lemma JoinPreOrder<D>(p: Path, n: string, head: seq<Path>, rest: seq<Path>, m: map<Path, Node<D>>)
    requires Found(head, Child(p, n), false, m) && PreOrder(head, Child(p, n))
    requires head != [] ==> head[0] == Child(p, n)
    requires PreOrder(rest, p)
    ensures PreOrder(head + rest, p)
  {
    var ys := head + rest;
    var q := Child(p, n);
    forall k | 0 <= k < |ys| && ys[k] != p
      ensures |ys[k]| > 0 && (Parent(ys[k]) == p || exists j :: 0 <= j < k && ys[j] == Parent(ys[k]))
    {
      if k < |head| {
        assert ys[k] == head[k];
        ChildExtends(p, n, head[k]);
        if head[k] == q {
          assert Parent(q) == p;
        } else if Parent(head[k]) == q {
          assert ys[0] == q;
        } else {
          var j :| 0 <= j < k && head[j] == Parent(head[k]);
          assert ys[j] == head[j];
        }
      } else {
        assert ys[k] == rest[k - |head|];
        if Parent(ys[k]) != p {
          var j :| 0 <= j < k - |head| && rest[j] == Parent(ys[k]);
          assert ys[j + |head|] == rest[j];
        }
      }
    }
  }

  /**
   * Lines 292-307: a successful walk of a directory yields every child the
   * directory lists afterwards, unless that child turned out deleted.
   */
  lemma {:induction false} IterateComplete<D>(s: St<D>, p: Path, now: real)
    requires Inv(s) && p in s.nodes
    ensures var r := Iterate(s, p, now);
      r.0.Ok? && r.1.nodes[p].kind == Directory ==>
        forall n :: n in r.1.nodes[p].children && r.1.nodes[Child(p, n)].kind != Deleted ==> Child(p, n) in r.0.value
  {
    var (k, s1) := Isa(s, p, now);
    if k.Ok? && k.value != Deleted && k.value != File {
      BelowChild(Tree(s), p, "");
      IterChildrenComplete(s1, p, s1.nodes[p].children, now);
    }
  }

  /** Each listed child that is not deleted once the walks are over was walked, and so yielded. */
  lemma {:induction false} IterChildrenComplete<D>(s: St<D>, p: Path, names: seq<string>, now: real)
    requires Inv(s) && forall n :: n in names ==> Child(p, n) in s.nodes
    ensures var r := IterChildren(s, p, names, now);
      r.0.Ok? ==> forall n :: n in names && r.1.nodes[Child(p, n)].kind != Deleted ==> Child(p, n) in r.0.value
    decreases |names|
  {
    if |names| > 0 {
      var q := Child(p, names[0]);
      var (head, s1) := Iterate(s, q, now);
      if head.Ok? {
        assert forall n :: n in names[1..] ==> n in names;
        IterChildrenComplete(s1, p, names[1..], now);
        var (rest, s2) := IterChildren(s1, p, names[1..], now);
        if rest.Ok? {
          if names[0] !in names[1..] {
            forall m | m in names[1..] ensures !Extends(q, Child(p, m)) {
              ChildrenApart(p, names[0], m);
            }
            IterChildrenFrame(s1, p, names[1..], now, q);
          }
          CompleteJoin(p, names, head.value, rest.value, s1.nodes, s2.nodes);
        }
      }
    }
  }

  /** Two children of one directory with different names lie outside each other. */
  lemma ChildrenApart(p: Path, a: string, b: string)
    ensures a != b ==> !Extends(Child(p, a), Child(p, b))
  {
    if Extends(Child(p, a), Child(p, b)) {
      assert Child(p, a)[..|Child(p, b)|] == Child(p, a);
      assert Child(p, a)[|p|] == a && Child(p, b)[|p|] == b;
    }
  }

  /** The first child's walk and the rest's, together, cover every listed child left undeleted. */
  lemma CompleteJoin<D>(p: Path, names: seq<string>, head: seq<Path>, rest: seq<Path>, m1: map<Path, Node<D>>, m2: map<Path, Node<D>>)
    requires |names| > 0 && Child(p, names[0]) in m1 && forall n :: n in names ==> Child(p, n) in m2
    requires (head == [] <==> m1[Child(p, names[0])].kind == Deleted) && (head != [] ==> head[0] == Child(p, names[0]))
    requires forall n :: n in names[1..] && m2[Child(p, n)].kind != Deleted ==> Child(p, n) in rest
    requires names[0] !in names[1..] ==> m2[Child(p, names[0])] == m1[Child(p, names[0])]
    ensures forall n :: n in names && m2[Child(p, n)].kind != Deleted ==> Child(p, n) in head + rest
  {
    forall n | n in names && m2[Child(p, n)].kind != Deleted ensures Child(p, n) in head + rest {
      if n !in names[1..] {
        assert n == names[0];
        assert head[0] == Child(p, n);
      }
    }
  }

  /** The children's walks leave a node outside the children's subtrees as it was. */
  lemma {:induction false} IterChildrenFrame<D>(s: St<D>, p: Path, names: seq<string>, now: real, x: Path)
    requires Inv(s) && forall n :: n in names ==> Child(p, n) in s.nodes
    requires x in s.nodes && forall m :: m in names ==> !Extends(x, Child(p, m))
    ensures IterChildren(s, p, names, now).1.nodes[x] == s.nodes[x]
    decreases |names|
  {
    if |names| > 0 {
      var q := Child(p, names[0]);
      var (head, s1) := Iterate(s, q, now);
      if head.Ok? {
        assert forall n :: n in names[1..] ==> n in names;
        IterChildrenFrame(s1, p, names[1..], now, x);
      }
    }
  }

  // ---------------------------------------------------------------------------
  // Walks by extension (lines 310-373)

  /** Only the `ext` slot of the node at `p` changes. */
  function SetExt<D>(s: St<D>, p: Path, e: ExtCache): (t: St<D>)
    requires p in s.nodes
    ensures t.disk == s.disk && t.nodes.Keys == s.nodes.Keys && Tree(t) == Tree(s) && Steps(s, t, p)
    ensures t.nodes[p] == s.nodes[p].(ext := e)
    ensures forall q :: q in s.nodes && q != p ==> t.nodes[q] == s.nodes[q]
    ensures Inv(s) ==> Inv(t)
  {
    var t := s.(nodes := s.nodes[p := s.nodes[p].(ext := e)]);
    assert Closed(s.nodes) ==> Closed(t.nodes) by {
      if Closed(s.nodes) {
        forall x, n | x in t.nodes && t.nodes[x].kind == Directory && n in t.nodes[x].children ensures Child(x, n) in t.nodes {
          if x != p {
            assert t.nodes[x] == s.nodes[x];
          }
        }
      }
    }
    t
  }

  /**
   * Lines 320-322 and 358-360: a file answers from its `ext` slot, filling
   * it on first use with the test against the extension asked for then.
   * The root has no name (AttributeError).
   */
  function FileExtTest<D>(s: St<D>, p: Path, ext: string): (r: (Outcome<bool>, St<D>))
    requires p in s.nodes
    ensures p in r.1.nodes && r.1.disk == s.disk && Tree(r.1) == Tree(s) && Steps(s, r.1, p)
    ensures Inv(s) ==> Inv(r.1)
    ensures r.1.nodes[p].kind == s.nodes[p].kind && r.1.nodes[p].update == s.nodes[p].update
    ensures r.0.Ok? ==> r.1.nodes[p].ext != NoExt
  {
    var nd := s.nodes[p];
    match nd.ext
    case FileExt(b) => (Ok(b), s)
    case DirExt(m) => (Ok(m != map[]), s)
    case NoExt =>
      if |p| == 0 then (Raise(AttributeError), s)
      else
        var b := EndsWith(Name(p), ext);
        (Ok(b), SetExt(s, p, FileExt(b)))
  }

  /**
   * Lines 350-373: a deleted node holds nothing, a file answers from its
   * `ext` slot, a directory from its table of answers by extension, filled
   * on first use by asking its children in turn until one says yes.
   */
  function ContainsExt<D>(s: St<D>, p: Path, ext: string, now: real): (r: (Outcome<bool>, St<D>))
    requires Inv(s) && p in s.nodes
    ensures Inv(r.1) && Tree(r.1) == Tree(s) && r.1.disk == s.disk && Steps(s, r.1, p)
    ensures r.0.Ok? && r.1.nodes[p].kind != Deleted ==> r.1.nodes[p].ext != NoExt
    ensures r.0.Ok? && r.1.nodes[p].kind == Directory ==>
      r.1.nodes[p].ext.DirExt? && ext in r.1.nodes[p].ext.known && r.1.nodes[p].ext.known[ext] == r.0.value
    ensures r.0.Ok? && s.cacheTime >= 0.0 ==> Settled(r.1.nodes[p], s.cacheTime, now)
    decreases Under(Tree(s), p), 1
  {
    var (k, s1) := Isa(s, p, now);
    if k.Raise? then (Raise(k.error), s1)
    else if k.value == Deleted then (Ok(false), s1)
    else if k.value == File then FileExtTest(s1, p, ext)
    else DirContainsExt(s1, p, ext, now)
  }

  /** Lines 363-373: the directory case. */
  function DirContainsExt<D>(s: St<D>, p: Path, ext: string, now: real): (r: (Outcome<bool>, St<D>))
    requires Inv(s) && p in s.nodes && s.nodes[p].kind == Directory
    ensures Inv(r.1) && Tree(r.1) == Tree(s) && r.1.disk == s.disk && Steps(s, r.1, p)
    ensures p in r.1.nodes && r.1.nodes[p].kind == Directory && r.1.nodes[p].update == s.nodes[p].update
    ensures r.0.Ok? ==> r.1.nodes[p].ext.DirExt? && ext in r.1.nodes[p].ext.known && r.1.nodes[p].ext.known[ext] == r.0.value
    decreases Under(Tree(s), p), 0
  {
    var nd := s.nodes[p];
    if nd.ext.FileExt? then (Raise(TypeError), s)
    else
      var known := if nd.ext.DirExt? then nd.ext.known else map[];
      var s1 := SetExt(s, p, DirExt(known));
      if ext in known then (Ok(known[ext]), s1)
      else
        BelowChild(Tree(s), p, "");
        var (v, s2) := AnyExt(s1, p, nd.children, ext, now);
        if v.Raise? then (Raise(v.error), s2)
        else (Ok(v.value), SetExt(s2, p, DirExt(known[ext := v.value])))
  }

  /** Lines 368-370: the children are asked in turn; the first yes ends the search. */
  function AnyExt<D>(s: St<D>, p: Path, names: seq<string>, ext: string, now: real): (r: (Outcome<bool>, St<D>))
    requires Inv(s) && forall n :: n in names ==> Child(p, n) in s.nodes
    ensures Inv(r.1) && Tree(r.1) == Tree(s) && r.1.disk == s.disk && Steps(s, r.1, p)
    ensures p in s.nodes ==> r.1.nodes[p] == s.nodes[p]
    decreases Beneath(Tree(s), p), |names| + 1
  {
    if |names| == 0 then (Ok(false), s)
    else
      BelowChild(Tree(s), p, names[0]);
      var (head, s1) := ContainsExt(s, Child(p, names[0]), ext, now);
      ChildSteps(s, s1, p, names[0]);
      if head.Raise? then (Raise(head.error), s1)
      else if head.value then (Ok(true), s1)
      else
        assert forall n :: n in names[1..] ==> n in names;
        AnyExt(s1, p, names[1..], ext, now)
  }

  /** A file's answer, once given, is given again. */
  lemma FileExtCached<D>(s: St<D>, p: Path, ext: string)
    requires p in s.nodes
    ensures var r := FileExtTest(s, p, ext);
      r.0.Ok? ==> FileExtTest(r.1, p, ext) == r
  {
    var r := FileExtTest(s, p, ext);
    if r.0.Ok? && s.nodes[p].ext.NoExt? {
      assert r.1.nodes[p := r.1.nodes[p]] == r.1.nodes;
    }
  }

  /** A directory that already holds an answer for `ext` gives it and changes nothing. */
  lemma DirExtCached<D>(t: St<D>, p: Path, ext: string, now: real)
    requires Inv(t) && p in t.nodes && t.nodes[p].kind == Directory
    requires t.nodes[p].ext.DirExt? && ext in t.nodes[p].ext.known
    ensures DirContainsExt(t, p, ext, now) == (Ok(t.nodes[p].ext.known[ext]), t)
  {
    assert t.nodes[p := t.nodes[p].(ext := t.nodes[p].ext)] == t.nodes;
  }

  /** Asking again at the same moment gives the cached answer and changes nothing. */
  lemma ContainsExtCached<D>(s: St<D>, p: Path, ext: string, now: real)
    requires Inv(s) && p in s.nodes && s.cacheTime >= 0.0
    ensures var r := ContainsExt(s, p, ext, now);
      r.0.Ok? ==> ContainsExt(r.1, p, ext, now) == r
  {
    var r := ContainsExt(s, p, ext, now);
    var (k, s1) := Isa(s, p, now);
    if r.0.Ok? {
      var t := r.1;
      assert Isa(t, p, now) == (Ok(t.nodes[p].kind), t);
      if k.value == File {
        FileExtCached(s1, p, ext);
      } else if k.value == Directory {
        DirExtCached(t, p, ext, now);
      }
    }
  }

  /** The quirk of lines 320-321 and 358-359: a file keeps the answer for the first extension it was asked about. */
  lemma FileExtSticky<D>(s: St<D>, p: Path, first: string, later: string)
    requires p in s.nodes && s.nodes[p].ext == NoExt && |p| > 0
    ensures FileExtTest(s, p, first).0 == Ok(EndsWith(Name(p), first))
    ensures FileExtTest(FileExtTest(s, p, first).1, p, later).0 == Ok(EndsWith(Name(p), first))
  {
  }

  /**
   * No name strictly below `p` on the path `y` is excluded: at the first
   * level only, or at every level when `deep`.
   */
  predicate Clear(y: Path, p: Path, excluded: string -> bool, deep: bool) {
    forall i :: |p| <= i < |y| && (deep || i == |p|) ==> !excluded(y[i])
  }
  predicate AllClear(ys: seq<Path>, p: Path, exclude: Option<string -> bool>, deep: bool) {
    exclude.Some? ==> forall k :: 0 <= k < |ys| ==> Clear(ys[k], p, exclude.value, deep)
  }


  /**
   * Lines 310-330: a deleted node yields nothing, a file yields its path
   * when its `ext` answer is yes, a directory yields the walks of those
   * children that are not excluded and that contain the extension.  The
   * source passes `exclude` to the children of the node asked but not
   * further down (line 329); `passDown` false models that, true the
   * evidently intended walk that skips excluded names at every level.
   */
  function IterateExt<D>(s: St<D>, p: Path, ext: string, exclude: Option<string -> bool>, passDown: bool, now: real): (r: (Outcome<seq<Path>>, St<D>))
    requires Inv(s) && p in s.nodes
    ensures Inv(r.1) && Tree(r.1) == Tree(s) && r.1.disk == s.disk && Steps(s, r.1, p)
    ensures r.0.Ok? ==> Found(r.0.value, p, false, r.1.nodes)
    ensures r.0.Ok? ==> AllClear(r.0.value, p, exclude, passDown)
    decreases Under(Tree(s), p), 0, 0
  {
    var (k, s1) := Isa(s, p, now);
    if k.Raise? then (Raise(k.error), s1)
    else if k.value == Deleted then (Ok([]), s1)
    else if k.value == File then
      var (b, s2) := FileExtTest(s1, p, ext);
      assert Extends(p, p);
      if b.Raise? then (Raise(b.error), s2)
      else if b.value then (Ok([p]), s2)
      else (Ok([]), s2)
    else
      BelowChild(Tree(s), p, "");
      ExtChildren(s1, p, s1.nodes[p].children, ext, exclude, passDown, now)
  }

  /** Lines 327-330: the children's walks, skipping excluded names and children without the extension. */
  function ExtChildren<D>(s: St<D>, p: Path, names: seq<string>, ext: string, exclude: Option<string -> bool>, passDown: bool, now: real): (r: (Outcome<seq<Path>>, St<D>))
    requires Inv(s) && forall n :: n in names ==> Child(p, n) in s.nodes
    ensures Inv(r.1) && Tree(r.1) == Tree(s) && r.1.disk == s.disk && Steps(s, r.1, p)
    ensures r.0.Ok? ==> Found(r.0.value, p, true, r.1.nodes)
    ensures r.0.Ok? ==> AllClear(r.0.value, p, exclude, passDown)
    decreases Beneath(Tree(s), p), |names| + 1, 2
  {
    if |names| == 0 then (Ok([]), s)
    else if exclude.Some? && exclude.value(names[0]) then
      assert forall m :: m in names[1..] ==> m in names;
      ExtChildren(s, p, names[1..], ext, exclude, passDown, now)
    else
      ExtChild(s, p, names, ext, exclude, passDown, now)
  }

  /** Line 328: the first child, not excluded, is asked whether it holds the extension. */
  function ExtChild<D>(s: St<D>, p: Path, names: seq<string>, ext: string, exclude: Option<string -> bool>, passDown: bool, now: real): (r: (Outcome<seq<Path>>, St<D>))
    requires Inv(s) && |names| > 0 && (exclude.Some? ==> !exclude.value(names[0])) && forall n :: n in names ==> Child(p, n) in s.nodes
    ensures Inv(r.1) && Tree(r.1) == Tree(s) && r.1.disk == s.disk && Steps(s, r.1, p)
    ensures r.0.Ok? ==> Found(r.0.value, p, true, r.1.nodes)
    ensures r.0.Ok? ==> AllClear(r.0.value, p, exclude, passDown)
    decreases Beneath(Tree(s), p), |names| + 1, 1
  {
    var (c, s1) := ContainsExt(s, Child(p, names[0]), ext, now);
    ChildSteps(s, s1, p, names[0]);
    assert forall m :: m in names[1..] ==> m in names;
    if c.Raise? then (Raise(c.error), s1)
    else if !c.value then ExtChildren(s1, p, names[1..], ext, exclude, passDown, now)
    else ExtDescend(s1, p, names, ext, exclude, passDown, now)
  }

  /** Lines 329-330: the walk of that child, then those of the rest. */
  function ExtDescend<D>(s: St<D>, p: Path, names: seq<string>, ext: string, exclude: Option<string -> bool>, passDown: bool, now: real): (r: (Outcome<seq<Path>>, St<D>))
    requires Inv(s) && |names| > 0 && (exclude.Some? ==> !exclude.value(names[0])) && forall n :: n in names ==> Child(p, n) in s.nodes
    ensures Inv(r.1) && Tree(r.1) == Tree(s) && r.1.disk == s.disk && Steps(s, r.1, p)
    ensures r.0.Ok? ==> Found(r.0.value, p, true, r.1.nodes)
    ensures r.0.Ok? ==> AllClear(r.0.value, p, exclude, passDown)
    decreases Beneath(Tree(s), p), |names| + 1, 0
  {
    var n := names[0];
    BelowChild(Tree(s), p, n);
    var (head, s1) := IterateExt(s, Child(p, n), ext, if passDown then exclude else None, passDown, now);
    ChildSteps(s, s1, p, n);
    assert forall m :: m in names[1..] ==> m in names;
    if head.Raise? then (Raise(head.error), s1)
    else
      var (rest, s2) := ExtChildren(s1, p, names[1..], ext, exclude, passDown, now);
      if rest.Raise? then (Raise(rest.error), s2)
      else
        Join(p, n, head.value, rest.value, s1.nodes, s2.nodes, exclude, passDown);
        (Ok(head.value + rest.value), s2)
  }

  /**
   * The walk of the child `n`, not excluded, followed by the walks of the
   * later children: all of it lies strictly below `p`.
   */
  lemma Join<D>(p: Path, n: string, head: seq<Path>, rest: seq<Path>, m1: map<Path, Node<D>>, m2: map<Path, Node<D>>,
                exclude: Option<string -> bool>, passDown: bool)
    requires Found(head, Child(p, n), false, m1) && m1.Keys <= m2.Keys && Found(rest, p, true, m2)
    requires exclude.Some? ==> !exclude.value(n)
    requires passDown ==> AllClear(head, Child(p, n), exclude, passDown)
    requires AllClear(rest, p, exclude, passDown)
    ensures Found(head + rest, p, true, m2) && AllClear(head + rest, p, exclude, passDown)
  {
    forall k | 0 <= k < |head| ensures Extends(head[k], p) && head[k] != p {
      ChildExtends(p, n, head[k]);
    }
    if exclude.Some? {
      forall k | 0 <= k < |head| ensures Clear(head[k], p, exclude.value, passDown) {
        var y := head[k];
        assert y[|p|] == n by { assert y[..|p| + 1] == Child(p, n); assert y[..|p| + 1][|p|] == y[|p|]; }
      }
    }
    var all := head + rest;
    forall k | 0 <= k < |all| ensures Extends(all[k], p) && all[k] != p && all[k] in m2 {
      if k >= |head| {
        assert all[k] == rest[k - |head|];
      }
    }
    if exclude.Some? {
      forall k | 0 <= k < |all| ensures Clear(all[k], p, exclude.value, passDown) {
        if k >= |head| {
          assert all[k] == rest[k - |head|];
        }
      }
    }
  }

  // ---------------------------------------------------------------------------
  // The exclusion that is not passed down (line 329)

  /** A settled tree: the root holds the directory `a`, which holds the file `x.txt`. */
  function Sample(): (s: St<()>)
    ensures Inv(s)
  {
    var dir: Node<()> := Node(Directory, false, Some(0.0), ["a"], None, NoExt);
    var sub: Node<()> := Node(Directory, false, Some(0.0), ["x.txt"], None, NoExt);
    var file: Node<()> := Node(File, false, None, [], None, NoExt);
    var s := St([], 30.0, map[[] := dir, ["a"] := sub, ["a", "x.txt"] := file],
                map[[] := DiskDir(["a"]), ["a"] := DiskDir(["x.txt"]), ["a", "x.txt"] := DiskFile(0.0, None)]);
    assert Child([], "a") == ["a"] && Child(["a"], "x.txt") == ["a", "x.txt"];
    assert Closed(s.nodes) by {
      forall q, n | q in s.nodes && s.nodes[q].kind == Directory && n in s.nodes[q].children ensures Child(q, n) in s.nodes {
        assert q == [] || q == ["a"];
      }
    }
    assert DiskOk(s.disk) by {
      forall q | q in s.disk && s.disk[q].DiskDir? ensures Distinct(s.disk[q].names) && forall n :: n in s.disk[q].names ==> Child(q, n) in s.disk {
        assert q == [] || q == ["a"];
      }
    }
    s
  }

  /** A file named `x.txt`, not yet asked, holds a `.txt` file: itself. */
  lemma TextFile<D>(s: St<D>, x: Path)
    requires Inv(s) && x in s.nodes && |x| > 0 && Name(x) == "x.txt"
    requires s.nodes[x].kind == File && s.nodes[x].ext == NoExt
    ensures ContainsExt(s, x, ".txt", 1.0) == (Ok(true), SetExt(s, x, FileExt(true)))
  {
    assert EndsWith("x.txt", ".txt") by { assert "x.txt"[5 - 4..] == ".txt"; }
    assert Isa(s, x, 1.0) == (Ok(File), s);
  }

  /** The walk of a settled directory is the walk of its listed children. */
  lemma DirWalk<D>(s: St<D>, p: Path, ext: string, exclude: Option<string -> bool>, passDown: bool, now: real)
    requires Inv(s) && p in s.nodes && Isa(s, p, now) == (Ok(Directory), s)
    ensures IterateExt(s, p, ext, exclude, passDown, now) == ExtChildren(s, p, s.nodes[p].children, ext, exclude, passDown, now)
  {
  }

  /** Descending into the only child yields exactly that child's walk. */
  lemma OnlyChildDescend<D>(s: St<D>, p: Path, n: string, ext: string, exclude: Option<string -> bool>, passDown: bool, now: real,
                            ys: seq<Path>)
    requires Inv(s) && Child(p, n) in s.nodes && (exclude.Some? ==> !exclude.value(n))
    requires IterateExt(s, Child(p, n), ext, if passDown then exclude else None, passDown, now).0 == Ok(ys)
    ensures ExtDescend(s, p, [n], ext, exclude, passDown, now).0 == Ok(ys)
  {
    var names := [n];
    assert names[0] == n && names[1..] == [];
    var s1 := IterateExt(s, Child(p, n), ext, if passDown then exclude else None, passDown, now).1;
    ChildSteps(s, s1, p, n);
    assert ExtChildren(s1, p, [], ext, exclude, passDown, now) == (Ok([]), s1);
    assert ys + [] == ys;
  }

  /**
   * The walk over a single child that is not excluded and holds the
   * extension yields exactly that child's own walk.
   */
  lemma OnlyChildWalk<D>(s: St<D>, p: Path, n: string, ext: string, exclude: Option<string -> bool>, passDown: bool, now: real,
                         ys: seq<Path>)
    requires Inv(s) && Child(p, n) in s.nodes && (exclude.Some? ==> !exclude.value(n))
    requires ContainsExt(s, Child(p, n), ext, now).0 == Ok(true)
    requires IterateExt(ContainsExt(s, Child(p, n), ext, now).1, Child(p, n), ext, if passDown then exclude else None, passDown, now).0 == Ok(ys)
    ensures ExtChildren(s, p, [n], ext, exclude, passDown, now).0 == Ok(ys)
  {
    var names := [n];
    assert names[0] == n;
    var s1 := ContainsExt(s, Child(p, n), ext, now).1;
    ChildSteps(s, s1, p, n);
    OnlyChildDescend(s1, p, n, ext, exclude, passDown, now, ys);
    assert ExtChild(s, p, names, ext, exclude, passDown, now).0 == Ok(ys);
  }

  /**
   * The first question put to a directory is answered by asking its
   * children, and the answer is then kept under the extension asked.
   */
  lemma DirFirstAsk<D>(s: St<D>, p: Path, ext: string, now: real)
    requires Inv(s) && p in s.nodes && s.nodes[p].kind == Directory && s.nodes[p].ext == NoExt
    ensures var a := AnyExt(SetExt(s, p, DirExt(map[])), p, s.nodes[p].children, ext, now);
      DirContainsExt(s, p, ext, now)
      == if a.0.Raise? then (Raise(a.0.error), a.1) else (Ok(a.0.value), SetExt(a.1, p, DirExt(map[ext := a.0.value])))
  {
    var known: map<string, bool> := map[];
    assert ext !in known && known[ext := true] == map[ext := true] && known[ext := false] == map[ext := false];
  }

  /** The search over the children stops at the first one that says yes. */
  lemma AnyExtFirst<D>(s: St<D>, p: Path, names: seq<string>, ext: string, now: real)
    requires Inv(s) && |names| > 0 && forall n :: n in names ==> Child(p, n) in s.nodes
    requires ContainsExt(s, Child(p, names[0]), ext, now).0 == Ok(true)
    ensures AnyExt(s, p, names, ext, now) == (Ok(true), ContainsExt(s, Child(p, names[0]), ext, now).1)
  {
  }

  /** In the sample, `a` contains a `.txt` file; asking fills the caches of `a` and of `a/x.txt`. */
  lemma SampleHasText() returns (t: St<()>)
    ensures Inv(t) && t.nodes.Keys == Sample().nodes.Keys && t.cacheTime == 30.0
    ensures ContainsExt(Sample(), ["a"], ".txt", 1.0) == (Ok(true), t)
    ensures t.nodes[["a"]].kind == Directory && t.nodes[["a"]].update == Some(0.0) && t.nodes[["a"]].children == ["x.txt"]
    ensures t.nodes[["a", "x.txt"]].kind == File && t.nodes[["a", "x.txt"]].ext == FileExt(true)
  {
    var s := Sample();
    var a: Path := ["a"];
    var x: Path := ["a", "x.txt"];
    assert Child(a, "x.txt") == x;
    assert Isa(s, a, 1.0) == (Ok(Directory), s);
    assert ContainsExt(s, a, ".txt", 1.0) == DirContainsExt(s, a, ".txt", 1.0);
    DirFirstAsk(s, a, ".txt", 1.0);
    var s1 := SetExt(s, a, DirExt(map[]));
    TextFile(s1, x);
    var s2 := SetExt(s1, x, FileExt(true));
    var names := s.nodes[a].children;
    assert names == ["x.txt"] && Child(a, names[0]) == x;
    AnyExtFirst(s1, a, names, ".txt", 1.0);
    t := SetExt(s2, a, DirExt(map[".txt" := true]));
  }

  /** Walking `a` with no exclusion yields its one `.txt` file. */
  lemma SampleWalkA(t: St<()>)
    requires Inv(t) && ["a"] in t.nodes && ["a", "x.txt"] in t.nodes
    requires t.nodes[["a"]].kind == Directory && t.nodes[["a"]].update == Some(0.0) && t.nodes[["a"]].children == ["x.txt"]
    requires t.nodes[["a", "x.txt"]].kind == File && t.nodes[["a", "x.txt"]].ext == FileExt(true)
    requires t.cacheTime == 30.0
    ensures IterateExt(t, ["a"], ".txt", None, false, 1.0).0 == Ok([["a", "x.txt"]])
  {
    var a: Path := ["a"];
    var x: Path := ["a", "x.txt"];
    assert Child(a, "x.txt") == x;
    assert Isa(t, a, 1.0) == (Ok(Directory), t);
    DirWalk(t, a, ".txt", None, false, 1.0);
    assert Isa(t, x, 1.0) == (Ok(File), t);
    assert ContainsExt(t, x, ".txt", 1.0) == (Ok(true), t);
    assert IterateExt(t, x, ".txt", None, false, 1.0) == (Ok([x]), t);
    OnlyChildWalk(t, a, "x.txt", ".txt", None, false, 1.0, [x]);
  }

  /**
   * Asked from the root for `.txt` files, excluding the name `x.txt`, the
   * walk as written still yields `a/x.txt`: the exclusion reached `a` but
   * not its children.
   */
  lemma ExcludeNotPassedDown()
    ensures IterateExt(Sample(), [], ".txt", Some((n: string) => n == "x.txt"), false, 1.0).0 == Ok([["a", "x.txt"]])
  {
    var excluded := (n: string) => n == "x.txt";
    var s := Sample();
    assert Child([], "a") == ["a"];
    assert Isa(s, [], 1.0) == (Ok(Directory), s);
    DirWalk(s, [], ".txt", Some(excluded), false, 1.0);
    assert s.nodes[[]].children == ["a"];
    var t := SampleHasText();
    SampleWalkA(t);
    assert !excluded("a");
    OnlyChildWalk(s, [], "a", ".txt", Some(excluded), false, 1.0, [["a", "x.txt"]]);
  }
}
