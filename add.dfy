/**
 * The creation requests (bin/add.py): a new asset in the project's tree,
 * a render job in the queue (plain or from an Alfred `.alf` script), a
 * role or an external asset in `project.json`.
 *
 * The project's tree is an `AssetDb`, `project.json` a `ProjectFile`, the
 * queue a `Jobs.Scheduler`.  What the handlers ask of other parts of the
 * server is passed in: the users of the project (`getUsersByProject`), the
 * type records of its defaults, the files of its defaults directory, the
 * project's 'directory', the parsed `.alf` file, the dependency-boosted
 * priority of the asset, the 'low' priority of the defaults, the fresh
 * uuids and the clock.
 */
module Add {
  import opened Py
  import opened Templates
  import opened Credits
  import opened Handlers
  import opened Rfam
  import opened Lists
  import Jobs
  import AlfHierarchy

  /** Lines 289-298: the handlers `app` knows. */
  const Names: seq<string> := ["asset", "job", "job_prman", "role", "ext_asset"]

  // ---------------------------------------------------------------------------
  // Filenames (lines 46-50)

  /**
   * One component of `os.path.normpath`: '' and '.' vanish, '..' cancels
   * the component before it, except at the start of a relative path or
   * after another '..'; at the root of an absolute path it vanishes.
   */
  function NormStep(acc: seq<string>, comp: string, absolute: bool): seq<string> {
    if comp == "" || comp == "." then acc
    else if comp != ".." || (!absolute && |acc| == 0) || (|acc| > 0 && acc[|acc| - 1] == "..") then acc + [comp]
    else if |acc| > 0 then acc[..|acc| - 1]
    else acc
  }

  /** The components `normpath` keeps of `cs`: none of them is '' or '.'. */
  function NormComps(cs: seq<string>, absolute: bool): (r: seq<string>)
    ensures forall i :: 0 <= i < |r| ==> r[i] != "" && r[i] != "."
  {
    if |cs| == 0 then []
    else
      var acc := NormComps(cs[..|cs| - 1], absolute);
      assert forall i :: 0 <= i < |acc| - 1 ==> acc[..|acc| - 1][i] == acc[i];
      NormStep(acc, cs[|cs| - 1], absolute)
  }

  /** The leading slashes `normpath` keeps: two stay two, any other number becomes one. */
  function Slashes(s: string): nat {
    if !StartsWith(s, "/") then 0
    else if StartsWith(s, "//") && !StartsWith(s, "///") then 2
    else 1
  }

  /** `os.path.normpath` on POSIX; never empty. */
  function NormPath(s: string): (r: string)
    ensures |r| > 0
  {
    if s == "" then "."
    else
      var p := seq(Slashes(s), _ => '/') + Join(NormComps(SplitChar(s, '/'), Slashes(s) > 0), "/");
      if p == "" then "." else p
  }

  /** Line 48: a component that is neither empty, hidden, nor holds '\\', '?' or '*'. */
  predicate Sane(part: string) {
    |part| > 0 && part[0] != '.' && '\\' !in part && '?' !in part && '*' !in part
  }

  /** Line 46: the components of the normalised filename. */
  function Parts(filename: string): (r: seq<string>)
    ensures |r| >= 1
  {
    SplitChar(NormPath(filename), '/')
  }

  predicate AllSane(parts: seq<string>) {
    forall i :: 0 <= i < |parts| ==> Sane(parts[i])
  }

  /** Lines 47-50: the filename is accepted when every component is sane. */
  predicate Acceptable(filename: string) {
    AllSane(Parts(filename))
  }

  /** Lines 47-50, the loop. */
  method CheckParts(parts: seq<string>) returns (ok: bool)
    ensures ok <==> AllSane(parts)
  {
    for i := 0 to |parts|
      invariant forall j :: 0 <= j < i ==> Sane(parts[j])
    {
      var part := parts[i];
      if |part| == 0 || part[0] == '.' || '\\' in part || '?' in part || '*' in part {
        return false;
      }
    }
    return true;
  }

  /** Components that `normpath` has nothing to do with pass through unchanged. */
  lemma {:induction false} NormCompsKeeps(cs: seq<string>)
    requires AllSane(cs)
    ensures NormComps(cs, false) == cs
  {
    if |cs| > 0 {
      var init := cs[..|cs| - 1];
      assert AllSane(init) by {
        forall i | 0 <= i < |init| ensures Sane(init[i]) {
          assert init[i] == cs[i];
        }
      }
      NormCompsKeeps(init);
      var c := cs[|cs| - 1];
      assert Sane(c);
      assert c != "" && c != "." && c != ".." by {
        assert c[0] != '.';
      }
      assert cs == init + [c];
    }
  }

  /**
   * A relative filename made only of sane components is accepted as it
   * stands: normalising changes nothing and its components are what the
   * asset is created under.
   */
  lemma SaneAccepted(s: string)
    requires !StartsWith(s, "/") && AllSane(SplitChar(s, '/'))
    ensures NormPath(s) == s && Parts(s) == SplitChar(s, '/') && Acceptable(s)
  {
    var cs := SplitChar(s, '/');
    assert Slashes(s) == 0;
    NormCompsKeeps(cs);
    JoinSplitChar(s, '/');
    assert seq(0, _ => '/') + s == s;
  }

  /** An absolute filename is always refused: its first component is empty. */
  lemma AbsoluteRefused(s: string)
    requires StartsWith(s, "/")
    ensures !Acceptable(s)
  {
    assert s != "" && s[0] == '/';
    var k := Slashes(s);
    assert k >= 1;
    var p := seq(k, _ => '/') + Join(NormComps(SplitChar(s, '/'), true), "/");
    assert NormPath(s) == p;
    assert p[0] == '/';
    assert SplitChar(p, '/') == [[]] + SplitChar(p[1..], '/');
    assert !Sane(Parts(s)[0]);
  }

  /** An empty filename normalises to '.', which is refused. */
  lemma EmptyRefused()
    ensures !Acceptable("")
  {
    assert NormPath("") == ".";
    SplitCharWhole(".", '/');
    assert Parts("") == ["."];
    assert !Sane(Parts("")[0]);
  }

  // ---------------------------------------------------------------------------
  // Making the directories (bin/fs_db.py:259-276)

  /** `p` is `key` cut after its first `|p|` components. */
  predicate Prefix(p: seq<string>, key: seq<string>) {
    |p| <= |key| && key[..|p|] == p
  }

  /** A path the tree holds as something other than a directory. */
  predicate Occupied(t: Tree, p: seq<string>) {
    p in t && t[p] != Dir
  }

  /**
   * Line 53, `get_root().create(key)`: each missing directory along `key`
   * is made; one along it that is a file raises TypeError.
   */
  function MakeDirs(t: Tree, key: seq<string>): (r: Outcome<Tree>)
    ensures r.Raise? ==> r.error == TypeError
    decreases |key|
  {
    if |key| == 0 then Ok(t)
    else
      match MakeDirs(t, key[..|key| - 1])
      case Raise(e) => Raise(e)
      case Ok(u) =>
        if key !in u then Ok(u[key := Dir])
        else if u[key] == Dir then Ok(u)
        else Raise(TypeError)
  }

  /** The prefixes of `key` are those of `key` without its last component, and `key`. */
  lemma PrefixSplit(p: seq<string>, key: seq<string>)
    requires |key| > 0
    ensures Prefix(p, key) <==> Prefix(p, key[..|key| - 1]) || p == key
  {
    if Prefix(p, key) && p != key {
      assert |p| < |key|;
      assert key[..|key| - 1][..|p|] == key[..|p|];
    }
    if Prefix(p, key[..|key| - 1]) {
      assert key[..|key| - 1][..|p|] == key[..|p|];
    }
  }

  /**
   * Making the directories fails exactly when something along the path is
   * a file; otherwise every prefix of the path is a directory afterwards,
   * what was there stays, and what is new is a directory along the path.
   */
  lemma {:induction false} MadeDirs(t: Tree, key: seq<string>)
    ensures MakeDirs(t, key).Raise? <==> exists p :: Prefix(p, key) && p != [] && Occupied(t, p)
    ensures MakeDirs(t, key).Ok? ==>
      var u := MakeDirs(t, key).value;
      (forall p :: Prefix(p, key) ==> IsDir(u, p))
      && (forall p :: p in t ==> p in u && u[p] == t[p])
      && (forall p :: p in u && p !in t ==> Prefix(p, key) && u[p] == Dir)
    decreases |key|
  {
    if |key| == 0 {
      forall p | Prefix(p, key) ensures p == [] {
      }
    } else {
      var init := key[..|key| - 1];
      MadeDirs(t, init);
      forall p ensures Prefix(p, key) <==> Prefix(p, init) || p == key {
        PrefixSplit(p, key);
      }
      assert !Prefix(key, init);
      match MakeDirs(t, init)
      case Raise(e) => {
        var p :| Prefix(p, init) && p != [] && Occupied(t, p);
        assert Prefix(p, key);
      }
      case Ok(u) => {
        assert key in u ==> key in t;
        if key in u && u[key] != Dir {
          assert Occupied(t, key) && Prefix(key, key);
        } else {
          assert !Occupied(t, key);
          assert forall p :: Prefix(p, key) && p != [] ==> !Occupied(t, p);
        }
      }
    }
  }

  // ---------------------------------------------------------------------------
  // A new asset (lines 27-75)

  /** Line 31: the query terms an asset needs. */
  const Required: set<string> := {"name", "type", "filename", "description"}

  /** Line 69: the keys the new record copies from its type record. */
  const Copied: set<string> := {"state", "priority", "render", "final", "time_budget"}

  /** A new asset's record: named, owned by nobody, with no supporters and no dependencies. */
  predicate Fresh(m: map<string, Field>, name: string) {
    "name" in m && "owner" in m && "support" in m && "dependencies" in m
    && m["name"] == Str(name) && m["owner"] == Nil && m["support"] == Strs([]) && m["dependencies"] == Strs([])
  }

  /** Line 69: the new record; a key the type record lacks raises KeyError. */
  function MetaOf(name: string, description: string, at: TypeRec, user: Option<string>): (r: Outcome<map<string, Field>>)
    ensures r.Ok? <==> Copied <= at.fields.Keys
    ensures r.Ok? ==> Fresh(r.value, name) && "type" in r.value && r.value["type"] == Str(at.ident)
  {
    if !(Copied <= at.fields.Keys) then Raise(KeyError)
    else
      Ok(map["name" := Str(name), "description" := Str(description), "type" := Str(at.ident),
             "creator" := (if user.Some? then Str(user.value) else Nil), "owner" := Nil, "support" := Strs([]),
             "state" := at.fields["state"], "priority" := at.fields["priority"], "render" := at.fields["render"],
             "final" := at.fields["final"], "time_budget" := at.fields["time_budget"], "dependencies" := Strs([])])
  }

  /**
   * Lines 61-66: the type's template, found under 'asset_types' in the
   * defaults' files, is copied to `target`.
   */
  function Cloned(u: Tree, target: seq<string>, file: Field, templates: set<seq<string>>): Outcome<Tree> {
    if !file.Str? then Raise(TypeError)
    else if Parts("asset_types/" + file.s) !in templates then Raise(KeyError)
    else Ok(u[target := Blob])
  }

  /**
   * Lines 55-75, once the directories `dir` exist in `u`: a file type
   * refuses a target that is there, copies its template, and the record
   * `m` is stored under the target's name with '.json' appended.
   */
  function Placed(u: Tree, at: TypeRec, dir: seq<string>, last: string, m: Outcome<map<string, Field>>,
                  templates: set<seq<string>>): (r: (Outcome<Reply>, Tree))
  {
    var file := "file" in at.fields;
    if file && (!IsDir(u, dir) || dir + [last] in u) then (Ok(No), u)
    else
      var c := if file then Cloned(u, dir + [last], at.fields["file"], templates) else Ok(u);
      var jp := dir + [last + ".json"];
      if c.Raise? then (Raise(c.error), u)
      else if m.Raise? then (Raise(m.error), c.value)
      else if jp in c.value && c.value[jp] == Dir then (Raise(TypeError), c.value)
      else (Ok(Yes), c.value[jp := Meta(m.value)])
  }

  /** A placed asset: its record stored, for a file type its template copied to a free target, nothing else touched. */
  lemma Placement(u: Tree, at: TypeRec, dir: seq<string>, last: string, m: Outcome<map<string, Field>>,
                  templates: set<seq<string>>)
    requires Placed(u, at, dir, last, m, templates).0 == Ok(Yes)
    ensures m.Ok?
    ensures var v := Placed(u, at, dir, last, m, templates).1;
      dir + [last + ".json"] in v && v[dir + [last + ".json"]] == Meta(m.value)
      && ("file" in at.fields ==> dir + [last] !in u && dir + [last] in v && v[dir + [last]] == Blob)
      && (forall p :: p in u && p != dir + [last + ".json"] && p != dir + [last] ==> p in v && v[p] == u[p])
  {
    assert (dir + [last])[|dir|] != (dir + [last + ".json"])[|dir|];
  }

  /** A created asset passed every check before its placement. */
  lemma Unfolded(req: Request, t: Tree, types: seq<TypeRec>, templates: set<seq<string>>)
    requires NewAsset(req, t, types, templates).0 == Ok(Yes)
    ensures Required <= req.query.Keys && GetType(types, req.query["type"]).Some?
    ensures Acceptable(Unescape(req.query["filename"]))
    ensures MakeDirs(t, DirOf(Unescape(req.query["filename"]))).Ok?
    ensures var fname := Unescape(req.query["filename"]); var at := GetType(types, req.query["type"]).value;
      NewAsset(req, t, types, templates)
      == Placed(MakeDirs(t, DirOf(fname)).value, at, DirOf(fname), Parts(fname)[|Parts(fname)| - 1],
                MetaOf(Unescape(req.query["name"]), Unescape(req.query["description"]), at, req.user), templates)
  {
  }

  /** Lines 27-75: the reply, and the project's tree afterwards. */
  function NewAsset(req: Request, t: Tree, types: seq<TypeRec>, templates: set<seq<string>>): (r: (Outcome<Reply>, Tree))
    ensures !(Required <= req.query.Keys) ==> r == (Ok(Teapot), t)
    ensures Required <= req.query.Keys && GetType(types, req.query["type"]).None? ==> r == (Ok(Teapot), t)
    ensures (Required <= req.query.Keys && GetType(types, req.query["type"]).Some?
      && !Acceptable(Unescape(req.query["filename"]))) ==> r == (Ok(No), t)
  {
    var q := req.query;
    if !(Required <= q.Keys) then (Ok(Teapot), t)
    else
      var at := GetType(types, q["type"]);
      if at.None? then (Ok(Teapot), t)
      else
        var parts := Parts(Unescape(q["filename"]));
        if !AllSane(parts) then (Ok(No), t)
        else
          var dir := parts[..|parts| - 1];
          match MakeDirs(t, dir)
          case Raise(e) => (Raise(e), t)
          case Ok(u) =>
            Placed(u, at.value, dir, parts[|parts| - 1],
                   MetaOf(Unescape(q["name"]), Unescape(q["description"]), at.value, req.user), templates)
  }

  /** The record of the asset a filename names. */
  function RecordPath(filename: string): seq<string> {
    var parts := Parts(filename);
    parts[..|parts| - 1] + [parts[|parts| - 1] + ".json"]
  }

  /** The file a filename names. */
  function FilePath(filename: string): seq<string> {
    Parts(filename)
  }

  /** The directory a filename's asset goes in. */
  function DirOf(filename: string): seq<string> {
    var parts := Parts(filename);
    parts[..|parts| - 1]
  }

  /**
   * What a created asset leaves: the directories along its path, a new
   * record owned by nobody with no supporters and no dependencies, and
   * every other entry as it was, bar the template copy of a file type.
   */
  lemma AssetCreated(req: Request, t: Tree, types: seq<TypeRec>, templates: set<seq<string>>)
    requires NewAsset(req, t, types, templates).0 == Ok(Yes)
    ensures Required <= req.query.Keys && Acceptable(Unescape(req.query["filename"]))
    ensures var fname := Unescape(req.query["filename"]);
      var u := NewAsset(req, t, types, templates).1;
      (forall p :: Prefix(p, DirOf(fname)) ==> IsDir(u, p))
      && RecordPath(fname) in u && u[RecordPath(fname)].Meta? && Fresh(u[RecordPath(fname)].fields, Unescape(req.query["name"]))
      && (forall p :: p in t && p != RecordPath(fname) && p != FilePath(fname) ==> p in u && u[p] == t[p])
  {
    Unfolded(req, t, types, templates);
    var q := req.query;
    var fname := Unescape(q["filename"]);
    var parts := Parts(fname);
    var dir := DirOf(fname);
    var last := parts[|parts| - 1];
    InitLast(parts);
    assert dir + [last] == FilePath(fname);
    assert dir + [last + ".json"] == RecordPath(fname);
    var at := GetType(types, q["type"]).value;
    var m := MetaOf(Unescape(q["name"]), Unescape(q["description"]), at, req.user);
    MadeDirs(t, dir);
    var u := MakeDirs(t, dir).value;
    Placement(u, at, dir, last, m, templates);
    PlacedOver(t, u, NewAsset(req, t, types, templates).1, dir, dir + [last + ".json"], dir + [last]);
  }

  /** A path is its directory and its last component. */
  lemma InitLast(parts: seq<string>)
    requires |parts| > 0
    ensures parts[..|parts| - 1] + [parts[|parts| - 1]] == parts
  {
  }

  /** Paths along `dir` that `u` holds as directories, and entries of `t` that `u` keeps, outlive a write of two paths one level below `dir`. */
  lemma PlacedOver(t: Tree, u: Tree, v: Tree, dir: seq<string>, rp: seq<string>, fp: seq<string>)
    requires |rp| == |fp| == |dir| + 1
    requires forall p :: Prefix(p, dir) ==> IsDir(u, p)
    requires forall p :: p in t ==> p in u && u[p] == t[p]
    requires forall p :: p in u && p != rp && p != fp ==> p in v && v[p] == u[p]
    ensures forall p :: Prefix(p, dir) ==> IsDir(v, p)
    ensures forall p :: p in t && p != rp && p != fp ==> p in v && v[p] == t[p]
  {
  }

  /** For a type with a file, a target already there answers 'false'. */
  lemma FileClash(req: Request, t: Tree, types: seq<TypeRec>, templates: set<seq<string>>)
    requires Required <= req.query.Keys
    requires GetType(types, req.query["type"]).Some? && "file" in GetType(types, req.query["type"]).value.fields
    requires Acceptable(Unescape(req.query["filename"])) && FilePath(Unescape(req.query["filename"])) in t
    requires MakeDirs(t, DirOf(Unescape(req.query["filename"]))).Ok?
    ensures NewAsset(req, t, types, templates) == (Ok(No), MakeDirs(t, DirOf(Unescape(req.query["filename"]))).value)
  {
    var parts := Parts(Unescape(req.query["filename"]));
    assert parts[..|parts| - 1] + [parts[|parts| - 1]] == parts;
    MadeDirs(t, parts[..|parts| - 1]);
  }

  /** For a type without a file, the record of an asset of the same name is replaced without complaint. */
  lemma RecordReplaced(req: Request, t: Tree, types: seq<TypeRec>, templates: set<seq<string>>)
    requires Required <= req.query.Keys
    requires GetType(types, req.query["type"]).Some?
    requires "file" !in GetType(types, req.query["type"]).value.fields
    requires Copied <= GetType(types, req.query["type"]).value.fields.Keys
    requires Acceptable(Unescape(req.query["filename"]))
    requires RecordPath(Unescape(req.query["filename"])) in t && t[RecordPath(Unescape(req.query["filename"]))].Meta?
    requires MakeDirs(t, DirOf(Unescape(req.query["filename"]))).Ok?
    ensures NewAsset(req, t, types, templates).0 == Ok(Yes)
  {
    var parts := Parts(Unescape(req.query["filename"]));
    MadeDirs(t, parts[..|parts| - 1]);
  }

  /** Lines 27-75. */
  method Asset(req: Request, db: AssetDb, types: seq<TypeRec>, templates: set<seq<string>>) returns (r: Outcome<Reply>)
    modifies db
    ensures r == NewAsset(req, old(db.tree), types, templates).0
    ensures db.tree == NewAsset(req, old(db.tree), types, templates).1
  {
    var q := req.query;
    if !("name" in q && "type" in q && "filename" in q && "description" in q) {
      return Ok(Teapot);
    }
    var name := Unescape(q["name"]);
    var filename := Unescape(q["filename"]);
    var description := Unescape(q["description"]);
    var at := GetType(types, q["type"]);
    if at.None? {
      return Ok(Teapot);
    }
    var parts := Parts(filename);
    var ok := CheckParts(parts);
    if !ok {
      return Ok(No);
    }
    var dir := parts[..|parts| - 1];
    var last := parts[|parts| - 1];
    var made := MakeDirs(db.tree, dir);
    if made.Raise? {
      return Raise(made.error);
    }
    db.tree := made.value;
    r := Place(db, at.value, dir, last, MetaOf(name, description, at.value, req.user), templates);
  }

  /** Lines 55-75: the placement step of `Asset`. */
  method Place(db: AssetDb, at: TypeRec, dir: seq<string>, last: string, m: Outcome<map<string, Field>>,
               templates: set<seq<string>>) returns (r: Outcome<Reply>)
    modifies db
    ensures r == Placed(old(db.tree), at, dir, last, m, templates).0
    ensures db.tree == Placed(old(db.tree), at, dir, last, m, templates).1
  {
    var file := "file" in at.fields;
    if file && (!IsDir(db.tree, dir) || dir + [last] in db.tree) {
      return Ok(No);
    }
    if file {
      var c := Cloned(db.tree, dir + [last], at.fields["file"], templates);
      if c.Raise? {
        return Raise(c.error);
      }
      db.tree := c.value;
    }
    if m.Raise? {
      return Raise(m.error);
    }
    var jp := dir + [last + ".json"];
    if jp in db.tree && db.tree[jp] == Dir {
      return Raise(TypeError);
    }
    db.tree := db.tree[jp := Meta(m.value)];
    return Ok(Yes);
  }

  // ---------------------------------------------------------------------------
  // Render jobs (lines 76-206)

  /** What a handler reads from the rest of the server besides the request and the project's tree. */
  datatype Env = Env(
    members: seq<string>,                      // rfam.getUsersByProject(project)
    types: seq<TypeRec>,                       // the type records of the project's defaults
    templates: set<seq<string>>,               // the files of the project's defaults
    directory: Option<string>,                 // getProject(project)['directory'], None for an unknown project
    paths: map<string, string>,                // rfam.paths, the local root of each registered path
    files: string -> Option<string>,           // a local file's text, None when it cannot be read
    truePrio: seq<string> -> Outcome<int>,     // true_priority of the record at a path
    low: int,                                  // the 'low' priority of the defaults' priority.json
    uuid: string,                              // the next uuid4 / uuid1 hex
    now: real)                                 // time.time()

  /** `json.dumps([text])` for a text without quotes, backslashes or control characters. */
  function Dumps(text: string): string {
    "[\"" + text + "\"]"
  }

  /** `int(query[k])`: KeyError without the term, ValueError when it is not an integer. */
  function IntOf(q: map<string, string>, k: string): (r: Outcome<int>)
    ensures r.Ok? <==> k in q && ParseInt(q[k]).Some?
    ensures r.Ok? ==> r.value == ParseInt(q[k]).value
    ensures r.Raise? ==> r.error == (if k in q then ValueError else KeyError)
  {
    if k !in q then Raise(KeyError)
    else if ParseInt(q[k]).None? then Raise(ValueError)
    else Ok(ParseInt(q[k]).value)
  }

  /** `os.path.join(a, *ps)`. */
  function JoinAll(a: string, ps: seq<string>): string {
    if |ps| == 0 then a else PathJoin(JoinAll(a, ps[..|ps| - 1]), ps[|ps| - 1])
  }

  /** Joining relative parts keeps the directory as the start of the file name. */
  lemma {:induction false} JoinAllUnder(a: string, ps: seq<string>)
    requires forall i :: 0 <= i < |ps| ==> !StartsWith(ps[i], "/")
    ensures StartsWith(JoinAll(a, ps), a)
  {
    if |ps| > 0 {
      JoinAllUnder(a, ps[..|ps| - 1]);
      PathJoinUnder(JoinAll(a, ps[..|ps| - 1]), ps[|ps| - 1]);
    }
  }

  /** Lines 136-141 and 189-194: the asset's boosted priority when it has a record, otherwise 'low'. */
  function InitialPriority(t: Tree, jp: seq<string>, env: Env): Outcome<int> {
    if Has(t, jp) then env.truePrio(jp) else Ok(env.low)
  }

  /** The query terms both job handlers read, in order: 'name', 'start', 'end', 'final'. */
  datatype Asked = Asked(name: string, start: int, end: int, final: bool)

  /** Lines 78-89 and 171-175: a missing term is a KeyError, a start or end that is no integer a ValueError. */
  function Ask(q: map<string, string>): (r: Outcome<Asked>)
    ensures r.Ok? <==> "name" in q && IntOf(q, "start").Ok? && IntOf(q, "end").Ok? && "final" in q
    ensures r.Ok? ==> r.value == Asked(q["name"], IntOf(q, "start").value, IntOf(q, "end").value, q["final"] == "true")
  {
    if "name" !in q then Raise(KeyError)
    else match IntOf(q, "start")
      case Raise(e) => Raise(e)
      case Ok(start) =>
        match IntOf(q, "end")
        case Raise(e) => Raise(e)
        case Ok(end) => if "final" !in q then Raise(KeyError) else Ok(Asked(q["name"], start, end, q["final"] == "true"))
  }

  /**
   * What a job handler does: stop with a reply (or an exception) without
   * touching the queue, or add the job and answer `chunks` followed by
   * `done`.
   */
  datatype Plan =
    | Stop(reply: Outcome<Reply>)
    | Launch(chunks: seq<string>, name: string, fn: string, meta: seq<string>, first: int, last: int, priority: int, video: bool, done: string)

  const NotAlf := "ERROR: Job must be a .alf file!"
  const NoPath := "ERROR: Path to file does not exist!"
  const Unparsed := "ERROR: The .alf file could not be parsed!"
  const Textures := "ERROR: The .alf job contains texture conversion commands which must be processed locally!"

  /** Lines 120-124: the message for a requested range that misses the exported frames. */
  function BadRange(lo: int, hi: int, start: int, endC: int): string {
    "ERROR: Given the actual number of jobs exported in the .alf file [ " + IntToString(lo) + " - " + IntToString(hi)
    + " ], the requested job [ " + IntToString(start) + " - " + IntToString(endC) + " ] is invalid!"
  }

  /** Lines 156-158: the report of the range rendered. */
  function Rendered(start: int, end: int, lo: int, hi: int, first: int, last: int): string {
    "You requested processing of frames [ " + IntToString(start) + " - " + IntToString(end) + " ]."
    + " Ribs were exported for frames [ " + IntToString(lo) + " - " + IntToString(hi) + " ]."
    + " The system will render [ " + IntToString(first) + " - " + IntToString(last) + " ]."
  }

  /**
   * Lines 101-111: the local name of the file, its text and its parse;
   * any exception on the way is None.
   */
  function Script(fn: string, env: Env): Option<AlfHierarchy.Hierarchy> {
    match ToLocal(env.paths, fn)
    case Raise(_) => None
    case Ok(local) =>
      match env.files(local)
      case None => None
      case Some(text) =>
        match AlfHierarchy.ParsedFile(text)
        case Raise(_) => None
        case Ok(h) => Some(h)
  }

  function Max(a: int, b: int): int { if a >= b then a else b }
  function Min(a: int, b: int): int { if a <= b then a else b }

  /**
   * Lines 113-158 once the script is parsed: the requested range clamped
   * to the exported one, refused when nothing is left; texture commands
   * add a warning but do not stop the job.
   */
  function Clamped(a: Asked, t: Tree, path: seq<string>, fn: string, h: AlfHierarchy.Hierarchy, env: Env): Plan {
    if |h.frames| == 0 then Stop(Raise(IndexError))
    else
      var lo := h.frames[0];
      var hi := h.frames[|h.frames| - 1];
      var first := Max(a.start, lo);
      var last := Min(a.end, hi);
      if first > last then Stop(Ok(Json([Dumps(BadRange(lo, hi, a.start, last))])))
      else
        var chunks := if |h.textures| > 0 then [Dumps(Textures)] else [];
        match JsonPath(path)
        case Raise(e) => Stop(Raise(e))
        case Ok(jp) =>
          match InitialPriority(t, jp, env)
          case Raise(e) => Stop(Raise(e))
          case Ok(p) => Launch(chunks, a.name, fn, jp, first, last, p, a.final, Dumps(Rendered(a.start, a.end, lo, hi, first, last)))
  }

  /** Lines 76-162, with the keyword argument `jobs.add` does not take left out. */
  function PrmanPlan(req: Request, t: Tree, env: Env): Plan {
    var q := req.query;
    var path := Rest(req.path);
    if "name" !in q then Stop(Raise(KeyError))
    else if !EndsWith(q["name"], ".alf") then Stop(Ok(Json([Dumps(NotAlf)])))
    else
      match Ask(q)
      case Raise(e) => Stop(Raise(e))
      case Ok(a) =>
        if !Has(t, path) then Stop(Ok(Json([Dumps(NoPath)])))
        else if env.directory.None? then Stop(Raise(TypeError))
        else
          var fn := JoinAll(env.directory.value, path);
          match Script(fn, env)
          case None => Stop(Ok(Json([Dumps(Unparsed)])))
          case Some(h) => Clamped(a, t, path, fn, h, env)
  }

  /**
   * Lines 76-162 as written: the early return for a name that is not an
   * '.alf' file calls `reponse`, which is not defined, and the call of
   * `jobs.add` passes `prmanCommands`, which it does not accept.
   */
  function PrmanPlanAsWritten(req: Request, t: Tree, env: Env): Plan {
    var q := req.query;
    if "name" in q && !EndsWith(q["name"], ".alf") then Stop(Raise(NameError))
    else
      var p := PrmanPlan(req, t, env);
      if p.Launch? then Stop(Raise(TypeError)) else p
  }

  /** As written, `job_prman` never adds a job; where it would, it raises TypeError. */
  lemma PrmanAsWrittenNeverLaunches(req: Request, t: Tree, env: Env)
    ensures PrmanPlanAsWritten(req, t, env).Stop?
    ensures PrmanPlan(req, t, env).Launch? ==> PrmanPlanAsWritten(req, t, env) == Stop(Raise(TypeError))
  {
  }

  /** A name that is not an '.alf' file: the error message, and as written a NameError. */
  lemma NotAlfRefused(req: Request, t: Tree, env: Env)
    requires "name" in req.query && !EndsWith(req.query["name"], ".alf")
    ensures PrmanPlan(req, t, env) == Stop(Ok(Json([Dumps(NotAlf)])))
    ensures PrmanPlanAsWritten(req, t, env) == Stop(Raise(NameError))
  {
  }

  /** `lo <= f <= hi`. */
  predicate Within(f: int, lo: int, hi: int) {
    lo <= f <= hi
  }

  /**
   * A job from a script renders the frames both requested and exported,
   * warning about texture commands; an empty overlap is refused with the
   * message naming both ranges.
   */
  lemma ClampedFrames(a: Asked, t: Tree, path: seq<string>, fn: string, h: AlfHierarchy.Hierarchy, env: Env)
    requires |h.frames| > 0
    ensures var p := Clamped(a, t, path, fn, h, env); var lo := h.frames[0]; var hi := h.frames[|h.frames| - 1];
      (p == Stop(Ok(Json([Dumps(BadRange(lo, hi, a.start, Min(a.end, hi)))]))) <==> Max(a.start, lo) > Min(a.end, hi))
      && (p.Launch? ==>
            p.fn == fn && p.name == a.name && p.video == a.final && p.first <= p.last && JsonPath(path) == Ok(p.meta)
            && (forall f :: Within(f, p.first, p.last) <==> Within(f, a.start, a.end) && Within(f, lo, hi))
            && (p.chunks == [] <==> |h.textures| == 0)
            && p.done == Dumps(Rendered(a.start, a.end, lo, hi, p.first, p.last)))
  {
  }

  /** A script that parses: the rest of `job_prman` works on the path's file under the project's directory. */
  lemma PrmanReaches(req: Request, t: Tree, env: Env, a: Asked, h: AlfHierarchy.Hierarchy)
    requires "name" in req.query && EndsWith(req.query["name"], ".alf") && Ask(req.query) == Ok(a)
    requires Has(t, Rest(req.path)) && env.directory.Some?
    requires Script(JoinAll(env.directory.value, Rest(req.path)), env) == Some(h)
    ensures PrmanPlan(req, t, env) == Clamped(a, t, Rest(req.path), JoinAll(env.directory.value, Rest(req.path)), h, env)
  {
  }

  /** Lines 181-200 once the path is settled: the job over the requested frames as given. */
  function Submitted(a: Asked, t: Tree, path: seq<string>, env: Env, chunks: seq<string>): Plan {
    if env.directory.None? then Stop(Raise(TypeError))
    else
      match JsonPath(path)
      case Raise(e) => Stop(Raise(e))
      case Ok(jp) =>
        match InitialPriority(t, jp, env)
        case Raise(e) => Stop(Raise(e))
        case Ok(p) => Launch(chunks, a.name, JoinAll(env.directory.value, path), jp, a.start, a.end, p, a.final, "true")
  }

  /** Lines 168-203, answering 'false' and stopping for a path the project does not have. */
  function JobPlan(req: Request, t: Tree, env: Env): Plan {
    match Ask(req.query)
    case Raise(e) => Stop(Raise(e))
    case Ok(a) => if !Has(t, Rest(req.path)) then Stop(Ok(No)) else Submitted(a, t, Rest(req.path), env, [])
  }

  /**
   * Lines 168-203 as written: after answering 'false' for a missing path
   * the handler goes on, adds the job and answers 'true' as well.
   */
  function JobPlanAsWritten(req: Request, t: Tree, env: Env): Plan {
    match Ask(req.query)
    case Raise(e) => Stop(Raise(e))
    case Ok(a) => Submitted(a, t, Rest(req.path), env, if Has(t, Rest(req.path)) then [] else ["false"])
  }

  /** A plain job is only added for a path the project has, over exactly the requested frames. */
  lemma JobLaunched(req: Request, t: Tree, env: Env)
    requires JobPlan(req, t, env).Launch?
    ensures var p := JobPlan(req, t, env);
      Has(t, Rest(req.path)) && Ask(req.query).Ok? && env.directory.Some?
      && p.first == Ask(req.query).value.start && p.last == Ask(req.query).value.end
      && p.fn == JoinAll(env.directory.value, Rest(req.path)) && p.chunks == [] && p.done == "true"
      && JsonPath(Rest(req.path)) == Ok(p.meta)
  {
  }

  /** The two agree on a path the project has; on one it lacks, as written a job is added all the same. */
  lemma JobAsWrittenAddsAnyway(req: Request, t: Tree, env: Env)
    ensures Has(t, Rest(req.path)) ==> JobPlanAsWritten(req, t, env) == JobPlan(req, t, env)
    ensures !Has(t, Rest(req.path)) && Ask(req.query).Ok? ==> JobPlan(req, t, env) == Stop(Ok(No))
    ensures !Has(t, Rest(req.path)) && Ask(req.query).Ok? && Submitted(Ask(req.query).value, t, Rest(req.path), env, []).Launch? ==>
      JobPlanAsWritten(req, t, env).Launch? && JobPlanAsWritten(req, t, env).chunks == ["false"]
  {
  }

  /** The reply and the queued job of a plan carried out with `jobs.add`. */
  function Carried(p: Plan, project: string, uuid: string, now: real, binSearch: bool): (Outcome<Reply>, Option<Jobs.Job>) {
    if p.Stop? then (p.reply, None)
    else
      match Jobs.Created(uuid, p.name, project, p.meta, p.fn, p.first, p.last, p.priority, p.video, [], now, binSearch)
      case Raise(e) => (Raise(e), None)
      case Ok(j) => (Ok(Json(p.chunks + [p.done])), Some(j))
  }

  /**
   * The queue after carrying out a plan whose outcome is `c`: unchanged
   * when no job is made; otherwise the job is stored under its uuid, which
   * joins the end of the job order unless it was there already.  The nodes
   * and rates do not change.
   */
  twostate predicate Queued(jobs: Jobs.Scheduler, new c: (Outcome<Reply>, Option<Jobs.Job>), uuid: string)
    reads jobs
  {
    var fn := uuid + ".json";
    (c.1.None? ==> jobs.jobs == old(jobs.jobs) && jobs.jobOrder == old(jobs.jobOrder))
    && (c.1.Some? ==>
          jobs.jobs == old(jobs.jobs)[fn := Jobs.Decoded(c.1.value)]
          && jobs.jobOrder == if fn in old(jobs.jobs) then old(jobs.jobOrder) else old(jobs.jobOrder) + [fn])
    && jobs.nodes == old(jobs.nodes) && jobs.nodeOrder == old(jobs.nodeOrder)
    && jobs.requireRate == old(jobs.requireRate) && jobs.requireInit == old(jobs.requireInit)
  }

  /** Lines 146-162 and 196-203: the job added to the queue, and the reply. */
  method Carry(p: Plan, project: string, uuid: string, now: real, jobs: Jobs.Scheduler) returns (r: Outcome<Reply>)
    requires jobs.Valid()
    modifies jobs
    ensures jobs.Valid()
    ensures var c := Carried(p, project, uuid, now, jobs.cfg.binSearchOrder);
      r == c.0 && Queued(jobs, c, uuid)
  {
    if p.Stop? {
      return p.reply;
    }
    var added := jobs.Add(uuid, p.name, project, p.meta, p.fn, p.first, p.last, p.priority, p.video, [], now);
    if added.Raise? {
      return Raise(added.error);
    }
    return Ok(Json(p.chunks + [p.done]));
  }

  // ---------------------------------------------------------------------------
  // Roles and external assets (lines 210-273)

  /** Appending a key a table lacks. */
  lemma {:induction false} AssignNew<V>(t: Table<V>, k: string, v: V)
    requires Lookup(t, k).None?
    ensures Assign(t, k, v) == t + [(k, v)]
    decreases |t|
  {
    if |t| > 0 {
      TailLacks(t, k);
      AssignNew(t[1..], k, v);
      AssignPast(t, k, v);
      ConsAppend(t, (k, v));
    }
  }

  /** A table that lacks a key has a first entry of another key, and a tail that lacks it too. */
  lemma TailLacks<V>(t: Table<V>, k: string)
    requires |t| > 0 && Lookup(t, k).None?
    ensures t[0].0 != k && Lookup(t[1..], k).None?
  {
    forall j | 0 <= j < |t[1..]| ensures t[1..][j].0 != k {
      assert t[1..][j] == t[j + 1];
    }
  }

  /** Assigning past a first entry of another key keeps that entry in front. */
  lemma AssignPast<V>(t: Table<V>, k: string, v: V)
    requires |t| > 0 && t[0].0 != k
    ensures Assign(t, k, v) == [t[0]] + Assign(t[1..], k, v)
  {
  }

  /** Appending to a non-empty sequence appends to its tail. */
  lemma ConsAppend<X>(t: seq<X>, x: X)
    requires |t| > 0
    ensures [t[0]] + (t[1..] + [x]) == t + [x]
  {
    assert [t[0]] + t[1..] == t;
  }

  /** The greatest 'order' of a non-empty table of roles. */
  function MaxOrder(t: Table<Role>): (m: real)
    requires |t| > 0
    ensures forall i :: 0 <= i < |t| ==> t[i].1.order <= m
    ensures exists i :: 0 <= i < |t| && t[i].1.order == m
  {
    if |t| == 1 then t[0].1.order
    else
      var m := MaxOrder(t[..|t| - 1]);
      assert forall i :: 0 <= i < |t| - 1 ==> t[..|t| - 1][i] == t[i];
      if t[|t| - 1].1.order > m then t[|t| - 1].1.order else m
  }

  /** Lines 234-237: one more than the greatest order, 0 for the first role; above every order there is. */
  function NextOrder(t: Table<Role>): (r: real)
    ensures |t| == 0 ==> r == 0.0
    ensures forall i :: 0 <= i < |t| ==> t[i].1.order < r
    ensures |t| > 0 ==> exists i :: 0 <= i < |t| && t[i].1.order == r - 1.0
  {
    if |t| > 0 then MaxOrder(t) + 1.0 else 0.0
  }

  /** Lines 210-244: the reply, and the record written back, for the role entry given the fresh `ident`. */
  function RoleAdded(rec: Record, q: map<string, string>, members: seq<string>, ident: string): (Reply, Option<Record>) {
    if "role" !in q || "user" !in q then (Teapot, None)
    else if q["user"] !in members then (No, None)
    else (Yes, Some(rec.(roles := Assign(rec.roles, ident, Role(Unescape(q["role"]), q["user"], NextOrder(rec.roles))))))
  }

  /**
   * A role is only given to a member of the project; the new entry comes
   * after all the others, with an order above every other order, and
   * nothing else of the record changes.
   */
  lemma NewRoleLast(rec: Record, q: map<string, string>, members: seq<string>, ident: string)
    requires Lookup(rec.roles, ident).None?
    ensures var r := RoleAdded(rec, q, members, ident);
      (r.1.Some? <==> "role" in q && "user" in q && q["user"] in members)
      && (r.1.Some? ==>
            var role := Role(Unescape(q["role"]), q["user"], NextOrder(rec.roles));
            r.0 == Yes && r.1.value == rec.(roles := rec.roles + [(ident, role)])
            && forall i :: 0 <= i < |rec.roles| ==> rec.roles[i].1.order < role.order)
  {
    if "role" in q && "user" in q && q["user"] in members {
      AssignNew(rec.roles, ident, Role(Unescape(q["role"]), q["user"], NextOrder(rec.roles)));
    }
  }

  /** Lines 210-244. */
  method AddRole(req: Request, file: ProjectFile, members: seq<string>, ident: string) returns (reply: Reply)
    modifies file
    ensures reply == RoleAdded(old(file.record), req.query, members, ident).0
    ensures file.record == After(old(file.record), RoleAdded(old(file.record), req.query, members, ident).1)
    ensures file.writes == Writes(old(file.writes), RoleAdded(old(file.record), req.query, members, ident).1)
  {
    if "role" !in req.query || "user" !in req.query {
      return Teapot;
    }
    var role := Unescape(req.query["role"]);
    var user := req.query["user"];
    if user !in members {
      return No;
    }
    var p := file.Read();
    var order := 0.0;
    if |p.roles| > 0 {
      order := MaxOrder(p.roles) + 1.0;
    }
    file.Write(p.(roles := Assign(p.roles, ident, Role(role, user, order))));
    return Yes;
  }

  /** Lines 248-267: the reply, and the record written back, for the entry under the fresh `ident`. */
  function ExtAdded(rec: Record, q: map<string, string>, ident: string): (Outcome<Reply>, Option<Record>) {
    if "description" !in q || "license" !in q || "origin" !in q then (Ok(Teapot), None)
    else
      var e := ExtAsset(Unescape(q["description"]), Unescape(q["license"]), Unescape(q["origin"]));
      (Ok(Yes), Some(rec.(extAssets := Assign(rec.extAssets, ident, e))))
  }

  /** Lines 248-273 as written: after the write, `response.add()` is called, which `Response` does not have. */
  function ExtAddedAsWritten(rec: Record, q: map<string, string>, ident: string): (Outcome<Reply>, Option<Record>) {
    var r := ExtAdded(rec, q, ident);
    if r.1.Some? then (Raise(AttributeError), r.1) else r
  }

  /**
   * A complete request adds the external asset after the others, and
   * nothing else; as written it then fails with AttributeError, so a
   * stored asset is reported as a server error.
   */
  lemma ExtAssetLast(rec: Record, q: map<string, string>, ident: string)
    requires Lookup(rec.extAssets, ident).None?
    ensures var r := ExtAdded(rec, q, ident);
      (r.1.Some? <==> "description" in q && "license" in q && "origin" in q)
      && (r.1.Some? ==>
            r.0 == Ok(Yes) && ExtAddedAsWritten(rec, q, ident) == (Raise(AttributeError), r.1)
            && r.1.value == rec.(extAssets := rec.extAssets
                 + [(ident, ExtAsset(Unescape(q["description"]), Unescape(q["license"]), Unescape(q["origin"])))]))
      && (r.1.None? ==> r == (Ok(Teapot), None) && ExtAddedAsWritten(rec, q, ident) == r)
  {
    if "description" in q && "license" in q && "origin" in q {
      AssignNew(rec.extAssets, ident, ExtAsset(Unescape(q["description"]), Unescape(q["license"]), Unescape(q["origin"])));
    }
  }

  /** Lines 248-272. */
  method AddExtAsset(req: Request, file: ProjectFile, ident: string) returns (r: Outcome<Reply>)
    modifies file
    ensures r == ExtAdded(old(file.record), req.query, ident).0
    ensures file.record == After(old(file.record), ExtAdded(old(file.record), req.query, ident).1)
    ensures file.writes == Writes(old(file.writes), ExtAdded(old(file.record), req.query, ident).1)
  {
    var q := req.query;
    if "description" !in q || "license" !in q || "origin" !in q {
      return Ok(Teapot);
    }
    var e := ExtAsset(Unescape(q["description"]), Unescape(q["license"]), Unescape(q["origin"]));
    var p := file.Read();
    file.Write(p.(extAssets := Assign(p.extAssets, ident, e)));
    return Ok(Yes);
  }

  // ---------------------------------------------------------------------------
  // Dispatch (lines 276-300)

  /** Lines 276-300, with `job_prman` as corrected. */
  method App(req: Request, db: AssetDb, file: ProjectFile, jobs: Jobs.Scheduler, env: Env) returns (r: Outcome<Reply>)
    requires jobs.Valid()
    modifies db, file, jobs
    ensures jobs.Valid()
    ensures Dispatch(req, Names) == Refused404 ==> r == Ok(NotFound) && unchanged(db, file, jobs)
    ensures Dispatch(req, Names) == Refused418 ==> r == Ok(Teapot) && unchanged(db, file, jobs)
    ensures Dispatch(req, Names) == Handle("asset") ==>
      r == NewAsset(req, old(db.tree), env.types, env.templates).0
      && db.tree == NewAsset(req, old(db.tree), env.types, env.templates).1 && unchanged(file, jobs)
    ensures Dispatch(req, Names) == Handle("job") ==>
      var c := Carried(JobPlan(req, old(db.tree), env), req.project.value, env.uuid, env.now, jobs.cfg.binSearchOrder);
      r == c.0 && Queued(jobs, c, env.uuid) && unchanged(db, file)
    ensures Dispatch(req, Names) == Handle("job_prman") ==>
      var c := Carried(PrmanPlan(req, old(db.tree), env), req.project.value, env.uuid, env.now, jobs.cfg.binSearchOrder);
      r == c.0 && Queued(jobs, c, env.uuid) && unchanged(db, file)
    ensures Dispatch(req, Names) == Handle("role") ==>
      r == Ok(RoleAdded(old(file.record), req.query, env.members, env.uuid).0) && unchanged(db, jobs)
      && file.record == After(old(file.record), RoleAdded(old(file.record), req.query, env.members, env.uuid).1)
      && file.writes == Writes(old(file.writes), RoleAdded(old(file.record), req.query, env.members, env.uuid).1)
    ensures Dispatch(req, Names) == Handle("ext_asset") ==>
      r == ExtAdded(old(file.record), req.query, env.uuid).0 && unchanged(db, jobs)
      && file.record == After(old(file.record), ExtAdded(old(file.record), req.query, env.uuid).1)
      && file.writes == Writes(old(file.writes), ExtAdded(old(file.record), req.query, env.uuid).1)
  {
    var route := Dispatch(req, Names);
    if route == Refused404 {
      return Ok(NotFound);
    }
    if route == Refused418 {
      return Ok(Teapot);
    }
    var name := req.path[1];
    if name == "asset" {
      r := Asset(req, db, env.types, env.templates);
    } else if name == "job" {
      r := Carry(JobPlan(req, db.tree, env), req.project.value, env.uuid, env.now, jobs);
    } else if name == "job_prman" {
      r := Carry(PrmanPlan(req, db.tree, env), req.project.value, env.uuid, env.now, jobs);
    } else if name == "role" {
      var reply := AddRole(req, file, env.members, env.uuid);
      r := Ok(reply);
    } else {
      assert name == "ext_asset";
      r := AddExtAsset(req, file, env.uuid);
    }
  }
}
