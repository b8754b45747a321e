/**
 * What the update handlers of bin/add.py, bin/store.py and bin/remove.py
 * share: the request as they see it, what they leave in the response, the
 * dispatch on the second path term, and the `project.json` record that
 * they read, change and write back.
 *
 * A handler first calls `setJSON` and then either resets the response with
 * `make404`/`make418` or appends text to it; `Reply` is what the response
 * then holds.  An exception a handler lets escape is `Raise` of an
 * `Outcome<Reply>`.
 */
module Handlers {
  import opened Py
  import opened Templates
  import opened Credits

  /** `response.user`, `response.project`, `response.getPath()` and `response.getQuery()`. */
  datatype Request = Request(user: Option<string>, project: Option<string>, path: seq<string>, query: map<string, string>)

  /** The 404 page, the 418 page, or the chunks appended after `setJSON`. */
  datatype Reply = NotFound | Teapot | Json(chunks: seq<string>)

  const Yes: Reply := Json(["true"])
  const No: Reply := Json(["false"])

  /** Both a user and a project are known. */
  predicate LoggedIn(req: Request) {
    req.user.Some? && req.project.Some?
  }

  /** Which way an `app` goes: 404, 418, or the handler named by the second path term. */
  datatype Route = Refused404 | Refused418 | Handle(name: string)

  /**
   * The `app` functions (bin/add.py:276-300, bin/store.py:323-351,
   * bin/remove.py:93-113): 404 when nobody is logged in, 418 for a path of
   * fewer than two terms or an unknown handler.
   */
  function Dispatch(req: Request, names: seq<string>): (r: Route)
    ensures r == Refused404 <==> !LoggedIn(req)
    ensures r.Handle? <==> LoggedIn(req) && |req.path| >= 2 && req.path[1] in names
    ensures r.Handle? ==> r.name == req.path[1] && r.name in names
  {
    if !LoggedIn(req) then Refused404
    else if |req.path| < 2 || req.path[1] !in names then Refused418
    else Handle(req.path[1])
  }

  /** `getPath()[2:]`. */
  function Rest(path: seq<string>): seq<string> {
    if |path| >= 2 then path[2..] else []
  }

  /** `json_path = path[:]; json_path[-1] += '.json'`: an empty path is an IndexError. */
  function JsonPath(path: seq<string>): (r: Outcome<seq<string>>)
    ensures r.Raise? <==> |path| == 0
    ensures r.Ok? ==> (|r.value| == |path| && r.value[..|path| - 1] == path[..|path| - 1]
                       && r.value[|path| - 1] == path[|path| - 1] + ".json")
  {
    if |path| == 0 then Raise(IndexError) else Ok(path[..|path| - 1] + [path[|path| - 1] + ".json"])
  }

  /** `xml.sax.saxutils.escape`: '&' first, then '>' and '<'. */
  function Escape(s: string): string {
    Replace(Replace(Replace(s, "&", "&amp;"), ">", "&gt;"), "<", "&lt;")
  }

  /** `xml.sax.saxutils.unescape`: '&lt;' and '&gt;' first, '&amp;' last. */
  function Unescape(s: string): string {
    Replace(Replace(Replace(s, "&lt;", "<"), "&gt;", ">"), "&amp;", "&")
  }

  // ---------------------------------------------------------------------------
  // Dictionaries

  /** `del d[k]`. */
  function Delete<V>(t: Table<V>, k: string): (r: Table<V>)
    ensures Lookup(r, k).None?
    ensures forall q :: q != k ==> Lookup(r, q) == Lookup(t, q)
    ensures |r| <= |t|
    decreases |t|
  {
    if |t| == 0 then []
    else if t[0].0 == k then Delete(t[1..], k)
    else
      var r := [t[0]] + Delete(t[1..], k);
      assert r[1..] == Delete(t[1..], k);
      r
  }

  /** Deleting a key keeps every other key once, and removes one entry when the key was there. */
  lemma {:induction false} DeleteUnique<V>(t: Table<V>, k: string)
    requires Unique(t)
    ensures Unique(Delete(t, k))
    ensures |Delete(t, k)| == if Lookup(t, k).Some? then |t| - 1 else |t|
    decreases |t|
  {
    if |t| > 0 {
      assert Unique(t[1..]) by {
        forall i, j | 0 <= i < j < |t[1..]| ensures t[1..][i].0 != t[1..][j].0 {
          assert t[1..][i] == t[i + 1] && t[1..][j] == t[j + 1];
        }
      }
      DeleteUnique(t[1..], k);
      var d := Delete(t[1..], k);
      assert Lookup(t[1..], t[0].0).None? by {
        forall j | 0 <= j < |t[1..]| ensures t[1..][j].0 != t[0].0 {
          assert t[1..][j] == t[j + 1];
        }
      }
      if t[0].0 == k {
        assert Lookup(t[1..], k).None?;
        assert Lookup(t, k).Some?;
      } else {
        var r := [t[0]] + d;
        assert Delete(t, k) == r;
        assert Lookup(d, t[0].0).None?;
        assert Lookup(t, k) == Lookup(t[1..], k);
        forall i, j | 0 <= i < j < |r| ensures r[i].0 != r[j].0 {
          if i == 0 {
            assert r[j] == d[j - 1];
          } else {
            assert r[i] == d[i - 1] && r[j] == d[j - 1];
          }
        }
      }
    }
  }

  // ---------------------------------------------------------------------------
  // project.json

  /** The parts of `project.json` the handlers read and write. */
  datatype Record = Record(roles: Table<Role>, extAssets: Table<ExtAsset>, title: string, description: string, license: string)

  /** `rfam.proj(project)['project.json']`: its contents, and how many writes it has seen. */
  class ProjectFile {
    var record: Record
    var writes: nat

    constructor(r: Record)
      ensures record == r && writes == 0
    {
      record := r;
      writes := 0;
    }

    /** `proj.read()`. */
    method Read() returns (r: Record)
      ensures r == record
    {
      r := record;
    }

    /** `proj.write(p)`. */
    method Write(r: Record)
      modifies this
      ensures record == r && writes == old(writes) + 1
    {
      record := r;
      writes := writes + 1;
    }
  }

  /** The record after a handler that writes `w` back, or nothing. */
  function After(rec: Record, w: Option<Record>): Record {
    if w.Some? then w.value else rec
  }

  /** One more write when something is written back. */
  function Writes(n: nat, w: Option<Record>): nat {
    if w.Some? then n + 1 else n
  }

  // ---------------------------------------------------------------------------
  // The project's files as the handlers see them

  /** A value of an asset's `.json` record. */
  datatype Field = Str(s: string) | Int(i: int) | Bool(b: bool) | Strs(items: seq<string>) | Nil

  /** A directory, a plain file, or a `.json` record. */
  datatype Entry = Dir | Blob | Meta(fields: map<string, Field>)

  /**
   * `rfam.proj(project)`: every entry of the project's tree by its path;
   * the root (the empty path) is a directory and is not listed.
   */
  type Tree = map<seq<string>, Entry>

  /** `db[p].isa() == DIRECTORY`. */
  predicate IsDir(t: Tree, p: seq<string>) {
    p == [] || (p in t && t[p] == Dir)
  }

  /** `p in db`. */
  predicate Has(t: Tree, p: seq<string>) {
    p == [] || p in t
  }

  /** The tree of the logged-in project. */
  class AssetDb {
    var tree: Tree

    constructor(t: Tree)
      ensures tree == t
    {
      tree := t;
    }
  }
}
