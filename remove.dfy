/**
 * The removal requests (bin/remove.py): a role or an external asset is
 * removed from `project.json`, a render job from the job queue.
 *
 * The record of the logged-in project is the `ProjectFile` passed in; the
 * job queue is the `Jobs.Scheduler`.  Logging is left out.
 */
module Remove {
  import opened Py
  import opened Templates
  import opened Credits
  import opened Handlers
  import opened Lists
  import Jobs

  /** Line 109: the handlers `app` knows. */
  const Names: seq<string> := ["role", "job", "ext_asset"]

  /**
   * Lines 24-41 and 75-89 on the dictionary `t`: 418 without an 'ident'
   * query term, 'false' and no write for an ident the dictionary does not
   * have, otherwise 'true' and the dictionary without it written back.
   */
  function Removal<V>(t: Table<V>, query: map<string, string>): (r: (Reply, Option<Table<V>>))
    ensures "ident" !in query ==> r == (Teapot, None)
    ensures "ident" in query && Lookup(t, query["ident"]).None? ==> r == (No, None)
    ensures "ident" in query && Lookup(t, query["ident"]).Some? ==>
      r.0 == Yes && r.1.Some? && Lookup(r.1.value, query["ident"]).None?
      && (forall q :: q != query["ident"] ==> Lookup(r.1.value, q) == Lookup(t, q))
  {
    if "ident" !in query then (Teapot, None)
    else if Lookup(t, query["ident"]).None? then (No, None)
    else (Yes, Some(Delete(t, query["ident"])))
  }

  /** A dictionary written back has exactly one entry fewer, each key still once. */
  lemma RemovalShrinks<V>(t: Table<V>, query: map<string, string>)
    requires Unique(t)
    ensures Removal(t, query).1.Some? ==> Unique(Removal(t, query).1.value) && |Removal(t, query).1.value| == |t| - 1
  {
    if "ident" in query {
      DeleteUnique(t, query["ident"]);
    }
  }

  /** Repeating a removal answers 'false' and writes nothing. */
  lemma RemoveTwice<V>(t: Table<V>, query: map<string, string>)
    requires Removal(t, query).1.Some?
    ensures Removal(Removal(t, query).1.value, query) == (No, None)
  {
  }

  /** The record written back by `role` (lines 24-41). */
  function RoleWrite(rec: Record, query: map<string, string>): Option<Record> {
    var w := Removal(rec.roles, query).1;
    if w.Some? then Some(rec.(roles := w.value)) else None
  }

  /** The record written back by `ext_asset` (lines 72-89). */
  function ExtWrite(rec: Record, query: map<string, string>): Option<Record> {
    var w := Removal(rec.extAssets, query).1;
    if w.Some? then Some(rec.(extAssets := w.value)) else None
  }

  /** Lines 22-41. */
  method Role(req: Request, file: ProjectFile) returns (reply: Reply)
    modifies file
    ensures reply == Removal(old(file.record.roles), req.query).0
    ensures file.record == After(old(file.record), RoleWrite(old(file.record), req.query))
    ensures file.writes == Writes(old(file.writes), RoleWrite(old(file.record), req.query))
  {
    if "ident" !in req.query {
      return Teapot;
    }
    var ident := req.query["ident"];
    var p := file.Read();
    if Lookup(p.roles, ident).Some? {
      file.Write(p.(roles := Delete(p.roles, ident)));
      return Yes;
    }
    return No;
  }

  /** Lines 70-89. */
  method ExtAsset(req: Request, file: ProjectFile) returns (reply: Reply)
    modifies file
    ensures reply == Removal(old(file.record.extAssets), req.query).0
    ensures file.record == After(old(file.record), ExtWrite(old(file.record), req.query))
    ensures file.writes == Writes(old(file.writes), ExtWrite(old(file.record), req.query))
  {
    if "ident" !in req.query {
      return Teapot;
    }
    var ident := req.query["ident"];
    var p := file.Read();
    if Lookup(p.extAssets, ident).Some? {
      file.Write(p.(extAssets := Delete(p.extAssets, ident)));
      return Yes;
    }
    return No;
  }

  /** The reply of `job` (lines 45-64) for the queue's job files `jobs`. */
  function JobReply(path: seq<string>, jobs: set<string>): (r: Reply)
    ensures r == Teapot <==> |path| < 3
    ensures r == Yes <==> |path| >= 3 && path[2] + ".json" in jobs
  {
    if |path| < 3 then Teapot
    else if path[2] + ".json" in jobs then Yes
    else No
  }

  /** Lines 45-64: the job named by the third path term is removed when the queue has it. */
  method Job(req: Request, jobs: Jobs.Scheduler) returns (reply: Reply)
    requires jobs.Valid()
    modifies jobs
    ensures jobs.Valid()
    ensures reply == JobReply(req.path, old(jobs.jobs.Keys))
    ensures |req.path| < 3 ==> unchanged(jobs)
    ensures |req.path| >= 3 ==> jobs.jobs == old(jobs.jobs) - {req.path[2] + ".json"}
    ensures |req.path| >= 3 && req.path[2] + ".json" in old(jobs.jobs) ==>
      jobs.jobOrder == Without(old(jobs.jobOrder), req.path[2] + ".json")
    ensures |req.path| >= 3 && req.path[2] + ".json" !in old(jobs.jobs) ==> unchanged(jobs)
    ensures unchanged(jobs`nodes, jobs`nodeOrder, jobs`requireRate, jobs`requireInit)
  {
    if |req.path| < 3 {
      return Teapot;
    }
    var uuid := req.path[2];
    var present := jobs.Exists(uuid);
    if present {
      var _ := jobs.Remove(uuid);
      return Yes;
    }
    return No;
  }

  /** Lines 93-113. */
  method App(req: Request, file: ProjectFile, jobs: Jobs.Scheduler) returns (reply: Reply)
    requires jobs.Valid()
    modifies file, jobs
    ensures jobs.Valid()
    ensures Dispatch(req, Names) == Refused404 ==> reply == NotFound && unchanged(file) && unchanged(jobs)
    ensures Dispatch(req, Names) == Refused418 ==> reply == Teapot && unchanged(file) && unchanged(jobs)
    ensures Dispatch(req, Names) == Handle("role") ==>
      reply == Removal(old(file.record.roles), req.query).0 && unchanged(jobs)
      && file.record == After(old(file.record), RoleWrite(old(file.record), req.query))
      && file.writes == Writes(old(file.writes), RoleWrite(old(file.record), req.query))
    ensures Dispatch(req, Names) == Handle("ext_asset") ==>
      reply == Removal(old(file.record.extAssets), req.query).0 && unchanged(jobs)
      && file.record == After(old(file.record), ExtWrite(old(file.record), req.query))
      && file.writes == Writes(old(file.writes), ExtWrite(old(file.record), req.query))
    ensures Dispatch(req, Names) == Handle("job") ==>
      reply == JobReply(req.path, old(jobs.jobs.Keys)) && unchanged(file)
      && (|req.path| >= 3 ==> jobs.jobs == old(jobs.jobs) - {req.path[2] + ".json"})
  {
    var route := Dispatch(req, Names);
    if route == Refused404 {
      return NotFound;
    }
    if route == Refused418 {
      return Teapot;
    }
    if req.path[1] == "role" {
      reply := Role(req, file);
    } else if req.path[1] == "job" {
      reply := Job(req, jobs);
    } else {
      assert req.path[1] == "ext_asset";
      reply := ExtAsset(req, file);
    }
  }
}
