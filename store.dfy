/**
 * The update requests (bin/store.py): one key of an asset's record, the
 * priority or pause of a render job, the pause of a render node, a field
 * of the project, and the fields and the order of the roles and external
 * assets of `project.json`.
 *
 * The project's tree is an `AssetDb`, `project.json` a `ProjectFile`, the
 * queue a `Jobs.Scheduler`; the users of the project, its type records and
 * the 'low' and 'high' priorities of its defaults are parameters.
 * Logging is left out.
 */
module Store {
  import opened Py
  import opened Templates
  import opened Credits
  import opened Handlers
  import opened Lists
  import opened Sorting
  import opened Rfam
  import Jobs

  /** Lines 337-350: the handlers `app` knows. */
  const Names: seq<string> := ["asset", "job", "node", "project", "role", "ext_asset", "emergency"]

  /** The priorities the defaults' `priority.json` allows, from 'low' to 'high'. */
  datatype Range = Range(low: int, high: int)

  // ---------------------------------------------------------------------------
  // Assets (lines 20-96)

  /** Line 40: the keys of an asset's record a request may set. */
  const Editable: set<string> := {"name", "description", "owner", "type", "state", "priority", "render", "final", "support", "rating"}

  /** What a key and its value come to: a refusal, a new value for the key, or a supporter added or dropped. */
  datatype Change = Refuse(reply: Reply) | SetField(v: Field) | Support(user: string, on: bool)

  /**
   * Lines 40-81: a key outside the list, an owner who is not a member, an
   * unknown type, a flag other than 'true'/'false' or a supporter who is
   * not a member is refused with 418; a priority outside the range
   * answers 'false'; a priority that is no integer raises ValueError.
   */
  function Vetted(q: map<string, string>, key: string, value: string, members: seq<string>, types: seq<TypeRec>,
                  range: Range): Outcome<Change>
  {
    if key !in Editable then Ok(Refuse(Teapot))
    else if key == "owner" then
      if value == "" then Ok(SetField(Nil))
      else if value in members then Ok(SetField(Str(value)))
      else Ok(Refuse(Teapot))
    else if key == "priority" then
      match ParseInt(value)
      case None => Raise(ValueError)
      case Some(v) => if v < range.low || v > range.high then Ok(Refuse(No)) else Ok(SetField(Int(v)))
    else if key == "type" then
      if value in TypeIdents(types) then Ok(SetField(Str(value))) else Ok(Refuse(Teapot))
    else if key == "render" || key == "final" || key == "support" then
      if value != "true" && value != "false" then Ok(Refuse(Teapot))
      else if key != "support" then Ok(SetField(Bool(value == "true")))
      else if "user" !in q || Unescape(q["user"]) !in members then Ok(Refuse(Teapot))
      else Ok(Support(Unescape(q["user"]), value == "true"))
    else Ok(SetField(Str(value)))
  }

  /** What a stored value of a key may be. */
  predicate Allowed(key: string, f: Field, members: seq<string>, types: seq<TypeRec>, range: Range) {
    if key == "owner" then f == Nil || (f.Str? && f.s in members)
    else if key == "priority" then f.Int? && range.low <= f.i <= range.high
    else if key == "type" then f.Str? && GetType(types, f.s).Some?
    else if key == "render" || key == "final" then f.Bool?
    else key in Editable && key != "support" && f.Str?
  }

  /** Every value `Vetted` lets through is one the key allows, and every supporter is a member. */
  lemma VettedAllowed(q: map<string, string>, key: string, value: string, members: seq<string>, types: seq<TypeRec>,
                      range: Range)
    ensures var c := Vetted(q, key, value, members, types, range);
      (c.Ok? && c.value.SetField? ==> Allowed(key, c.value.v, members, types, range))
      && (c.Ok? && c.value.Support? ==> key == "support" && c.value.user in members)
      && (c.Raise? <==> key == "priority" && ParseInt(value).None?)
  {
    VettedSets(q, key, value, members, types, range);
    VettedSupports(q, key, value, members, types, range);
    VettedRaises(q, key, value, members, types, range);
  }

  /** A value `Vetted` sets is one the key allows. */
  lemma VettedSets(q: map<string, string>, key: string, value: string, members: seq<string>, types: seq<TypeRec>,
                   range: Range)
    ensures var c := Vetted(q, key, value, members, types, range);
      c.Ok? && c.value.SetField? ==> Allowed(key, c.value.v, members, types, range)
  {
    if key !in Editable || key == "owner" || key == "priority" {
    } else if key == "type" {
      TypeListed(types, value);
    } else if key == "render" || key == "final" || key == "support" {
      SetsFlag(q, key, value, members, types, range);
    } else {
      SetsText(q, key, value, members, types, range);
    }
  }

  /** The flags 'render' and 'final' are set to a boolean. */
  lemma SetsFlag(q: map<string, string>, key: string, value: string, members: seq<string>, types: seq<TypeRec>,
                 range: Range)
    requires key == "render" || key == "final" || key == "support"
    ensures var c := Vetted(q, key, value, members, types, range);
      c.Ok? && c.value.SetField? ==> key != "support" && c.value.v.Bool?
  {
  }

  /** Every other editable key is set to the text of its value. */
  lemma SetsText(q: map<string, string>, key: string, value: string, members: seq<string>, types: seq<TypeRec>,
                 range: Range)
    requires key in Editable && key !in {"owner", "priority", "type", "render", "final", "support"}
    ensures Vetted(q, key, value, members, types, range) == Ok(SetField(Str(value)))
    ensures Allowed(key, Str(value), members, types, range)
  {
  }

  /** A supporter `Vetted` adds or drops is a member, and only for the key 'support'. */
  lemma VettedSupports(q: map<string, string>, key: string, value: string, members: seq<string>, types: seq<TypeRec>,
                       range: Range)
    ensures var c := Vetted(q, key, value, members, types, range);
      c.Ok? && c.value.Support? ==> key == "support" && c.value.user in members
  {
  }

  /** `Vetted` raises exactly for a priority that is no integer. */
  lemma VettedRaises(q: map<string, string>, key: string, value: string, members: seq<string>, types: seq<TypeRec>,
                     range: Range)
    ensures Vetted(q, key, value, members, types, range).Raise? <==> key == "priority" && ParseInt(value).None?
  {
  }

  /**
   * What `set(value)` iterates: the items of a list, the one-character
   * strings of a string; None for a value that cannot be iterated.
   */
  function Iterated(f: Field): (r: Option<seq<string>>)
    ensures r.Some? <==> f.Strs? || f.Str?
    ensures f.Strs? ==> r == Some(f.items)
    ensures f.Str? ==> r.Some? && |r.value| == |f.s| && forall i :: 0 <= i < |f.s| ==> r.value[i] == [f.s[i]]
  {
    match f
    case Strs(items) => Some(items)
    case Str(s) => Some(seq(|s|, i requires 0 <= i < |s| => [s[i]]))
    case _ => None
  }

  /**
   * Lines 82-86: the supporters after adding or dropping `user`, once each.
   * A string counts as the list of its characters; a number, a boolean or
   * null cannot be iterated.
   */
  function Supporters(f: Field, user: string, on: bool): (r: Outcome<Field>)
    ensures r.Ok? <==> Iterated(f).Some?
    ensures r.Raise? ==> r.error == TypeError
    ensures r.Ok? ==> (r.value.Strs? && Distinct(r.value.items)
                       && forall x :: x in r.value.items <==> (x in Iterated(f).value && x != user) || (on && x == user))
  {
    match Iterated(f)
    case None => Raise(TypeError)
    case Some(items) =>
      if on then Ok(Strs(Dedup(items + [user])))
      else
        WithoutDistinct(Dedup(items), user);
        Ok(Strs(Without(Dedup(items), user)))
  }

  /** Lines 20-96: the reply, and the project's tree afterwards. */
  function AssetStored(req: Request, t: Tree, members: seq<string>, types: seq<TypeRec>, range: Range): (Outcome<Reply>, Tree) {
    var q := req.query;
    match JsonPath(Rest(req.path))
    case Raise(e) => (Raise(e), t)
    case Ok(jp) =>
      if "key" !in q || "value" !in q then (Raise(KeyError), t)
      else if jp !in t then (Ok(Teapot), t)
      else
        match Vetted(q, q["key"], Unescape(q["value"]), members, types, range)
        case Raise(e) => (Raise(e), t)
        case Ok(c) =>
          if c.Refuse? then (Ok(c.reply), t)
          else if !t[jp].Meta? then (Raise(TypeError), t)
          else
            var m := t[jp].fields;
            if c.SetField? then (Ok(Yes), t[jp := Meta(m[q["key"] := c.v])])
            else if "support" !in m then (Raise(KeyError), t)
            else
              match Supporters(m["support"], c.user, c.on)
              case Raise(e) => (Raise(e), t)
              case Ok(f) => (Ok(Yes), t[jp := Meta(m["support" := f])])
  }

  /**
   * An update that succeeds changes one key of the record the path names
   * and nothing else: a value the key allows, or the supporters with the
   * request's user added or dropped.
   */
  lemma AssetUpdated(req: Request, t: Tree, members: seq<string>, types: seq<TypeRec>, range: Range)
    requires AssetStored(req, t, members, types, range).0 == Ok(Yes)
    ensures JsonPath(Rest(req.path)).Ok? && "key" in req.query && "value" in req.query
    ensures var jp := JsonPath(Rest(req.path)).value; var key := req.query["key"];
      var u := AssetStored(req, t, members, types, range).1;
      jp in t && t[jp].Meta? && u.Keys == t.Keys && u[jp].Meta?
      && (forall p :: p in t && p != jp ==> u[p] == t[p])
      && u[jp].fields.Keys == t[jp].fields.Keys + {key}
      && (forall k :: k in t[jp].fields && k != key ==> u[jp].fields[k] == t[jp].fields[k])
      && (key != "support" ==> Allowed(key, u[jp].fields[key], members, types, range))
      && (key == "support" ==> SupportersStored(req, t, u, members))
  {
    var q := req.query;
    VettedAllowed(q, q["key"], Unescape(q["value"]), members, types, range);
    if q["key"] == "support" {
      SupportUpdated(req, t, members, types, range);
    }
  }

  /**
   * The supporters a 'support' update leaves: the request's user is a
   * member, and the list holds once each the old supporters without the
   * user, plus the user when the value is 'true'.
   */
  ghost predicate SupportersStored(req: Request, t: Tree, u: Tree, members: seq<string>)
    requires JsonPath(Rest(req.path)).Ok? && JsonPath(Rest(req.path)).value in t && JsonPath(Rest(req.path)).value in u
  {
    var jp := JsonPath(Rest(req.path)).value;
    "user" in req.query && "value" in req.query && Unescape(req.query["user"]) in members
    && t[jp].Meta? && u[jp].Meta? && "support" in t[jp].fields && "support" in u[jp].fields
    && u[jp].fields["support"].Strs? && Iterated(t[jp].fields["support"]).Some?
    && Distinct(u[jp].fields["support"].items)
    && forall x :: x in u[jp].fields["support"].items <==>
         (x in Iterated(t[jp].fields["support"]).value && x != Unescape(req.query["user"]))
         || (Unescape(req.query["value"]) == "true" && x == Unescape(req.query["user"]))
  }

  /** A 'support' update that succeeds stores the supporters `SupportersStored` describes. */
  lemma SupportUpdated(req: Request, t: Tree, members: seq<string>, types: seq<TypeRec>, range: Range)
    requires AssetStored(req, t, members, types, range).0 == Ok(Yes)
    requires "key" in req.query && req.query["key"] == "support"
    ensures JsonPath(Rest(req.path)).Ok? && JsonPath(Rest(req.path)).value in t
    ensures JsonPath(Rest(req.path)).value in AssetStored(req, t, members, types, range).1
    ensures SupportersStored(req, t, AssetStored(req, t, members, types, range).1, members)
  {
    var q := req.query;
    var jp := JsonPath(Rest(req.path)).value;
    var c := Vetted(q, q["key"], Unescape(q["value"]), members, types, range).value;
    var m := t[jp].fields;
    var f := Supporters(m["support"], c.user, c.on).value;
    assert AssetStored(req, t, members, types, range).1 == t[jp := Meta(m["support" := f])];
  }

  /** A key outside the list is refused with 418, and nothing is written. */
  lemma UnknownKeyRefused(req: Request, t: Tree, members: seq<string>, types: seq<TypeRec>, range: Range)
    requires |req.path| >= 3 && "key" in req.query && "value" in req.query && req.query["key"] !in Editable
    ensures AssetStored(req, t, members, types, range) == (Ok(Teapot), t)
  {
  }

  /** A number outside the range answers 'false', and nothing is written. */
  lemma PriorityOutOfRange(req: Request, t: Tree, members: seq<string>, types: seq<TypeRec>, range: Range)
    requires |req.path| >= 3 && "key" in req.query && "value" in req.query && req.query["key"] == "priority"
    requires JsonPath(Rest(req.path)).value in t
    requires ParseInt(Unescape(req.query["value"])).Some?
    requires var v := ParseInt(Unescape(req.query["value"])).value; v < range.low || v > range.high
    ensures AssetStored(req, t, members, types, range) == (Ok(No), t)
  {
  }

  /** Lines 20-96. */
  method Asset(req: Request, db: AssetDb, members: seq<string>, types: seq<TypeRec>, range: Range) returns (r: Outcome<Reply>)
    modifies db
    ensures r == AssetStored(req, old(db.tree), members, types, range).0
    ensures db.tree == AssetStored(req, old(db.tree), members, types, range).1
  {
    var q := req.query;
    var jp := JsonPath(Rest(req.path));
    if jp.Raise? {
      return Raise(jp.error);
    }
    if "key" !in q || "value" !in q {
      return Raise(KeyError);
    }
    var key := q["key"];
    if jp.value !in db.tree {
      return Ok(Teapot);
    }
    var c := Vetted(q, key, Unescape(q["value"]), members, types, range);
    if c.Raise? {
      return Raise(c.error);
    }
    if c.value.Refuse? {
      return Ok(c.value.reply);
    }
    var node := db.tree[jp.value];
    if !node.Meta? {
      return Raise(TypeError);
    }
    var m := node.fields;
    if c.value.SetField? {
      db.tree := db.tree[jp.value := Meta(m[key := c.value.v])];
      return Ok(Yes);
    }
    if "support" !in m {
      return Raise(KeyError);
    }
    var f := Supporters(m["support"], c.value.user, c.value.on);
    if f.Raise? {
      return Raise(f.error);
    }
    db.tree := db.tree[jp.value := Meta(m["support" := f.value])];
    return Ok(Yes);
  }

  // ---------------------------------------------------------------------------
  // Jobs and nodes (lines 100-164)

  /** What a job or node request comes to: an answer with the queue untouched, or a new priority or pause flag. */
  datatype Edit = Answer(reply: Outcome<Reply>) | SetPriority(v: int) | SetPause(b: bool)

  /**
   * Lines 100-126: a missing third path term is an IndexError, a missing
   * 'key' or 'value' a KeyError; an unknown job or key is refused with
   * 418, a priority outside the range answers 'false'.  `known` is
   * whether the queue has the job.
   */
  function JobEdit(req: Request, known: bool, range: Range): Edit {
    var q := req.query;
    if |req.path| < 3 then Answer(Raise(IndexError))
    else if "key" !in q || "value" !in q then Answer(Raise(KeyError))
    else if !known then Answer(Ok(Teapot))
    else if q["key"] == "priority" then
      match ParseInt(Unescape(q["value"]))
      case None => Answer(Raise(ValueError))
      case Some(v) => if v < range.low || v > range.high then Answer(Ok(No)) else SetPriority(v)
    else if q["key"] == "pause" then SetPause(Unescape(q["value"]) == "true")
    else Answer(Ok(Teapot))
  }

  /** A job is only changed when the queue has it: a priority in the range, or pausing exactly for 'true'. */
  lemma JobEditSound(req: Request, known: bool, range: Range)
    ensures var e := JobEdit(req, known, range);
      (!e.Answer? ==> known && |req.path| >= 3 && "key" in req.query && "value" in req.query)
      && (e.SetPriority? ==> (req.query["key"] == "priority" && range.low <= e.v <= range.high
                              && ParseInt(Unescape(req.query["value"])) == Some(e.v)))
      && (e.SetPause? ==> req.query["key"] == "pause" && (e.b <==> Unescape(req.query["value"]) == "true"))
      && (e.Answer? && e.reply.Ok? && |req.path| >= 3 && "key" in req.query && "value" in req.query && known ==>
            (e.reply == Ok(No) <==> req.query["key"] == "priority"))
  {
  }

  /** The job file a request names. */
  function JobFile(req: Request): string
    requires |req.path| >= 3
  {
    req.path[2] + ".json"
  }

  /**
   * The reply `r` and the queue after a job request: an answer leaves the
   * jobs alone; an edit of a stored record sets its priority or pause flag,
   * and one that cannot be decoded raises TypeError.  Only the jobs change.
   */
  twostate predicate JobEdited(jobs: Jobs.Scheduler, req: Request, range: Range, new r: Outcome<Reply>)
    reads jobs
  {
    var e := JobEdit(req, |req.path| >= 3 && JobFile(req) in old(jobs.jobs), range);
    (e.Answer? ==> r == e.reply && jobs.jobs == old(jobs.jobs))
    && (!e.Answer? ==>
          var fn := JobFile(req);
          fn in old(jobs.jobs)
          && (old(jobs.jobs)[fn].Undecodable? ==> r == Raise(TypeError) && jobs.jobs == old(jobs.jobs))
          && (old(jobs.jobs)[fn].Decoded? ==>
                r == Ok(Yes)
                && jobs.jobs == old(jobs.jobs)[fn := Jobs.Decoded(
                     if e.SetPriority? then old(jobs.jobs)[fn].value.(priority := e.v)
                     else old(jobs.jobs)[fn].value.(pause := e.b))]))
    && jobs.jobOrder == old(jobs.jobOrder) && jobs.nodes == old(jobs.nodes) && jobs.nodeOrder == old(jobs.nodeOrder)
    && jobs.requireRate == old(jobs.requireRate) && jobs.requireInit == old(jobs.requireInit)
  }

  /** Lines 100-135. */
  method Job(req: Request, jobs: Jobs.Scheduler, range: Range) returns (r: Outcome<Reply>)
    requires jobs.Valid()
    modifies jobs
    ensures jobs.Valid()
    ensures JobEdited(jobs, req, range, r)
  {
    var known := false;
    if |req.path| >= 3 {
      known := jobs.Exists(req.path[2]);
    }
    var e := JobEdit(req, known, range);
    if e.Answer? {
      return e.reply;
    }
    var done;
    if e.SetPriority? {
      done := jobs.JobPriority(req.path[2], e.v);
    } else {
      done := jobs.JobPause(req.path[2], e.b);
    }
    if done.Raise? {
      return Raise(done.error);
    }
    return Ok(Yes);
  }

  /** Lines 139-157: as for a job, with pausing the only key. */
  function NodeEdit(req: Request, known: bool): (e: Edit)
    ensures !e.SetPriority?
  {
    var q := req.query;
    if |req.path| < 3 then Answer(Raise(IndexError))
    else if "key" !in q || "value" !in q then Answer(Raise(KeyError))
    else if !known || q["key"] != "pause" then Answer(Ok(Teapot))
    else SetPause(Unescape(q["value"]) == "true")
  }

  /** A node is only changed when the queue knows it and the key is 'pause'. */
  lemma NodeEditSound(req: Request, known: bool)
    ensures var e := NodeEdit(req, known);
      (e.SetPause? <==> |req.path| >= 3 && "key" in req.query && "value" in req.query && known && req.query["key"] == "pause")
      && (e.SetPause? ==> (e.b <==> Unescape(req.query["value"]) == "true"))
  {
  }

  /** The reply `r` and the queue after a node request: only a known node's pause flag can change. */
  twostate predicate NodeEdited(jobs: Jobs.Scheduler, req: Request, new r: Outcome<Reply>)
    reads jobs
  {
    var e := NodeEdit(req, |req.path| >= 3 && JobFile(req) in old(jobs.nodes));
    (e.Answer? ==> r == e.reply && jobs.nodes == old(jobs.nodes))
    && (e.SetPause? ==>
          var fn := JobFile(req);
          fn in old(jobs.nodes)
          && (old(jobs.nodes)[fn].Undecodable? ==> r == Raise(TypeError) && jobs.nodes == old(jobs.nodes))
          && (old(jobs.nodes)[fn].Decoded? ==>
                r == Ok(Yes) && jobs.nodes == old(jobs.nodes)[fn := Jobs.PauseStored(old(jobs.nodes)[fn], e.b)]))
    && jobs.jobs == old(jobs.jobs) && jobs.jobOrder == old(jobs.jobOrder) && jobs.nodeOrder == old(jobs.nodeOrder)
    && jobs.requireRate == old(jobs.requireRate) && jobs.requireInit == old(jobs.requireInit)
  }

  /** Lines 139-164. */
  method Node(req: Request, jobs: Jobs.Scheduler) returns (r: Outcome<Reply>)
    requires jobs.Valid()
    modifies jobs
    ensures jobs.Valid()
    ensures NodeEdited(jobs, req, r)
  {
    var known := false;
    if |req.path| >= 3 {
      known := jobs.NodeExists(req.path[2]);
    }
    var e := NodeEdit(req, known);
    if e.Answer? {
      return e.reply;
    }
    var done := jobs.NodePause(req.path[2], e.b);
    if done.Raise? {
      return Raise(done.error);
    }
    return Ok(Yes);
  }

  // ---------------------------------------------------------------------------
  // The project (lines 168-200)

  /**
   * Lines 168-200: 'title', 'description' and 'license' are written;
   * 'default' calls `rfam.set_proj_defaults`, which the server does not
   * have (AttributeError); any other key, or a missing term, is refused.
   */
  function ProjectEdited(rec: Record, q: map<string, string>): (r: (Outcome<Reply>, Option<Record>))
    ensures r.1.Some? <==> "key" in q && "value" in q && q["key"] in {"title", "description", "license"}
    ensures r.1.Some? ==> r.0 == Ok(Yes) && r.1.value.roles == rec.roles && r.1.value.extAssets == rec.extAssets
    ensures r.1.Some? ==> var v := Unescape(q["value"]);
      (r.1.value.title == if q["key"] == "title" then v else rec.title)
      && (r.1.value.description == if q["key"] == "description" then v else rec.description)
      && (r.1.value.license == if q["key"] == "license" then v else rec.license)
    ensures r.0 == Raise(AttributeError) <==> "key" in q && "value" in q && q["key"] == "default"
  {
    if "key" !in q || "value" !in q then (Ok(Teapot), None)
    else
      var v := Unescape(q["value"]);
      match q["key"]
      case "title" => (Ok(Yes), Some(rec.(title := v)))
      case "description" => (Ok(Yes), Some(rec.(description := v)))
      case "license" => (Ok(Yes), Some(rec.(license := v)))
      case "default" => (Raise(AttributeError), None)
      case _ => (Ok(Teapot), None)
  }

  /** Lines 168-200. */
  method Project(req: Request, file: ProjectFile) returns (r: Outcome<Reply>)
    modifies file
    ensures r == ProjectEdited(old(file.record), req.query).0
    ensures file.record == After(old(file.record), ProjectEdited(old(file.record), req.query).1)
    ensures file.writes == Writes(old(file.writes), ProjectEdited(old(file.record), req.query).1)
  {
    var q := req.query;
    if "key" !in q || "value" !in q {
      return Ok(Teapot);
    }
    var key := q["key"];
    var value := Unescape(q["value"]);
    if key == "title" || key == "description" || key == "license" {
      var p := file.Read();
      if key == "title" {
        p := p.(title := value);
      } else if key == "description" {
        p := p.(description := value);
      } else {
        p := p.(license := value);
      }
      file.Write(p);
      return Ok(Yes);
    }
    if key == "default" {
      return Raise(AttributeError);
    }
    return Ok(Teapot);
  }

  // ---------------------------------------------------------------------------
  // External assets (lines 281-319)

  /** `e[key] = value` for one of the three fields. */
  function ExtWith(e: ExtAsset, key: string, value: string): ExtAsset {
    if key == "description" then e.(description := value)
    else if key == "license" then e.(license := value)
    else e.(origin := value)
  }

  /**
   * Lines 281-319: 418 for a short path, a missing term or another key,
   * 'false' for an ident the project lacks, otherwise the field written.
   */
  function ExtEdited(rec: Record, path: seq<string>, q: map<string, string>): (Reply, Option<Record>) {
    if |path| < 3 || "key" !in q || "value" !in q || q["key"] !in {"description", "license", "origin"} then (Teapot, None)
    else
      match Lookup(rec.extAssets, path[2])
      case None => (No, None)
      case Some(e) => (Yes, Some(rec.(extAssets := Assign(rec.extAssets, path[2], ExtWith(e, q["key"], Unescape(q["value"]))))))
  }

  /** An edit changes the one field of the one external asset, keeps every key once, and nothing else. */
  lemma ExtEdit(rec: Record, path: seq<string>, q: map<string, string>)
    requires Unique(rec.extAssets)
    ensures var r := ExtEdited(rec, path, q);
      (r.1.Some? <==> r.0 == Yes)
      && (r.0 == Yes <==> |path| >= 3 && "key" in q && "value" in q && q["key"] in {"description", "license", "origin"}
                          && Lookup(rec.extAssets, path[2]).Some?)
      && (r.1.Some? ==>
            var old_e := Lookup(rec.extAssets, path[2]).value;
            var e := Lookup(r.1.value.extAssets, path[2]).value;
            var v := Unescape(q["value"]);
            r.1.value == rec.(extAssets := r.1.value.extAssets) && Unique(r.1.value.extAssets)
            && Keys(r.1.value.extAssets) == Keys(rec.extAssets)
            && (forall k :: k != path[2] ==> Lookup(r.1.value.extAssets, k) == Lookup(rec.extAssets, k))
            && e.description == (if q["key"] == "description" then v else old_e.description)
            && e.license == (if q["key"] == "license" then v else old_e.license)
            && e.origin == (if q["key"] == "origin" then v else old_e.origin))
  {
    var r := ExtEdited(rec, path, q);
    if r.1.Some? {
      var e := Lookup(rec.extAssets, path[2]).value;
      AssignInPlace(rec.extAssets, path[2], ExtWith(e, q["key"], Unescape(q["value"])));
      AssignUnique(rec.extAssets, path[2], ExtWith(e, q["key"], Unescape(q["value"])));
    }
  }

  /** Lines 281-319. */
  method ExtAsset(req: Request, file: ProjectFile) returns (reply: Reply)
    modifies file
    ensures reply == ExtEdited(old(file.record), req.path, req.query).0
    ensures file.record == After(old(file.record), ExtEdited(old(file.record), req.path, req.query).1)
    ensures file.writes == Writes(old(file.writes), ExtEdited(old(file.record), req.path, req.query).1)
  {
    var q := req.query;
    if |req.path| < 3 || "key" !in q || "value" !in q {
      return Teapot;
    }
    var key := q["key"];
    if key != "description" && key != "license" && key != "origin" {
      return Teapot;
    }
    var ident := req.path[2];
    var p := file.Read();
    var e := Lookup(p.extAssets, ident);
    if e.None? {
      return No;
    }
    file.Write(p.(extAssets := Assign(p.extAssets, ident, ExtWith(e.value, key, Unescape(q["value"])))));
    return Yes;
  }

  // ---------------------------------------------------------------------------
  // Roles (lines 204-277)

  /** Line 245: the roles' entries ranked by 'order'. */
  function ByEntryOrder(): ((string, Role), (string, Role)) -> bool {
    (a: (string, Role), b: (string, Role)) => a.1.order <= b.1.order
  }

  lemma EntryOrderTotal()
    ensures TotalPreorder(ByEntryOrder())
  {
  }

  /** Line 245: the entries in the order the credits list them, ties in dictionary order. */
  function Ranked(t: Table<Role>): (s: Table<Role>)
    ensures multiset(s) == multiset(t) && |s| == |t|
  {
    Sort(t, ByEntryOrder())
  }

  /** Line 246, `order.index(ident)`: where a key first stands. */
  function IndexOf(s: Table<Role>, k: string): (i: nat)
    requires exists j :: 0 <= j < |s| && s[j].0 == k
    ensures i < |s| && s[i].0 == k && forall j :: 0 <= j < i ==> s[j].0 != k
  {
    if s[0].0 == k then 0
    else
      assert exists j :: 0 <= j < |s[1..]| && s[1..][j].0 == k by {
        var j :| 0 <= j < |s| && s[j].0 == k;
        assert s[1..][j - 1] == s[j];
      }
      var i := IndexOf(s[1..], k);
      assert s[i + 1] == s[1..][i];
      1 + i
  }

  /** A key of the table is a key of its ranking. */
  lemma RankedHas(t: Table<Role>, k: string)
    requires Lookup(t, k).Some?
    ensures exists j :: 0 <= j < |Ranked(t)| && Ranked(t)[j].0 == k
  {
    var i :| 0 <= i < |t| && t[i] == (k, Lookup(t, k).value);
    assert t[i] in multiset(Ranked(t));
    var j :| 0 <= j < |Ranked(t)| && Ranked(t)[j] == t[i];
  }

  /**
   * Lines 248-256: the role that a move up (before it in the ranking) or
   * down (after it) trades places with, None at either end.
   */
  function Neighbour(t: Table<Role>, ident: string, up: bool): Option<string>
    requires Lookup(t, ident).Some?
  {
    RankedHas(t, ident);
    var s := Ranked(t);
    var pos := IndexOf(s, ident);
    if up then (if pos != 0 then Some(s[pos - 1].0) else None)
    else if pos + 1 != |s| then Some(s[pos + 1].0) else None
  }

  /** Lines 250-256: the two roles exchange their orders. */
  function Swapped(t: Table<Role>, a: string, b: string): Table<Role>
    requires Lookup(t, a).Some? && Lookup(t, b).Some?
  {
    var ra := Lookup(t, a).value;
    var rb := Lookup(t, b).value;
    var u := Assign(t, a, ra.(order := rb.order));
    Assign(u, b, rb.(order := ra.order))
  }

  /** Lines 243-258: the roles after a move. */
  function Moved(t: Table<Role>, ident: string, up: bool): Table<Role>
    requires Lookup(t, ident).Some?
  {
    match Neighbour(t, ident, up)
    case None => t
    case Some(other) =>
      var s := Ranked(t);
      assert exists j :: 0 <= j < |t| && t[j].0 == other by {
        RankedHas(t, ident);
        var pos := IndexOf(s, ident);
        var j := if up then pos - 1 else pos + 1;
        assert s[j] in multiset(t);
      }
      Swapped(t, ident, other)
  }

  /**
   * Lines 204-277: 418 for a short path, a missing or unknown key, a
   * missing value or a user who is not a member; 'false' for a role the
   * project lacks; otherwise the field set, or the role moved (written
   * even when it is already at the end).
   */
  function RoleEdited(rec: Record, path: seq<string>, q: map<string, string>, members: seq<string>): (Reply, Option<Record>) {
    if |path| < 3 || "key" !in q || q["key"] !in {"role", "user", "up", "down"} then (Teapot, None)
    else
      var key := q["key"];
      var move := key == "up" || key == "down";
      if !move && "value" !in q then (Teapot, None)
      else if key == "user" && Unescape(q["value"]) !in members then (Teapot, None)
      else
        match Lookup(rec.roles, path[2])
        case None => (No, None)
        case Some(role) =>
          if move then (Yes, Some(rec.(roles := Moved(rec.roles, path[2], key == "up"))))
          else
            var v := Unescape(q["value"]);
            (Yes, Some(rec.(roles := Assign(rec.roles, path[2], if key == "role" then role.(role := v) else role.(user := v)))))
  }

  /** In a table without repeated keys an entry occurs once. */
  lemma {:induction false} OnceInUnique(t: Table<Role>, a: nat)
    requires Unique(t) && a < |t|
    ensures multiset(t)[t[a]] == 1
  {
    var x := t[a];
    assert t == t[..a] + [x] + t[a + 1..];
    assert x !in t[..a] by {
      forall i | 0 <= i < a ensures t[..a][i] != x {
        assert t[..a][i] == t[i];
      }
    }
    var rest := t[a + 1..];
    assert x !in rest by {
      forall i | 0 <= i < |rest| ensures rest[i] != x {
        assert rest[i] == t[a + 1 + i];
      }
    }
    assert multiset(t) == multiset(t[..a]) + multiset{x} + multiset(t[a + 1..]);
  }

  /** The ranking of a table without repeated keys has none either, and each of its entries is what its key looks up. */
  lemma RankedUnique(t: Table<Role>)
    requires Unique(t)
    ensures Unique(Ranked(t))
    ensures forall j :: 0 <= j < |Ranked(t)| ==> Lookup(t, Ranked(t)[j].0) == Some(Ranked(t)[j].1)
  {
    var s := Ranked(t);
    forall j | 0 <= j < |s| ensures Lookup(t, s[j].0) == Some(s[j].1) {
      assert s[j] in multiset(t);
      var a :| 0 <= a < |t| && t[a] == s[j];
      LookupUnique(t, a);
    }
    forall i, j | 0 <= i < j < |s| ensures s[i].0 != s[j].0 {
      if s[i].0 == s[j].0 {
        assert s[i] in multiset(t);
        var a :| 0 <= a < |t| && t[a] == s[i];
        assert s[j] in multiset(t);
        var b :| 0 <= b < |t| && t[b] == s[j];
        assert a == b;
        OnceInUnique(t, a);
        TwiceInSeq(s, i, j);
      }
    }
  }

  /** An entry at two places of a sequence occurs at least twice. */
  lemma TwiceInSeq(s: Table<Role>, i: nat, j: nat)
    requires i < j < |s| && s[i] == s[j]
    ensures multiset(s)[s[i]] >= 2
  {
    assert s == s[..i] + [s[i]] + s[i + 1..j] + [s[j]] + s[j + 1..];
    assert multiset(s) == multiset(s[..i]) + multiset{s[i]} + multiset(s[i + 1..j]) + multiset{s[j]} + multiset(s[j + 1..]);
  }

  /**
   * A move exchanges the orders of the role and the neighbour it trades
   * with, a different role, and changes nothing else; moving up never
   * raises the role's order and moving down never lowers it.
   */
  lemma MoveSwaps(t: Table<Role>, ident: string, up: bool)
    requires Unique(t) && Lookup(t, ident).Some?
    ensures var u := Moved(t, ident, up); var n := Neighbour(t, ident, up); var ri := Lookup(t, ident).value;
      Keys(u) == Keys(t) && Unique(u)
      && (n.None? ==> u == t)
      && (n.Some? ==>
            n.value != ident && Lookup(t, n.value).Some?
            && Lookup(u, ident) == Some(ri.(order := Lookup(t, n.value).value.order))
            && Lookup(u, n.value) == Some(Lookup(t, n.value).value.(order := ri.order))
            && (forall k :: k != ident && k != n.value ==> Lookup(u, k) == Lookup(t, k))
            && (up ==> Lookup(t, n.value).value.order <= ri.order)
            && (!up ==> ri.order <= Lookup(t, n.value).value.order))
  {
    var n := Neighbour(t, ident, up);
    if n.Some? {
      RankedHas(t, ident);
      RankedUnique(t);
      EntryOrderTotal();
      SortSorted(t, ByEntryOrder());
      var s := Ranked(t);
      var pos := IndexOf(s, ident);
      var j := if up then pos - 1 else pos + 1;
      assert n.value == s[j].0 && j != pos;
      assert ByEntryOrder()(s[if up then j else pos], s[if up then pos else j]);
      var ri := Lookup(t, ident).value;
      var ro := Lookup(t, n.value).value;
      var w := Assign(t, ident, ri.(order := ro.order));
      AssignInPlace(t, ident, ri.(order := ro.order));
      AssignUnique(t, ident, ri.(order := ro.order));
      AssignInPlace(w, n.value, ro.(order := ri.order));
      AssignUnique(w, n.value, ro.(order := ri.order));
    }
  }

  /** A role ranked first cannot move up, and one ranked last cannot move down. */
  lemma MoveAtEnds(t: Table<Role>, ident: string)
    requires Unique(t) && Lookup(t, ident).Some?
    ensures Neighbour(t, ident, true).None? <==> Ranked(t)[0].0 == ident
    ensures Neighbour(t, ident, false).None? <==> Ranked(t)[|t| - 1].0 == ident
  {
    RankedHas(t, ident);
    RankedUnique(t);
    var s := Ranked(t);
    var pos := IndexOf(s, ident);
    assert Neighbour(t, ident, true).None? <==> pos == 0;
    assert Neighbour(t, ident, false).None? <==> pos == |s| - 1;
    assert s[pos].0 == ident;
  }

  /**
   * An edit of a role keeps the roles' keys in place, each once, and the
   * rest of the record; setting a field changes only that field of that
   * role, and a user given a role is a member of the project.
   */
  lemma RoleEdit(rec: Record, path: seq<string>, q: map<string, string>, members: seq<string>)
    requires Unique(rec.roles)
    ensures var r := RoleEdited(rec, path, q, members);
      (r.0 == Yes <==> r.1.Some?)
      && (r.1.Some? ==>
            |path| >= 3 && Lookup(rec.roles, path[2]).Some?
            && r.1.value == rec.(roles := r.1.value.roles)
            && Keys(r.1.value.roles) == Keys(rec.roles) && Unique(r.1.value.roles))
      && (r.1.Some? && (q["key"] == "role" || q["key"] == "user") ==>
            var before := Lookup(rec.roles, path[2]).value;
            var after := Lookup(r.1.value.roles, path[2]).value;
            (forall k :: k != path[2] ==> Lookup(r.1.value.roles, k) == Lookup(rec.roles, k))
            && after.order == before.order
            && after.role == (if q["key"] == "role" then Unescape(q["value"]) else before.role)
            && after.user == (if q["key"] == "user" then Unescape(q["value"]) else before.user)
            && (q["key"] == "user" ==> after.user in members))
  {
    var r := RoleEdited(rec, path, q, members);
    if r.1.Some? {
      var key := q["key"];
      if key == "up" || key == "down" {
        MoveSwaps(rec.roles, path[2], key == "up");
      } else {
        var role := Lookup(rec.roles, path[2]).value;
        var v := Unescape(q["value"]);
        var nr := if key == "role" then role.(role := v) else role.(user := v);
        AssignInPlace(rec.roles, path[2], nr);
        AssignUnique(rec.roles, path[2], nr);
      }
    }
  }

  /** Lines 204-277. */
  method Role(req: Request, file: ProjectFile, members: seq<string>) returns (reply: Reply)
    modifies file
    ensures reply == RoleEdited(old(file.record), req.path, req.query, members).0
    ensures file.record == After(old(file.record), RoleEdited(old(file.record), req.path, req.query, members).1)
    ensures file.writes == Writes(old(file.writes), RoleEdited(old(file.record), req.path, req.query, members).1)
  {
    var q := req.query;
    if |req.path| < 3 || "key" !in q {
      return Teapot;
    }
    var ident := req.path[2];
    var key := q["key"];
    if key != "role" && key != "user" && key != "up" && key != "down" {
      return Teapot;
    }
    var move := key == "up" || key == "down";
    var value := "";
    if !move {
      if "value" !in q {
        return Teapot;
      }
      value := Unescape(q["value"]);
    }
    if key == "user" && value !in members {
      return Teapot;
    }
    var p := file.Read();
    var role := Lookup(p.roles, ident);
    if role.None? {
      return No;
    }
    if move {
      file.Write(p.(roles := Moved(p.roles, ident, key == "up")));
    } else if key == "role" {
      file.Write(p.(roles := Assign(p.roles, ident, role.value.(role := value))));
    } else {
      file.Write(p.(roles := Assign(p.roles, ident, role.value.(user := value))));
    }
    return Yes;
  }

  // ---------------------------------------------------------------------------
  // Dispatch (lines 323-351)

  /**
   * Lines 323-351.  The 'emergency' route calls a handler that is not
   * defined in this module, a NameError.
   */
  method App(req: Request, db: AssetDb, file: ProjectFile, jobs: Jobs.Scheduler, members: seq<string>,
             types: seq<TypeRec>, range: Range) returns (r: Outcome<Reply>)
    requires jobs.Valid()
    modifies db, file, jobs
    ensures jobs.Valid()
    ensures Dispatch(req, Names) == Refused404 ==> r == Ok(NotFound) && unchanged(db, file, jobs)
    ensures Dispatch(req, Names) == Refused418 ==> r == Ok(Teapot) && unchanged(db, file, jobs)
    ensures Dispatch(req, Names) == Handle("asset") ==>
      r == AssetStored(req, old(db.tree), members, types, range).0
      && db.tree == AssetStored(req, old(db.tree), members, types, range).1 && unchanged(file, jobs)
    ensures Dispatch(req, Names) == Handle("job") ==> unchanged(db, file) && JobEdited(jobs, req, range, r)
    ensures Dispatch(req, Names) == Handle("node") ==> unchanged(db, file) && NodeEdited(jobs, req, r)
    ensures Dispatch(req, Names) == Handle("project") ==>
      r == ProjectEdited(old(file.record), req.query).0 && unchanged(db, jobs)
      && file.record == After(old(file.record), ProjectEdited(old(file.record), req.query).1)
      && file.writes == Writes(old(file.writes), ProjectEdited(old(file.record), req.query).1)
    ensures Dispatch(req, Names) == Handle("role") ==>
      r == Ok(RoleEdited(old(file.record), req.path, req.query, members).0) && unchanged(db, jobs)
      && file.record == After(old(file.record), RoleEdited(old(file.record), req.path, req.query, members).1)
      && file.writes == Writes(old(file.writes), RoleEdited(old(file.record), req.path, req.query, members).1)
    ensures Dispatch(req, Names) == Handle("ext_asset") ==>
      r == Ok(ExtEdited(old(file.record), req.path, req.query).0) && unchanged(db, jobs)
      && file.record == After(old(file.record), ExtEdited(old(file.record), req.path, req.query).1)
      && file.writes == Writes(old(file.writes), ExtEdited(old(file.record), req.path, req.query).1)
    ensures Dispatch(req, Names) == Handle("emergency") ==> r == Raise(NameError) && unchanged(db, file, jobs)
  {
    var route := Dispatch(req, Names);
    if route == Refused404 {
      return Ok(NotFound);
    }
    if route == Refused418 {
      return Ok(Teapot);
    }
    var name := req.path[1];
    if name == "asset" {
      r := Asset(req, db, members, types, range);
    } else if name == "job" {
      r := Job(req, jobs, range);
    } else if name == "node" {
      r := Node(req, jobs);
    } else if name == "project" {
      r := Project(req, file);
    } else if name == "role" {
      var reply := Role(req, file, members);
      r := Ok(reply);
    } else if name == "ext_asset" {
      var reply := ExtAsset(req, file);
      r := Ok(reply);
    } else {
      assert name == "emergency";
      r := Raise(NameError);
    }
  }
}
