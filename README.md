# rfam, modelled in Dafny

rfam is a small render farm with an asset manager for animation projects.
The server (`bin/`) keeps a project's assets as a directory tree of JSON
records. It serves web pages and JSON endpoints over them. It also keeps a
queue of render jobs that render nodes (`node/`) poll for frames. A node owns
one or more worker slots, each running Blender or RenderMan on one frame.
A launcher (`prenode/`) counts how much work is waiting so that a cluster
can be asked for nodes.

This project models the core of that system and proves what it promises:

- **Python semantics** (`Py`, `Lists`, `Sorting`): exceptions as an
  `Outcome`, `None` as `Option`, and the string, integer and list builtins the
  code relies on, each characterised by lemmas.
- **The file database** (`FsDb`, `FsDbCache`, `FsDbFacts`): the cached tree
  of `fs_db.FSDB`. It covers listings with their cache time, lock files,
  reading and writing JSON records, `create`, `remove` and the walks over a
  tree.
- **The scheduler** (`Jobs`): job and node records, `report`,
  `task_select` with its weighted draw over capability buckets,
  `task_alive`, `task_done`, `potential_jobs`, and the frame bookkeeping
  that these keep consistent.
- **The endpoints**: `Farm` (the node protocol), `Potential`, `Rendering`
  (the job table), `Priority` (dependency-boosted task priorities),
  `Credits`, `Add`, `Store` and `Remove` (the update handlers, sharing
  `Handlers`), `Response` (the WSGI response object), `Templates` (the
  template system) and `Misc` (`format_bytes`).
- **The server state** (`Rfam`): the project and user indices, the
  databases opened per project, the state menu of an asset type and the
  render-time report.
- **The Alfred script parser** (`AlfArgs`, `Alf`, `AlfExtract`,
  `AlfHierarchy`): brace matching, the option scanner, the split of a
  script into jobs, tasks and commands, and the commands of each frame.
- **The render node** (`Node`, `Worker`, `PrmanWorker`): the hello cycle
  with the farm, and the Blender and RenderMan slots as classes whose
  methods follow a specification on values.
- **The launcher** (`Prenode`): the count of jobs to hand to the cluster.

Code that changes objects is modelled as classes with `modifies` clauses:
- `Jobs.Scheduler`, `FsDbCache.Db`, `Rfam.Server`, `Response.Response`,
  `Templates.Templates`, `Handlers.ProjectFile`, `Handlers.AssetDb`, `Node.Node`,
  `Worker.Worker` and `PrmanWorker.Prman`.

Each method of these classes is proved to change its fields exactly as a
function on values says. What the source promises is then proved about
those functions.

The clock, random draws, process output, the network and the contents of
files read from disk are parameters of the operations that use them.

## Model

| member | source | states |
|---|---|---|
| Py.ToLocalFacts | node/node.py:78-81 | A path `head::tail` converts to the head's local root joined with the tail; an unknown head is a KeyError and a path without `::` a ValueError. |
| Py.PathJoinUnder | bin/rfam.py:103-106 | A relative tail joined to a local root starts with that root and ends with the tail. |
| Lists.PickIsFirstReach | bin/jobs.py:332-350 | The cumulative draw stops at the first index where the running total of the weights reaches the drawn value; when it runs off the end, no running total reaches it. |
| Lists.PickSucceeds | bin/jobs.py:332-350 | With non-negative weights and a draw no larger than their sum, the draw always stops at some index. |
| Lists.DrawStops | bin/jobs.py:332-350 | A draw `u * sum(ws)` with `0 <= u < 1` over non-negative weights always stops. |
| Lists.Draw | bin/jobs.py:347-350 | The subtracting loop stops where the recursive draw `Pick` stops, whose first-reach property `PickIsFirstReach` proves. |
| Lists.Total | bin/jobs.py:341-343 | The accumulating loop ends with the sum of the weights. |
| Misc.FirstFit | bin/misc.py:22-23 | The loop stops at the first (largest) unit that the byte count reaches, or runs past all four. |
| Misc.FormatBytes | bin/misc.py:18-26 | The count is shown in plain bytes exactly when it is below 1024, and then unchanged. |
| Misc.FormatBand | bin/misc.py:20-24 | KiB, MiB and GiB are chosen exactly when the count lies in `[1024^k, 1024^(k+1))` and TiB for anything from `1024^4` up; the value shown is the count divided by `1024^k`. |
| Templates.Lookup | bin/templates.py:39-41 | A dictionary lookup finds a value exactly when the key is present, and the value is the one paired with it. |
| Templates.Assign | bin/templates.py:81 | After `t[k] = v`, `k` maps to `v` and every other key keeps its value. |
| Templates.AssignUnique | bin/templates.py:81 | Assigning a key keeps every key of the dictionary once. |
| Templates.AssignInPlace | bin/templates.py:81 | Assigning a key the dictionary already has keeps its keys in their order. |
| Templates.AssignEntries | bin/templates.py:81 | Every pair after `t[k] = v` is the new pair or one the dictionary had. |
| Templates.SplitKey | bin/templates.py:31-37 | The key splits at its first ':' into prefix and name; without ':' the prefix is empty and the name the whole key. |
| Templates.GetItem | bin/templates.py:30-41 | A missing prefix or a missing key gives '', otherwise the value the prefix's dictionary holds for the name. |
| Templates.Named | bin/templates.py:45-50 | The names iteration reports: each key itself under the '' prefix, `prefix:key` under any other, dictionary by dictionary. |
| Templates.IterAsWrittenFails | bin/templates.py:43-44 | For a `PrefixDict` holding any key, iterating as written raises AttributeError (`dict.iteritems` is gone in Python 3), although `__len__` answers a positive length. |
| Templates.IterLen | bin/templates.py:43-53 | Iterating as intended reports exactly as many names as `__len__` counts. |
| Templates.SplitNamed | bin/templates.py:31-37 | The name iteration reports for a key under a prefix splits back into that prefix and key. |
| Templates.GetNamed | bin/templates.py:30-53 | Looking up a name iteration reports gives back the value of the pair it came from, when no prefix or key repeats. |
| Templates.NameParentOf | bin/templates.py:73-75 | A file `name:parent.html` gives the template name `name` with parent `parent`. |
| Templates.NameWithoutParent | bin/templates.py:76-78 | A file `name.html` without ':' gives the template name `name` with no parent. |
| Templates.LoadedNames | bin/templates.py:61-81 | A template name is loaded exactly when some `.html` file of the directory gives it. |
| Templates.LoadedLastWins | bin/templates.py:81 | The template loaded under a name is the one from the last `.html` file giving that name. |
| Templates.Chain | bin/templates.py:94-98 | The chain of template names from `name` through the parents, stopping at a missing parent, a missing template or a repeat. |
| Templates.Step | bin/templates.py:95-97 | One template filled, with 'inner' first set to the text so far when there is one. |
| Templates.Along | bin/templates.py:95-97 | Filling the templates of a chain in turn, each with the text of the ones before as 'inner'. |
| Templates.ChainLinks | bin/templates.py:94-98 | Every name of a chain is loaded and each is the parent of the one before it. |
| Templates.RenderAlong | bin/templates.py:94-98 | Rendering ends with the text of the last template when the chain of parents ends, with KeyError when it reaches a missing template, and never ends on a cycle. |
| Templates.AlongLast | bin/templates.py:96-97 | The last template of a chain is filled with 'inner' set to the text of the templates before it. |
| Templates.StepInner | bin/templates.py:96 | A step sets 'inner' to the text so far, if there is one, and changes no other key. |
| Templates.Templates.constructor | bin/templates.py:59-84 | The loaded templates are those the directory's `.html` files give, the last file winning for a name. |
| Templates.Templates.Call | bin/templates.py:87-100 | The loop renders the chain as `RenderAlong` says, leaves `dic` with the last 'inner' set, and reports a cycle instead of looping for ever. |
| Sorting.Insert | bin/credits.py:37 | Inserting into a list gives a list one longer holding the same elements plus the new one. |
| Sorting.Sort | bin/credits.py:37 | `sorted` returns a permutation of its input. |
| Sorting.InsertSorted | bin/credits.py:37 | Under a total preorder, inserting into a sorted list keeps it sorted. |
| Sorting.SortSorted | bin/credits.py:37 | Under a total preorder, `sorted` returns an ordered list. |
| Sorting.EqualRankInsert | bin/rendering.py:38 | Inserting an element puts it ahead of the elements of its own rank, and leaves the others of that rank in order. |
| Sorting.SortStable | bin/rendering.py:38 | `sort` is stable: the elements of any one rank keep the order they had in the input. |
| Sorting.StrLeTotal | bin/credits.py:54 | Any two strings compare one way or the other. |
| Sorting.StrLeTrans | bin/credits.py:54 | String comparison is transitive. |
| Sorting.StrLeAntisymmetric | bin/credits.py:54 | Two strings each at most the other are equal. |
| Credits.Dedup | bin/credits.py:33 | `set(users)` as a list: every user once, and no one else. |
| Credits.Keep | bin/credits.py:48 | The members of a list that are not yet taken by a role, and only those. |
| Credits.CreditsPage | bin/credits.py:20-72 | Without a user or a project the login page is shown; otherwise the page raises exactly when building its text raises. |
| Credits.RolesInOrder | bin/credits.py:37 | The roles are listed by ascending 'order', and roles of equal order keep the order the project lists them in. |
| Credits.RolesRaise | bin/credits.py:45 | The text of the roles raises exactly when some role's user has no name. |
| Credits.RolesNamed | bin/credits.py:45-46 | When no role raises, the name of the user of every role appears in the text. |
| Credits.SpareUsers | bin/credits.py:33-54 | The users listed after the roles are sorted by ident, are exactly the project's users no role names, and each appears once. |
| Credits.ExtInOrder | bin/credits.py:60 | The external assets are listed sorted by description and form a permutation of the project's list. |
| Credits.KeepWithout | bin/credits.py:48 | Discarding the user of one more role from the spare list is keeping the users outside the larger taken set. |
| Credits.KeepNothing | bin/credits.py:33 | Before any role every user is spare. |
| Credits.RolesStopped | bin/credits.py:45 | Once the role at position `k` cannot be named, the text of all roles raises as the first `k + 1` do. |
| Credits.NamesStopped | bin/credits.py:55 | Once the user at position `k` cannot be named, the text of all users raises as the first `k + 1` do. |
| Credits.Credits | bin/credits.py:20-72 | The handler's loops produce exactly the page `CreditsPage` specifies. |
| Credits.Text | bin/credits.py:33-72 | The chunks appended, in order, as `CreditsText` specifies them. |
| Credits.RolesPart | bin/credits.py:33-48 | The role loop yields the role text and the spare users, or the error of the first role that cannot be named. |
| Credits.RoleTurn | bin/credits.py:38-46 | One turn of the role loop extends the text of the first `k` roles to that of the first `k + 1`. |
| Credits.NamesPart | bin/credits.py:54-56 | The loop over the spare users yields one line per user, or the error of the first without a name. |
| Credits.ExtPart | bin/credits.py:60-66 | The loop over the external assets yields six chunks per asset, as `ExtText` specifies. |
| Farm.Reported | bin/farm.py:39-41 | An identity request leaves the jobs alone, keeps every node record and leaves a readable record for the reporting node. |
| Farm.CountSeen | bin/farm.py:48-53 | The count of yielded records seen no earlier than the cut-off is at most the number of records. |
| Farm.Recent | bin/farm.py:49-53 | The same count over the nodes directory is at most the number of node files. |
| Farm.CountSeenLive | bin/farm.py:48-53 | Counting the records `iternodes` yields equals counting over the directory. |
| Farm.CountSeenAll | bin/farm.py:51-53 | When every yielded record is recent, all of them are counted. |
| Farm.InfoCountsLive | bin/farm.py:48-53 | Without the overdue display the info count is the number of live nodes `iternodes` yields. |
| Farm.Beat | bin/farm.py:55-59 | The heartbeat sent is exactly min(hibernation, max(heartbeat, rate-controlled)): never above hibernation, never above the larger of the two, and at least both of them unless it is hibernation. |
| Farm.Choice | bin/farm.py:71 | One `task_select` changes only the jobs of the scheduler. |
| Farm.DealsKeeps | bin/farm.py:70-76 | The task loop changes only the jobs of the scheduler. |
| Farm.DealtSound | bin/farm.py:70-76 | The capability rates stay positive however the task loop ends. |
| Farm.StepSound | bin/farm.py:37-87 | Every request leaves the rates positive, so the next task request may select. |
| Farm.RunAppend | bin/farm.py:36-87 | Running two lists of requests one after the other is running their concatenation. |
| Farm.UnknownStops | bin/farm.py:85-87 | An unrecognised id answers 418 and ignores the requests after it; the scheduler keeps what the requests before it did. |
| Farm.DealsAppends | bin/farm.py:70-76 | The task loop appends at most `count` commandments, all of them tasks. |
| Farm.StepAppends | bin/farm.py:37-87 | Identity and done add no commandment, info adds one info entry, a task request adds at most `count` tasks and none for a paused node, and a report adds a kill exactly when `task_alive` answers False; only identity changes the name. |
| Farm.KillIff | bin/farm.py:78-80 | A node is told to kill a frame exactly when its job is gone or the frame is recorded as worked on by another node. |
| Farm.RunAppends | bin/farm.py:36-87 | Over a batch the commandments only grow, and the name in force is the one the last identity request gave. |
| Farm.CountLive | bin/farm.py:48-53 | The counting loop ends with the count `CountSeen` specifies. |
| Farm.Select1 | bin/farm.py:71 | One `task_select` through the scheduler gives the task and the state `Choice` specifies. |
| Farm.Deal | bin/farm.py:70-76 | The task loop through the scheduler gives the commandments and the state the fold `Dealt` specifies. |
| Farm.Sweep | bin/farm.py:49-50 | Running `iternodes` to the end leaves the scheduler as `Swept` says and yields the live node records. |
| Farm.Census | bin/farm.py:47-53 | The info count through the scheduler is the number of recent node records. |
| Farm.Inform | bin/farm.py:43-62 | The info request through the scheduler gives the commandment and state `Informed` specifies. |
| Farm.Handle | bin/farm.py:37-87 | One request through the scheduler gives the outcome and state `Step` specifies. |
| Farm.Serve | bin/farm.py:21-91 | The handler answers and leaves the scheduler as the fold `App` over the requests says, and keeps the scheduler valid. |
| Handlers.Dispatch | bin/add.py:276-300 | 404 exactly when no user or project is known; a handler runs exactly when the second path term names one, and it is that handler. |
| Handlers.JsonPath | bin/add.py:140-141 | With an empty path the edit of the last term is an IndexError; otherwise the same path with '.json' added to its last term. |
| Handlers.Delete | bin/remove.py:37 | After `del d[k]`, `k` is absent, every other key keeps its value, and nothing is added. |
| Handlers.DeleteUnique | bin/remove.py:37 | Deleting a key keeps every remaining key once and removes exactly one entry when the key was present. |
| Handlers.ProjectFile.constructor | bin/add.py:227 | The record starts as given, with no write yet. |
| Handlers.ProjectFile.Read | bin/add.py:228 | `proj.read()` returns the current record. |
| Handlers.ProjectFile.Write | bin/add.py:234 | `proj.write(p)` replaces the record and counts one more write. |
| Handlers.AssetDb.constructor | bin/add.py:51 | The tree starts as given. |
| Potential.SnapshotOf | bin/potential.py:37-39 | A job's snapshot has a frame count that is never negative. |
| Potential.Snapshots | bin/potential.py:34-41 | One snapshot per job. |
| Potential.SnapshotsAt | bin/potential.py:34-41 | The k-th snapshot describes the k-th job. |
| Potential.SnapshotFrames | bin/potential.py:37 | The frame count is the frames the job still owes plus those done, whatever its failed list holds. |
| Potential.ClaimKeepsFrames | bin/potential.py:37 | Handing a frame of a plain job to a node does not change the job's frame count. |
| Potential.TeapotUnlessString | bin/potential.py:24-26 | The answer is 418 exactly when the body is not a string, and then no job is tagged. |
| Potential.ListedExactly | bin/potential.py:30-41 | One snapshot per readable job not yet offered to the name, in listing order, each describing that job. |
| Potential.SecondAskEmpty | bin/potential.py:30-41 | Asking again under the same name lists nothing and changes nothing. |
| Potential.Serve | bin/potential.py:20-46 | The handler answers and leaves the job directory as `Answered` says, and touches nothing else of the scheduler. |
| Prenode.Issued | prenode/run.py:71-73 | The cluster command is issued exactly when the count is not zero, and with that count. |
| Prenode.TotalAppend | prenode/run.py:51-66 | The count over two runs of jobs is the sum of their counts. |
| Prenode.TotalZero | prenode/run.py:51-73 | With non-negative frame counts the count is never negative, and it is zero exactly when no runnable job contributes anything. |
| Prenode.Runs | prenode/run.py:55-59 | The loop over the requirements decides that every requirement is offered. |
| Prenode.CountJobs | prenode/run.py:51-66 | The loop over the snapshots ends with the count `Total` specifies. |
| Remove.Removal | bin/remove.py:24-41 | 418 without an 'ident' query term; 'false' and no write for an ident the dictionary lacks; otherwise 'true' and the dictionary without that ident written back. |
| Remove.RemovalShrinks | bin/remove.py:37-39 | A dictionary written back has exactly one entry fewer, with each key still once. |
| Remove.RemoveTwice | bin/remove.py:24-41 | Repeating a removal answers 'false' and writes nothing. |
| Remove.Role | bin/remove.py:22-41 | The role removal answers and writes back `project.json` as `Removal` says for its roles. |
| Remove.ExtAsset | bin/remove.py:70-89 | The external asset removal answers and writes back as `Removal` says for the external assets. |
| Remove.JobReply | bin/remove.py:45-64 | 418 exactly when the path has fewer than three terms; 'true' exactly when the queue has the named job. |
| Remove.Job | bin/remove.py:45-64 | The named job file is taken out of the queue when present, with nothing else changed; the reply follows `JobReply`. |
| Remove.App | bin/remove.py:93-113 | 404 and 418 change nothing; each handler name runs its handler with its effect. |
| Add.NormComps | bin/add.py:46 | The components `normpath` keeps are never '' or '.'. |
| Add.NormPath | bin/add.py:46 | `os.path.normpath` never returns an empty string. |
| Add.Parts | bin/add.py:46 | A normalised filename always has at least one component. |
| Add.CheckParts | bin/add.py:47-50 | The loop accepts exactly when every component is sane: not empty, not starting with '.', without '\\', '?' or '*'. |
| Add.NormCompsKeeps | bin/add.py:46 | Sane relative components pass through `normpath` unchanged. |
| Add.SaneAccepted | bin/add.py:46-50 | A relative filename made only of sane components is accepted as it stands, and its components are those it is created under. |
| Add.AbsoluteRefused | bin/add.py:46-50 | An absolute filename is always refused. |
| Add.EmptyRefused | bin/add.py:46-50 | An empty filename normalises to '.', which is refused. |
| Add.MakeDirs | bin/add.py:53 | Making the directories along a key fails only with TypeError. |
| Add.PrefixSplit | bin/add.py:53 | The prefixes of a key are those of the key without its last component, and the key itself. |
| Add.MadeDirs | bin/add.py:53 | `create` fails exactly when some prefix of the key is a file; otherwise every prefix is a directory afterwards, every old entry is kept, and every new entry is a directory along the key. |
| Add.MetaOf | bin/add.py:69 | The new record exists exactly when the type record has every copied key; it is then fresh (no owner, no supporters, no dependencies) and carries the type's ident. |
| Add.Placement | bin/add.py:55-75 | A placement answering 'true' stores the record; for a file type it copies the template to a target that was free; every other entry is kept. |
| Add.Unfolded | bin/add.py:27-75 | A created asset passed every check of lines 30-53, and its tree is the placement on the tree after `create`. |
| Add.NewAsset | bin/add.py:27-75 | A missing query term or an unknown type answers 418 and an insane filename 'false', each leaving the tree unchanged. |
| Add.AssetCreated | bin/add.py:27-75 | A created asset leaves the directories along its path, a fresh record named as asked, and every other entry as it was, bar the template copy. |
| Add.FileClash | bin/add.py:54-57 | For a file type, a target that already exists answers 'false' after `create`. |
| Add.RecordReplaced | bin/add.py:54-71 | For a type without a file, an existing record of the same name is replaced and the answer is 'true'. |
| Add.Asset | bin/add.py:27-75 | The handler answers and leaves the tree as `NewAsset` specifies. |
| Add.Place | bin/add.py:55-75 | The placement step leaves the tree as `Placed` specifies. |
| Add.IntOf | bin/add.py:89-90 | `int(query[k])` is Ok exactly when the term is present and parses, with its value; a missing term is KeyError and an unparsable one ValueError. |
| Add.JoinAllUnder | bin/add.py:101 | Joining relative components keeps the directory at the start of the file name. |
| Add.Ask | bin/add.py:89-91 | The request is read exactly when 'name', 'final' and integer 'start' and 'end' terms are present, and then holds those values. |
| Add.PrmanAsWrittenNeverLaunches | bin/add.py:153-154 | As written, `job_prman` never adds a job, and where the corrected one would it raises TypeError. |
| Add.NotAlfRefused | bin/add.py:85 | A name that is not an '.alf' file gets the error message; as written it raises NameError. |
| Add.ClampedFrames | bin/add.py:119-135 | The overlap of the requested and the exported frames is empty exactly when the range message is sent; a launched job renders exactly the frames in both, warns about texture commands exactly when there are some, reports the ranges, and records the metadata path of the script's asset. |
| Add.PrmanReaches | bin/add.py:91-118 | A script that parses leads to the clamping step on the path's file under the project's directory. |
| Add.JobLaunched | bin/add.py:167-203 | A plain job is only added for a path the project has, over exactly the requested frames and on the path's file, with the path's metadata record as its `meta`. |
| Add.JobAsWrittenAddsAnyway | bin/add.py:177-179 | Corrected and as written agree on a path the project has; on one it lacks the corrected handler answers 'false', while as written the job is added all the same. |
| Add.Carry | bin/add.py:139-162 | The reply is the plan's. A created job is stored under its uuid, and a new uuid joins the end of the job order. A stopped plan or a failed creation stores nothing. Nodes and rates are untouched. |
| Add.AssignNew | bin/add.py:236 | Assigning a key the dictionary lacks appends it. |
| Add.MaxOrder | bin/add.py:230 | The greatest 'order' of the roles bounds them all and is one of them. |
| Add.NextOrder | bin/add.py:229-232 | The new order is 0 for the first role, above every order there is, and one more than some existing order. |
| Add.NewRoleLast | bin/add.py:205-239 | A role is added exactly when 'role' and 'user' are given and the user is a member of the project; the new entry comes last, with an order above every other, and nothing else of the record changes. |
| Add.AddRole | bin/add.py:205-239 | The handler answers and writes back `project.json` as `RoleAdded` specifies. |
| Add.ExtAssetLast | bin/add.py:242-273 | An asset is added exactly when 'description', 'license' and 'origin' are given; it comes after the others and nothing else changes; as written the stored asset is then reported as an AttributeError. |
| Add.AddExtAsset | bin/add.py:242-273 | The handler answers and writes back as `ExtAdded` specifies. |
| Add.App | bin/add.py:276-300 | 404 and 418 change nothing. 'asset' gives `NewAsset`'s reply and tree. The two job routes give `Carried`'s reply and the queue `Queued` describes. 'role' and 'ext_asset' give their handler's reply, record and write count. Each route leaves the other objects alone. |
| Store.VettedAllowed | bin/store.py:38-78 | Every value the checks let through is one the key allows, every supporter named is a member, and the checks raise exactly for a 'priority' that is not an integer. |
| Store.Iterated | bin/store.py:83 | `set(value)` iterates the items of a list and the one-character strings of a string; any other value cannot be iterated. |
| Store.Supporters | bin/store.py:81-86 | The supporters afterwards hold each name once: the old ones, which for a string are its characters, without the user, plus the user when adding; a number, a boolean or null raises TypeError. |
| Store.AssetUpdated | bin/store.py:20-96 | An update answering 'true' changes one key of the record the path names and nothing else, to a value the key allows, or to the supporters with the request's user added or dropped. |
| Store.SupportUpdated | bin/store.py:67-86 | A 'support' update answering 'true' is from a member of the project and stores the old supporters without that user, plus the user when the value is 'true', each once. |
| Store.UnknownKeyRefused | bin/store.py:39-41 | A key outside the editable list answers 418, and nothing is written. |
| Store.PriorityOutOfRange | bin/store.py:49-55 | A priority outside the project's 'low' to 'high' range answers 'false', and nothing is written. |
| Store.Asset | bin/store.py:20-96 | The handler answers and leaves the tree as `AssetStored` specifies. |
| Store.JobEditSound | bin/store.py:100-135 | A job is only changed when the queue has it and the terms are present: to a priority in the range, or paused exactly for 'true'; 'false' comes only for a priority. |
| Store.Job | bin/store.py:100-135 | `JobEdited`: only the named job record changes, by the edit `JobEdit` decides; an undecodable one raises TypeError and changes nothing; the job order, nodes and rates stay. |
| Store.NodeEdit | bin/store.py:139-157 | The node edit never sets a priority. |
| Store.NodeEditSound | bin/store.py:139-157 | A node is paused or resumed exactly when the queue knows it, the terms are present and the key is 'pause', and paused exactly for 'true'. |
| Store.Node | bin/store.py:139-164 | `NodeEdited`: only the named node record changes, by the edit `NodeEdit` decides; an undecodable one raises TypeError; nothing else of the queue changes. |
| Store.ProjectEdited | bin/store.py:168-200 | 'title', 'description' and 'license' are written, each changing only its own field; 'default' raises AttributeError; nothing else is written. |
| Store.Project | bin/store.py:168-200 | The handler answers and writes back `project.json` as `ProjectEdited` specifies. |
| Store.ExtEdit | bin/store.py:281-319 | An edit answers 'true' exactly when the terms are right and the asset exists; it changes the one field of that asset, keeps every key once, and nothing else. |
| Store.ExtAsset | bin/store.py:281-319 | The handler answers and writes back as `ExtEdited` specifies. |
| Store.EntryOrderTotal | bin/store.py:246 | Ordering roles by 'order' is a total preorder, so the sort is well defined. |
| Store.Ranked | bin/store.py:246 | The roles in the order the credits list them is a permutation of the roles. |
| Store.IndexOf | bin/store.py:247 | `order.index(ident)` is the first position holding the key. |
| Store.RankedHas | bin/store.py:246-247 | Every key of the roles is found in the ranking, so `index` does not raise. |
| Store.OnceInUnique | bin/store.py:246 | In a table without repeated keys each entry occurs once. |
| Store.RankedUnique | bin/store.py:246 | The ranking of roles without repeated keys has none either, and each of its entries is what its key looks up. |
| Store.MoveSwaps | bin/store.py:246-260 | A move keeps the keys, each once, and exchanges the orders of the role and the neighbour it trades with, changing nothing else; moving up never raises the role's order and moving down never lowers it; without a neighbour nothing changes. |
| Store.MoveAtEnds | bin/store.py:249-258 | A role has no neighbour above exactly when it is ranked first, and none below exactly when it is ranked last. |
| Store.RoleEdit | bin/store.py:204-277 | A role edit answers 'true' exactly when it writes, keeps the roles' keys, each once, and the rest of the record; setting 'role' or 'user' changes only that field of that role, and a user given a role is a member. |
| Store.Role | bin/store.py:204-277 | The handler answers and writes back as `RoleEdited` specifies. |
| Store.App | bin/store.py:323-351 | 404 and 418 change nothing. 'asset' gives `AssetStored`'s reply and tree. 'job' and 'node' make exactly the queue edit `JobEdited` or `NodeEdited` describes. 'project', 'role' and 'ext_asset' give their handler's reply, record and write count. 'emergency' raises NameError. Each route leaves the other objects alone. |
| Jobs.Half | bin/jobs.py:41 | The middle index of a pair that is split lies strictly inside it. |
| Jobs.SplitShrinks | bin/jobs.py:40-45 | Queueing the two halves in place of a split pair lowers the queue's measure, so the loop ends. |
| Jobs.SplitValid | bin/jobs.py:40-45 | The middle index of a split pair is in range, and the halves keep every queued pair in range. |
| Jobs.Split | bin/jobs.py:33-45 | Popping the front pair keeps the queue in range; splitting a wide pair keeps it in range and shrinks it. |
| Jobs.DrainStep | bin/jobs.py:33-45 | One turn of the loop: a narrow pair emits its items `low..high-1`, a wide one its middle item and queues its halves. |
| Jobs.AppendSlice | bin/jobs.py:37-38 | The append loop adds the items `low` to `high - 1` in order. |
| Jobs.BinSearchOrder | bin/jobs.py:28-48 | An empty list raises IndexError; otherwise the loop yields the breadth-first order `BinSearch`. |
| Jobs.DrainMultiset | bin/jobs.py:33-45 | Draining emits exactly what was already output plus every item the queued pairs cover. |
| Jobs.DrainExtends | bin/jobs.py:33-45 | What was output before draining stays a prefix of the result. |
| Jobs.BinSearchPermutation | bin/jobs.py:28-48 | For two or more items the order is a permutation of them. |
| Jobs.BinSearchEnds | bin/jobs.py:31 | The order starts with the first and the last item. |
| Jobs.BinSearchSingle | bin/jobs.py:31 | A single item comes out twice. |
| Jobs.BinSearchOneToTen | bin/jobs.py:28-48 | Frames 1..10 come out as 1, 10, 6, 4, 7, 8, 9, 2, 3, 5. |
| Jobs.RateProduct | bin/jobs.py:300-301 | The product of the positive rates of the rated requirements is positive. |
| Jobs.DivideByRates | bin/jobs.py:300-301 | Dividing by the rate of each requirement raises KeyError exactly when some requirement has no rate, and otherwise divides by their product. |
| Jobs.WeightAsWrittenFails | bin/jobs.py:301 | For any job with a requirement the loop as written raises UnboundLocalError, where the intended weight exists. |
| Jobs.WeightAgreesWithoutRequirements | bin/jobs.py:299-307 | Without requirements the as-written and the intended weight agree. |
| Jobs.WeightPositive | bin/jobs.py:299-307 | The intended weight is positive, and raises KeyError exactly when some requirement has no rate. |
| Jobs.AddCandidate | bin/jobs.py:310 | Appending to the project's queue keeps the projects in first-insertion order and adds at most one new project. |
| Jobs.ChooseProject | bin/jobs.py:314-338 | The project drawn is one of the projects. |
| Jobs.ClaimSucceedsIff | bin/jobs.py:361-387 | A claim succeeds exactly when the job has a frame to do, or retry is on and some entry has timed out. |
| Jobs.ClaimShape | bin/jobs.py:361-387 | A plain job hands out its first todo frame, a video job its whole range; the retry path takes the first timed-out entry, counts an error and forgets a video's partial result; one entry owned by the caller is appended and nothing else of the job changes. |
| Jobs.ClaimConserves | bin/jobs.py:361-387 | A claim that does not take a fresh video range neither loses nor invents frames: todo plus working holds the same frames before and after. |
| Jobs.GatherFacts | bin/jobs.py:265-310 | The gathering fails with KeyError exactly when an eligible job needs an unrated capability; otherwise it holds every eligible job under its project with its weight, and is empty exactly when no job is eligible. |
| Jobs.CandidateClaimed | bin/jobs.py:353-387 | A gathered candidate, re-read through its uuid, is claimed from the file it was gathered from. |
| Jobs.DrawsFacts | bin/jobs.py:313-387 | The draws give nothing exactly when there are no options, raise only UnboundLocalError, and claim only from an eligible job. |
| Jobs.ClaimStoredFacts | bin/jobs.py:353-387 | Re-reading raises exactly for a missing or unreadable file; a claimed task is the claim on the stored record, answered from the record written. |
| Jobs.SelectFacts | bin/jobs.py:257-390 | A selection gives nothing exactly when no listed job is eligible; otherwise a frame of an eligible job, or KeyError or UnboundLocalError. |
| Jobs.ChooseProjectSucceeds | bin/jobs.py:314-338 | With non-negative project priorities and a draw in [0, 1), the project draw stops. |
| Jobs.JobDrawSucceeds | bin/jobs.py:341-350 | Every gathered weight is positive, so the job draw stops. |
| Jobs.DrawsSucceed | bin/jobs.py:313-387 | Over gathered, non-empty options with usable priorities, both draws stop and the claim succeeds. |
| Jobs.SelectSucceeds | bin/jobs.py:257-390 | With non-negative project priorities, draws in [0, 1) and rates for every capability, a selection over eligible work always hands out a frame. |
| Jobs.VideoDone | bin/jobs.py:438 | The progress report lists `done` frames counted up from the first frame of the range. |
| Jobs.AliveFalseIff | bin/jobs.py:393-444 | The node is told to stop exactly when another node owns the frame; the call raises TypeError exactly for a single frame of a video job nobody else owns when some progress (`done > 0`) is reported; with `done <= 0` the frame is accepted and `done` set to `[]`. |
| Jobs.AliveRefreshes | bin/jobs.py:393-444 | When the node may go on, the record holds an entry for the frame owned by the caller and stamped `now`; only working changes for a plain job, and for a video the progress report is rewritten. |
| Jobs.FinishJob | bin/jobs.py:462-518 | The loop-based update of `task_done` gives the record `Finish` specifies. |
| Jobs.FinishFrame | bin/jobs.py:462-472 | For a non-video job the first entry rendering the frame, single or pair, leaves working, a single frame's number moves to done and the count of render times goes up; an unknown frame changes nothing. |
| Jobs.FinishVideo | bin/jobs.py:494-504 | A finished video has nothing left to do or in progress, and every frame of its range done. |
| Jobs.MeanUpdate | bin/jobs.py:468-469 | The update of 'time' keeps it the mean of the render times reported so far. |
| Jobs.Shrunk | bin/jobs.py:248-249 | Every known rate multiplied by the shrink factor, with no key added or removed. |
| Jobs.AnnounceKey | bin/jobs.py:251-254 | The capabilities known afterwards are those known before and those announced. |
| Jobs.AnnounceValue | bin/jobs.py:251-254 | Each announcement adds the increment once, on top of the old rate or the seed. |
| Jobs.AnnounceUntouched | bin/jobs.py:251-254 | A capability not announced keeps its rate. |
| Jobs.AnnouncedShare | bin/jobs.py:247-254 | An announced capability moves toward 1: the distance to 1 shrinks by the shrink factor. |
| Jobs.UnannouncedShare | bin/jobs.py:247-254 | A capability not announced decays by the shrink factor and stays in (0, 1]. |
| Jobs.UpdateRatesShares | bin/jobs.py:247-254 | Rates in (0, 1] stay in (0, 1] after a report, and the known capabilities are the old ones and the announced ones. |
| Jobs.CreatedShape | bin/jobs.py:128-157 | A file without '::' raises ValueError, and an empty range under the breadth-first order IndexError; a new job keeps the metadata path it was given and has all its frames to do (reordered when configured), nothing in progress, done or failed, and no history. |
| Jobs.AliveAtFalseIff | bin/jobs.py:393-444 | The node is told to stop exactly when the job is gone or another node owns the frame; unless the answer is True nothing is written. |
| Jobs.Tag | bin/jobs.py:537 | 'potential' gains the tag at its end, and nothing else changes. |
| Jobs.TaggableNames | bin/jobs.py:533-540 | The names whose jobs are returned are listed, readable and not yet tagged. |
| Jobs.TaggingExactly | bin/jobs.py:527-542 | Tagging returns exactly the readable untagged jobs, in listing order, each with the tag appended, and writes back exactly those. |
| Jobs.TaggingOnce | bin/jobs.py:527-542 | A second call with the same tag returns nothing and writes nothing. |
| Jobs.LiveNodes | bin/jobs.py:103-125 | The records yielded are seen after the cut-off, and every readable listed record seen after it is yielded. |
| Jobs.StaleNames | bin/jobs.py:118-123 | The names removed are exactly the listed readable records not seen since the cut-off. |
| Jobs.Forgotten | bin/jobs.py:124-125 | Deleting the named files leaves exactly the other records. |
| Jobs.Purged | bin/jobs.py:124-125 | The listing after deleting the named files holds exactly the other names. |
| Jobs.ReadableJobs | bin/jobs.py:93-100 | Every readable listed job is yielded, and only stored records are. |
| Jobs.OffersAll | bin/jobs.py:280-285 | The requirement loop decides that every requirement is offered. |
| Jobs.AnyStale | bin/jobs.py:290-294 | The loop over working decides that some entry has timed out. |
| Jobs.Admit | bin/jobs.py:271-296 | The filter lets exactly the eligible jobs through. |
| Jobs.Weigh | bin/jobs.py:299-307 | The weighing loop gives the intended weight `JobWeight`. |
| Jobs.ClaimFrame | bin/jobs.py:361-387 | The claiming code gives the claim `Claim` specifies. |
| Jobs.DrawCandidate | bin/jobs.py:313-351 | The two draws give the candidate `Drawn` specifies. |
| Jobs.GatherPrefixRaise | bin/jobs.py:265-310 | Once the options from a prefix of the listing fail, the whole gathering fails the same way. |
| Jobs.Scheduler.constructor | bin/jobs.py:56-90 | The scheduler starts on the given directories and settings, with no capability rated and the seed rate 1. |
| Jobs.Scheduler.PutJob | bin/jobs.py:154-155 | The job file is written, listed last when new, and nothing else changes. |
| Jobs.Scheduler.PutNode | bin/jobs.py:243-244 | The node file is written, listed last when new, and nothing else changes. |
| Jobs.Scheduler.Add | bin/jobs.py:128-157 | An error of `Created` is raised with nothing written; otherwise the new job is stored under its uuid and the uuid returned; file names stay those of their jobs. |
| Jobs.Scheduler.Exists | bin/jobs.py:160-162 | True exactly when the job file is there. |
| Jobs.Scheduler.NodeExists | bin/jobs.py:170-172 | True exactly when the node file is there. |
| Jobs.Scheduler.Remove | bin/jobs.py:165-167 | The job file is deleted and unlisted; a missing one is a KeyError with nothing changed. |
| Jobs.Scheduler.RewriteJob | bin/jobs.py:175-198 | A missing job changes nothing, an unreadable one raises TypeError, a readable one is replaced by the changed record. |
| Jobs.Scheduler.JobPause | bin/jobs.py:175-185 | As `RewriteJob`, with only 'pause' set. |
| Jobs.Scheduler.JobPriority | bin/jobs.py:188-198 | As `RewriteJob`, with only 'priority' set. |
| Jobs.Scheduler.NodePause | bin/jobs.py:201-211 | A missing node changes nothing, an unreadable one raises TypeError, a readable one gets the flag. |
| Jobs.Scheduler.NodePauseAll | bin/jobs.py:214-223 | Every readable node record gets the flag and unreadable ones are kept as they are. |
| Jobs.Scheduler.Report | bin/jobs.py:226-254 | The node record is written with the capabilities, version and time, keeping a known node's paused flag; the seed shrinks and the rates follow `UpdateRates`. |
| Jobs.Scheduler.TaskSelect | bin/jobs.py:257-390 | The answer and the jobs written are those of the selection `Select` on the state before the call. |
| Jobs.Scheduler.GatherOptions | bin/jobs.py:265-310 | The loop over the jobs directory gives the options `Gather` specifies. |
| Jobs.Scheduler.TaskAlive | bin/jobs.py:393-444 | The answer and the jobs written are those `AliveAt` specifies. |
| Jobs.Scheduler.TaskDone | bin/jobs.py:447-524 | The answer and the jobs written are those `DoneAt` specifies; the note for the asset's render times is the one `NoteAt` specifies. |
| Jobs.FrameKey | bin/jobs.py:483-486 | `str(frame)` of a frame number parses back to that number; the key of a pair is not an integer. |
| Jobs.NoteWhenChanged | bin/jobs.py:458-521 | A render time is noted exactly when `task_done` answers and changes the job's record; the note names the job's project and metadata path, carries the time reported, and is keyed 'video' for a video job and by the frame otherwise; the render count rises by one. |
| Jobs.Scheduler.PotentialJobs | bin/jobs.py:527-542 | The jobs returned and written are those `Tagging` specifies. |
| Jobs.Scheduler.IterJobs | bin/jobs.py:93-100 | The readable job records, in listing order. |
| Jobs.Scheduler.IterNodes | bin/jobs.py:103-125 | The live records are yielded; exactly the stale readable records are deleted and the rest kept. |
| Jobs.Scheduler.DropNodes | bin/jobs.py:124-125 | Exactly the named node files are deleted and unlisted, and the rest kept. |
| Jobs.AnnounceAll | bin/jobs.py:251-254 | The loop over the announced capabilities gives `Announce`. |
| Jobs.Survey | bin/jobs.py:110-123 | The pass over the nodes directory gives the live records and the stale names. |
| Jobs.ShrinkAll | bin/jobs.py:248-249 | The shrinking loop gives `Shrunk`. |
| Jobs.RatesStayPositive | bin/jobs.py:247-254 | Positive rates stay positive after a report, so dividing by them is defined. |
| FsDb.Keep | bin/fs_db.py:109-118 | a name is kept exactly when it is listed and passes the test; distinct names stay distinct |
| FsDb.LockFree | bin/fs_db.py:96-98 | a name survives exactly when it is listed and does not start with the lock prefix; distinct names stay distinct |
| FsDb.AdoptFacts | bin/fs_db.py:96-98 | making child nodes for a listing loses no node, gives every listed name a node, and adds or changes only children of that directory |
| FsDb.AdoptTree | bin/fs_db.py:96-98 | making nodes for names the disk lists adds no path the disk does not hold |
| FsDb.Relist | bin/fs_db.py:103-118 | the directory's node is replaced, new children are made, nothing outside it changes, and no path outside the disk appears |
| FsDb.Init | bin/fs_db.py:76-100 | the first look gives a known kind, records it in the node, changes only the node and its children, and adds no path outside the disk |
| FsDb.Refresh | bin/fs_db.py:103-118 | a directory stays a directory when it is re-listed; only it and its children change |
| FsDb.Isa | bin/fs_db.py:73-120 | the answer is never "uninitialised" and is the node's kind afterwards; the node is settled (a directory's listing is within the cache time); the disk is untouched and the cache is kept closed |
| FsDb.Link | bin/fs_db.py:275 | the parent directory's listing gains the new name, keeps every old one, and stays distinct; nothing else on the disk changes |
| FsDb.Store | bin/fs_db.py:180-189 | the entry is written at its path and a well-formed disk stays well-formed when it is a file or an empty directory |
| FsDb.Unlink | bin/fs_db.py:286 | the entry leaves the disk and its name leaves the parent's listing; the disk stays well-formed |
| FsDb.MakeDirs | bin/fs_db.py:222 | success leaves an empty directory at the path and keeps every other entry; an existing path is an OSError |
| FsDb.Mkdir | bin/fs_db.py:275 | succeeds exactly when the path is new and its parent is a directory, creating an empty directory there; the failure is an OSError |
| FsDb.Read | bin/fs_db.py:153-171 | a node with no registered file type raises TypeError and changes nothing; otherwise only the node's cache changes |
| FsDb.Write | bin/fs_db.py:174-190 | an untyped node raises TypeError; every failure leaves the state unchanged; the disk stays well-formed |
| FsDb.AddChild | bin/fs_db.py:230-232 | the name is appended to the directory's children and its node is fresh, typed by the registered extensions |
| FsDb.New | bin/fs_db.py:209-236 | success returns the named child, which is then in the cache; the cache stays closed and only the directory's subtree changes |
| FsDb.Forget | bin/fs_db.py:247-248 | only the file node's cached time and contents are dropped |
| FsDb.CloneTarget | bin/fs_db.py:240-249 | success leaves the named child in the cache without touching the disk |
| FsDb.Clone | bin/fs_db.py:239-258 | success returns the named child, in the cache; the cache stays closed and only the directory's subtree changes |
| FsDbFacts.OnlyDirectoriesHold | bin/fs_db.py:211-242 | `new` and `clone` on a node that is not a directory raise TypeError and change only what `isa` changed |
| FsDbFacts.NewFindsChild | bin/fs_db.py:216-217 | `new` without data for a name the directory lists returns that child and changes nothing more |
| FsDbFacts.NewMakesDirectory | bin/fs_db.py:219-224 | `new` without data for an unlisted name lists it last, records a fresh node and makes an empty directory on disk; a path already on disk gives OSError |
| FsDbFacts.NewWritesFile | bin/fs_db.py:226-236 | `new` with data raises TypeError for a listed child that is not a file; on success the child is listed and the data is on disk with time `now` and cached in the node |
| FsDbFacts.CloneCopies | bin/fs_db.py:241-256 | `clone` raises TypeError for a listed child that is not a file and OSError for a source that cannot be copied; on success the child is listed, holds the source's disk entry and caches nothing |
| FsDb.Create | bin/fs_db.py:261-278 | success returns the path joined with the key, which is then in the cache; the cache stays closed |
| FsDb.CreateRest | bin/fs_db.py:272-278 | the walk from a directory node keeps the same promise as `Create` |
| FsDb.Remove | bin/fs_db.py:281-289 | the node stays recorded, no node is lost, file types and cache time are kept, a closed cache stays closed |
| FsDb.Contains | bin/fs_db.py:376-380 | true exactly when the node is a directory listing the name; the disk is untouched |
| FsDb.GetItem | bin/fs_db.py:383-386 | succeeds exactly when the node is a directory listing the name, returning that child; otherwise KeyError |
| FsDb.DbContains | bin/fs_db.py:437-448 | the walk down the key loses no node, keeps the cache closed and leaves the disk alone |
| FsDb.DbGetItem | bin/fs_db.py:451-461 | success returns the target joined with the key, which is then in the cache |
| FsDb.Iterate | bin/fs_db.py:292-307 | yields recorded paths at or below the node, starting with the node itself; nothing exactly when the node is deleted; no path is added to the tree |
| FsDb.IteratePreOrder | bin/fs_db.py:292-307 | depth first: every path yielded after the node has its parent yielded before it |
| FsDb.IterateComplete | bin/fs_db.py:302-307 | a directory's walk yields every child the directory lists afterwards, save those found deleted |
| FsDb.IterChildren | bin/fs_db.py:305-307 | the children's walks yield recorded paths strictly below the directory, whose own node is unchanged |
| FsDb.IterChildrenPreOrder | bin/fs_db.py:305-307 | the children's walks in turn keep each path after its parent, or directly under the directory |
| FsDb.IterChildrenComplete | bin/fs_db.py:305-307 | every child named whose node is not deleted at the end has its path among those yielded |
| FsDb.IterChildrenFrame | bin/fs_db.py:305-307 | the children's walks leave every node outside the children's subtrees as it was |
| FsDb.Count | bin/fs_db.py:333-347 | the count keeps the cache invariant and adds no path to the tree |
| FsDb.CountChildren | bin/fs_db.py:344-347 | the children's counts keep the cache invariant and leave the directory's own node unchanged |
| FsDb.CountIterate | bin/fs_db.py:293 | `count()` is the number of paths `iterate()` yields, and both leave the same cache |
| FsDb.CountIterateChildren | bin/fs_db.py:344-347 | the children's counts total the length of the children's walks, with the same cache after |
| FsDb.SetExt | bin/fs_db.py:320-321 | only the extension slot of one node changes, and the cache invariant is kept |
| FsDb.FileExtTest | bin/fs_db.py:320-322 | a file's answer fills its extension slot and changes neither its kind nor its time |
| FsDb.ContainsExt | bin/fs_db.py:350-373 | a directory's answer is the one now stored for that extension in its table; any non-deleted node has its slot filled; with a cache time the node is settled |
| FsDb.DirContainsExt | bin/fs_db.py:363-373 | the answer is stored under the extension in the directory's table; the directory's kind and time are unchanged |
| FsDb.AnyExt | bin/fs_db.py:368-370 | asking the children keeps the cache invariant and leaves the directory's node unchanged |
| FsDb.FileExtCached | bin/fs_db.py:320-322 | a file asked again gives the same answer and changes nothing |
| FsDb.DirExtCached | bin/fs_db.py:366-373 | a directory that holds an answer for the extension gives it and changes nothing |
| FsDb.ContainsExtCached | bin/fs_db.py:350-373 | asking again at the same moment gives the stored answer and leaves the state as it was |
| FsDb.FileExtSticky | bin/fs_db.py:320-321 | a file keeps the answer to the first extension it was asked about, whatever it is asked later |
| FsDb.IterateExt | bin/fs_db.py:310-330 | yields recorded paths at or below the node, none of them below an excluded name (where exclusion reaches) |
| FsDb.ExtChildren | bin/fs_db.py:327-330 | the children's walks yield recorded paths strictly below the directory, none under an excluded name |
| FsDb.ExtChild | bin/fs_db.py:328 | the walk from the first child keeps the same promise as `ExtChildren` |
| FsDb.ExtDescend | bin/fs_db.py:329-330 | the child's walk followed by the rest's keeps the same promise as `ExtChildren` |
| FsDb.Sample | bin/fs_db.py:406 | a sample settled cache (root, directory `a`, file `a/x.txt`) that meets the cache invariant |
| FsDb.TextFile | bin/fs_db.py:356-360 | a file named `x.txt` not yet asked holds a `.txt` file, and that answer is stored |
| FsDb.DirWalk | bin/fs_db.py:310-330 | the walk of a settled directory is the walk of its listed children |
| FsDb.OnlyChildDescend | bin/fs_db.py:329-330 | descending into the only child yields that child's whole walk |
| FsDb.OnlyChildWalk | bin/fs_db.py:327-330 | a single child that is not excluded and holds the extension yields exactly its own walk |
| FsDb.DirFirstAsk | bin/fs_db.py:363-373 | the first question put to a directory is answered by its children and stored under the extension asked |
| FsDb.AnyExtFirst | bin/fs_db.py:368-370 | the search over the children stops at the first child that says yes |
| FsDb.SampleHasText | bin/fs_db.py:350-373 | in the sample, `a` contains a `.txt` file and asking fills the caches of `a` and `a/x.txt` |
| FsDb.SampleWalkA | bin/fs_db.py:310-330 | walking `a` for `.txt` with no exclusion yields exactly `a/x.txt` |
| FsDb.ExcludeNotPassedDown | bin/fs_db.py:329 | asked from the root with `x.txt` excluded, the walk as written still yields `a/x.txt` |
| FsDbCache.Filter | bin/fs_db.py:96-98 | the loop gathers exactly the names `Keep` selects, in order |
| FsDbCache.Db.constructor | bin/fs_db.py:407-415 | no file types, a cache time of 30 seconds, and a root not yet looked at |
| FsDbCache.Db.SetCacheTime | bin/fs_db.py:422-424 | only the cache time changes |
| FsDbCache.Db.Register | bin/fs_db.py:427-429 | the extension joins the registered ones once; a name is typed afterwards exactly when it was before or ends with the extension |
| FsDbCache.Db.Adopt | bin/fs_db.py:96-98 | the node map becomes the one `FsDb.Adopt` describes; nothing else changes |
| FsDbCache.Db.Isa | bin/fs_db.py:73-120 | the answer and the new state are those of `FsDb.Isa` |
| FsDbCache.Db.Read | bin/fs_db.py:153-171 | the answer and the new state are those of `FsDb.Read` |
| FsDbCache.Db.Write | bin/fs_db.py:174-190 | the answer and the new state are those of `FsDb.Write` |
| FsDbCache.Db.AddChild | bin/fs_db.py:230-232 | the new state is that of `FsDb.AddChild` |
| FsDbCache.Db.New | bin/fs_db.py:209-236 | the answer and the new state are those of `FsDb.New`, so the `new` lemmas of `FsDbFacts` apply |
| FsDbCache.Db.Remove | bin/fs_db.py:281-289 | the answer and the new state are those of `FsDb.Remove` |
| FsDbCache.Db.NodeContains | bin/fs_db.py:376-380 | the answer and the new state are those of `FsDb.Contains` |
| FsDbCache.Db.NodeGetItem | bin/fs_db.py:383-386 | the answer and the new state are those of `FsDb.GetItem` |
| FsDbCache.Db.Contains | bin/fs_db.py:437-448 | the loop down the key from the root ends where `FsDb.DbContains` does |
| FsDbCache.Db.GetItem | bin/fs_db.py:451-461 | the loop down the key from the root ends where `FsDb.DbGetItem` does |
| FsDbCache.Db.Iter | bin/fs_db.py:464-467 | the answer and new cache are those of `FsDb.Iterate` on the root, so `IteratePreOrder` and `IterateComplete` apply; the cache stays valid |
| FsDbCache.Db.Len | bin/fs_db.py:470-472 | the count of `FsDb.Count` on the root; the cache stays valid |
| FsDbFacts.ReadAfterWrite | bin/fs_db.py:153-190 | a read after a successful write gives back the data written, from this cache or from a fresh one over the same disk |
| FsDbFacts.ReadTwice | bin/fs_db.py:153-171 | a second read returns what the first did and changes nothing more |
| FsDbFacts.WithinCacheTime | bin/fs_db.py:103-104 | inside the cache time a directory answers from the cache whatever the disk now holds |
| FsDbFacts.AfterCacheTime | bin/fs_db.py:103-118 | after the cache time the listing shows exactly the disk's unlocked names, with the surviving old names first and in their old order |
| FsDbFacts.FirstListing | bin/fs_db.py:86-98 | the first look at a directory lists the disk's names less the lock names, in the disk's order |
| FsDbFacts.ListingHidesLocks | bin/fs_db.py:96-98 | neither the first listing nor a later one makes a lock name a child |
| FsDbFacts.TestDisk | bin/fs_db_test.py:30-41 | the unit tests' directory is a well-formed disk with a root directory |
| FsDbFacts.TestRootListing | bin/fs_db_test.py:152-158 | the test root shows its two text files and its directory; the lock directory is hidden |
| FsDbFacts.FirstChildren | bin/fs_db.py:86-98 | the first look at a directory records a fresh, unvisited node for each name it lists |
| FsDbFacts.DirReady | bin/fs_db.py:86-98 | after a directory is looked at, the cache still holds together and has a node for each child listed |
| FsDbFacts.CountsFile | bin/fs_db.py:340-341 | a file seen for the first time counts one |
| FsDbFacts.CountDir | bin/fs_db.py:343-347 | a directory counts one more than the sum of its children's counts |
| FsDbFacts.CreateChain | bin/fs_db.py:261-278 | a successful create leaves the chain of directories along the key in the cache |
| FsDbFacts.CreateRestChain | bin/fs_db.py:272-278 | the same for the walk from a settled directory |
| FsDbFacts.CreateAlongChain | bin/fs_db.py:261-278 | along such a chain `create` finds every step, returns the end and changes nothing |
| FsDbFacts.CreateIdempotent | bin/fs_db.py:261-278 | once `create` succeeds, the same call again returns the same path and changes nothing |
| FsDbFacts.CreateHitsFile | bin/fs_db.py:265-270 | a file on the way, the last step included, makes `create` raise TypeError and change nothing |
| FsDbFacts.CreateDeletedAsWritten | bin/fs_db.py:266-268 | as written, `create` on a removed node raises NameError and leaves only what `isa` changed |
| FsDbFacts.CreateDeletedRepaired | bin/fs_db.py:266-268 | as intended, `create` on a removed node makes its directory on the disk; the node is an empty directory again and the call returns the node |
| FsDbFacts.RemoveGone | bin/fs_db.py:281-289 | after a remove the node is deleted, gone from the disk and from its directory, which never contains it again |
| FsDbFacts.RemovedStaysOut | bin/fs_db.py:376-380 | a name neither listed nor on the disk is not contained, whatever the time |
| FsDbFacts.RemoveOnlyFiles | bin/fs_db.py:283-284 | removing anything but a file raises TypeError and changes only what `isa` did |
| Rendering.NoteFrames | bin/rendering.py:57 | appending a frame changes the list of one node and one job and no other |
| Rendering.SweptKeeps | bin/rendering.py:42-61 | exactly the live entries are kept, in order, and one error is counted per expired entry |
| Rendering.SweptIndexes | bin/rendering.py:55-59 | each kept entry is indexed under its node and the job's name, after what the index held; nothing else is indexed |
| Rendering.SweptRaises | bin/rendering.py:46 | the only exception a sweep can raise is the TypeError of a plain frame in a video job |
| Rendering.SweptPlain | bin/rendering.py:47-51 | a non-video sweep over any entries never fails; expired frame numbers go, in order, to todo when retrying and to failed otherwise, and the other list is untouched |
| Rendering.SweptVideo | bin/rendering.py:45-46 | a video sweep over ranges succeeds; todo becomes the full range of the last expired entry, or stays as it was when none expired |
| Rendering.SweptVideoFails | bin/rendering.py:46 | an expired plain frame number in a video job fails the sweep with TypeError |
| Rendering.KeepTasks | bin/rendering.py:42-61 | the loop over `working` gives the job and node index of the sweep |
| Rendering.SweptStops | bin/rendering.py:42-61 | an exception part-way through ends the whole sweep with that exception |
| Rendering.TallyPlain | bin/rendering.py:66-92 | without a video range the total is the three list lengths, the percentage lies in [0, 100] and is 100 exactly when all is done, which is when the done control shows |
| Rendering.TallyVideo | bin/rendering.py:69-71 | a video in progress counts its whole range as working or done, so the total is todo plus the range's length |
| Rendering.RowsMatch | bin/rendering.py:40-98 | one row per job, for that job (its uuid and name), in the order given |
| Rendering.MakeRow | bin/rendering.py:40-98 | one job's sweep, counts, control and row |
| Rendering.Table | bin/rendering.py:36-38 | the rows are those of the jobs sorted by project and name |
| Rendering.Build | bin/rendering.py:40-98 | the loop over the jobs gives one row each, sharing one node index |
| Rendering.RowsStop | bin/rendering.py:40-98 | an exception at one job ends the table with that exception |
| Rendering.TableSorted | bin/rendering.py:38 | the table is in project-and-name order |
| Priority.DepPath | bin/priority.py:32-33 | a dependency's metadata path is non-empty and ends in a `.json` name |
| Priority.DepPathJoin | bin/priority.py:32-33 | joined with '/', the dependency path is the dependency with '.json' added |
| Priority.JoinExtended | bin/priority.py:33 | extending the last part of a path extends the joined text by the same suffix |
| Priority.Boosts | bin/priority.py:25-27 | with boosting off the state is not looked at; with it on, an unknown state (`getState` answers None) raises TypeError at `state['boost']`, and otherwise the state's flag decides |
| Priority.PriorityErrors | bin/priority.py:23-34 | no readable metadata, or an unknown state with boosting on, is a TypeError; a missing first dependency of a boosted asset is a KeyError from `db[path]`, and one whose file reads as None a TypeError from the recursive call's line 24 |
| Priority.DepsMaxIsMax | bin/priority.py:31-40 | the running maximum only grows, bounds every boosted dependency and equals one of them or the start |
| Priority.PriorityIsMax | bin/priority.py:24-42 | a priority is found only where the state lookup succeeds; it is at least the asset's own; boosted, it is the maximum of its own and each dependency's plus the boost; otherwise it is its own |
| Priority.AsWrittenNeverBoosts | bin/priority.py:34-36 | as written, a boosted asset with a dependency raises NameError (KeyError first when line 34 finds no such dependency), while the intended priority is at least its own |
| Priority.SelfDependency | bin/priority.py:34-36 | a boosted asset that depends on itself recurses without end (RecursionError) |
| Priority.Prioritise | bin/priority.py:18-42 | the loop over the dependencies computes the recursive priority |
| Priority.Mine | bin/priority.py:55-61 | an asset is listed exactly when iteration yields it and it is an eligible asset of the user |
| Priority.Keyed | bin/priority.py:65 | on success each asset is paired with its priority, in order |
| Priority.Firsts | bin/priority.py:65-66 | the paths of the keyed pairs, in order |
| Priority.ByPriorityTotal | bin/priority.py:65 | the highest-first order is a total preorder, as sorting needs |
| Priority.TaskListOrdered | bin/priority.py:55-66 | the list holds exactly the user's eligible assets, as many times as iteration yields them, highest priority first |
| Priority.TaskListStable | bin/priority.py:65 | assets of equal priority keep the order iteration found them in |
| Priority.KeyedFirsts | bin/priority.py:65 | the keyed list's paths are the list that was keyed |
| Priority.FirstsInsert | bin/priority.py:65 | inserting a pair adds its path to the paths |
| Priority.FirstsSort | bin/priority.py:65 | sorting pairs permutes their paths |
| Priority.TaskList | bin/priority.py:46-66 | the method's answer is the user task list above |
| Priority.Collect | bin/priority.py:55-63 | the loop gathers exactly the assets `Mine` lists, in order: those the user owns, typed, not stale |
| Priority.KeyAll | bin/priority.py:65 | the loop keys each gathered asset by its `true_priority`, and stops with the first exception |
| Priority.KeyedStopped | bin/priority.py:65 | once one priority raises, keying the whole list raises with it |
| Priority.BestWins | bin/priority.py:78-86 | an owner has an entry exactly when one of their assets is eligible, and it is their highest-priority asset, the first of them on a tie |
| Priority.BestRaise | bin/priority.py:84-86 | the task map raises exactly when the priority of some eligible owned asset does |
| Priority.Tasks | bin/priority.py:70-91 | the method's answer is each owner's most urgent asset as above |
| Priority.BestStopped | bin/priority.py:78-86 | once one priority raises, the task map raises with it |
| Response.Ascii | bin/response.py:93-125 | a byte literal has one byte per character, each the character's code |
| Response.PathOf | bin/response.py:48 | a request path has at least one term and no term holds a '/' |
| Response.PathRoundTrip | bin/response.py:48 | the terms joined with '/' give back the path less its leading and trailing slashes |
| Response.ContentLength | bin/response.py:78-81 | the declared body length: 0 when the header is absent or not a number, the number otherwise |
| Response.Read | bin/response.py:88 | reading `n` bytes gives the whole stream for a negative or large `n`, and its first `n` bytes otherwise |
| Response.Lines | bin/response.py:210-214 | a header yields a line `(key, v)` exactly for each value it carries, all under its own key |
| Response.LinesOf | bin/response.py:210-214 | the loop over one header's values yields its lines |
| Response.FlattenMembers | bin/response.py:207-214 | the header lines are exactly the key and value pairs the header table carries |
| Response.FlattenText | bin/response.py:213-214 | a table of single text values yields one line per entry, in order |
| Response.CookieLine | bin/response.py:186-188 | a Set-Cookie entry starts with `key=value; Expire=` and ends with `; Path=/; HttpOnly` |
| Response.TotalLenFlat | bin/response.py:196-197 | the running length is the number of bytes the chunks hold |
| Response.FlatAppend | bin/response.py:239-240 | sending two chunk lists one after the other sends their bytes concatenated |
| Response.PiecesWhole | bin/response.py:234-237 | sending a file in pieces sends all of it, in order, in non-empty pieces of at most 1024 bytes |
| Response.BodyBytes | bin/response.py:222-226 | the body with a file holds the chunks' bytes plus the rest of the file |
| Response.Send | bin/response.py:234-237 | the read loop yields the pieces above |
| Response.CookieWhole | bin/response.py:57-59 | the cookie parses without error exactly when every pair holds an '=' split |
| Response.CookieKeys | bin/response.py:57-59 | a fully parsed cookie holds a key exactly when some pair names it |
| Response.PairSplits | bin/response.py:58 | a pair splits exactly when it contains an '=' |
| Response.EmptyCookie | bin/response.py:57-58 | an empty cookie header splits into one empty pair, which raises |
| Response.CookieStopped | bin/response.py:57-59 | at the first pair without '=' the cookie stops with what it held so far |
| Response.Response.constructor | bin/response.py:26-37 | status 200 OK, an empty header and body, no file, and no path or cookie worked out yet |
| Response.Response.GetPath | bin/response.py:45-49 | the terms of `PATH_INFO`, worked out on the first call and remembered; no `PATH_INFO` is a KeyError; nothing else changes |
| Response.Response.GetCookie | bin/response.py:52-60 | the cookie dictionary, worked out on the first call and remembered; a pair without '=' raises ValueError and what was filled so far is kept |
| Response.Response.GetJsonPost | bin/response.py:75-89 | no post exactly when the declared length is 0; otherwise that many bytes of the input |
| Response.Response.Canned | bin/response.py:92-125 | the status is set, the header becomes plain text, and the body is the one message with its length |
| Response.Response.Make404 | bin/response.py:92-98 | status 404 with the not-found message as the whole plain-text body |
| Response.Response.Make403 | bin/response.py:101-107 | status 403 with the forbidden message as the whole plain-text body |
| Response.Response.Make418 | bin/response.py:110-116 | status 418 with the teapot message as the whole plain-text body |
| Response.Response.Make500 | bin/response.py:119-125 | status 500 with the failure message as the whole plain-text body |
| Response.Response.Refresh | bin/response.py:128-136 | a redirect back to the requested path; a missing path raises KeyError with nothing changed |
| Response.Response.Redirect | bin/response.py:131-136 | status 303 REFRESH, a plain-text header whose Location is the target, and the refresh message as the whole body |
| Response.Response.SetContentType | bin/response.py:139-171 | only the Content-type header changes, to the type named |
| Response.Response.AllowCache | bin/response.py:174-176 | only the Cache-control header changes, to `max-age=N, public` |
| Response.Response.AddCookie | bin/response.py:179-190 | one more Set-Cookie line is appended after those set before; no other header changes |
| Response.Response.Append | bin/response.py:193-197 | the text's UTF-8 bytes are appended to the body and counted in the length |
| Response.Response.ProvideFile | bin/response.py:200-204 | the file becomes the one sent after the body; nothing else changes |
| Response.Response.Header | bin/response.py:207-214 | the lines of the header table in order |
| Response.Response.Respond | bin/response.py:217-248 | the status, the header lines, and the body (the chunks, then the file in pieces), with Content-length the body's byte count |
| Response.Response.SetLength | bin/response.py:227 | only the Content-length header changes |
| Rfam.GetType | bin/rfam.py:265-275 | absent exactly when no type record has the ident; otherwise the first listed record with that ident, as the loop returns it |
| Rfam.TypeIdents | bin/rfam.py:253-262 | the idents of the type records, one per record, in listing order |
| Rfam.TypeListed | bin/rfam.py:253-275 | an ident is among the listed ones exactly when `getType` finds its record |
| Rfam.IndexLookup | bin/rfam.py:153-156 | an ident is in the index exactly when some record carries it, and it maps to the last such record |
| Rfam.Unmatched | bin/rfam.py:153-156 | a last record not carrying the ident extends "no record after `i` carries it" to the whole list |
| Rfam.Drop | bin/rfam.py:159-163 | the delete raises KeyError exactly when the record changed, the database was never opened and the delete is unguarded; otherwise the entry goes exactly when the record changed |
| Rfam.VisitTracked | bin/rfam.py:155-165 | with the guard, one record not seen before never raises and keeps every open database coherent with the records seen |
| Rfam.VisitedTracked | bin/rfam.py:153-165 | with the guard and distinct idents, the loop never raises and keeps that coherence over the whole listing |
| Rfam.RebuiltCoherent | bin/rfam.py:153-169 | with distinct idents, the guarded rebuild leaves open only databases whose location matches the new index |
| Rfam.VisitedAsWritten | bin/rfam.py:160-163 | where the unguarded deletes do not raise, they do exactly what the guarded ones do |
| Rfam.RebuildAsWrittenFails | bin/rfam.py:160 | a project whose directory changed before its database was ever opened makes the unguarded refresh raise KeyError, while the guarded one succeeds |
| Rfam.OnProject | bin/rfam.py:242-245 | a user is listed exactly when their record lists the project |
| Rfam.Reindex | bin/rfam.py:153-165 | the loop builds the index of the listing and leaves the caches of the guarded visit |
| Rfam.Purge | bin/rfam.py:167-169 | the loop closes the databases of the projects no longer listed |
| Rfam.IndexUsers | bin/rfam.py:171-176 | the loop builds the index of the user records |
| Rfam.Server.constructor | bin/rfam.py:39-69 | empty indices and caches, with the first refresh due at once; the server is coherent |
| Rfam.Server.Refresh | bin/rfam.py:144-176 | nothing changes before the cache time has passed; afterwards both indices are rebuilt and the open databases kept are those the guarded rebuild keeps; coherence is kept when idents are distinct |
| Rfam.Server.Open | bin/rfam.py:197-218 | an open database is returned unchanged; an unknown project is a TypeError; otherwise the project's location is opened and remembered; with coherence the answer is the project's current location |
| Rfam.Server.Proj | bin/rfam.py:194-207 | after the refresh, succeeds exactly when the project's database is open, and it is opened on the project's directory; the open databases are those the refresh kept (`KeptOpening`), plus at most this one, and the defaults map is the refreshed one |
| Rfam.Server.ProjDefaults | bin/rfam.py:210-220 | after the refresh, succeeds exactly when the defaults database is open, and it is opened on the project's default path; the defaults databases are those the refresh kept (`KeptOpening`), plus at most this one, and the directory map is the refreshed one |
| Rfam.Server.Projects | bin/rfam.py:179-182 | after the refresh, the idents of the project index |
| Rfam.Server.GetProject | bin/rfam.py:185-191 | after the refresh, the project's record, or None for an unknown ident |
| Rfam.Server.Users | bin/rfam.py:223-226 | after the refresh, the idents of the user index |
| Rfam.Server.GetUser | bin/rfam.py:229-235 | after the refresh, the user's record, or None for an unknown ident |
| Rfam.Server.UsersOf | bin/rfam.py:238-245 | after the refresh, exactly the users whose record lists the project |
| Rfam.GetState | bin/rfam.py:278-288 | absent exactly when no state record has the ident; otherwise the first record with it |
| Rfam.Position | bin/rfam.py:336 | the first position of the ident, or none exactly when it is not listed (Python's ValueError) |
| Rfam.Slots | bin/rfam.py:331-341 | one slot per ident the type lists |
| Rfam.Joined | bin/rfam.py:344 | the join succeeds exactly when every slot is filled |
| Rfam.SlotStep | bin/rfam.py:333-341 | the last record either fills the slot of its ident's first position or leaves the slot as before |
| Rfam.SlotFilled | bin/rfam.py:333-341 | a slot is filled exactly when it is its ident's first position and some record carries that ident |
| Rfam.SlotHolds | bin/rfam.py:333-341 | a filled slot holds the option of the last record carrying its ident |
| Rfam.MenuBuilt | bin/rfam.py:324-344 | the menu is built exactly when the type lists each state once and every listed state has a record |
| Rfam.StateChoice | bin/rfam.py:324-344 | the loop over an array of slots gives the state menu: an unknown type is a TypeError, a type without 'states' a KeyError |
| Rfam.Read | bin/rfam.py:396-404 | an entry reads exactly when its key is a number and it holds times, giving the frame and its last time; otherwise ValueError for the key first, IndexError next |
| Rfam.Samples | bin/rfam.py:395-404 | on success, one sample per entry |
| Rfam.SampleAt | bin/rfam.py:395-404 | each sample is what its entry reads as |
| Rfam.SamplesStop | bin/rfam.py:395-404 | an entry that fails stops the pass: what follows does not change the outcome |
| Rfam.SamplesAll | bin/rfam.py:395-404 | the first pass goes through exactly when every entry reads |
| Rfam.NoteTime | bin/jobs.py:476-486 | after `task_done` files a time under a key, the key's list is its old list (empty when there was none, or no table at all) followed by the time; every other key looks up as before |
| Rfam.NotedFrameReads | bin/jobs.py:476-486 | a frame's time filed into render times whose first pass goes through leaves a first pass that goes through, and the frame's last render is that time |
| Rfam.UnreadableKey | bin/jobs.py:483-486 | a time filed under a key that is not an integer makes the first pass raise |
| Rfam.Lasts | bin/rfam.py:404 | the times of the samples, in order |
| Rfam.MeanStep | bin/rfam.py:411 | the running-mean update gives the mean of the values seen |
| Rfam.SummarisesStart | bin/rfam.py:395-411 | the first sample is its own range, least, greatest and mean |
| Rfam.RangeUpdate | bin/rfam.py:398-401 | the frame range stays the lowest and highest frame seen |
| Rfam.LeastUpdate | bin/rfam.py:403-405 | the quickest render stays the least time and its first frame |
| Rfam.GreatestUpdate | bin/rfam.py:406-408 | the slowest render stays the greatest time and its first frame |
| Rfam.MeanUpdate | bin/rfam.py:410-411 | the running mean stays the mean of the times seen |
| Rfam.SummarisesUpdate | bin/rfam.py:395-411 | each later entry keeps the first pass's promises |
| Rfam.PassSummarises | bin/rfam.py:383-411 | the first pass gives the frame range, the quickest and slowest render and the mean time |
| Rfam.FirstPass | bin/rfam.py:383-420 | the loop gives that summary; a failing entry raises its error, and an empty record raises TypeError |
| Rfam.KnownAt | bin/rfam.py:429-431 | after a successful first pass, a frame's time is unknown exactly when the record lacks the frame |
| Rfam.GuessedGap | bin/rfam.py:424-440 | `guessed` ends up set exactly when some frame of the range has no render of its own |
| Rfam.SecondPass | bin/rfam.py:423-440 | the loop gives the low, mean and high totals over the range and whether any frame was guessed |
| Rfam.FormatRenderTime | bin/rfam.py:371-456 | no record gives no times; a video gives its last time (IndexError when empty); otherwise the report holds the summary, the mean estimate, and a low-high range exactly when some frame was guessed |
| Rfam.MeanBetween | bin/rfam.py:403-411 | the mean lies between the quickest and the slowest render |
| Rfam.DivBetween | bin/rfam.py:411 | a sum bounded by `n` times the bounds has its mean between them |
| Rfam.SumBetween | bin/rfam.py:411 | a sum of bounded times lies between the count times each bound |
| Rfam.TotalMonotone | bin/rfam.py:429-440 | a larger guess never gives a smaller total |
| Rfam.TotalWithoutGap | bin/rfam.py:429-440 | without a gap every frame is known and the guess does not change the total |
| Rfam.EstimateBetween | bin/rfam.py:423-451 | the estimate lies between the low and high estimate, and all three agree when no frame was guessed |
| Node.Polls | node/node.py:99-108 | the workers not yet polled keep their fields, and every idle entry names a polled worker |
| Node.PollsViews | node/node.py:99-108 | when no poll raised, every polled worker's fields are what its own poll left |
| Node.PollsKept | node/node.py:103-105 | the done reports among the sent messages, in order, are exactly those kept for re-sending |
| Node.PollsSent | node/node.py:100-102 | exactly the messages the workers gave are sent |
| Node.PollsLazy | node/node.py:107-108 | exactly the workers idle after their poll are listed as idle, in increasing order |
| Node.PollsStop | node/node.py:99-108 | after an exception at one worker, what later polls would give is ignored |
| Node.PolledAllUnique | node/node.py:99-108 | the loop's outcome is fixed by the workers and the clock: two runs that poll the same workers end alike |
| Node.PolledSends | node/node.py:101-102 | the workers' messages are progress and done reports, never a task request |
| Node.KillEvery | node/node.py:146-149 | every worker gets the kill, and nothing else changes |
| Node.KillAsWrittenFails | node/node.py:147 | as written, a kill for a video range raises TypeError before any worker is told; the corrected step kills on every worker |
| Node.Obeys | node/node.py:128-153 | the number of workers is kept, the idle list only shrinks, and each idle entry names a worker |
| Node.ObeyOneFacts | node/node.py:129-149 | an info sets the five timings and when they were heard; a task starts the last idle worker (IndexError when none) and leaves the others alone; a kill goes to every worker |
| Node.ObeysStop | node/node.py:128-153 | an exception at one commandment ends the handling there |
| Node.ObeysUseIdle | node/node.py:143 | without an exception each task commandment uses up exactly one idle worker |
| Node.BusyOnes | node/node.py:156 | exactly the busy workers are waited on |
| Node.AskingFacts | node/node.py:110-113 | at most one task request, sent exactly when there are idle workers and the node may still ask, counting all of them |
| Node.GreetedBatch | node/node.py:88-113 | the batch is posted exactly when no poll raised; it is what must be re-sent, the identity, the info request if due, the workers' messages, then the task request if any |
| Node.GreetedKeeps | node/node.py:103-122 | a failed poll or transport keeps every done report for the next hello, the new ones too; a reply clears them |
| Node.PowGrows | node/node.py:176 | a power of a scale at least 1 is at least 1 and grows with the exponent |
| Node.BackoffFacts | node/node.py:174-179 | without errors the pause is the heartbeat; after errors it never passes the hibernation time and never shrinks as errors grow |
| Node.RestedFacts | node/node.py:166-188 | a failed hello adds an error and a good one clears the count; a single-use node stops exactly when there is nothing to wait on; otherwise it sleeps for the backoff plus the jitter |
| Node.Views | node/node.py:99 | the fields of the workers, one per worker, in order |
| Node.Node.constructor | node/node.py:35-75 | a fresh node whose workers are distinct and idle, one per configured thread count |
| Node.Node.ToLocalPath | node/node.py:78-81 | the path translated by the node's path table |
| Node.Node.PollAt | node/node.py:100-108 | polling worker `i` is one more step of `Polls` |
| Node.Node.PollWorkers | node/node.py:99-108 | the loop polls every worker or stops at the first that raised; the result is `Polls` of what they gave, and `must_send` gains exactly the kept reports |
| Node.Node.KillWorkers | node/node.py:146-149 | every worker's fields become those `KillEvery` gives |
| Node.Node.ObeyCmd | node/node.py:129-149 | one commandment changes the node and the workers as `ObeyOne` does |
| Node.Node.ObeyAll | node/node.py:128-153 | the commandments change the node and the workers as `Obeys` does |
| Node.Node.Waiting | node/node.py:156 | the busy workers, as `BusyOnes` gives them |
| Node.Node.Collect | node/node.py:86-113 | after polling every worker, the batch and node state are those of `Collected` |
| Node.Node.Hello | node/node.py:84-156 | one hello leaves the node, the workers and the posted batch as `Greeted` does |
| Node.Node.Pause | node/node.py:174-181 | the pause is the backoff plus the jitter scaled by `u` |
| Node.Node.Settle | node/node.py:166-188 | the answer and the error count are those of `Rested` |
| Node.Node.Cycle | node/node.py:165-188 | one pass of the run loop: the hello of `Greeted` followed by the rest of `Rested` |
| Worker.VideoProgressAsWrittenFails | node/worker.py:81-85 | as written, a video render that has printed no complete line yet makes `state` raise IndexError; the corrected reading reports nothing done |
| Worker.VideoProgressAgrees | node/worker.py:81-87 | once a line break has been printed, the corrected reading and the one as written agree |
| Worker.IntToStringPlain | node/worker.py:85-87 | a number's digits hold no space and no line break |
| Worker.LastLines | node/worker.py:81-83 | splitting text that ends in two lines gives those two lines last |
| Worker.FirstWord | node/worker.py:85 | the first word of a line that starts with a word followed by a space or nothing |
| Worker.FraNumber | node/worker.py:86-87 | after `Fra:` the digits read back as the number |
| Worker.FraDoneOf | node/worker.py:85-87 | a line whose first word is `Fra:N` reports N less the first frame |
| Worker.FraLine | node/worker.py:85-87 | a line `Fra:N ...` reports N less the first frame |
| Worker.VideoProgressFra | node/worker.py:77-87 | when the second-to-last line starts with `Fra:N`, N less the first frame is reported done and only the last two lines are kept |
| Worker.ReadProgress | node/worker.py:77-87 | the step-by-step reading of the output gives the corrected video progress |
| Worker.PolledFacts | node/worker.py:61-97 | a poll sends nothing exactly when there is no process or it failed; a finished render is announced once, with its elapsed time, and the process forgotten; a running frame reports 0 of 1; nothing but the process and last line changes |
| Worker.PolledVideo | node/worker.py:73-89 | a running video keeps the last lines read and reports the done count found out of the length of its range |
| Worker.ArgvShape | node/worker.py:119-132 | the command line runs `nice` on Blender with the file, renders from the first to the last frame, and passes `-Y` exactly when scripting is configured off |
| Worker.StartedFacts | node/worker.py:100-133 | a video task is dropped exactly when fcntl is missing; an unknown file raises; otherwise the worker is busy with this task's uuid, frame and file, from now |
| Worker.StartedThenPolled | node/worker.py:61-133 | a started task is what the next poll reports: 0 of 1 for a frame; for a video, 0 of the range's length under the corrected progress reading, while as written that poll raises IndexError (line 85) |
| Worker.KilledFacts | node/worker.py:142-147 | `kill` stops the process exactly when it runs this uuid and frame, and changes nothing else |
| Worker.Worker.constructor | node/worker.py:32-46 | an idle worker with the given thread count and nothing run yet |
| Worker.Worker.Waitable | node/worker.py:53-58 | there is a process to wait on exactly while the worker is busy, and it is the worker's own |
| Worker.Worker.State | node/worker.py:61-97 | the answer and the new fields are those of `Polled` |
| Worker.Worker.Run | node/worker.py:100-139 | the answer and the new fields are those of `Started` |
| Worker.Worker.Kill | node/worker.py:142-147 | the new fields are those of `Killed` |
| Worker.Worker.KillAll | node/worker.py:149-154 | afterwards there is no process, whatever there was, and nothing else changes |
| PrmanWorker.At | node/prman_worker.py:224-230 | Python's `s[i]`: defined exactly for `-len <= i < len`, and the element itself for a non-negative index |
| PrmanWorker.WaitableWhenBusy | node/prman_worker.py:53-79 | the node has something to wait on exactly when the worker is busy: the stand-in while commands are left, the running process otherwise |
| PrmanWorker.PolledFacts | node/prman_worker.py:82-107 | a poll reports progress while busy, a done message (and forgets the process) after the last command exited with 0, and nothing otherwise; the invariant is kept |
| PrmanWorker.SaneKept | node/prman_worker.py:82-159 | every step (poll, process end, corrected exit handler, kill, kill all) keeps the worker's invariant |
| PrmanWorker.StartedFacts | node/prman_worker.py:110-143 | a frame range is dropped; otherwise the task is taken, an unknown file raises, the frame's commands are looked up by its decimal text (KeyError when missing, IndexError when empty) and the first one is started now |
| PrmanWorker.ExitsAdvance | node/prman_worker.py:224-257 | while commands are left, each exit moves the cursor on and starts a command; only the cursor, the process, its start time and the logs change |
| PrmanWorker.ExitsInOrder | node/prman_worker.py:224-257 | the commands started after each exit are the next ones in list order, rewritten, whatever the exit codes |
| PrmanWorker.LastExitAsWritten | node/prman_worker.py:247-273 | as written, after the last command the process and logs are dropped, so the worker is idle and `state` answers nothing |
| PrmanWorker.AsWrittenNeverDone | node/prman_worker.py:82-107 | under the steps as written, `state` changes nothing and only ever reports progress, never a finished frame |
| PrmanWorker.AsWrittenKept | node/prman_worker.py:82-159 | every step as written keeps the as-written invariant, under which no process is left exited once the commands run out |
| PrmanWorker.LastExitReportsDone | node/prman_worker.py:247-273 | with the ended process kept, the first `state` after the last command reports the frame done once, timed from the start of the last command, and a failed one reports nothing |
| PrmanWorker.KillFacts | node/prman_worker.py:145-159 | `kill` acts only on the running task's uuid and frame, leaving the worker idle with nothing to report; so does `kill_all` always |
| PrmanWorker.CwdEnd | node/prman_worker.py:167-180 | the scan ends at no position or at one inside the command |
| PrmanWorker.CwdEndQuoted | node/prman_worker.py:171-174 | inside a quote the value ends at the next quote, or nowhere when none follows |
| PrmanWorker.CwdEndFacts | node/prman_worker.py:167-180 | an unquoted value ends at the first space; a quoted one at the second quote, with no space before the first; no end means no closing quote and no bare space |
| PrmanWorker.CwdUnchanged | node/prman_worker.py:162-183 | without ` -cwd`, or without an end to its value, the command is left as it is, as written and corrected |
| PrmanWorker.CwdTargetFacts | node/prman_worker.py:162-191 | the text replaced is `-cwd` and its value: quoted up to the closing quote, or unquoted up to but not including the following space |
| PrmanWorker.CwdAsWrittenTakesSpace | node/prman_worker.py:186-189 | as written the text replaced is the same for a quoted value, and takes the following space too for an unquoted one |
| PrmanWorker.CwdPlain | node/prman_worker.py:162-191 | in ` -cwd x rest` with `x` unquoted, the text replaced is `-cwd x ` as written and `-cwd x` corrected |
| PrmanWorker.CwdSpaceLost | node/prman_worker.py:186-191 | as written, the text after an unquoted value loses its leading space and is glued to the new argument |
| PrmanWorker.CwdSpaceKept | node/prman_worker.py:162-191 | corrected, the space after the value is kept |
| PrmanWorker.CwdGlue | node/prman_worker.py:162-191 | as written, ` -cwd x y` becomes ` Ry` |
| PrmanWorker.ReplaceCwdArg | node/prman_worker.py:162-191 | the scan as a loop gives the corrected replacement |
| PrmanWorker.FindSpace | node/prman_worker.py:203-207 | the first space at or after `start`, or none |
| PrmanWorker.ThreadsFacts | node/prman_worker.py:193-214 | no `-t` appends the argument; `-t:-1` is replaced by it; otherwise the old argument up to the next space is replaced, or the command kept when no space follows |
| PrmanWorker.ThreadsSpaceKept | node/prman_worker.py:193-214 | corrected, a command starting with its thread argument keeps the space after the new one |
| PrmanWorker.ThreadsSpaceLost | node/prman_worker.py:212-214 | as written, the next argument is glued to the new one |
| PrmanWorker.ThreadsGlue | node/prman_worker.py:212-214 | as written, `-t:4 f` with 8 threads becomes `-t:8f` |
| PrmanWorker.ThreadsKept | node/prman_worker.py:193-214 | corrected, `-t:4 f` with 8 threads becomes `-t:8 f` |
| PrmanWorker.ReplaceThreadsArg | node/prman_worker.py:193-214 | the scan as a loop gives the corrected replacement |
| PrmanWorker.Prman.constructor | node/prman_worker.py:30-50 | an idle worker with nothing run yet, satisfying the as-written invariant |
| PrmanWorker.Prman.State | node/prman_worker.py:82-107 | the answer and the new fields are those of `Polled` |
| PrmanWorker.Prman.Run | node/prman_worker.py:110-143 | the answer and the new fields are those of `Started` |
| PrmanWorker.Prman.LaunchNext | node/prman_worker.py:224-245 | the command under the cursor, rewritten, becomes the running process, as `Launched` says |
| PrmanWorker.Prman.ProcessEnds | node/prman_worker.py:304-306 | the process ends with its code and its output is kept, as `Ended` says |
| PrmanWorker.Prman.OnExit | node/prman_worker.py:247-273 | the answer and new fields are those of the corrected `OnExited`, which keeps the ended process after the last command |
| PrmanWorker.Prman.Kill | node/prman_worker.py:145-151 | the new fields are those of `Killed` |
| PrmanWorker.Prman.KillAll | node/prman_worker.py:153-159 | the new fields are those of `KilledAll` |
| AlfArgs.BracketedMeans | bin/prman_AlfParser.py:28-40 | `__matchBracket` raises IndexError exactly on empty text and gives None when the text does not open with '{'. Given an opening '{', it gives None exactly when no prefix balances the braces; otherwise it gives the text strictly between that brace and the '}' that first closes it |
| AlfArgs.MatchBracket | bin/prman_AlfParser.py:28-40 | the loop counting open braces gives the result `Bracketed` specifies |
| AlfArgs.LeadingSpace | bin/prman_AlfParser.py:42-43 | the count of leading whitespace never exceeds the text's length |
| AlfArgs.LeadingSpaceMeans | bin/prman_AlfParser.py:42-43 | `len(text) - len(text.lstrip())` counts exactly the whitespace run that `lstrip` removes: what follows it is the stripped text and starts with a non-space |
| AlfArgs.SameIndent | bin/prman_AlfParser.py:57-62 | the first line from `i` on with the first line's indentation: every line before it is indented otherwise |
| AlfArgs.JoinedLengthIsJoin | bin/prman_AlfParser.py:53-61 | adding up each line's length plus one for its newline gives the length of those lines joined with newlines |
| AlfArgs.ExtentCounts | bin/prman_AlfParser.py:57-63 | the loop's extent is the joined length of the lines up to and including the first later line indented like the first one |
| AlfArgs.ExtentStep | bin/prman_AlfParser.py:57-63 | one turn of the loop: a line indented differently is counted and the loop goes on; a line indented the same is counted and ends it |
| AlfArgs.CommandLength | bin/prman_AlfParser.py:49-63 | `determineCommandLength` raises exactly when the text is empty (IndexError) or starts with a newline (ValueError); otherwise the length is positive and at most the text's |
| AlfArgs.CommandLengthMeans | bin/prman_AlfParser.py:49-63 | a leading newline raises ValueError. Otherwise the length is that of the lines up to and including the first later line indented like the first one (or of all lines), joined by newlines, and the text starts with exactly those lines |
| AlfArgs.DetermineCommandLength | bin/prman_AlfParser.py:49-63 | the split-and-loop as written gives the length `CommandLength` specifies, and the same exceptions |
| AlfArgs.CountLines | bin/prman_AlfParser.py:57-63 | the loop over the lines after the first counts what `ExtentFrom` specifies: every line (and its newline) up to and including the first one indented like line 0 |
| AlfArgs.Unbraced | bin/prman_AlfParser.py:81 | `cur[1:-1]`: the text without its first and last characters, or empty when that leaves nothing |
| AlfArgs.CharFrom | bin/prman_AlfParser.py:99-111 | the first index at or after `j` holding `c`, or -1 when none does |
| AlfArgs.Step | bin/prman_AlfParser.py:75-115 | one turn of the scanning loop moves strictly forward and stays within the text; its only exception is IndexError, from a name that runs off the end |
| AlfArgs.ArgsFrom | bin/prman_AlfParser.py:74-115 | the scan from index `i` on can raise nothing but IndexError |
| AlfArgs.StepKeeps | bin/prman_AlfParser.py:75-115 | one turn keeps every name but an unfinished last one paired with an argument. A new argument is made only of characters read in that turn |
| AlfArgs.ArgsFromKeeps | bin/prman_AlfParser.py:74-115 | the scan keeps the names paired with their arguments, and no argument is longer than what was left to read |
| AlfArgs.AllArgs | bin/prman_AlfParser.py:65-117 | `extractAllArgs` raises only IndexError. The returned remaining text is always empty, and there are as many names as arguments or one more. No argument is longer than the text |
| AlfArgs.SimpleRun | bin/prman_AlfParser.py:90-96 | inside a plain argument, the characters up to the next space make up the argument, which is recorded; the scan then goes on idle after the space |
| AlfArgs.BracketRun | bin/prman_AlfParser.py:75-89 | inside a braced argument opened at `p`, the scan runs to the '}' that balances it and records what lies strictly between the braces |
| AlfArgs.DashStep | bin/prman_AlfParser.py:98-111 | a '-' seen while idle starts a name that runs to the next space. The name is recorded, and the next mode depends on whether a '{' follows the space |
| AlfArgs.NameUnended | bin/prman_AlfParser.py:99-104 | a name that no space ends runs off the text: IndexError |
| AlfArgs.NameAtEnd | bin/prman_AlfParser.py:102-104 | a name ended by the text's last character leaves nothing to look at after its space: IndexError |
| AlfArgs.Advance | bin/prman_AlfParser.py:74-115 | the scan from `i` is the scan from wherever one turn of the loop leaves it |
| AlfArgs.SameScan | bin/prman_AlfParser.py:74-115 | the scan depends only on the field values of its state |
| AlfArgs.SimpleAt | bin/prman_AlfParser.py:90-111 | by position: a name ending at `e` and a plain argument ending at the space at `f` are recorded together, and the scan goes on idle after `f` |
| AlfArgs.SimpleArg | bin/prman_AlfParser.py:90-111 | `-name value ` read while idle records `name` with the plain argument `value`, and the scan is idle again after the space |
| AlfArgs.OpenStep | bin/prman_AlfParser.py:85-87 | the '{' that opens a braced argument sets the depth to one and starts the argument's text |
| AlfArgs.BracketAt | bin/prman_AlfParser.py:75-111 | by position: a name ending at `e` and a braced argument from `e + 1` to the balancing '}' at `f` are recorded, the argument with its outer braces stripped |
| AlfArgs.BracketArg | bin/prman_AlfParser.py:75-111 | `-name {body}` read while idle, where `body`'s braces are balanced, records `name` with `body` |
| AlfArgs.Bind | bin/prman_AlfParser.py:122-123 | the keys of the options are exactly the names, and every value is one of the arguments |
| AlfArgs.BindLast | bin/prman_AlfParser.py:122-123 | a name is bound to the argument of its last occurrence |
| AlfArgs.Options | bin/prman_AlfParser.py:119-125 | `parseOptions` raises IndexError exactly when the scan does or the last name never got its argument (`opts[i]` out of range). Otherwise every name is bound to its argument, and no value is longer than the text |
| AlfArgs.UnterminatedLast | bin/prman_AlfParser.py:90-96 | a plain argument that closes the text with no space after it is never recorded: `-a x` yields the name without its argument, so the options raise |
| AlfArgs.TwoOptions | bin/prman_AlfParser.py:65-125 | `-a x -b {c {d}} ` gives `{a: x, b: c {d}}`. The plain argument ends at its space, and the braced one keeps its inner braces |
| AlfArgs.NestedBalanced | bin/prman_AlfParser.py:75-89 | the braces of `c {d}` balance and never close below where they start |
| AlfArgs.ExtractAllArgs | bin/prman_AlfParser.py:65-117 | the loop as written, with its two flags and its inner name loop, gives the result `AllArgs` specifies |
| AlfArgs.ParseOptions | bin/prman_AlfParser.py:119-125 | the loop as written gives `Options` |
| Alf.ToDict | bin/prman_AlfParser.py:119-125 | the options dictionary as item values: same keys, each value its text |
| Alf.Tagged | bin/prman_AlfParser.py:127-130 | the options plus `type` set to the item kind; every other option is kept, and nested texts are no longer than the line |
| Alf.Keyed | bin/prman_AlfParser.py:150-151 | the options plus `type` and the key the kind adds (the task name, the command), each set to its value. Every other option is kept |
| Alf.KeyedOutcome | bin/prman_AlfParser.py:149-151 | the item raises exactly when its options parse does, with the same exception; otherwise it is the keyed item |
| Alf.JobItem | bin/prman_AlfParser.py:127-130 | a Job line raises exactly when its options do; otherwise it is its options with `type` set to `job` |
| Alf.TaskItem | bin/prman_AlfParser.py:154-167 | a Task line raises UnboundLocalError exactly when nothing follows its first '{' (the name loop never binds `i`); its only other exception is IndexError. Otherwise it has `type` `task` and a `taskName` |
| Alf.TaskSplit | bin/prman_AlfParser.py:158-167 | a Task line once the name loop has stopped: it raises only IndexError; otherwise it has `type` `task` and a `taskName` |
| Alf.Back | bin/prman_AlfParser.py:134-147 | walking back from `i` while the index is positive stops at the last `c` in `(0, i]`, or at 0 (or `i` itself when it is already 0 or less) when there is none |
| Alf.RemoteItem | bin/prman_AlfParser.py:132-152 | a RemoteCmd line raises only IndexError; otherwise it has `type` `remoteCommand` and a `command` |
| Alf.RemoteSplit | bin/prman_AlfParser.py:141-152 | a RemoteCmd line once both walks have stopped: it raises only IndexError; otherwise it has `type` `remoteCommand` and a `command` |
| Alf.TaskItemAt | bin/prman_AlfParser.py:154-167 | once the name loop stops at a '}' (or at the last character), the task is named by what it read. Its options come from what follows that stop |
| Alf.RemoteItemIs | bin/prman_AlfParser.py:132-152 | the command is what the two backward walks gather, braces stripped; the options are the text before the '{' the second walk stops at |
| Alf.TaskItemNamed | bin/prman_AlfParser.py:154-167 | on `pre{name}rest`, the task is named `name` and its options are those of `rest` |
| Alf.TaskItemUnclosed | bin/prman_AlfParser.py:154-167 | on `pre{name` with no closing brace, the name runs to the end and there are no options |
| Alf.BackStops | bin/prman_AlfParser.py:134-147 | the backward walk stops at the first `c` it meets |
| Alf.RemotePieces | bin/prman_AlfParser.py:132-152 | on `pre{body}post` the first walk stops at the closing brace and the second at the opening one |
| Alf.RemoteItemAt | bin/prman_AlfParser.py:132-152 | once the walks have stopped at `open` and `close`, the command is what lies between them and the options are those of the text before `open` |
| Alf.RemoteItemCommand | bin/prman_AlfParser.py:132-152 | on `pre{body}post`, where `post` holds no '}', the command is `body` and the options are those of `pre` |
| Alf.Item | bin/prman_AlfParser.py:190-198 | the item for keyword `kind` (0 Job, 1 Task, 2 RemoteCmd) raises only IndexError or UnboundLocalError. Otherwise its `type` names its kind, and it carries the key that kind adds |
| Alf.ParseTask | bin/prman_AlfParser.py:154-167 | the loop building the name character by character gives `TaskItem` |
| Alf.ParseRemoteCmd | bin/prman_AlfParser.py:132-152 | the two walks back, the second gathering the command, give `RemoteItem` |
| Alf.GatherCommand | bin/prman_AlfParser.py:141-147 | the second walk back stops at the last '{' at or before the '}', or at index 0; the command gathered runs from that '{' (from index 1 when there is none) through the '}' |
| Alf.Found | bin/prman_AlfParser.py:174-177 | a keyword's start is the first occurrence `find` reports, or the stand-in 111111111111111111 exactly when it does not occur |
| Alf.Lowest | bin/prman_AlfParser.py:178 | `starts.index(min(starts))`: the least start, and no earlier keyword has it |
| Alf.BackOverTabs | bin/prman_AlfParser.py:185-189 | stepping back over the tabs before index `s` ends on a position preceded by a non-tab or at 0, and everything stepped over is a tab |
| Alf.Attach | bin/prman_AlfParser.py:200-208 | a re-parse changes only the key it is for, and an exception leaves the item as it was |
| Alf.Keyword | bin/prman_AlfParser.py:174-178 | the first keyword is one of the three |
| Alf.KeywordAt | bin/prman_AlfParser.py:180-184 | where that keyword starts, and it does occur there, or the stand-in |
| Alf.CommandStructure | bin/prman_AlfParser.py:169-215 | `__parseCommandStructure` raises only IndexError or UnboundLocalError. A structure it finds is non-empty, every item in it is of one of the three kinds, and the first item is of the earliest keyword's kind |
| Alf.ItemsFrom | bin/prman_AlfParser.py:190-215 | the item whose line starts at `s` heads what follows: every item is of one of the three kinds, and the first is of kind `kind` |
| Alf.ItemSpan | bin/prman_AlfParser.py:190-215 | the same, once the item is known to span `length` characters |
| Alf.Followed | bin/prman_AlfParser.py:209-215 | the item is followed by the items of the rest of the text; alone when the rest holds none; raising exactly when the rest does |
| Alf.Reparsed | bin/prman_AlfParser.py:200-208 | parsing `subtasks` and `cmds` again changes no other key and keeps the item's kind |
| Alf.Reparse | bin/prman_AlfParser.py:200-208 | parsing one key again changes no other key |
| Alf.NoneIffNoKeyword | bin/prman_AlfParser.py:174-184 | the structure is None exactly when none of Job, Task and RemoteCmd occurs in the text (for texts shorter than the stand-in) |
| Alf.NoKeyword | bin/prman_AlfParser.py:174-184 | when the earliest start is the stand-in, no keyword occurs |
| Alf.SomeKeyword | bin/prman_AlfParser.py:174-184 | when some keyword starts below the stand-in, it occurs and the structure is not None |
| AlfExtract.Get | bin/prman_AlfParser.py:220-227 | `e[key]` succeeds exactly on a dictionary holding the key; otherwise KeyError on a dictionary, TypeError on a character |
| AlfExtract.Elements | bin/prman_AlfParser.py:220-239 | a `for` over a value yields a text's characters or a list's items, in order; None raises TypeError |
| AlfExtract.GatherAppend | bin/prman_AlfParser.py:225-241 | gathering over two runs of elements is gathering over the first, then the second |
| AlfExtract.GatherHas | bin/prman_AlfParser.py:225-241 | something is gathered exactly when it comes from one of the elements |
| AlfExtract.AppendCmds | bin/prman_AlfParser.py:226-230 | appending each command of `t['cmds']` in turn adds exactly that task's commands; nothing when reading them raises |
| AlfExtract.Extend | bin/prman_AlfParser.py:255-256 | `for c in cs: acc.append(c)` appends `cs` |
| AlfExtract.TextureCommandsHas | bin/prman_AlfParser.py:235-243 | the texture commands are exactly the commands of the subtasks |
| AlfExtract.ExtractCommandsForTexture | bin/prman_AlfParser.py:235-243 | the loop as written gives the task's texture commands, or the exception of listing its subtasks |
| AlfExtract.GatherCmds | bin/prman_AlfParser.py:237-242 | the loop over the tasks gathers their commands in order |
| AlfExtract.FrameNamed | bin/prman_AlfParser.py:223 | the frame number of a task named `Frame<n>` is `n` |
| AlfExtract.FrameRemoved | bin/prman_AlfParser.py:223 | removing 'Frame' from `Frame<n>` leaves the digits of `n` |
| AlfExtract.FrameStep | bin/prman_AlfParser.py:220-232 | one frame task raises exactly when its number or its commands cannot be read. Otherwise its number is appended to the frames, and its commands are stored under the number's text when there are any |
| AlfExtract.FramesRaise | bin/prman_AlfParser.py:220-232 | the walk over the frame tasks raises exactly when reading one of them does |
| AlfExtract.FramesStopped | bin/prman_AlfParser.py:220-232 | once one frame task cannot be read, the walk raises that, whatever follows |
| AlfExtract.FramesOrder | bin/prman_AlfParser.py:223-224 | the frame numbers come one per task, in the tasks' order |
| AlfExtract.FramesNonEmpty | bin/prman_AlfParser.py:231-232 | a frame has an entry only when it has commands |
| AlfExtract.FramesKeys | bin/prman_AlfParser.py:231-232 | `str(frame)` is a key exactly when some task of that frame has commands |
| AlfExtract.FramesLastWins | bin/prman_AlfParser.py:231-232 | a frame's entry holds the commands of the last task of that frame that has any |
| AlfExtract.ExtractCommandsForFrame | bin/prman_AlfParser.py:217-233 | the loop as written gives `FrameCommands` |
| AlfExtract.FrameTask | bin/prman_AlfParser.py:220-232 | one turn of that loop extends the fold by one task |
| AlfHierarchy.TaskStep | bin/prman_AlfParser.py:249-262 | one task raises exactly when its name cannot be read or it is a frame task whose frames raise. A texture task adds its commands, and any failure to read them is swallowed. A frame task merges its commands over the earlier ones and replaces `frames` |
| AlfHierarchy.ParsedFile | bin/prman_AlfParser.py:9-13 | a script with no keyword after its 17-character header parses to None, which line 248 cannot iterate: TypeError |
| AlfHierarchy.TasksAppend | bin/prman_AlfParser.py:249-262 | walking two runs of tasks is walking the first, then the second from where it ended |
| AlfHierarchy.TasksStopped | bin/prman_AlfParser.py:249-262 | once one task is stuck, the walk raises that, whatever follows |
| AlfHierarchy.TasksRaise | bin/prman_AlfParser.py:251-262 | the walk raises exactly when some task is stuck |
| AlfHierarchy.TasksTextures | bin/prman_AlfParser.py:251-258 | the texture commands are those of the texture tasks, in order, after what came before |
| AlfHierarchy.TasksNoFrames | bin/prman_AlfParser.py:260-262 | without a frame task, `frames` and the commands are what they were before |
| AlfHierarchy.TasksLastFrames | bin/prman_AlfParser.py:261 | `frames` holds the frame numbers of the last frame task |
| AlfHierarchy.TasksKeys | bin/prman_AlfParser.py:262 | a key is in the merged commands exactly when it was there before or some frame task has it |
| AlfHierarchy.TasksLastWins | bin/prman_AlfParser.py:262 | the later dictionary wins, so a key holds the commands of the last frame task that has it |
| AlfHierarchy.JobsFlat | bin/prman_AlfParser.py:248-262 | the walk over the jobs is the walk over all their tasks, one job after another |
| AlfHierarchy.JobsUnlisted | bin/prman_AlfParser.py:249 | when some job's tasks cannot be listed, the walk raises |
| AlfHierarchy.JobsStopped | bin/prman_AlfParser.py:248-262 | once one job makes the walk raise, it raises that, whatever follows |
| AlfHierarchy.FramesUnbound | bin/prman_AlfParser.py:261 | `frames` stays unbound exactly when no task is a frame task |
| AlfHierarchy.HierarchyUnbound | bin/prman_AlfParser.py:245-264 | when every task can be walked, the result is UnboundLocalError (line 264 reads `frames`) exactly when no task is a frame task |
| AlfHierarchy.ParseFile | bin/prman_AlfParser.py:9-13 | parsing and walking as written give `ParsedFile` |
| AlfHierarchy.ExtractCommandHierarchy | bin/prman_AlfParser.py:245-264 | the loops as written give `CommandHierarchy` |
| AlfHierarchy.JobTurn | bin/prman_AlfParser.py:248-262 | one turn of the loop over the jobs extends the fold by one job |
| AlfHierarchy.TaskTurn | bin/prman_AlfParser.py:249-262 | one turn of the loop over a job's tasks extends the fold by one task |

## Left out

- Operating system and file I/O: `os.listdir`, `getmtime`, `makedirs`, `mkdir`, `unlink`, `shutil.copy2` and `open`. The disk is a map from paths to directories (with their listing order) and files (with their mtime and decoded contents).
- The JSON codec (bin/fs_db_json.py) is not modelled. A record is its decoded value, and a file the codec rejects reads as None.
- File locking: `LockFile` comes from a module that is not part of this model, so locking is a no-op. Only its directory prefix `.lock_` (bin/fs_db.py:406) is kept, because it hides lock directories from listings.
- Races between processes that share the job and project directories are not modelled. Each operation reads and writes the disk on its own.
- Time, randomness and identifiers are parameters: `time.time()`, `random.random()` in `task_select` and in the node's jitter, and `uuid` generation.
- Floating point: rates, weights, mean render times, heartbeats, backoff and percentages are exact reals. There is no IEEE rounding, no `'%.2f'`, no `datetime.timedelta` and no `strftime` text. `format_bytes` returns the exact ratio rather than its two-decimal text.
- Processes and threads are abstracted. A child process is what `poll()` answers (none, running, exited with a code) and its output is a parameter. Not modelled: the `communicate()` thread and busy-wait of node/prman_worker.py:304-326, the sleep of node/node.py, the shell call of prenode/run.py, and the log files the workers write.
- The network: `urlopen` in node/node.py is a parameter holding the farm's reply, None when an IOError was raised.
- Regular expressions: `replace_denoise_paths` (node/prman_worker.py:216-222) is a parameter of the exit handler, and the `exclude` pattern of `iterate_ext` is a predicate on names.
- Query strings, cookies and JSON bodies: `parse_qsl` is not modelled, so a request's query is a map. Decoding a posted JSON body is left to the caller of `getJsonPost`, which returns the body's bytes.
- Logging (`rfam.log`) and every `print` are left out.
- Templates.Step, Templates.Along, Templates.Render: the `%` formatting of a template (bin/templates.py:96) is the parameter `fill`, which always returns a text. The KeyError, ValueError and TypeError that `%` raises for a missing key, a malformed conversion or a value of the wrong type are not modelled.
- The HTML builders of bin/rfam.py (`typeChoice`, `userChoice`, `priorityInterface`) and its configuration and language loading are not modelled. The login page of bin/credits.py, and the project display name and priority widget of the rendering table, are left out too.
- FsDb: the tree of `Node` objects is a map keyed by path, so a node is its path. `path()` is therefore the key itself. The OS path joins of `real_path()`, `modified`, `size`, `get_root` and `get_cache_time` are not modelled.
- FsDb.Iterate, FsDb.IterChildren, FsDbCache.Db.Iter: the walk is proved sound (only recorded paths at or below the node), depth first, and complete one level down: a directory's listed, undeleted children are all yielded. Two things are not proved. Freedom from duplicates needs the invariant that every children list holds each name once, and the model does not keep that invariant. Completeness at every depth is not composed from the one-level statement.
- FsDb.Count: the count of the unit tests' five-item directory (bin/fs_db_test.py:57-61) is not proved. The file and one-level facts are stated for `Count`, but composing them over the three children of the test root takes more than the verifier's resource limit.
- FsDb.IterateExt, FsDb.ExtChildren: proved sound, and they honour the exclusion as far as it reaches. Their order, completeness and freedom from duplicates are not stated.
- FsDb.Create, FsDb.Clone, FsDb.IterateExt, FsDb.ContainsExt: modelled as functions from one cache state to the next, not as methods of `FsDbCache.Db`. Their in-place update of the tree is captured only by that state change.
- Priority.TruePriority: a dependency cycle raises RecursionError, but Python's recursion limit on a long acyclic chain is not modelled.
- Priority and Rfam: Python's dictionary and set iteration order is taken as the order of the listing the operation receives. `list(set)` in bin/store.py is taken to keep insertion order.
- Jobs.Finish: in a non-video job, `task_alive` can adopt a frame reported as a pair. When that pair finishes, the entry leaves working, but the model does not append the pair to `done` as the source appends the list, because `done` holds frame numbers. Later counts of `done` are one lower than the source's.
- Rendering.Keep: in a non-video job, an expired pair counts an error and leaves working. For the same reason it is not appended to `todo` or `failed`.
- Rendering.Table: the sweep edits the job records that `FsDb` read handed out (bin/fs_db.py:153-170), and those records are the cached file contents. So a later read of an unchanged job file sees the swept record. The model returns the rows and the node index and leaves the cache unchanged.
- Jobs: the name of a node that has not yet sent `identity` (None in the source) is the ident "".
- Jobs.GatherFacts, Jobs.SelectFacts, Jobs.SelectSucceeds, Jobs.Scheduler.GatherOptions, Jobs.Scheduler.TaskSelect, Jobs.Scheduler.NodePauseAll: the jobs and nodes directories are taken to hold only `.json` records. `task_select` (bin/jobs.py:265-267) and `node_pause_all` (bin/jobs.py:217-220) read every listed name without the `isa() == FILE` and `.json` filter that `iterjobs`, `iternodes` and `potential_jobs` apply, so a stray file or sub-directory there raises TypeError (bin/fs_db.py:155-156) in the source; the scheduler's state cannot hold such an entry, so these contracts do not state that TypeError.
- Jobs.AliveAt, Jobs.DoneAt, Jobs.AliveAtFalseIff, Jobs.Scheduler.TaskAlive, Jobs.Scheduler.TaskDone: the partial edit that the source leaves in the cached job record before raising is not modelled. `read()` hands out the cached dict (bin/fs_db.py:153-171). `task_alive` sets `todo` and `working` (bin/jobs.py:427-428) or the timestamp of `working[0]` (line 435) before `frame[0]` raises TypeError at line 438. `task_done` deletes the working entry, appends to `done` and increments `time_count` (lines 464-468) before a `time_count` of -1 raises ZeroDivisionError at line 469. In the video branch it empties `todo` and `working` (lines 496-497) before `frame[0]` raises TypeError at line 498; with a range it also sets `done` and increments `time_count` (lines 498-501) before the same ZeroDivisionError at line 502. The file is not written, but a later read returns the edited dict and the next write of that job saves it. On these raises the model returns the jobs unchanged, and the second ensures of AliveAtFalseIff states that.
- Jobs.Scheduler.TaskSelect: the project priority `rfam.getProject(key)['render.priority']` that `task_select` reads (bin/jobs.py:327) is a function parameter, `priority`.
- Jobs.Scheduler.TaskDone: the note for the asset's render times is returned, not written. The lookup `rfam.proj(project)`, the test `meta in db` and the read and write of the metadata file (bin/jobs.py:471-489, 504-521) are not modelled, because the scheduler holds no project databases. `Farm` drops the note. `NoteTime` gives the table the write would leave.
- Jobs.Job: `meta` is a path, never None. Every caller of `jobs.add` in bin/add.py passes the JSON path of the job's asset (bin/add.py:154, 196), so the default None never occurs.
- Add: `json.dumps` is modelled only for texts without quotes, backslashes or control characters, which covers every message the handlers send. The order of a first role is the real 0.0 where the source writes the integer 0.
- Add.Carry: the `prmanCommands` keyword argument is left out of the corrected job creation. The scheduler has nowhere to store the commands, so they are not kept with the job.
- Store.App: the 'emergency' route calls a handler that does not exist (NameError), and the 'default' key calls a method `Response` does not have (AttributeError). Both are modelled as written.
- Node: the version of the hello is written into the first request of the batch, which is a re-sent report rather than the identity when `must_send` is not empty (node/node.py:92). The model writes it into the identity only when nothing is re-sent, and otherwise drops it.
- Rfam: an opened database is represented by the directory it was opened on. The inner refresh of `getProject` inside `proj` is taken to see the same clock reading, so it changes nothing.
- Rfam.StateChoice: a 'states' value that is not a list is taken as a TypeError.
- Rfam.Known: an empty list of render times for a frame is treated as absent. After the first pass no such list exists.
- Rfam.Server.Refresh: the invariant that keeps the index and opened databases coherent is stated for projects with distinct idents. Two project files with the same ident leave the first one's database behind.
- Py.ParseInt: `int(text)` is modelled as optional surrounding whitespace, an optional sign and ASCII digits. Python also accepts '_' between digits and the decimal digits of other scripts. The model refuses those with ValueError. This affects AlfExtract.FrameOf, Add.IntOf, Response.ContentLength and Rfam.Read.
- Alf.CommandStructure: Python's recursion limit is not modelled. Line 211 of bin/prman_AlfParser.py recurses once for each following item, so a script with about a thousand items at one level raises RecursionError in the source, but the model parses it. The bare `except:` clauses at lines 203-204 and 207-208 would also swallow a RecursionError from a deep nested parse and keep the nested text as it was. The model reparses at any depth.

## Findings

| source | as written | input that shows it | evidently intended | confidence | as-written member | corrected member |
|---|---|---|---|---|---|---|
| bin/jobs.py:301 | the weight is divided by `self.require_rate[key]`, but `key` is first bound at line 324 | any eligible job whose `requires` is non-empty: UnboundLocalError | divide by the rate of each requirement `req` | not executed | Jobs.WeightAsWrittenFails | Jobs.WeightPositive |
| bin/fs_db.py:268 | `os.makedirs(ret.real_path())` in `create`, where `ret` is not bound | `create` on a node that `remove` marked deleted: NameError | make the node's own directory and carry on | not executed | FsDbFacts.CreateDeletedAsWritten | FsDbFacts.CreateDeletedRepaired |
| bin/fs_db.py:329 | the recursive `iterate_ext` call drops `exclude` | from the root with `x.txt` excluded, `a/x.txt` is still yielded | pass `exclude` down | not executed | FsDb.ExcludeNotPassedDown | FsDb.IterateExt |
| node/worker.py:85 | `parts[-2]` is read even when the output has no newline | a video render whose output so far holds one line: IndexError | read `parts[-2]` only when there are two parts | not executed | Worker.VideoProgressAsWrittenFails | Worker.VideoProgressFra |
| node/node.py:147 | `'%i' % commandment['frame']` in the kill message | a kill commandment for a video frame range: TypeError, so no worker is told | print the frame as it is | not executed | Node.KillAsWrittenFails | Node.ObeyOneFacts |
| node/prman_worker.py:186-189 | the old `-cwd` argument is `command[start+1:end+1]`, which takes the space after an unquoted value | ` -cwd x y` with replacement `R` gives ` Ry` | replace up to the value's end and keep the space | not executed | PrmanWorker.CwdGlue | PrmanWorker.CwdSpaceKept |
| node/prman_worker.py:212-214 | the old `-t:` argument is `command[start:end+1]`, which takes the space after it | `-t:4 f` with 8 threads gives `-t:8f` | keep the space | not executed | PrmanWorker.ThreadsGlue | PrmanWorker.ThreadsKept |
| node/prman_worker.py:270-273 | `onExit` clears the process when the last command ends, so `state` never reports the frame done | a frame whose last command exits with 0: the following polls answer None | keep the exited process, so the next poll reports done | not executed | PrmanWorker.LastExitAsWritten | PrmanWorker.LastExitReportsDone |
| bin/templates.py:44 | `PrefixDict.__iter__` calls `dict.iteritems`, which Python 3 does not have | iterating any non-empty `PrefixDict`: AttributeError | iterate `items()` | not executed | Templates.IterAsWrittenFails | Templates.IterLen |
| bin/priority.py:36 | the boost calls `priority`, which the module does not define | a boosting asset with a dependency: NameError | call `true_priority` | not executed | Priority.AsWrittenNeverBoosts | Priority.PriorityIsMax |
| bin/add.py:85 | the early return for a name that is not `.alf` calls `reponse.setJSON()` | `job_prman` with `name=a.blend`: NameError | `response.setJSON()` | not executed | Add.NotAlfRefused | Add.App |
| bin/add.py:153-154 | `jobs.add` is called with `prmanCommands`, which it does not accept | any valid `job_prman` request: TypeError, no job added | add the job | not executed | Add.PrmanAsWrittenNeverLaunches | Add.ClampedFrames |
| bin/add.py:177-179 | after answering 'false' for a missing path, `job` goes on and adds the job | `job` on a path the project does not have: 'false' and a new job | return after 'false' | not executed | Add.JobAsWrittenAddsAnyway | Add.JobLaunched |
| bin/add.py:272 | after writing the record, `ext_asset` calls `response.add()`, which `Response` does not have | any complete `ext_asset` request: AttributeError after the write | end after appending 'true' | not executed | Add.ExtAssetLast | Add.AddExtAsset |
| bin/rfam.py:160, bin/rfam.py:163 | the refresh deletes a project's database without checking that it was opened | a project whose directory changed before its database was first opened: KeyError | delete only what is there | not executed | Rfam.RebuildAsWrittenFails | Rfam.RebuiltCoherent |
