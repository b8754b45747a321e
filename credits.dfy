/**
 * The credits page (bin/credits.py): a plain-text list built from a
 * project's roles, its remaining users and its external assets.
 *
 * The page is the sequence of chunks `response.append` receives.  The
 * project record, the users of the project (`getUsersByProject`) and the
 * user names (`getUser(u)['name']`) are parameters; a user `getUser` does
 * not know gives None, and indexing None raises TypeError.
 */
module Credits {
  import opened Py
  import opened Lists
  import opened Sorting

  /** An entry of `proj['roles']`. */
  datatype Role = Role(role: string, user: string, order: real)

  /** An entry of `proj['ext_assets']`. */
  datatype ExtAsset = ExtAsset(description: string, license: string, origin: string)

  /** The parts of `project.json` the page reads. */
  datatype Project = Project(roles: seq<Role>, extAssets: seq<ExtAsset>, title: string, license: string)

  /** Lines 22-24: the login page when nobody is logged in; otherwise the text. */
  datatype Page = LoginPage | Plain(chunks: seq<string>)

  /** Line 37: roles by their 'order'. */
  function ByOrder(): (Role, Role) -> bool {
    (a: Role, b: Role) => a.order <= b.order
  }

  /** Line 54: users by ident. */
  function ByIdent(): (string, string) -> bool {
    (a: string, b: string) => StrLe(a, b)
  }

  /** Line 60: external assets by description. */
  function ByDescription(): (ExtAsset, ExtAsset) -> bool {
    (a: ExtAsset, b: ExtAsset) => StrLe(a.description, b.description)
  }

  /** Lines 38-43 for the `i`-th role: a heading when its role differs from the one before. */
  function Heading(rs: seq<Role>, i: nat): seq<string>
    requires i < |rs|
  {
    if i > 0 && rs[i - 1].role == rs[i].role then []
    else (if i > 0 then ["\n\n"] else []) + [rs[i].role, "\n\n"]
  }

  /** Lines 37-46: the headings and names of the roles `rs`, in order. */
  function RolesText(rs: seq<Role>, names: map<string, string>): Outcome<seq<string>> {
    if |rs| == 0 then Ok([])
    else
      var n := |rs| - 1;
      match RolesText(rs[..n], names)
      case Raise(err) => Raise(err)
      case Ok(t) =>
        if rs[n].user !in names then Raise(TypeError)
        else Ok(t + Heading(rs, n) + [names[rs[n].user], "\n"])
  }

  /** The users of the roles `rs`. */
  function Taken(rs: seq<Role>): set<string> {
    set i | 0 <= i < |rs| :: rs[i].user
  }

  /** Line 33: `set(users)`, as the list of its members, each once. */
  function Dedup(us: seq<string>): (r: seq<string>)
    ensures Distinct(r)
    ensures forall x :: x in r <==> x in us
  {
    if |us| == 0 then []
    else
      var front := Dedup(us[..|us| - 1]);
      var x := us[|us| - 1];
      assert forall y :: y in us <==> y in us[..|us| - 1] || y == x;
      if x in front then front else front + [x]
  }

  /** The members of `us` not in `taken`, in order. */
  function Keep(us: seq<string>, taken: set<string>): (r: seq<string>)
    ensures forall x :: x in r <==> x in us && x !in taken
  {
    if |us| == 0 then []
    else (if us[0] in taken then [] else [us[0]]) + Keep(us[1..], taken)
  }

  /** Lines 33 and 48: the users of the project that no role names. */
  function SpareOf(users: seq<string>, rs: seq<Role>): seq<string> {
    Keep(Dedup(users), Taken(rs))
  }

  /** Lines 54-56: the name of each of `us`, one line each. */
  function NamesText(us: seq<string>, names: map<string, string>): Outcome<seq<string>> {
    if |us| == 0 then Ok([])
    else
      var n := |us| - 1;
      match NamesText(us[..n], names)
      case Raise(err) => Raise(err)
      case Ok(t) => if us[n] !in names then Raise(TypeError) else Ok(t + [names[us[n]], "\n"])
  }

  /** Lines 61-66: description, license and origin of each of `es`. */
  function ExtText(es: seq<ExtAsset>): seq<string> {
    if |es| == 0 then []
    else
      var e := es[|es| - 1];
      ExtText(es[..|es| - 1]) + [e.description, "\n", e.license, "\n", e.origin, "\n\n\n"]
  }

  /** Lines 33-72: the text of a logged-in user's credits page. */
  function CreditsText(proj: Project, users: seq<string>, names: map<string, string>): Outcome<seq<string>> {
    var rs := Sort(proj.roles, ByOrder());
    match RolesText(rs, names)
    case Raise(err) => Raise(err)
    case Ok(a) =>
      var spare := Sort(SpareOf(users, rs), ByIdent());
      match NamesText(spare, names)
      case Raise(err) => Raise(err)
      case Ok(b) =>
        Ok(a + (if |rs| > 0 && |spare| > 0 then ["\n\n"] else []) + b + ["\n\n\n"]
           + ExtText(Sort(proj.extAssets, ByDescription())) + ["\n", proj.title, "\n", proj.license])
  }

  /** Lines 20-72. */
  function CreditsPage(user: Option<string>, project: Option<string>, proj: Project, users: seq<string>,
                       names: map<string, string>): (r: Outcome<Page>)
    ensures user.None? || project.None? ==> r == Ok(LoginPage)
    ensures user.Some? && project.Some? ==> (r.Raise? <==> CreditsText(proj, users, names).Raise?)
  {
    if user.None? || project.None? then Ok(LoginPage)
    else
      match CreditsText(proj, users, names)
      case Raise(err) => Raise(err)
      case Ok(t) => Ok(Plain(t))
  }

  // ---------------------------------------------------------------------------
  // Lemmas

  /** Line 37: the roles are listed by ascending 'order', roles of equal order as the project lists them. */
  lemma RolesInOrder(roles: seq<Role>, k: Role)
    ensures Sorted(Sort(roles, ByOrder()), ByOrder())
    ensures EqualRank(Sort(roles, ByOrder()), k, ByOrder()) == EqualRank(roles, k, ByOrder())
  {
    SortSorted(roles, ByOrder());
    SortStable(roles, k, ByOrder());
  }

  /** Lines 45 and 55: the text raises exactly when some role's user has no name. */
  lemma {:induction false} RolesRaise(rs: seq<Role>, names: map<string, string>)
    ensures RolesText(rs, names).Raise? <==> exists i :: 0 <= i < |rs| && rs[i].user !in names
  {
    if |rs| > 0 {
      var n := |rs| - 1;
      var front := rs[..n];
      RolesRaise(front, names);
      if exists i :: 0 <= i < n && front[i].user !in names {
        var i :| 0 <= i < n && front[i].user !in names;
        assert rs[i] == front[i];
      }
      if exists i :: 0 <= i < n && rs[i].user !in names {
        var i :| 0 <= i < n && rs[i].user !in names;
        assert front[i] == rs[i];
      }
    }
  }

  /** Lines 45-46: the text of the roles holds, in order, the name of the user of every role. */
  lemma {:induction false} RolesNamed(rs: seq<Role>, names: map<string, string>, i: nat)
    requires RolesText(rs, names).Ok? && i < |rs|
    ensures rs[i].user in names && names[rs[i].user] in RolesText(rs, names).value
  {
    var n := |rs| - 1;
    if i < n {
      assert rs[..n][i] == rs[i];
      RolesNamed(rs[..n], names, i);
    }
  }

  /** Lines 33, 48 and 54: the users listed after the roles are the project's users no role names, each once, by ident. */
  lemma SpareUsers(users: seq<string>, rs: seq<Role>)
    ensures var spare := Sort(SpareOf(users, rs), ByIdent());
      Sorted(spare, ByIdent()) &&
      (forall x :: x in spare <==> x in users && forall i :: 0 <= i < |rs| ==> rs[i].user != x) &&
      (forall i, j :: 0 <= i < j < |spare| ==> spare[i] != spare[j])
  {
    var le := ByIdent();
    forall a: string, b: string ensures le(a, b) || le(b, a) {
      StrLeTotal(a, b);
    }
    forall a: string, b: string, c: string | le(a, b) && le(b, c) ensures le(a, c) {
      StrLeTrans(a, b, c);
    }
    var s := SpareOf(users, rs);
    SortSorted(s, le);
    KeepDistinct(Dedup(users), Taken(rs));
    var spare := Sort(s, le);
    forall x ensures x in spare <==> x in s {
      assert x in spare <==> x in multiset(spare);
      assert x in s <==> x in multiset(s);
    }
    forall x ensures x in Taken(rs) <==> exists i :: 0 <= i < |rs| && rs[i].user == x {
    }
    DistinctKept(s, spare);
  }

  /** Line 60: the external assets are listed by description, every one of them once. */
  lemma ExtInOrder(es: seq<ExtAsset>)
    ensures Sorted(Sort(es, ByDescription()), ByDescription())
    ensures multiset(Sort(es, ByDescription())) == multiset(es)
  {
    var le := ByDescription();
    forall a: ExtAsset, b: ExtAsset ensures le(a, b) || le(b, a) {
      StrLeTotal(a.description, b.description);
    }
    forall a: ExtAsset, b: ExtAsset, c: ExtAsset | le(a, b) && le(b, c) ensures le(a, c) {
      StrLeTrans(a.description, b.description, c.description);
    }
    SortSorted(es, le);
  }

  /** Keeping some members of a list without repeats leaves none repeated. */
  lemma {:induction false} KeepDistinct(us: seq<string>, taken: set<string>)
    requires Distinct(us)
    ensures Distinct(Keep(us, taken))
  {
    if |us| > 0 {
      KeepDistinct(us[1..], taken);
      assert us[0] !in us[1..];
    }
  }

  /** A permutation of a list without repeats has none. */
  lemma DistinctKept(s: seq<string>, t: seq<string>)
    requires Distinct(s) && multiset(t) == multiset(s)
    ensures forall i, j :: 0 <= i < j < |t| ==> t[i] != t[j]
  {
    forall x ensures multiset(s)[x] <= 1 {
      DistinctCount(s, x);
    }
    forall i, j | 0 <= i < j < |t| ensures t[i] != t[j] {
      assert t == t[..j] + t[j..];
      assert t[i] in t[..j];
      assert t[j] in t[j..];
      assert multiset(t)[t[i]] == multiset(t[..j])[t[i]] + multiset(t[j..])[t[i]];
      assert t[i] !in multiset(t[j..]);
    }
  }

  /** Each member of a list without repeats is counted once. */
  lemma {:induction false} DistinctCount(s: seq<string>, x: string)
    requires Distinct(s)
    ensures multiset(s)[x] <= 1
  {
    if |s| > 0 {
      assert s == [s[0]] + s[1..];
      DistinctCount(s[1..], x);
      if s[0] == x {
        assert x !in s[1..];
      }
    }
  }

  /** Line 48: discarding the user of one more role. */
  lemma {:induction false} KeepWithout(us: seq<string>, taken: set<string>, u: string)
    ensures Without(Keep(us, taken), u) == Keep(us, taken + {u})
  {
    if |us| > 0 {
      KeepWithout(us[1..], taken, u);
      var rest := Keep(us[1..], taken);
      if us[0] in taken {
        assert Keep(us, taken) == rest;
      } else {
        assert Keep(us, taken) == [us[0]] + rest;
        assert ([us[0]] + rest)[1..] == rest;
      }
    }
  }

  /** Line 33: with no role yet, every user is spare. */
  lemma {:induction false} KeepNothing(us: seq<string>)
    ensures Keep(us, {}) == us
  {
    if |us| > 0 {
      KeepNothing(us[1..]);
      assert us == [us[0]] + us[1..];
    }
  }

  /** One more role takes one more user. */
  lemma TakenNext(rs: seq<Role>, k: nat)
    requires k < |rs|
    ensures Taken(rs[..k + 1]) == Taken(rs[..k]) + {rs[k].user}
  {
    assert forall i :: 0 <= i < k ==> rs[..k + 1][i] == rs[..k][i];
    assert rs[..k + 1][k] == rs[k];
  }

  /** Once one role cannot be named, the text of all roles raises with it. */
  lemma {:induction false} RolesStopped(rs: seq<Role>, k: nat, names: map<string, string>)
    requires k < |rs| && RolesText(rs[..k + 1], names).Raise?
    ensures RolesText(rs, names) == RolesText(rs[..k + 1], names)
  {
    if |rs| > k + 1 {
      var front := rs[..|rs| - 1];
      assert front[..k + 1] == rs[..k + 1];
      RolesStopped(front, k, names);
    } else {
      assert rs[..k + 1] == rs;
    }
  }

  /** Once one user cannot be named, the text of all users raises with it. */
  lemma {:induction false} NamesStopped(us: seq<string>, k: nat, names: map<string, string>)
    requires k < |us| && NamesText(us[..k + 1], names).Raise?
    ensures NamesText(us, names) == NamesText(us[..k + 1], names)
  {
    if |us| > k + 1 {
      var front := us[..|us| - 1];
      assert front[..k + 1] == us[..k + 1];
      NamesStopped(front, k, names);
    } else {
      assert us[..k + 1] == us;
    }
  }

  // ---------------------------------------------------------------------------
  // The page as the source builds it

  /** Lines 20-72 as the source runs them. */
  method Credits(user: Option<string>, project: Option<string>, proj: Project, users: seq<string>,
                 names: map<string, string>) returns (r: Outcome<Page>)
    ensures r == CreditsPage(user, project, proj, users, names)
  {
    if user.None? || project.None? {
      return Ok(LoginPage);
    }
    var text := Text(proj, users, names);
    if text.Raise? {
      return Raise(text.error);
    }
    return Ok(Plain(text.value));
  }

  /** Lines 33-72: the chunks appended, in order. */
  method Text(proj: Project, users: seq<string>, names: map<string, string>) returns (r: Outcome<seq<string>>)
    ensures r == CreditsText(proj, users, names)
  {
    var rs := Sort(proj.roles, ByOrder());
    var roles := RolesPart(rs, users, names);
    if roles.Raise? {
      return Raise(roles.error);
    }
    var (a, spare) := roles.value;
    assert a == RolesText(rs, names).value && spare == SpareOf(users, rs);
    var ordered := Sort(spare, ByIdent());
    var b := NamesPart(ordered, names);
    if b.Raise? {
      return Raise(b.error);
    }
    var ext := ExtPart(Sort(proj.extAssets, ByDescription()));
    var out := a + (if |rs| > 0 && |ordered| > 0 then ["\n\n"] else []) + b.value + ["\n\n\n"];
    out := out + ext + ["\n", proj.title, "\n", proj.license];
    return Ok(out);
  }

  /** Lines 33-48: the headings and names of the roles, and the users left over. */
  method RolesPart(rs: seq<Role>, users: seq<string>, names: map<string, string>) returns (r: Outcome<(seq<string>, seq<string>)>)
    ensures RolesText(rs, names).Raise? ==> r == Raise(RolesText(rs, names).error)
    ensures RolesText(rs, names).Ok? ==> r == Ok((RolesText(rs, names).value, SpareOf(users, rs)))
  {
    var out: seq<string> := [];
    var spare := Dedup(users);
    var prev: Option<string> := None;
    KeepNothing(Dedup(users));
    assert Taken(rs[..0]) == {};
    for k := 0 to |rs|
      invariant RolesText(rs[..k], names) == Ok(out)
      invariant prev == if k == 0 then None else Some(rs[k - 1].role)
      invariant spare == Keep(Dedup(users), Taken(rs[..k]))
    {
      var next := RoleTurn(rs, k, names, out, prev);
      if next.Raise? {
        RolesStopped(rs, k, names);
        return Raise(next.error);
      }
      out := next.value;
      prev := Some(rs[k].role);
      KeepWithout(Dedup(users), Taken(rs[..k]), rs[k].user);
      TakenNext(rs, k);
      spare := Without(spare, rs[k].user);
    }
    assert rs[..|rs|] == rs;
    return Ok((out, spare));
  }

  /** Lines 38-46 for the `k`-th role: its heading, when it starts a new role, and its user's name. */
  method RoleTurn(rs: seq<Role>, k: nat, names: map<string, string>, out: seq<string>, prev: Option<string>)
    returns (r: Outcome<seq<string>>)
    requires k < |rs| && RolesText(rs[..k], names) == Ok(out)
    requires prev == if k == 0 then None else Some(rs[k - 1].role)
    ensures r == RolesText(rs[..k + 1], names)
  {
    assert rs[..k + 1][..k] == rs[..k];
    var role := rs[k];
    var text := out;
    if prev != Some(role.role) {
      if prev.Some? {
        text := text + ["\n\n"];
      }
      text := text + [role.role, "\n\n"];
    }
    assert text == out + Heading(rs[..k + 1], k);
    if role.user !in names {
      return Raise(TypeError);
    }
    return Ok(text + [names[role.user], "\n"]);
  }

  /** Lines 54-56: the name of each user, one line each. */
  method NamesPart(us: seq<string>, names: map<string, string>) returns (r: Outcome<seq<string>>)
    ensures r == NamesText(us, names)
  {
    var out: seq<string> := [];
    for k := 0 to |us|
      invariant NamesText(us[..k], names) == Ok(out)
    {
      assert us[..k + 1][..k] == us[..k];
      if us[k] !in names {
        NamesStopped(us, k, names);
        return Raise(TypeError);
      }
      out := out + [names[us[k]], "\n"];
    }
    assert us[..|us|] == us;
    return Ok(out);
  }

  /** Lines 60-66: the external assets, six chunks each. */
  method ExtPart(es: seq<ExtAsset>) returns (out: seq<string>)
    ensures out == ExtText(es)
  {
    out := [];
    for k := 0 to |es|
      invariant out == ExtText(es[..k])
    {
      assert es[..k + 1][..k] == es[..k];
      out := out + [es[k].description, "\n", es[k].license, "\n", es[k].origin, "\n\n\n"];
    }
    assert es[..|es|] == es;
  }
}
