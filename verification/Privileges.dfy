/**
 Synchronising database users with their specification (oracle/controllers/user_repository.go,
 oracle/controllers/config_agent_helpers.go). Granting or revoking a role may change the user's system
 privileges in ways only the database knows.
 */
module Privileges {
  import opened Common
  import opened Sorting

  /** What a user holds: system privileges and roles. */
  datatype Grants = Grants(sys: set<string>, roles: set<string>)

  /** The database: its roles, and what granting (true) or revoking a role does to system privileges. */
  datatype Oracle = Oracle(roles: set<string>, drag: (string, bool, set<string>) -> set<string>)

  const NOTHING := Grants({}, {})

  const PDB_ADMIN := "GPDB_ADMIN"

  /** Roles and system privileges do not share names. */
  ghost predicate Sane(o: Oracle)
  {
    forall role, granting, sys :: sys !! o.roles ==> o.drag(role, granting, sys) !! o.roles
  }

  ghost predicate Sound(o: Oracle, g: Grants)
  {
    g.roles <= o.roles && g.sys !! o.roles
  }

  function Held(g: Grants): set<string>
  {
    g.sys + g.roles
  }

  /** The user holds exactly what the specification says. */
  ghost predicate Converged(o: Oracle, g: Grants, spec: set<string>)
  {
    g.roles == spec * o.roles && g.sys == spec - o.roles
  }

  /** The effect of one GRANT or REVOKE. */
  function One(o: Oracle, g: Grants, p: string, granting: bool): Grants
  {
    if p in o.roles then Grants(o.drag(p, granting, g.sys), if granting then g.roles + {p} else g.roles - {p})
    else Grants(if granting then g.sys + {p} else g.sys - {p}, g.roles)
  }

  /** The effect of a list of them. */
  function Many(o: Oracle, g: Grants, ps: seq<string>, granting: bool): Grants
  {
    if ps == [] then g else One(o, Many(o, g, ps[..|ps| - 1], granting), ps[|ps| - 1], granting)
  }

  function Elems(s: seq<string>): set<string>
  {
    set x | x in s
  }

  lemma ElemsStep(s: seq<string>)
    requires s != []
    ensures Elems(s) == Elems(s[..|s| - 1]) + {s[|s| - 1]}
  {
    assert s == s[..|s| - 1] + [s[|s| - 1]];
  }

  lemma ElemsAppend(s: seq<string>, x: string)
    ensures Elems(s + [x]) == Elems(s) + {x}
  {
  }

  lemma PrefixStep(s: seq<string>, i: nat, chosen: set<string>)
    requires i < |s|
    ensures chosen * Elems(s[..i + 1]) == chosen * Elems(s[..i]) + if s[i] in chosen then {s[i]} else {}
  {
    assert s[..i + 1] == s[..i] + [s[i]];
  }

  lemma {:induction false} ManyIsSound(o: Oracle, g: Grants, ps: seq<string>, granting: bool)
    requires Sane(o) && Sound(o, g)
    ensures Sound(o, Many(o, g, ps, granting))
  {
    if ps != [] {
      ManyIsSound(o, g, ps[..|ps| - 1], granting);
    }
  }

  /** A list of statements settles the roles; which system privileges come along is unknown. */
  lemma {:induction false} ManyOnRoles(o: Oracle, g: Grants, ps: seq<string>, granting: bool)
    ensures var named := Elems(ps) * o.roles;
            Many(o, g, ps, granting).roles == if granting then g.roles + named else g.roles - named
  {
    if ps != [] {
      ElemsStep(ps);
      ManyOnRoles(o, g, ps[..|ps| - 1], granting);
    }
  }

  /** Without roles in the list, the system privileges are settled too. */
  lemma {:induction false} ManyOnSys(o: Oracle, g: Grants, ps: seq<string>, granting: bool)
    requires Elems(ps) !! o.roles
    ensures Many(o, g, ps, granting) == Grants(if granting then g.sys + Elems(ps) else g.sys - Elems(ps), g.roles)
  {
    if ps != [] {
      ElemsStep(ps);
      ManyOnSys(o, g, ps[..|ps| - 1], granting);
    }
  }

  // ---- The database daemon ----

  /** None of these calls fails. */
  ghost predicate Smooth(breaks: nat -> Option<nat>, from: nat, to: nat)
  {
    forall c: nat :: from <= c < to ==> breaks(c).None?
  }

  class Database {
    const oracle: Oracle
    var users: map<string, Grants>
    var calls: nat
    /** For each call, None if it works, or after how many statements it fails. */
    const breaks: nat -> Option<nat>

    constructor (oracle: Oracle, users: map<string, Grants>, breaks: nat -> Option<nat>)
      ensures this.oracle == oracle && this.users == users && this.breaks == breaks && calls == 0
    {
      this.oracle, this.users, this.breaks, this.calls := oracle, users, breaks, 0;
    }

    ghost predicate Valid()
      reads this
    {
      Sane(oracle) && forall n :: n in users ==> Sound(oracle, users[n])
    }

    function Env(name: string): Grants
      reads this
    {
      if name in users then users[name] else NOTHING
    }

    /** queryDB: reads what it is told to, or fails. */
    method Query() returns (ok: bool)
      modifies this`calls
      ensures calls == old(calls) + 1 && ok == breaks(old(calls)).None?
    {
      ok := breaks(calls).None?;
      calls := calls + 1;
    }

    /** RunSQLPlus with GRANT or REVOKE statements for one user: all of them, or some first ones and an error. */
    method Run(name: string, ps: seq<string>, granting: bool) returns (ok: bool, ghost done: nat)
      requires name in users
      modifies this`calls, this`users
      ensures done <= |ps| && (ok ==> done == |ps|)
      ensures calls == old(calls) + 1 && ok == breaks(old(calls)).None?
      ensures users == old(users)[name := Many(oracle, old(users)[name], ps[..done], granting)]
    {
      var fault := breaks(calls);
      calls := calls + 1;
      ok := fault.None?;
      var n := if ok || fault.value > |ps| then |ps| else fault.value;
      var g := users[name];
      for i := 0 to n
        invariant users == old(users)
        invariant g == Many(oracle, users[name], ps[..i], granting)
      {
        assert ps[..i + 1][..i] == ps[..i];
        g := One(oracle, g, ps[i], granting);
      }
      users := users[name := g];
      done := n;
    }

    /** RunSQLPlus with CREATE USER and GRANT statements; it fails for a user who exists. */
    method RunCreate(name: string, ps: seq<string>) returns (ok: bool, ghost done: nat)
      modifies this`calls, this`users
      ensures done <= |ps|
      ensures ok ==> name !in old(users) && done == |ps|
      ensures users == old(users) || (name !in old(users) && users == old(users)[name := Many(oracle, NOTHING, ps[..done], true)])
      ensures ok ==> name in users
      ensures calls == old(calls) + 1 && ok == (name !in old(users) && breaks(old(calls)).None?)
    {
      done := 0;
      if name in users || breaks(calls) == Some(0) {
        calls := calls + 1;
        return false, 0;
      }
      users := users[name := NOTHING];
      assert ps[..0] == [];
      ok, done := Run(name, ps, true);
      assert users == old(users)[name := Many(oracle, NOTHING, ps[..done], true)];
    }
  }

  // ---- One user ----

  method Elements(s: set<string>) returns (r: seq<string>)
    ensures Elems(r) == s && |r| == |s| && NoRepeats(r)
  {
    r := [];
    var todo := s;
    while todo != {}
      invariant todo <= s && Elems(r) == s - todo && |r| + |todo| == |s| && NoRepeats(r)
      decreases |todo|
    {
      ghost var _ := Pick(todo);
      var x :| x in todo;
      ElemsAppend(r, x);
      assert forall k :: 0 <= k < |r| ==> r[k] in Elems(r);
      r := r + [x];
      todo := todo - {x};
    }
  }

  /** compare: what only the left has, what both have, what only the right has. */
  method Compare(left: seq<string>, right: seq<string>) returns (onlyLeft: seq<string>, both: seq<string>, onlyRight: seq<string>)
    ensures Elems(onlyLeft) == Elems(left) - Elems(right) && NoRepeats(onlyLeft)
    ensures Elems(both) == Elems(left) * Elems(right)
    ensures Elems(onlyRight) == Elems(right) - Elems(left)
  {
    var l, r := Elems(left), Elems(right);
    onlyLeft := Elements(l - r);
    both := Elements(l * r);
    onlyRight := Elements(r - l);
  }

  /** The others are left as they were, and the user exists as before. */
  ghost predicate OnlyTouches(name: string, before: map<string, Grants>, after: map<string, Grants>)
  {
    after.Keys == before.Keys && forall n :: n in before && n != name ==> after[n] == before[n]
  }

  lemma SysSettled(o: Oracle, g: Grants, spec: set<string>, grants: set<string>, revokes: set<string>)
    requires Sound(o, g) && grants == (spec - Held(g)) - o.roles && revokes == (Held(g) - spec) - o.roles
    ensures g.sys + grants - revokes == spec - o.roles
  {
  }

  class User {
    const name: string
    const specPrivs: seq<string>
    var envSys: seq<string>
    var envRoles: seq<string>

    constructor (name: string, specPrivs: seq<string>)
      ensures this.name == name && this.specPrivs == specPrivs
    {
      this.name, this.specPrivs, this.envSys, this.envRoles := name, specPrivs, [], [];
    }

    method ReadEnv(db: Database) returns (ok: bool)
      modifies this, db`calls
      ensures old(db.calls) <= db.calls && (ok <==> Smooth(db.breaks, old(db.calls), db.calls))
      ensures ok ==> Elems(envSys) == db.Env(name).sys && Elems(envRoles) == db.Env(name).roles
    {
      ok := db.Query();
      if !ok {
        return;
      }
      envSys := Elements(db.Env(name).sys);
      ok := db.Query();
      if !ok {
        return;
      }
      envRoles := Elements(db.Env(name).roles);
    }

    /** user.diff, without the password part. */
    method Diff(db: Database) returns (ok: bool, toGrant: seq<string>, toRevoke: seq<string>)
      modifies this, db`calls
      ensures old(db.calls) <= db.calls && (ok <==> Smooth(db.breaks, old(db.calls), db.calls))
      ensures ok ==> Elems(toGrant) == Elems(specPrivs) - Held(db.Env(name))
                     && Elems(toRevoke) == Held(db.Env(name)) - Elems(specPrivs)
    {
      toGrant, toRevoke := [], [];
      ok := ReadEnv(db);
      if !ok {
        return;
      }
      var env := envSys + envRoles;
      assert Elems(env) == Elems(envSys) + Elems(envRoles);
      var same;
      toGrant, same, toRevoke := Compare(specPrivs, env);
    }

    /** The members of the list that are roles, or those that are not. */
    method Select(roles: set<string>, ps: seq<string>, wanted: bool) returns (r: seq<string>)
      ensures Elems(r) == if wanted then Elems(ps) * roles else Elems(ps) - roles
    {
      r := [];
      for i := 0 to |ps|
        invariant Elems(r) == if wanted then Elems(ps[..i]) * roles else Elems(ps[..i]) - roles
      {
        ElemsStep(ps[..i + 1]);
        assert ps[..i + 1][..i] == ps[..i];
        if (ps[i] in roles) == wanted {
          ElemsAppend(r, ps[i]);
          r := r + [ps[i]];
        }
      }
      assert ps[..|ps|] == ps;
    }

    /** grant and revoke; an empty list needs no call. */
    method Execute(db: Database, ps: seq<string>, granting: bool) returns (ok: bool)
      requires db.Valid() && name in db.users
      modifies db`calls, db`users
      ensures db.Valid() && OnlyTouches(name, old(db.users), db.users)
      ensures old(db.calls) <= db.calls && (ok <==> Smooth(db.breaks, old(db.calls), db.calls))
      ensures ok ==> db.users[name] == Many(db.oracle, old(db.users)[name], ps, granting)
    {
      if |ps| == 0 {
        return true;
      }
      ghost var done;
      ok, done := db.Run(name, ps, granting);
      ManyIsSound(db.oracle, old(db.users)[name], ps[..done], granting);
      assert ps[..|ps|] == ps;
    }

    /** updateRolePrivs: afterwards the roles are as specified, the system privileges are anything. */
    method UpdateRolePrivs(db: Database) returns (ok: bool)
      requires db.Valid() && name in db.users
      modifies this, db`calls, db`users
      ensures db.Valid() && OnlyTouches(name, old(db.users), db.users)
      ensures old(db.calls) <= db.calls && (ok <==> Smooth(db.breaks, old(db.calls), db.calls))
      ensures ok ==> db.users[name].roles == Elems(specPrivs) * db.oracle.roles
    {
      var toGrant, toRevoke;
      ok, toGrant, toRevoke := Diff(db);
      if !ok {
        return;
      }
      ghost var g0 := db.users[name];
      var grants := Select(db.oracle.roles, toGrant, true);
      var revokes := Select(db.oracle.roles, toRevoke, true);
      ok := Execute(db, grants, true);
      if !ok {
        return;
      }
      ManyOnRoles(db.oracle, g0, grants, true);
      ghost var g1 := db.users[name];
      ok := Execute(db, revokes, false);
      if !ok {
        return;
      }
      ManyOnRoles(db.oracle, g1, revokes, false);
    }

    /** updateSysPrivs: keeps the roles, and afterwards the system privileges are as specified. */
    method UpdateSysPrivs(db: Database) returns (ok: bool)
      requires db.Valid() && name in db.users
      modifies this, db`calls, db`users
      ensures db.Valid() && OnlyTouches(name, old(db.users), db.users)
      ensures old(db.calls) <= db.calls && (ok <==> Smooth(db.breaks, old(db.calls), db.calls))
      ensures ok ==> db.users[name] == Grants(Elems(specPrivs) - db.oracle.roles, old(db.users)[name].roles)
    {
      var toGrant, toRevoke;
      ok, toGrant, toRevoke := Diff(db);
      if !ok {
        return;
      }
      ghost var g0 := db.users[name];
      var grants := Select(db.oracle.roles, toGrant, false);
      var revokes := Select(db.oracle.roles, toRevoke, false);
      ok := Execute(db, grants, true);
      if !ok {
        return;
      }
      ManyOnSys(db.oracle, g0, grants, true);
      ghost var g1 := db.users[name];
      ok := Execute(db, revokes, false);
      if !ok {
        return;
      }
      ManyOnSys(db.oracle, g1, revokes, false);
      SysSettled(db.oracle, g0, Elems(specPrivs), Elems(grants), Elems(revokes));
    }

    /** update: whatever roles drag along, success leaves exactly the specification. */
    method Update(db: Database) returns (ok: bool)
      requires db.Valid() && name in db.users
      modifies this, db`calls, db`users
      ensures db.Valid() && OnlyTouches(name, old(db.users), db.users)
      ensures old(db.calls) <= db.calls && (ok <==> Smooth(db.breaks, old(db.calls), db.calls))
      ensures ok ==> Converged(db.oracle, db.users[name], Elems(specPrivs))
    {
      ok := UpdateRolePrivs(db);
      if ok {
        ok := UpdateSysPrivs(db);
      }
    }

    /** create: grants only, in one go. */
    method Create(db: Database) returns (ok: bool)
      requires db.Valid()
      modifies db`calls, db`users
      ensures db.Valid()
      ensures old(db.users).Keys <= db.users.Keys <= old(db.users).Keys + {name}
      ensures forall n :: n in old(db.users) ==> db.users[n] == old(db.users)[n]
      ensures old(db.calls) <= db.calls && (ok <==> name !in old(db.users) && Smooth(db.breaks, old(db.calls), db.calls))
      ensures ok ==> name in db.users && db.users[name] == Many(db.oracle, NOTHING, specPrivs, true)
    {
      ghost var done;
      ok, done := db.RunCreate(name, specPrivs);
      ManyIsSound(db.oracle, NOTHING, specPrivs[..done], true);
      assert specPrivs[..|specPrivs|] == specPrivs;
    }
  }

  // ---- All users ----

  type Spec = map<string, seq<string>>

  ghost function Differing(spec: Spec, users: map<string, Grants>): set<string>
  {
    set n | n in spec && n in users && n != PDB_ADMIN && Held(users[n]) != Elems(spec[n])
  }

  /** users.diff, without the password part. */
  method DiffUsers(db: Database, spec: Spec) returns (ok: bool, toCreate: seq<string>, toUpdate: seq<string>, toDelete: seq<string>)
    modifies db`calls
    ensures old(db.calls) <= db.calls && (ok <==> Smooth(db.breaks, old(db.calls), db.calls))
    ensures NoRepeats(toCreate)
    ensures ok ==>
              && Elems(toCreate) == spec.Keys - (db.users.Keys - {PDB_ADMIN})
              && Elems(toUpdate) == Differing(spec, db.users)
              && Elems(toDelete) == (db.users.Keys - {PDB_ADMIN}) - spec.Keys
  {
    toUpdate := [];
    var toCheck;
    ok, toCreate, toCheck, toDelete := CompareNames(db, spec);
    if !ok {
      return;
    }
    ghost var c1 := db.calls;
    ok := ReadUsers(db, toDelete);
    SmoothChain(db.breaks, old(db.calls), c1, db.calls);
    if !ok {
      return;
    }
    ghost var c2 := db.calls;
    CheckedHolds(spec, db.users, toCheck);
    ok, toUpdate := CheckUsers(db, spec, toCheck);
    SmoothChain(db.breaks, old(db.calls), c2, db.calls);
  }

  lemma SmoothChain(breaks: nat -> Option<nat>, a: nat, b: nat, c: nat)
    requires a <= b <= c
    ensures Smooth(breaks, a, c) <==> Smooth(breaks, a, b) && Smooth(breaks, b, c)
  {
  }

  /** users.readEnv, and the comparison of the names. */
  method CompareNames(db: Database, spec: Spec) returns (ok: bool, toCreate: seq<string>, toCheck: seq<string>, toDelete: seq<string>)
    modifies db`calls
    ensures old(db.calls) <= db.calls && (ok <==> Smooth(db.breaks, old(db.calls), db.calls)) && NoRepeats(toCreate)
    ensures ok ==>
              && Elems(toCreate) == spec.Keys - (db.users.Keys - {PDB_ADMIN})
              && Elems(toCheck) == spec.Keys * (db.users.Keys - {PDB_ADMIN})
              && Elems(toDelete) == (db.users.Keys - {PDB_ADMIN}) - spec.Keys
  {
    toCreate, toCheck, toDelete := [], [], [];
    ok := db.Query(); // the users
    if !ok {
      return;
    }
    ok := db.Query(); // the roles
    if !ok {
      return;
    }
    toCreate, toCheck, toDelete := CompareSets(spec.Keys, db.users.Keys - {PDB_ADMIN});
  }

  method CompareSets(left: set<string>, right: set<string>) returns (onlyLeft: seq<string>, both: seq<string>, onlyRight: seq<string>)
    ensures Elems(onlyLeft) == left - right && NoRepeats(onlyLeft) && Elems(both) == left * right && Elems(onlyRight) == right - left
  {
    var l := Elements(left);
    var r := Elements(right);
    onlyLeft, both, onlyRight := Compare(l, r);
  }

  /** The users that are not specified are only read. */
  method ReadUsers(db: Database, names: seq<string>) returns (ok: bool)
    modifies db`calls
    ensures old(db.calls) <= db.calls && (ok <==> Smooth(db.breaks, old(db.calls), db.calls))
  {
    ok := true;
    for i := 0 to |names|
      invariant ok && old(db.calls) <= db.calls && Smooth(db.breaks, old(db.calls), db.calls)
    {
      var u := new User(names[i], []);
      ok := u.ReadEnv(db);
      if !ok {
        return;
      }
    }
  }

  lemma CheckedHolds(spec: Spec, users: map<string, Grants>, toCheck: seq<string>)
    requires Elems(toCheck) == spec.Keys * (users.Keys - {PDB_ADMIN})
    ensures forall n :: n in toCheck ==> n in spec && n in users && n != PDB_ADMIN
    ensures Differing(spec, users) * Elems(toCheck) == Differing(spec, users)
  {
    assert forall n :: n in toCheck ==> n in Elems(toCheck);
  }

  /** The users of the list whose privileges differ from the specification. */
  method CheckUsers(db: Database, spec: Spec, toCheck: seq<string>) returns (ok: bool, toUpdate: seq<string>)
    requires forall n :: n in toCheck ==> n in spec && n in db.users && n != PDB_ADMIN
    modifies db`calls
    ensures old(db.calls) <= db.calls && (ok <==> Smooth(db.breaks, old(db.calls), db.calls))
    ensures ok ==> Elems(toUpdate) == Differing(spec, db.users) * Elems(toCheck)
  {
    ok, toUpdate := true, [];
    for i := 0 to |toCheck|
      invariant ok && old(db.calls) <= db.calls && Smooth(db.breaks, old(db.calls), db.calls)
      invariant Elems(toUpdate) == Differing(spec, db.users) * Elems(toCheck[..i])
    {
      var n := toCheck[i];
      PrefixStep(toCheck, i, Differing(spec, db.users));
      var u := new User(n, spec[n]);
      var toGrant, toRevoke;
      ok, toGrant, toRevoke := u.Diff(db);
      if !ok {
        return;
      }
      NoDifference(Elems(spec[n]), Held(db.users[n]), toGrant, toRevoke);
      if |toGrant| != 0 || |toRevoke| != 0 {
        ElemsAppend(toUpdate, n);
        toUpdate := toUpdate + [n];
      }
    }
    assert toCheck[..|toCheck|] == toCheck;
  }

  lemma NoDifference(spec: set<string>, held: set<string>, toGrant: seq<string>, toRevoke: seq<string>)
    requires Elems(toGrant) == spec - held && Elems(toRevoke) == held - spec
    ensures toGrant == [] && toRevoke == [] <==> spec == held
  {
    assert toGrant != [] ==> toGrant[0] in Elems(toGrant);
    assert toRevoke != [] ==> toRevoke[0] in Elems(toRevoke);
  }

  method CreateAll(db: Database, spec: Spec, names: seq<string>) returns (ok: bool)
    requires db.Valid() && Elems(names) <= spec.Keys
    modifies db`calls, db`users
    ensures db.Valid()
    ensures old(db.users).Keys <= db.users.Keys <= old(db.users).Keys + Elems(names)
    ensures forall n :: n in old(db.users) ==> db.users[n] == old(db.users)[n]
    ensures old(db.calls) <= db.calls
    ensures NoRepeats(names) && Elems(names) !! old(db.users).Keys && Smooth(db.breaks, old(db.calls), db.calls) ==> ok
    ensures ok ==> forall n :: n in names ==>
              n !in old(db.users) && n in db.users && db.users[n] == Many(db.oracle, NOTHING, spec[n], true)
  {
    ok := true;
    for i := 0 to |names|
      invariant db.Valid()
      invariant old(db.users).Keys <= db.users.Keys <= old(db.users).Keys + Elems(names)
      invariant forall n :: n in old(db.users) ==> db.users[n] == old(db.users)[n]
      invariant old(db.calls) <= db.calls
      invariant forall n :: n in db.users && n !in old(db.users) ==> exists k :: 0 <= k < i && names[k] == n
      invariant NoRepeats(names) && Elems(names) !! old(db.users).Keys && Smooth(db.breaks, old(db.calls), db.calls) ==> ok
      invariant ok ==> forall k :: 0 <= k < i ==>
                  names[k] !in old(db.users) && names[k] in db.users && db.users[names[k]] == Many(db.oracle, NOTHING, spec[names[k]], true)
    {
      var n := names[i];
      assert n in Elems(names);
      var u := new User(n, spec[n]);
      var done := u.Create(db);
      ok := ok && done;
    }
  }

  method UpdateAll(db: Database, spec: Spec, names: seq<string>) returns (ok: bool)
    requires db.Valid() && forall n :: n in names ==> n in spec && n in db.users
    modifies db`calls, db`users
    ensures db.Valid() && db.users.Keys == old(db.users).Keys
    ensures forall n :: n in old(db.users) && n !in names ==> db.users[n] == old(db.users)[n]
    ensures old(db.calls) <= db.calls && (ok <==> Smooth(db.breaks, old(db.calls), db.calls))
    ensures ok ==> forall n :: n in names ==> n in db.users && Converged(db.oracle, db.users[n], Elems(spec[n]))
  {
    ok := true;
    for i := 0 to |names|
      invariant db.Valid() && db.users.Keys == old(db.users).Keys
      invariant forall n :: n in old(db.users) && n !in names ==> db.users[n] == old(db.users)[n]
      invariant old(db.calls) <= db.calls && (ok <==> Smooth(db.breaks, old(db.calls), db.calls))
      invariant ok ==> forall k :: 0 <= k < i ==> names[k] in db.users && Converged(db.oracle, db.users[names[k]], Elems(spec[names[k]]))
    {
      var n := names[i];
      assert n in Elems(names);
      var u := new User(n, spec[n]);
      var done := u.Update(db);
      ok := ok && done;
    }
  }

  /** What an error-free pass over all users achieves. */
  ghost predicate Passed(o: Oracle, spec: Spec, before: map<string, Grants>, after: map<string, Grants>)
  {
    && (forall n :: n in spec ==> n in after && PassedFor(o, spec[n], n != PDB_ADMIN && n in before, after[n]))
    && (PDB_ADMIN in spec ==> PDB_ADMIN !in before)
    && SameOutside(spec, before, after)
  }

  /** An existing user converges; a new one is only granted things. */
  ghost predicate PassedFor(o: Oracle, privs: seq<string>, existed: bool, g: Grants)
  {
    if existed then Converged(o, g, Elems(privs)) else g == Many(o, NOTHING, privs, true)
  }

  ghost predicate SameOutside(spec: Spec, before: map<string, Grants>, after: map<string, Grants>)
  {
    forall n :: n !in spec ==> (n in after <==> n in before) && (n in before ==> after[n] == before[n])
  }

  lemma SameHoldingsConverge(o: Oracle, g: Grants, spec: set<string>)
    requires Sound(o, g)
    ensures Held(g) == spec <==> Converged(o, g, spec)
  {
  }

  /** UpdateUsers, without passwords; users who are not specified are never touched. */
  method UpdateUsers(db: Database, spec: Spec) returns (ok: bool)
    requires db.Valid()
    modifies db`calls, db`users
    ensures db.Valid() && SameOutside(spec, old(db.users), db.users)
    ensures ok ==> Passed(db.oracle, spec, old(db.users), db.users)
    ensures old(db.calls) <= db.calls
    ensures !(PDB_ADMIN in spec && PDB_ADMIN in old(db.users)) && Smooth(db.breaks, old(db.calls), db.calls) ==> ok
  {
    var toCreate, toUpdate, toDelete;
    ok, toCreate, toUpdate, toDelete := DiffUsers(db, spec);
    if !ok {
      return;
    }
    assert forall n :: n in toCreate <==> n in Elems(toCreate);
    assert forall n :: n in toUpdate <==> n in Elems(toUpdate);
    var created := CreateAll(db, spec, toCreate);
    var updated := UpdateAll(db, spec, toUpdate);
    ok := created && updated;
    if ok {
      forall n | n in spec
        ensures n in db.users && PassedFor(db.oracle, spec[n], n != PDB_ADMIN && n in old(db.users), db.users[n])
      {
        if n !in toCreate && n !in toUpdate {
          SameHoldingsConverge(db.oracle, db.users[n], Elems(spec[n]));
        }
      }
    }
  }

  ghost predicate AllConverged(o: Oracle, spec: Spec, users: map<string, Grants>)
  {
    forall n :: n in spec ==> n in users && Converged(o, users[n], Elems(spec[n]))
  }

  /**
   Two error-free passes settle everybody, and leave nothing to create or update. A first pass may not:
   it only grants to the users it creates.
   */
  lemma TwoPassesConverge(o: Oracle, spec: Spec, u0: map<string, Grants>, u1: map<string, Grants>, u2: map<string, Grants>)
    requires Sane(o) && Passed(o, spec, u0, u1) && Passed(o, spec, u1, u2)
    ensures AllConverged(o, spec, u2) && Differing(spec, u2) == {} && spec.Keys <= u2.Keys - {PDB_ADMIN}
  {
    assert PDB_ADMIN !in spec by {
      assert PDB_ADMIN in spec ==> PDB_ADMIN in u1;
    }
    assert forall n :: n in spec ==> n in u1 && n in u2;
    forall n | n in spec
      ensures Converged(o, u2[n], Elems(spec[n])) && Held(u2[n]) == Elems(spec[n])
    {
      assert PassedFor(o, spec[n], true, u2[n]);
    }
  }

  /** What the roles of the list drag along when granting only ever adds. */
  function Dragged(o: Oracle, ps: seq<string>, extra: string -> set<string>): set<string>
  {
    if ps == [] then {}
    else Dragged(o, ps[..|ps| - 1], extra) + if ps[|ps| - 1] in o.roles then extra(ps[|ps| - 1]) else {}
  }

  lemma {:induction false} CreatedHolds(o: Oracle, ps: seq<string>, extra: string -> set<string>)
    requires forall role, sys :: o.drag(role, true, sys) == sys + extra(role)
    ensures Many(o, NOTHING, ps, true) == Grants((Elems(ps) - o.roles) + Dragged(o, ps, extra), Elems(ps) * o.roles)
  {
    if ps != [] {
      ElemsStep(ps);
      CreatedHolds(o, ps[..|ps| - 1], extra);
    }
  }

  /** Creating a user meets the specification exactly when it names whatever its roles drag along. */
  lemma CreateConvergesIff(o: Oracle, ps: seq<string>, extra: string -> set<string>)
    requires Sane(o) && forall role, sys :: o.drag(role, true, sys) == sys + extra(role)
    ensures Converged(o, Many(o, NOTHING, ps, true), Elems(ps)) <==> Dragged(o, ps, extra) <= Elems(ps) - o.roles
  {
    CreatedHolds(o, ps, extra);
  }

  /** The case the source names: DBA brings UNLIMITED TABLESPACE, which a single phase leaves behind. */
  lemma CreateMayNotConverge(o: Oracle)
    requires o.roles == {"DBA"} && forall role, sys :: o.drag(role, true, sys) == sys + {"UNLIMITED TABLESPACE"}
    ensures !Converged(o, Many(o, NOTHING, ["DBA"], true), {"DBA"})
  {
    assert ["DBA"][..0] == [];
    assert Many(o, NOTHING, ["DBA"], true) == One(o, NOTHING, "DBA", true);
    assert "UNLIMITED TABLESPACE" in o.drag("DBA", true, {});
    assert "UNLIMITED TABLESPACE" !in {"DBA"} by {
      assert |"UNLIMITED TABLESPACE"| != |"DBA"|;
    }
  }
}
