/**
 Changing and removing the users of a tenant (internal/usecase/account_usecase.go,
 internal/domain/permissions.go).
 */
module Owners {
  import opened Prelude

  datatype Role = Viewer | Engineer | Manager | Admin | Owner | SuperAdmin

  datatype User = User(tenant: string, role: Role, active: bool, name: string, deleted: bool)

  /** All users ever, by id. */
  type Users = map<string, User>

  datatype Error = UserNotFound | NotFound | Forbidden | BadRequest | Invalid | Database

  /** Which database calls of a request fail; a user that cannot be read counts as not found. */
  datatype Faults = Faults(actor: bool, target: bool, list: bool, save: bool)

  datatype Change = Change(role: Option<Role>, active: Option<bool>, name: Option<string>)

  function Rank(r: Role): nat {
    match r
    case Viewer => 1
    case Engineer => 2
    case Manager => 3
    case Admin => 4
    case Owner => 5
    case SuperAdmin => 6
  }

  predicate CanAssign(actor: Role, target: Role) {
    if target == SuperAdmin then false
    else if target == Owner then actor == Owner || actor == SuperAdmin
    else Rank(actor) >= Rank(target) && Rank(actor) >= Rank(Admin)
  }

  predicate Known(users: Users, id: string) { id in users && !users[id].deleted }

  predicate ActiveOwner(users: Users, id: string, tenant: string) {
    Known(users, id) && users[id].tenant == tenant && users[id].role == Owner && users[id].active
  }

  predicate AnotherOwner(users: Users, id: string) {
    id in users && exists k :: k in users && k != id && ActiveOwner(users, k, users[id].tenant)
  }

  /** The role of the target after the first part of UpdateUser. */
  function NewRole(users: Users, actor: string, target: string, role: Option<Role>, f: Faults): Result<Role, Error>
    requires actor in users && target in users
  {
    var t := users[target];
    if role == None || role.value == t.role then Ok(t.role)
    else if actor == target then Err(BadRequest)
    else if !CanAssign(users[actor].role, role.value) then Err(Forbidden)
    else if t.role == Owner && f.list then Err(Database)
    else if t.role == Owner && !AnotherOwner(users, target) then Err(BadRequest)
    else Ok(role.value)
  }

  function NewActive(users: Users, actor: string, target: string, role: Role, active: Option<bool>, f: Faults)
    : Result<bool, Error>
    requires actor in users && target in users
  {
    var t := users[target];
    if active == None || active.value == t.active then Ok(t.active)
    else if actor == target && !active.value then Err(BadRequest)
    else if !active.value && role == Owner && f.list then Err(Database)
    else if !active.value && role == Owner && !AnotherOwner(users, target) then Err(BadRequest)
    else Ok(active.value)
  }

  /** Who may not be touched at all. */
  function Refusal(users: Users, actor: string, target: string, f: Faults): Option<Error> {
    if f.actor || !Known(users, actor) then Some(UserNotFound)
    else if f.target || !Known(users, target) || users[target].tenant != users[actor].tenant || users[target].role == SuperAdmin
    then Some(NotFound)
    else None
  }

  /** UpdateUser; `trimmed` is the new name without surrounding blanks. */
  function Updated(users: Users, actor: string, target: string, c: Change, f: Faults): Result<Users, Error> {
    if Refusal(users, actor, target, f).Some? then Err(Refusal(users, actor, target, f).value)
    else if users[target].role == Owner && users[actor].role != Owner &&
        users[actor].role != SuperAdmin then Err(Forbidden)
    else
      match NewRole(users, actor, target, c.role, f)
      case Err(e) => Err(e)
      case Ok(role) =>
        match NewActive(users, actor, target, role, c.active, f)
        case Err(e) => Err(e)
        case Ok(active) =>
          if c.name.Some? && |c.name.value| < 2 then Err(Invalid)
          else if f.save then Err(Database)
          else
            var name := if c.name.Some? then c.name.value else users[target].name;
            Ok(users[target := users[target].(role := role, active := active, name := name)])
  }

  function Removed(users: Users, actor: string, target: string, f: Faults): Result<Users, Error> {
    if actor == target then Err(BadRequest)
    else if Refusal(users, actor, target, f).Some? then Err(Refusal(users, actor, target, f).value)
    else if Rank(users[target].role) > Rank(users[actor].role) then Err(Forbidden)
    else if users[target].role == Owner && f.list then Err(Database)
    else if users[target].role == Owner && !AnotherOwner(users, target) then Err(BadRequest)
    else if f.save then Err(Database)
    else Ok(users[target := users[target].(deleted := true, active := false)])
  }

  class Accounts {
    var users: Users

    method EnsureAnotherOwner(target: string, f: Faults) returns (error: Option<Error>)
      requires target in users
      ensures error == if f.list then Some(Database) else if AnotherOwner(users, target) then None else Some(BadRequest)
    {
      if f.list {
        return Some(Database);
      }
      var todo := users.Keys;
      while todo != {}
        invariant todo <= users.Keys
        invariant forall k :: k in users && k !in todo ==> k == target || !ActiveOwner(users, k, users[target].tenant)
        decreases |todo|
      {
        var k :| k in todo;
        todo := todo - {k};
        if k != target && ActiveOwner(users, k, users[target].tenant) {
          return None;
        }
      }
      error := Some(BadRequest);
    }

    /** The target is loaded, changed step by step, and saved only at the end. */
    method UpdateUser(actorId: string, targetId: string, c: Change, f: Faults) returns (error: Option<Error>)
      modifies this
      ensures match Updated(old(users), actorId, targetId, c, f)
              case Ok(after) => error == None && users == after
              case Err(e) => error == Some(e) && users == old(users)
    {
      hide AnotherOwner, CanAssign, ActiveOwner;
      if f.actor || !Known(users, actorId) {
        return Some(UserNotFound);
      }
      var actor := users[actorId];
      if f.target || !Known(users, targetId) || users[targetId].tenant != actor.tenant || users[targetId].role == SuperAdmin {
        return Some(NotFound);
      }
      var target := users[targetId];
      if target.role == Owner && actor.role != Owner && actor.role != SuperAdmin {
        return Some(Forbidden);
      }
      if c.role.Some? && c.role.value != target.role {
        if actorId == targetId {
          return Some(BadRequest);
        }
        if !CanAssign(actor.role, c.role.value) {
          return Some(Forbidden);
        }
        if target.role == Owner {
          error := EnsureAnotherOwner(targetId, f);
          if error.Some? {
            return;
          }
        }
        target := target.(role := c.role.value);
      }
      if c.active.Some? && c.active.value != target.active {
        if actorId == targetId && !c.active.value {
          return Some(BadRequest);
        }
        if !c.active.value && target.role == Owner {
          error := EnsureAnotherOwner(targetId, f);
          if error.Some? {
            return;
          }
        }
        target := target.(active := c.active.value);
      }
      if c.name.Some? {
        if |c.name.value| < 2 {
          return Some(Invalid);
        }
        target := target.(name := c.name.value);
      }
      if f.save {
        return Some(Database);
      }
      users := users[targetId := target];
      error := None;
    }

    method RemoveUser(actorId: string, targetId: string, f: Faults) returns (error: Option<Error>)
      modifies this
      ensures match Removed(old(users), actorId, targetId, f)
              case Ok(after) => error == None && users == after
              case Err(e) => error == Some(e) && users == old(users)
    {
      if actorId == targetId {
        return Some(BadRequest);
      }
      if f.actor || !Known(users, actorId) {
        return Some(UserNotFound);
      }
      if f.target || !Known(users, targetId) || users[targetId].tenant != users[actorId].tenant ||
          users[targetId].role == SuperAdmin {
        return Some(NotFound);
      }
      if Rank(users[targetId].role) > Rank(users[actorId].role) {
        return Some(Forbidden);
      }
      if users[targetId].role == Owner {
        error := EnsureAnotherOwner(targetId, f);
        if error.Some? {
          return;
        }
      }
      if f.save {
        return Some(Database);
      }
      users := users[targetId := users[targetId].(deleted := true, active := false)];
      error := None;
    }
  }

  // ------------------------------------------------------------------ runs

  datatype Action =
    | Update(actor: string, target: string, change: Change, faults: Faults)
    | Remove(actor: string, target: string, faults: Faults)

  function Perform(users: Users, a: Action): Result<Users, Error> {
    match a
    case Update(actor, target, change, f) => Updated(users, actor, target, change, f)
    case Remove(actor, target, f) => Removed(users, actor, target, f)
  }

  /** A request that is not carried out changes nothing. */
  function Next(users: Users, a: Action): Users {
    match Perform(users, a) case Ok(next) => next case Err(_) => users
  }

  function After(users: Users, run: seq<Action>): Users
    decreases |run|
  {
    if run == [] then users else After(Next(users, run[0]), run[1..])
  }

  ghost predicate HasOwner(users: Users, tenant: string) {
    exists id :: id in users && ActiveOwner(users, id, tenant)
  }

  /** What a request that is carried out changes: one known user, who stays in the tenant. */
  lemma OnlyTheTarget(users: Users, a: Action, id: string)
    requires Perform(users, a).Ok? && id in users
    ensures id in Perform(users, a).value
    ensures id != a.target ==> Perform(users, a).value[id] == users[id]
    ensures a.target in users && users[a.target].tenant == Perform(users, a).value[a.target].tenant
  {
  }

  // ------------------------------------------------------------------ tenants are apart

  /**
   Who is involved in a request that is carried out: a known actor and a known target of the same tenant, and
   the target is no platform administrator. A removal is of somebody else who does not rank above the actor.
   */
  lemma WithinOneTenant(users: Users, a: Action)
    requires Perform(users, a).Ok?
    ensures Known(users, a.actor) && Known(users, a.target)
    ensures users[a.actor].tenant == users[a.target].tenant
    ensures users[a.target].role != SuperAdmin
    ensures a.Remove? ==> a.actor != a.target && Rank(users[a.target].role) <= Rank(users[a.actor].role)
    ensures Perform(users, a).value.Keys == users.Keys
  {
  }

  /** To an actor that is known a target elsewhere, or none, or a platform administrator, does not exist. */
  lemma StrangersAreNotFound(users: Users, a: Action)
    requires Known(users, a.actor) && !a.faults.actor && a.actor != a.target
    requires Known(users, a.target) ==>
      users[a.target].tenant != users[a.actor].tenant || users[a.target].role == SuperAdmin
    ensures Perform(users, a) == Err(NotFound)
  {
  }

  /** The request comes from a user of the tenant. */
  ghost predicate ByTenant(users: Users, a: Action, tenant: string) {
    a.actor in users && users[a.actor].tenant == tenant
  }

  /** A request by somebody of another tenant, or by nobody, leaves the tenant's users as they are. */
  lemma OutsidersChangeNothing(users: Users, a: Action, tenant: string, id: string)
    requires !ByTenant(users, a, tenant) && id in users && users[id].tenant == tenant
    ensures Perform(users, a).Ok? ==> id in Perform(users, a).value && Perform(users, a).value[id] == users[id]
  {
    hide Perform;
    if Perform(users, a).Ok? {
      WithinOneTenant(users, a);
      OnlyTheTarget(users, a, id);
    }
  }

  /** Nobody changes tenants, and nobody is added or forgotten. */
  lemma TenantsStay(users: Users, a: Action, id: string)
    ensures Next(users, a).Keys == users.Keys
    ensures id in users ==> Next(users, a)[id].tenant == users[id].tenant
  {
    hide Perform;
    if Perform(users, a).Ok? {
      WithinOneTenant(users, a);
      if id in users {
        OnlyTheTarget(users, a, id);
      }
    }
  }

  /**
   Over every run the users of a tenant change only by requests of its own users: without any, each of them is
   in the end as they were.
   */
  lemma {:induction false} TenantsAreApart(users: Users, run: seq<Action>, tenant: string, id: string)
    requires id in users && users[id].tenant == tenant
    requires forall k :: 0 <= k < |run| ==> !ByTenant(users, run[k], tenant)
    ensures id in After(users, run) && After(users, run)[id] == users[id]
    decreases |run|
  {
    hide Perform;
    if run != [] {
      OutsidersChangeNothing(users, run[0], tenant, id);
      var next := Next(users, run[0]);
      forall k | 0 <= k < |run[1..]|
        ensures !ByTenant(next, run[1..][k], tenant)
      {
        TenantsStay(users, run[0], run[1..][k].actor);
        assert !ByTenant(users, run[k + 1], tenant);
      }
      TenantsStay(users, run[0], id);
      TenantsAreApart(next, run[1..], tenant, id);
    }
  }

  // ------------------------------------------------------------------ owners remain

  /** The request that would take a tenant's last active owner away is refused. */
  lemma StepKeepsAnOwner(users: Users, a: Action, tenant: string)
    requires HasOwner(users, tenant) && Perform(users, a).Ok?
    ensures HasOwner(Perform(users, a).value, tenant)
  {
    var after := Perform(users, a).value;
    var id :| id in users && ActiveOwner(users, id, tenant);
    if !ActiveOwner(after, id, tenant) {
      if id != a.target {
        OnlyTheTarget(users, a, id);
      }
      assert AnotherOwner(users, id);
      var k :| k in users && k != id && ActiveOwner(users, k, tenant);
      OnlyTheTarget(users, a, k);
      assert ActiveOwner(after, k, tenant);
    } else {
      assert id in after;
    }
  }

  /** A tenant that has an active owner keeps one over every run of changes and removals, by any actors. */
  lemma {:induction false} RunKeepsAnOwner(users: Users, run: seq<Action>, tenant: string)
    requires HasOwner(users, tenant)
    ensures HasOwner(After(users, run), tenant)
    decreases |run|
  {
    hide HasOwner, Perform;
    if run != [] {
      if Perform(users, run[0]).Ok? {
        StepKeepsAnOwner(users, run[0], tenant);
        RunKeepsAnOwner(Perform(users, run[0]).value, run[1..], tenant);
      } else {
        RunKeepsAnOwner(users, run[1..], tenant);
      }
    }
  }

  /** Nobody hands out more than their own rank, touches an owner from below, or changes their own role. */
  lemma RolesAreGrantedFromAbove(users: Users, a: Action)
    requires Perform(users, a).Ok? && a.actor in users && a.target in users
    requires Perform(users, a).value[a.target].role != users[a.target].role
    ensures a.actor != a.target
    ensures Rank(Perform(users, a).value[a.target].role) <= Rank(users[a.actor].role)
    ensures Rank(users[a.actor].role) >= Rank(Admin)
    ensures users[a.target].role == Owner ==> Rank(users[a.actor].role) >= Rank(Owner)
    ensures Perform(users, a).value[a.target].role != SuperAdmin && users[a.target].role != SuperAdmin
  {
  }

  /** The separate rule for OWNER says nothing new: administrators and above grant what is not above them. */
  lemma AssignmentFollowsRank(actor: Role, target: Role)
    ensures CanAssign(actor, target) <==>
            target != SuperAdmin && Rank(actor) >= Rank(Admin) && Rank(actor) >= Rank(target)
  {
    match target
    case Owner => assert Rank(actor) >= 5 <==> actor == Owner || actor == SuperAdmin;
    case _ =>
  }

  /** The roles in the order of what they may do. */
  lemma RanksAscend()
    ensures Rank(Viewer) < Rank(Engineer) < Rank(Manager) < Rank(Admin) < Rank(Owner) < Rank(SuperAdmin)
  {
  }

  /** Both users exist, belong together and can be read, and the target is no platform administrator. */
  predicate Reachable(users: Users, actor: string, target: string, f: Faults) {
    && !f.actor && !f.target && Known(users, actor) && Known(users, target)
    && users[actor].tenant == users[target].tenant && users[target].role != SuperAdmin
  }

  /** The tenant can be asked for another active owner, and has one. */
  predicate Replaceable(users: Users, target: string, f: Faults) {
    !f.list && AnotherOwner(users, target)
  }

  /** What an update asks of a role change. */
  predicate MayTakeRole(users: Users, actor: string, target: string, role: Role, f: Faults)
    requires actor in users && target in users
  {
    && actor != target && role != SuperAdmin
    && Rank(users[actor].role) >= Rank(Admin) && Rank(users[actor].role) >= Rank(role)
    && (users[target].role == Owner ==> Replaceable(users, target, f))
  }

  /**
   Exactly when an update is carried out, and that it then does all that was asked and nothing else: owners
   are changed by owners and above; nobody changes their own role or switches themselves off; an owner is
   demoted or switched off only while the tenant has another active one.
   */
  lemma UpdateCarriedOutIff(users: Users, actor: string, target: string, c: Change, f: Faults)
    ensures Updated(users, actor, target, c, f).Ok? <==>
            && Reachable(users, actor, target, f) && !f.save
            && var t := users[target];
               var role := if c.role.Some? then c.role.value else t.role;
               && (t.role == Owner ==> Rank(users[actor].role) >= Rank(Owner))
               && (role != t.role ==> MayTakeRole(users, actor, target, role, f))
               && (c.active == Some(false) && t.active ==>
                     actor != target && (role == Owner ==> Replaceable(users, target, f)))
               && (c.name.Some? ==> |c.name.value| >= 2)
    ensures Updated(users, actor, target, c, f).Ok? ==>
              var t := users[target];
              Updated(users, actor, target, c, f).value ==
              users[target := User(t.tenant, if c.role.Some? then c.role.value else t.role,
                                   if c.active.Some? then c.active.value else t.active,
                                   if c.name.Some? then c.name.value else t.name, t.deleted)]
  {
    hide AnotherOwner;
    if actor in users && c.role.Some? {
      AssignmentFollowsRank(users[actor].role, c.role.value);
    }
    hide CanAssign;
  }

  /** Exactly when a removal is carried out, and what it does. */
  lemma RemovalCarriedOutIff(users: Users, actor: string, target: string, f: Faults)
    ensures Removed(users, actor, target, f).Ok? <==>
            && actor != target && Reachable(users, actor, target, f) && !f.save
            && Rank(users[target].role) <= Rank(users[actor].role)
            && (users[target].role == Owner ==> Replaceable(users, target, f))
    ensures Removed(users, actor, target, f).Ok? ==>
              var t := users[target];
              Removed(users, actor, target, f).value == users[target := User(t.tenant, t.role, false, t.name, true)]
  {
    hide AnotherOwner;
  }
}
