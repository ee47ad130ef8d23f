/** The role table and the cache in front of it. */
module UserRoles {
  import opened Wrappers
  import opened Sequences

  datatype Role = Superuser | User | StoreManager

  datatype UserRole = UserRole(id: nat, userId: nat, name: Role, data: Option<nat>)

  datatype Db = Db(rows: seq<UserRole>, cache: map<nat, seq<Role>>)

  datatype RoleError = Refused | Constraint | NotFound

  function RolesOf(rows: seq<UserRole>, user: nat): seq<Role> {
    if rows == [] then []
    else
      var last := rows[|rows| - 1];
      RolesOf(rows[..|rows| - 1], user) + if last.userId == user then [last.name] else []
  }

  function Matching(rows: seq<UserRole>, wanted: UserRole -> bool): seq<UserRole> {
    Without(rows, (r: UserRole) => !wanted(r))
  }

  /** `UNIQUE (user_id, name, data)`, where a null `data` equals nothing, and the primary key. */
  predicate Insertable(rows: seq<UserRole>, role: UserRole) {
    forall i :: 0 <= i < |rows| ==>
      && rows[i].id != role.id
      && !(&& rows[i].userId == role.userId && rows[i].name == role.name
           && rows[i].data.Some? && rows[i].data == role.data)
  }

  /** The cache's errors are logged and swallowed, so an entry may survive its removal. */
  function Forget(cache: map<nat, seq<Role>>, user: nat, works: bool): map<nat, seq<Role>> {
    if works then cache - {user} else cache
  }

  /** `allowed` is the verdict of the access check; `works` tells whether the cache obeys. Creating and
      deleting by name run in a transaction, so a refusal or a constraint leaves the rows as they were,
      but not the cache. */
  datatype Op =
    | List(user: nat, found: bool, works: bool)
    | Create(role: UserRole, allowed: bool, works: bool)
    | Delete(user: nat, name: Role, allowed: bool, works: bool)
    | DeleteByUser(user: nat, works: bool)
    | DeleteById(id: nat, works: bool)
    | Evict(user: nat)

  /** What `list_for_user` answers; `found` tells whether reading the cache worked. */
  function Listed(db: Db, user: nat, found: bool): seq<Role> {
    if found && user in db.cache then db.cache[user] else RolesOf(db.rows, user)
  }

  function Next(db: Db, op: Op): Db {
    match op
    case List(user, found, works) =>
      var roles := RolesOf(db.rows, user);
      if (found && user in db.cache) || roles == [] || !works then db
      else db.(cache := db.cache[user := roles])
    case Create(role, allowed, works) =>
      if !allowed then db
      else Db(if Insertable(db.rows, role) then db.rows + [role] else db.rows, Forget(db.cache, role.userId, works))
    case Delete(user, name, allowed, works) =>
      Db(if allowed then Without(db.rows, (r: UserRole) => r.userId == user && r.name == name) else db.rows,
         Forget(db.cache, user, works))
    case DeleteByUser(user, works) =>
      Db(Without(db.rows, (r: UserRole) => r.userId == user), Forget(db.cache, user, works))
    case DeleteById(id, works) =>
      var deleted := Matching(db.rows, (r: UserRole) => r.id == id);
      if deleted == [] then db
      else Db(Without(db.rows, (r: UserRole) => r.id == id), Forget(db.cache, deleted[0].userId, works))
    case Evict(user) => db.(cache := db.cache - {user})
  }

  function Run(ops: seq<Op>): Db {
    if ops == [] then Db([], map[]) else Next(Run(ops[..|ops| - 1]), ops[|ops| - 1])
  }

  // ---- Coherence ----

  predicate Coherent(db: Db) {
    forall user <- db.cache :: db.cache[user] == RolesOf(db.rows, user)
  }

  predicate IdsApart(rows: seq<UserRole>) {
    forall i, j :: 0 <= i < j < |rows| ==> rows[i].id != rows[j].id
  }

  predicate DbOk(db: Db) {
    Coherent(db) && IdsApart(db.rows)
  }

  lemma WithoutKeepsIdsApart(rows: seq<UserRole>, doomed: UserRole -> bool)
    requires IdsApart(rows)
    ensures IdsApart(Without(rows, doomed))
  {
    var apart := (a: UserRole, b: UserRole) => a.id != b.id;
    assert Apart(rows, apart);
    WithoutKeepsApart(rows, doomed, apart);
    forall i, j | 0 <= i < j < |Without(rows, doomed)|
      ensures apart(Without(rows, doomed)[i], Without(rows, doomed)[j])
    {
    }
  }

  predicate SomeDoomed(rows: seq<UserRole>, user: nat, doomed: UserRole -> bool) {
    exists i :: 0 <= i < |rows| && rows[i].userId == user && doomed(rows[i])
  }

  /** Deleting rows shortens the list of each user who loses one and leaves the other lists alone. */
  lemma {:induction false} DeletingShortens(rows: seq<UserRole>, doomed: UserRole -> bool, user: nat)
    ensures var before, after := RolesOf(rows, user), RolesOf(Without(rows, doomed), user);
      if SomeDoomed(rows, user, doomed) then |after| < |before| else after == before
  {
    if rows != [] {
      var n := |rows| - 1;
      var front, last := rows[..n], rows[n];
      DeletingShortens(front, doomed, user);
      var kept := Without(front, doomed);
      assert !doomed(last) ==> (kept + [last])[..|kept|] == kept;
      assert doomed(last) ==> kept + [] == kept;
      SomeDoomedAtEnd(rows, user, doomed);
    }
  }

  lemma SomeDoomedAtEnd(rows: seq<UserRole>, user: nat, doomed: UserRole -> bool)
    requires rows != []
    ensures var n := |rows| - 1;
      SomeDoomed(rows, user, doomed) <==>
        SomeDoomed(rows[..n], user, doomed) || (rows[n].userId == user && doomed(rows[n]))
  {
    var front := rows[..|rows| - 1];
    assert forall i :: 0 <= i < |front| ==> front[i] == rows[i];
    if SomeDoomed(front, user, doomed) {
      var i :| 0 <= i < |front| && front[i].userId == user && doomed(front[i]);
      assert rows[i] == front[i];
    }
  }

  lemma MatchingMembers(rows: seq<UserRole>, wanted: UserRole -> bool)
    ensures forall r :: r in Matching(rows, wanted) <==> r in rows && wanted(r)
  {
    WithoutMembers(rows, (r: UserRole) => !wanted(r));
  }

  /** The roles listed for a user are the names of his rows, one for each. */
  lemma {:induction false} RolesOfMembers(rows: seq<UserRole>, user: nat)
    ensures forall name :: name in RolesOf(rows, user) <==> exists row <- rows :: row.userId == user && row.name == name
    ensures |RolesOf(rows, user)| == |Matching(rows, (r: UserRole) => r.userId == user)|
  {
    if rows != [] {
      var front, last := rows[..|rows| - 1], rows[|rows| - 1];
      RolesOfMembers(front, user);
      assert rows == front + [last];
      forall name
        ensures name in RolesOf(rows, user) <==> exists row <- rows :: row.userId == user && row.name == name
      {
        assert last in rows;
        if row :| row in rows && row.userId == user && row.name == name {
          assert row == last || row in front;
        }
      }
    }
  }

  lemma AppendedRole(rows: seq<UserRole>, role: UserRole, user: nat)
    ensures RolesOf(rows + [role], user) == RolesOf(rows, user) + if role.userId == user then [role.name] else []
  {
    assert (rows + [role])[..|rows|] == rows;
  }

  lemma DeletedById(rows: seq<UserRole>, id: nat)
    requires IdsApart(rows)
    ensures var deleted := Matching(rows, (r: UserRole) => r.id == id);
      && (forall r <- deleted :: r in rows && r.id == id)
      && (forall r <- rows :: r.id == id ==> r in deleted)
      && (forall r, s :: r in rows && s in rows && r.id == id && s.id == id ==> r == s)
  {
    MatchingMembers(rows, (r: UserRole) => r.id == id);
  }

  /** The user whose list an operation may change. */
  function Target(db: Db, op: Op): Option<nat> {
    match op
    case Create(role, allowed, _) => if allowed then Some(role.userId) else None
    case Delete(user, _, _, _) => Some(user)
    case DeleteByUser(user, _) => Some(user)
    case DeleteById(id, _) =>
      var deleted := Matching(db.rows, (r: UserRole) => r.id == id);
      if deleted == [] then None else Some(deleted[0].userId)
    case List(_, _, _) => None
    case Evict(_) => None
  }

  /** Whether an operation changes the list of its target: the row is accepted, or some row goes. */
  predicate Changes(db: Db, op: Op) {
    match op
    case Create(role, allowed, _) => allowed && Insertable(db.rows, role)
    case Delete(user, name, allowed, _) =>
      allowed && SomeDoomed(db.rows, user, (r: UserRole) => r.userId == user && r.name == name)
    case DeleteByUser(user, _) => SomeDoomed(db.rows, user, (r: UserRole) => r.userId == user)
    case DeleteById(id, _) => Target(db, op).Some?
    case List(_, _, _) => false
    case Evict(_) => false
  }

  predicate CacheObeys(op: Op) {
    match op
    case Create(_, _, works) => works
    case Delete(_, _, _, works) => works
    case DeleteByUser(_, works) => works
    case DeleteById(_, works) => works
    case List(_, _, _) => true
    case Evict(_) => true
  }

  /** An operation changes the list of its target exactly when it says so, and no other list. */
  lemma OnlyTargetChanges(db: Db, op: Op, user: nat)
    requires IdsApart(db.rows)
    ensures RolesOf(Next(db, op).rows, user) != RolesOf(db.rows, user)
       <==> Target(db, op) == Some(user) && Changes(db, op)
  {
    match op
    case Create(role, _, _) => AppendedRole(db.rows, role, user);
    case Delete(u, name, _, _) => DeletingShortens(db.rows, (r: UserRole) => r.userId == u && r.name == name, user);
    case DeleteByUser(u, _) => DeletingShortens(db.rows, (r: UserRole) => r.userId == u, user);
    case DeleteById(id, _) =>
      DeletedById(db.rows, id);
      DeletingShortens(db.rows, (r: UserRole) => r.id == id, user);
      var deleted := Matching(db.rows, (r: UserRole) => r.id == id);
      if deleted != [] {
        assert deleted[0] in deleted;
      }
    case List(_, _, _) =>
    case Evict(_) =>
  }

  /** Exactly when one operation keeps the cache in agreement with the table: its cache removal works,
      or there is nothing cached for its target, or it changes no row of its target. */
  lemma CoherentExactlyIf(db: Db, op: Op)
    requires DbOk(db)
    ensures Coherent(Next(db, op)) <==>
      CacheObeys(op) || Target(db, op).None? || Target(db, op).value !in db.cache || !Changes(db, op)
  {
    var after := Next(db, op);
    forall user: nat
      ensures RolesOf(after.rows, user) != RolesOf(db.rows, user) <==> Target(db, op) == Some(user) && Changes(db, op)
    {
      OnlyTargetChanges(db, op, user);
    }
    if !CacheObeys(op) && Target(db, op).Some? {
      assert Target(db, op).value in db.cache ==> Target(db, op).value in after.cache;
    }
  }

  lemma StepKeepsIdsApart(db: Db, op: Op)
    requires IdsApart(db.rows)
    ensures IdsApart(Next(db, op).rows)
  {
    match op
    case Create(_, _, _) =>
    case Delete(u, name, _, _) => WithoutKeepsIdsApart(db.rows, (r: UserRole) => r.userId == u && r.name == name);
    case DeleteByUser(u, _) => WithoutKeepsIdsApart(db.rows, (r: UserRole) => r.userId == u);
    case DeleteById(id, _) => WithoutKeepsIdsApart(db.rows, (r: UserRole) => r.id == id);
    case List(_, _, _) =>
    case Evict(_) =>
  }

  /** After any history in which the removals work, `list_for_user` answers what the table holds. */
  lemma {:induction false} CacheAgrees(ops: seq<Op>, user: nat, found: bool)
    requires forall op <- ops :: CacheObeys(op)
    ensures DbOk(Run(ops))
    ensures Listed(Run(ops), user, found) == RolesOf(Run(ops).rows, user)
  {
    if ops != [] {
      var front := ops[..|ops| - 1];
      CacheAgrees(front, user, found);
      CoherentExactlyIf(Run(front), ops[|ops| - 1]);
      StepKeepsIdsApart(Run(front), ops[|ops| - 1]);
    }
  }

  // ---- The constraints of the table ----

  /** What the primary key and the unique constraint say of two rows. */
  predicate Distinct(a: UserRole, b: UserRole) {
    && a.id != b.id
    && !(a.userId == b.userId && a.name == b.name && a.data == b.data && a.data.Some?)
  }

  predicate RowsDistinct(rows: seq<UserRole>) {
    forall i, j :: 0 <= i < j < |rows| ==> Distinct(rows[i], rows[j])
  }

  lemma WithoutKeepsDistinct(rows: seq<UserRole>, doomed: UserRole -> bool)
    requires RowsDistinct(rows)
    ensures RowsDistinct(Without(rows, doomed))
  {
    assert Apart(rows, Distinct);
    WithoutKeepsApart(rows, doomed, Distinct);
  }

  lemma StepKeepsDistinct(db: Db, op: Op)
    requires RowsDistinct(db.rows)
    ensures RowsDistinct(Next(db, op).rows)
  {
    match op
    case Create(_, _, _) =>
    case Delete(u, name, _, _) => WithoutKeepsDistinct(db.rows, (r: UserRole) => r.userId == u && r.name == name);
    case DeleteByUser(u, _) => WithoutKeepsDistinct(db.rows, (r: UserRole) => r.userId == u);
    case DeleteById(id, _) => WithoutKeepsDistinct(db.rows, (r: UserRole) => r.id == id);
    case List(_, _, _) =>
    case Evict(_) =>
  }

  /** In every run no two rows have the same id, nor the same user, name and data unless that is null;
      and a row that keeps this is accepted. */
  lemma {:induction false} TableIsConstrained(ops: seq<Op>, role: UserRole)
    ensures RowsDistinct(Run(ops).rows)
    ensures Insertable(Run(ops).rows, role) <==> RowsDistinct(Run(ops).rows + [role])
  {
    var rows := Run(ops).rows;
    if ops != [] {
      TableIsConstrained(ops[..|ops| - 1], role);
      StepKeepsDistinct(Run(ops[..|ops| - 1]), ops[|ops| - 1]);
    }
    if RowsDistinct(rows + [role]) {
      forall i | 0 <= i < |rows|
        ensures Distinct(rows[i], role)
      {
        assert (rows + [role])[i] == rows[i] && (rows + [role])[|rows|] == role;
      }
    }
  }

  // ---- A listing between the two effects of an operation ----

  /** The operation has reached the cache and its rows are not committed yet. */
  function CacheOnly(db: Db, op: Op): Db {
    db.(cache := Next(db, op).cache)
  }

  /** Another caller lists the operation's target meanwhile; then the rows are committed. */
  function ListedBetween(db: Db, op: Op, user: nat, found: bool, works: bool): Db {
    Next(CacheOnly(db, op), List(user, found, works)).(rows := Next(db, op).rows)
  }

  /** The operations that remove their target's entry before their rows are committed: after a listing in
      between the cache is right if and only if the listing's entry was not stored, because the cache
      refused it or the old list was empty, or the operation changes no row of its target. Otherwise
      every later listing answers the old list. */
  lemma ListBetweenCoherentExactlyIf(db: Db, op: Op, found: bool, works: bool)
    requires DbOk(db) && CacheObeys(op) && Target(db, op).Some? && !op.DeleteById?
    ensures var user := Target(db, op).value;
      var after := ListedBetween(db, op, user, found, works);
      && (Coherent(after) <==> !works || RolesOf(db.rows, user) == [] || !Changes(db, op))
      && (!Coherent(after) ==> Listed(after, user, true) == RolesOf(db.rows, user) != RolesOf(after.rows, user))
  {
    var user := Target(db, op).value;
    var after := ListedBetween(db, op, user, found, works);
    TargetIsForgotten(db, op);
    forall other: nat
      ensures RolesOf(after.rows, other) != RolesOf(db.rows, other) <==> other == user && Changes(db, op)
    {
      OnlyTargetChanges(db, op, other);
    }
    if works && RolesOf(db.rows, user) != [] {
      assert after.cache[user] == RolesOf(db.rows, user);
    }
  }

  /** `delete_by_id` is the other way round, its row is gone before it reaches the cache; then a listing
      in between does no harm. */
  lemma DeleteByIdToleratesListing(db: Db, id: nat, user: nat, found: bool, works: bool)
    requires DbOk(db)
    ensures var op := DeleteById(id, true);
      var listed := Next(db.(rows := Next(db, op).rows), List(user, found, works));
      Coherent(if Target(db, op).None? then listed
               else listed.(cache := Forget(listed.cache, Target(db, op).value, true)))
  {
    var op := DeleteById(id, true);
    forall other: nat
      ensures RolesOf(Next(db, op).rows, other) != RolesOf(db.rows, other) <==> Target(db, op) == Some(other)
    {
      OnlyTargetChanges(db, op, other);
    }
  }

  // ---- A listing in two halves as well ----

  /** The effects of an operation on one user and of a listing of that user which missed the cache:
      the listing queries the table and stores its answer later. */
  datatype Effect = ForgetEntry | CommitRows | QueryRows | StoreEntry

  datatype Midway = Midway(db: Db, queried: seq<Role>)

  function TakeEffect(m: Midway, after: Db, user: nat, works: bool, effect: Effect): Midway {
    match effect
    case ForgetEntry => m.(db := m.db.(cache := m.db.cache - {user}))
    case CommitRows => m.(db := m.db.(rows := after.rows))
    case QueryRows => m.(queried := RolesOf(m.db.rows, user))
    case StoreEntry => if m.queried == [] || !works then m else m.(db := m.db.(cache := m.db.cache[user := m.queried]))
  }

  /** The four effects in the order given. */
  function Raced(db: Db, op: Op, user: nat, works: bool, order: seq<Effect>): Db
    requires |order| == 4
  {
    var after := Next(db, op);
    var one := TakeEffect(Midway(db, []), after, user, works, order[0]);
    var two := TakeEffect(one, after, user, works, order[1]);
    var three := TakeEffect(two, after, user, works, order[2]);
    TakeEffect(three, after, user, works, order[3]).db
  }

  function Position(order: seq<Effect>, effect: Effect): (p: nat)
    ensures p <= |order| && (p < |order| ==> order[p] == effect)
  {
    if order == [] || order[0] == effect then 0 else 1 + Position(order[1..], effect)
  }

  /** Each effect once, the listing's in their order; the operation's may come either way round. */
  predicate IsRace(order: seq<Effect>) {
    && |order| == 4
    && Position(order, ForgetEntry) < 4 && Position(order, CommitRows) < 4
    && Position(order, QueryRows) < Position(order, StoreEntry) < 4
  }

  lemma PositionIs(order: seq<Effect>, effect: Effect)
    requires |order| == 4
    ensures Position(order, effect) ==
      if order[0] == effect then 0 else if order[1] == effect then 1
      else if order[2] == effect then 2 else if order[3] == effect then 3 else 4
  {
    var one, two, three := order[1..], order[2..], order[3..];
    assert one[1..] == two && two[1..] == three;
    assert Position(three, effect) == if order[3] == effect then 0 else 1 by {
      assert three[1..] == [];
    }
    assert Position(two, effect) == if order[2] == effect then 0 else 1 + Position(three, effect);
    assert Position(one, effect) == if order[1] == effect then 0 else 1 + Position(two, effect);
  }

  /** Whatever comes before what, for every operation: the cache is right afterwards if and only if the
      listing stored nothing, or its entry was removed again, or it queried the rows as they are now, or
      the operation changes no row of the user. */
  lemma RaceCoherentExactlyIf(db: Db, op: Op, works: bool, order: seq<Effect>)
    requires DbOk(db) && CacheObeys(op) && Target(db, op).Some? && IsRace(order)
    ensures var user := Target(db, op).value;
      Coherent(Raced(db, op, user, works, order)) <==>
        || !works
        || RolesOf(db.rows, user) == []
        || Position(order, StoreEntry) < Position(order, ForgetEntry)
        || Position(order, CommitRows) < Position(order, QueryRows)
        || !Changes(db, op)
  {
    var user := Target(db, op).value;
    PositionIs(order, ForgetEntry);
    PositionIs(order, CommitRows);
    PositionIs(order, QueryRows);
    PositionIs(order, StoreEntry);
    RaceEndsIn(db, op, user, works, order);
    var rows := if Position(order, CommitRows) < Position(order, QueryRows) then Next(db, op).rows else db.rows;
    forall other: nat
      ensures RolesOf(Next(db, op).rows, other) != RolesOf(db.rows, other) <==> other == user && Changes(db, op)
    {
      OnlyTargetChanges(db, op, other);
    }
    StoredIsCoherent(db, Next(db, op).rows, user, RolesOf(rows, user),
                     works && Position(order, ForgetEntry) < Position(order, StoreEntry));
  }

  /** What the four effects leave: the new rows, and the queried list if it was stored after the removal. */
  lemma RaceEndsIn(db: Db, op: Op, user: nat, works: bool, order: seq<Effect>)
    requires IsRace(order)
    ensures var rows := if Position(order, CommitRows) < Position(order, QueryRows) then Next(db, op).rows else db.rows;
      var stored := works && RolesOf(rows, user) != [] && Position(order, ForgetEntry) < Position(order, StoreEntry);
      var cleared := db.cache - {user};
      Raced(db, op, user, works, order)
      == Db(Next(db, op).rows, if stored then cleared[user := RolesOf(rows, user)] else cleared)
  {
    hide Next, RolesOf, Position;
    PositionIs(order, ForgetEntry);
    PositionIs(order, CommitRows);
    PositionIs(order, QueryRows);
    PositionIs(order, StoreEntry);
    assert db.cache[user := RolesOf(db.rows, user)] - {user} == db.cache - {user};
    assert db.cache[user := RolesOf(Next(db, op).rows, user)] - {user} == db.cache - {user};
  }

  lemma StoredIsCoherent(db: Db, rows: seq<UserRole>, user: nat, list: seq<Role>, kept: bool)
    requires Coherent(db)
    requires forall other: nat :: other != user ==> RolesOf(rows, other) == RolesOf(db.rows, other)
    ensures var cleared := db.cache - {user};
      Coherent(Db(rows, if kept && list != [] then cleared[user := list] else cleared)) <==>
        !kept || list == [] || list == RolesOf(rows, user)
  {
    if kept && list != [] {
      assert (db.cache - {user})[user := list][user] == list;
    }
  }

  lemma TargetIsForgotten(db: Db, op: Op)
    requires CacheObeys(op) && Target(db, op).Some?
    ensures Next(db, op).cache == db.cache - {Target(db, op).value}
  {
  }

  // ---- The repository ----

  class UserRolesRepo {
    var rows: seq<UserRole>
    var cache: map<nat, seq<Role>>

    ghost function State(): Db
      reads this
    {
      Db(rows, cache)
    }

    constructor ()
      ensures State() == Run([])
    {
      rows, cache := [], map[];
    }

    method ListForUser(user: nat, found: bool, works: bool) returns (roles: seq<Role>)
      modifies this`cache
      ensures State() == Next(old(State()), List(user, found, works))
      ensures roles == Listed(old(State()), user, found)
      ensures found && user in old(cache) ==> roles == old(cache)[user]
      ensures !(found && user in old(cache)) ==>
        && (forall name :: name in roles <==> exists row <- rows :: row.userId == user && row.name == name)
        && (roles != [] && works ==> user in cache && cache[user] == roles)
      ensures Coherent(old(State())) ==> roles == RolesOf(rows, user) && Coherent(State())
    {
      if found && user in cache {
        return cache[user];
      }
      RolesOfMembers(rows, user);
      roles := [];
      for i := 0 to |rows|
        invariant roles == RolesOf(rows[..i], user)
      {
        assert rows[..i + 1][..i] == rows[..i];
        if rows[i].userId == user {
          roles := roles + [rows[i].name];
        }
      }
      assert rows[..|rows|] == rows;
      if roles != [] && works {
        cache := cache[user := roles];
      }
    }

    method CreateRole(role: UserRole, allowed: bool, works: bool) returns (r: Result<UserRole, RoleError>)
      modifies this
      ensures State() == Next(old(State()), Create(role, allowed, works))
      ensures r == if !allowed then Err(Refused) else if !Insertable(old(rows), role) then Err(Constraint) else Ok(role)
      ensures rows == if r.Ok? then old(rows) + [role] else old(rows)
      ensures allowed && works ==> role.userId !in cache
      ensures forall user <- old(cache) :: user != role.userId ==> user in cache && cache[user] == old(cache)[user]
    {
      if !allowed {
        return Err(Refused);
      }
      cache := Forget(cache, role.userId, works);
      if !Insertable(rows, role) {
        return Err(Constraint);
      }
      rows := rows + [role];
      return Ok(role);
    }

    /** Splits off the rows of a `DELETE ... RETURNING`. */
    method DeleteRows(doomed: UserRole -> bool) returns (deleted: seq<UserRole>)
      modifies this`rows
      ensures rows == Without(old(rows), doomed)
      ensures deleted == Matching(old(rows), doomed)
    {
      var kept: seq<UserRole> := [];
      deleted := [];
      for i := 0 to |rows|
        invariant kept == Without(rows[..i], doomed)
        invariant deleted == Matching(rows[..i], doomed)
      {
        assert rows[..i + 1][..i] == rows[..i];
        if doomed(rows[i]) {
          deleted := deleted + [rows[i]];
        } else {
          kept := kept + [rows[i]];
        }
      }
      assert rows[..|rows|] == rows;
      rows := kept;
    }

    /** The access check comes after the deletion, and a refusal rolls the deletion back; the cache
        entry is gone all the same. */
    method DeleteRole(user: nat, name: Role, allowed: bool, works: bool) returns (r: Result<UserRole, RoleError>)
      modifies this
      ensures State() == Next(old(State()), Delete(user, name, allowed, works))
      ensures r.Ok? ==> r.value in old(rows) && r.value !in rows && r.value.userId == user && r.value.name == name
      ensures r.Ok? <==> allowed && exists row <- old(rows) :: row.userId == user && row.name == name
      ensures r.Err? ==> rows == old(rows)
      ensures r.Ok? ==> forall row :: row in rows <==> row in old(rows) && !(row.userId == user && row.name == name)
      ensures works ==> user !in cache
    {
      cache := Forget(cache, user, works);
      var doomed := (r: UserRole) => r.userId == user && r.name == name;
      MatchingMembers(rows, doomed);
      WithoutMembers(rows, doomed);
      var saved := rows;
      var deleted := DeleteRows(doomed);
      if deleted == [] {
        NothingDoomed(saved, doomed);
        return Err(NotFound);
      }
      assert deleted[0] in deleted;
      if !allowed {
        rows := saved;
        return Err(Refused);
      }
      return Ok(deleted[0]);
    }

    method DeleteRolesOfUser(user: nat, works: bool) returns (deleted: seq<UserRole>)
      modifies this
      ensures State() == Next(old(State()), DeleteByUser(user, works))
      ensures deleted == Matching(old(rows), (r: UserRole) => r.userId == user)
      ensures forall row :: row in rows <==> row in old(rows) && row.userId != user
      ensures forall row :: row in deleted <==> row in old(rows) && row.userId == user
      ensures works ==> user !in cache
    {
      WithoutMembers(rows, (r: UserRole) => r.userId == user);
      MatchingMembers(rows, (r: UserRole) => r.userId == user);
      cache := Forget(cache, user, works);
      deleted := DeleteRows((r: UserRole) => r.userId == user);
    }

    method DeleteRoleById(id: nat, works: bool) returns (r: Result<UserRole, RoleError>)
      modifies this
      ensures State() == Next(old(State()), DeleteById(id, works))
      ensures r.Ok? ==> r.value in old(rows) && r.value.id == id
      ensures r.Err? <==> forall row <- old(rows) :: row.id != id
      ensures forall row :: row in rows <==> row in old(rows) && row.id != id
      ensures r.Ok? && works ==> r.value.userId !in cache
    {
      WithoutMembers(rows, (r: UserRole) => r.id == id);
      var doomed := (r: UserRole) => r.id == id;
      MatchingMembers(rows, doomed);
      var deleted := DeleteRows(doomed);
      if deleted == [] {
        NothingDoomed(old(rows), doomed);
        return Err(NotFound);
      }
      cache := Forget(cache, deleted[0].userId, works);
      assert deleted[0] in deleted;
      return Ok(deleted[0]);
    }
  }
}
