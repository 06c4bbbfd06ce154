/** Environments and the uniqueness of their namespaces, which legacy rows may still violate. */
module Environments {
  import opened Wrappers

  datatype Env = Env(projectId: nat, name: string, namespace: string)

  type Rows = map<nat, Env>

  /** `last` is the highest id ever used; `index` tells whether the unique index on the namespace exists. */
  datatype State = State(rows: Rows, last: nat, index: bool)

  datatype Reply =
    | Done | NamespaceTaken(holder: nat) | NameTaken | IdTaken | IndexViolated
    | IndexRefused | DatabaseFailed

  /** Ids start at 1 and never exceed the highest one used; the index, once there, is respected. */
  ghost predicate Valid(s: State) {
    && (forall i <- s.rows :: 0 < i <= s.last)
    && (s.index ==> Colliding(s.rows) == {})
  }

  // ---------- collisions ----------

  predicate Collide(rows: Rows, i: nat, j: nat) {
    i in rows && j in rows && i < j && rows[i].namespace == rows[j].namespace
  }

  /** The pairs of environments that share a namespace. */
  function Colliding(rows: Rows): set<(nat, nat)> {
    set i <- rows, j <- rows | Collide(rows, i, j) :: (i, j)
  }

  predicate Touches(pair: (nat, nat), id: nat) {
    pair.0 == id || pair.1 == id
  }

  /** The collisions that do not involve `id`. */
  function Without(pairs: set<(nat, nat)>, id: nat): (r: set<(nat, nat)>)
    ensures r <= pairs
  {
    set p <- pairs | !Touches(p, id)
  }

  predicate Holds(rows: Rows, namespace: string, exclude: nat, i: nat) {
    i in rows && rows[i].namespace == namespace && (exclude == 0 || i != exclude)
  }

  /** The environment with the lowest id up to `bound` that holds the namespace. */
  function Holder(rows: Rows, namespace: string, exclude: nat, bound: nat): (r: Option<nat>)
    ensures r.None? ==> forall i | 0 < i <= bound :: !Holds(rows, namespace, exclude, i)
    ensures r.Some? ==> 0 < r.value <= bound && Holds(rows, namespace, exclude, r.value)
                        && forall i | 0 < i < r.value :: !Holds(rows, namespace, exclude, i)
  {
    if bound == 0 then None
    else
      var below := Holder(rows, namespace, exclude, bound - 1);
      if below.None? && Holds(rows, namespace, exclude, bound) then Some(bound) else below
  }

  predicate NameHeld(rows: Rows, id: nat, env: Env) {
    exists i <- rows :: i != id && rows[i].projectId == env.projectId && rows[i].name == env.name
  }

  predicate NamespaceHeld(rows: Rows, id: nat, namespace: string) {
    exists i <- rows :: i != id && rows[i].namespace == namespace
  }

  /** Two rows share a namespace other than the empty one: the only conflicts the listing reports. */
  predicate NamedConflict(rows: Rows) {
    exists p <- Colliding(rows) :: p.0 in rows && rows[p.0].namespace != ""
  }

  // ---------- operations ----------

  /** One SQL write of a row under the constraints of the table. */
  function Written(s: State, id: nat, env: Env): (State, Reply) {
    if NameHeld(s.rows, id, env) then (s, NameTaken)
    else if s.index && NamespaceHeld(s.rows, id, env.namespace) then (s, IndexViolated)
    else (s.(rows := s.rows[id := env], last := if id > s.last then id else s.last), Done)
  }

  function Target(s: State, id: nat): nat {
    if id == 0 then s.last + 1 else id
  }

  function Created(s: State, id: nat, env: Env, commit: bool): (State, Reply) {
    var holder := Holder(s.rows, env.namespace, 0, s.last);
    if !commit then (s, DatabaseFailed)
    else if holder.Some? then (s, NamespaceTaken(holder.value))
    else if id in s.rows then (s, IdTaken)
    else Written(s, Target(s, id), env)
  }

  function Saved(s: State, id: nat, env: Env, commit: bool): (State, Reply) {
    var holder := Holder(s.rows, env.namespace, id, s.last);
    if !commit then (s, DatabaseFailed)
    else if holder.Some? then (s, NamespaceTaken(holder.value))
    else Written(s, Target(s, id), env)
  }

  function Removed(s: State, id: nat, commit: bool): (State, Reply) {
    if !commit then (s, DatabaseFailed) else (s.(rows := s.rows - {id}), Done)
  }

  /** CREATE UNIQUE INDEX IF NOT EXISTS, which fails on any collision. */
  function Attempted(s: State): (State, Reply) {
    if s.index || Colliding(s.rows) == {} then (s.(index := true), Done) else (s, IndexRefused)
  }

  function Reconciled(s: State, works: bool): (State, Reply) {
    if !works then (s, DatabaseFailed)
    else if NamedConflict(s.rows) then (s, Done)
    else Attempted(s)
  }

  function Updated(s: State, id: nat, env: Env, commit: bool, works: bool): (State, Reply) {
    var (saved, reply) := Saved(s, id, env, commit);
    if reply != Done then (s, reply) else Reconciled(saved, works)
  }

  function Deleted(s: State, id: nat, commit: bool, works: bool): (State, Reply) {
    var (removed, reply) := Removed(s, id, commit);
    if reply != Done then (s, reply) else Reconciled(removed, works)
  }

  // ---------- what one operation does to the collisions ----------

  /** The namespace check leaves no holder but the written row itself. */
  lemma CheckedNamespaceIsFree(s: State, id: nat, env: Env, exclude: nat)
    requires Valid(s) && (exclude == id || exclude == 0)
    requires Holder(s.rows, env.namespace, exclude, s.last).None?
    ensures !NamespaceHeld(s.rows, Target(s, id), env.namespace)
  {
    if NamespaceHeld(s.rows, Target(s, id), env.namespace) {
      var i :| i in s.rows && i != Target(s, id) && s.rows[i].namespace == env.namespace;
      assert 0 < i <= s.last;
      assert Holds(s.rows, env.namespace, exclude, i);
    }
  }

  lemma WriteClearsCollisions(rows: Rows, id: nat, env: Env)
    requires !NamespaceHeld(rows, id, env.namespace)
    ensures Colliding(rows[id := env]) == Without(Colliding(rows), id)
  {
    var z := rows[id := env];
    forall i: nat, j: nat
      ensures Collide(z, i, j) <==> Collide(rows, i, j) && i != id && j != id
    {
    }
    assert forall p :: p in Colliding(z) <==> p in Without(Colliding(rows), id);
  }

  lemma RemoveClearsCollisions(rows: Rows, id: nat)
    ensures Colliding(rows - {id}) == Without(Colliding(rows), id)
  {
    var z := rows - {id};
    forall i: nat, j: nat
      ensures Collide(z, i, j) <==> Collide(rows, i, j) && i != id && j != id
    {
    }
    assert forall p :: p in Colliding(z) <==> p in Without(Colliding(rows), id);
  }

  /** A write never fails on the index: the namespace check in front of it already excludes that. */
  lemma SavedClears(s: State, id: nat, env: Env, exclude: nat)
    requires Valid(s) && (exclude == id || exclude == 0)
    requires Holder(s.rows, env.namespace, exclude, s.last).None?
    ensures var (z, reply) := Written(s, Target(s, id), env);
            && Valid(z) && reply != IndexViolated && z.index == s.index
            && (reply == Done ==>
                z.rows == s.rows[Target(s, id) := env]
                && Colliding(z.rows) == Without(Colliding(s.rows), Target(s, id)))
            && (reply != Done ==> z == s)
  {
    CheckedNamespaceIsFree(s, id, env, exclude);
    WriteClearsCollisions(s.rows, Target(s, id), env);
  }

  // ---------- what an accepted write stores ----------

  /** No other row than `self` has the namespace, or the project and name. */
  ghost predicate NamespaceFree(rows: Rows, self: nat, env: Env) {
    forall i <- rows :: i != self ==> rows[i].namespace != env.namespace
  }

  ghost predicate NameFree(rows: Rows, self: nat, env: Env) {
    forall i <- rows :: i != self ==> !(rows[i].projectId == env.projectId && rows[i].name == env.name)
  }

  lemma HolderIff(s: State, namespace: string, exclude: nat)
    requires Valid(s)
    ensures Holder(s.rows, namespace, exclude, s.last).None? <==>
              forall i <- s.rows :: i != exclude ==> s.rows[i].namespace != namespace
  {
    assert 0 !in s.rows;
    if Holder(s.rows, namespace, exclude, s.last).None? {
      forall i | i in s.rows && i != exclude
        ensures s.rows[i].namespace != namespace
      {
        assert !Holds(s.rows, namespace, exclude, i);
      }
    }
  }

  /** A create is accepted exactly when it commits and namespace, id, and project with name are free; it then stores
      exactly the environment, under a fresh id if none was given, and otherwise nothing. */
  lemma CreatedIff(s: State, id: nat, env: Env, commit: bool)
    requires Valid(s)
    ensures var (z, reply) := Created(s, id, env, commit); var target := if id == 0 then s.last + 1 else id;
            && (reply == Done <==>
                  commit && NamespaceFree(s.rows, target, env) && id !in s.rows && NameFree(s.rows, target, env))
            && (reply == Done ==> target !in s.rows && z.rows == s.rows[target := env] && z.last >= target)
            && (reply != Done ==> z == s)
            && z.index == s.index
  {
    HolderIff(s, env.namespace, 0);
    if Holder(s.rows, env.namespace, 0, s.last).None? {
      SavedClears(s, id, env, 0);
    }
  }

  /** A save is accepted exactly when it commits and no other row has the namespace or the project with name; it then
      stores exactly the environment, and otherwise nothing. */
  lemma SavedIff(s: State, id: nat, env: Env, commit: bool)
    requires Valid(s)
    ensures var (z, reply) := Saved(s, id, env, commit); var target := if id == 0 then s.last + 1 else id;
            && (reply == Done <==> commit && NamespaceFree(s.rows, target, env) && NameFree(s.rows, target, env))
            && (reply == Done ==> z.rows == s.rows[target := env] && z.last >= target)
            && (reply != Done ==> z == s)
            && z.index == s.index
  {
    HolderIff(s, env.namespace, id);
    if Holder(s.rows, env.namespace, id, s.last).None? {
      SavedClears(s, id, env, id);
    }
  }

  // ---------- runs ----------

  /** The transactions of all requests, in any interleaving. A request lists the conflicts before it tries to build the
      index; by then others may have written, so here the attempt can come at any time. */
  datatype Action =
    | Create(id: nat, env: Env, commit: bool)
    | Save(id: nat, env: Env, commit: bool)
    | Remove(id: nat, commit: bool)
    | BuildIndex

  function Apply(s: State, a: Action): (State, Reply) {
    match a
    case Create(id, env, commit) => Created(s, id, env, commit)
    case Save(id, env, commit) => Saved(s, id, env, commit)
    case Remove(id, commit) => Removed(s, id, commit)
    case BuildIndex => Attempted(s)
  }

  function Exec(s: State, run: seq<Action>): State {
    if run == [] then s else Apply(Exec(s, run[..|run| - 1]), run[|run| - 1]).0
  }

  /** Does this action write the row of an environment that collides at that moment? */
  predicate Repairs(s: State, a: Action) {
    a.Save? && Saved(s, a.id, a.env, a.commit).1 == Done && exists p <- Colliding(s.rows) :: Touches(p, a.id)
  }

  /** How many updates of a run wrote a colliding environment. */
  function Repaired(s: State, run: seq<Action>): nat {
    if run == [] then 0
    else
      var before := run[..|run| - 1];
      Repaired(s, before) + if Repairs(Exec(s, before), run[|run| - 1]) then 1 else 0
  }

  /** One action keeps the invariant, adds no collision, and clears every collision of a row it writes. */
  lemma StepNeverAddsCollision(s: State, a: Action)
    requires Valid(s)
    ensures Valid(Apply(s, a).0)
    ensures Colliding(Apply(s, a).0.rows) <= Colliding(s.rows)
    ensures s.index ==> Apply(s, a).0.index
    ensures Apply(s, a).1 != IndexViolated
    ensures Repairs(s, a) ==> Colliding(Apply(s, a).0.rows) < Colliding(s.rows)
  {
    match a
    case Create(id, env, commit) =>
      if commit && Holder(s.rows, env.namespace, 0, s.last).None? && id !in s.rows {
        SavedClears(s, id, env, 0);
      }
    case Save(id, env, commit) =>
      if commit && Holder(s.rows, env.namespace, id, s.last).None? {
        SavedClears(s, id, env, id);
        if Repairs(s, a) {
          var p :| p in Colliding(s.rows) && Touches(p, id);
          assert p !in Without(Colliding(s.rows), id);
          assert Target(s, id) == id;
        }
      }
    case Remove(id, commit) => RemoveClearsCollisions(s.rows, id);
    case BuildIndex =>
  }

  lemma SmallerSet(a: set<(nat, nat)>, b: set<(nat, nat)>)
    requires a <= b
    ensures |a| <= |b| && (a < b ==> |a| < |b|)
  {
    assert b == a + (b - a);
    assert |b| == |a| + |b - a|;
    if a < b {
      var x :| x in b - a;
      assert |b - a| > 0;
    }
  }

  /** No run adds a collision, each update of a colliding environment uses up at least one, and the index stays
      respected. */
  lemma {:induction false} RunOnlyRepairs(s: State, run: seq<Action>)
    requires Valid(s)
    ensures Valid(Exec(s, run))
    ensures Colliding(Exec(s, run).rows) <= Colliding(s.rows)
    ensures |Colliding(Exec(s, run).rows)| + Repaired(s, run) <= |Colliding(s.rows)|
    ensures s.index ==> Exec(s, run).index
  {
    if run != [] {
      var before, last := run[..|run| - 1], run[|run| - 1];
      RunOnlyRepairs(s, before);
      StepNeverAddsCollision(Exec(s, before), last);
      SmallerSet(Colliding(Exec(s, run).rows), Colliding(Exec(s, before).rows));
    }
  }

  function UpdateSteps(s: State, id: nat, env: Env, commit: bool, works: bool): seq<Action> {
    var save := Action.Save(id, env, commit);
    var (saved, reply) := Saved(s, id, env, commit);
    if reply == Done && works && !NamedConflict(saved.rows) then [save, BuildIndex] else [save]
  }

  function DeleteSteps(s: State, id: nat, commit: bool, works: bool): seq<Action> {
    var remove := Remove(id, commit);
    if commit && works && !NamedConflict(s.rows - {id}) then [remove, BuildIndex] else [remove]
  }

  lemma ExecTwo(s: State, a: Action, b: Action)
    ensures Exec(s, [a]) == Apply(s, a).0 && Exec(s, [a, b]) == Apply(Apply(s, a).0, b).0
  {
    assert [a][..0] == [] && [a, b][..1] == [a];
  }

  /** An undisturbed update is a run of one or two of these steps. */
  lemma UpdateIsARun(s: State, id: nat, env: Env, commit: bool, works: bool)
    ensures Updated(s, id, env, commit, works).0 == Exec(s, UpdateSteps(s, id, env, commit, works))
  {
    ExecTwo(s, Action.Save(id, env, commit), BuildIndex);
  }

  /** And so is an undisturbed delete. */
  lemma DeleteIsARun(s: State, id: nat, commit: bool, works: bool)
    ensures Deleted(s, id, commit, works).0 == Exec(s, DeleteSteps(s, id, commit, works))
  {
    ExecTwo(s, Remove(id, commit), BuildIndex);
  }

  lemma UpdateOnlyRepairs(s: State, id: nat, env: Env, commit: bool, works: bool)
    requires Valid(s)
    ensures var (z, reply) := Updated(s, id, env, commit, works);
            Valid(z) && Colliding(z.rows) <= Colliding(s.rows) && reply != IndexViolated
  {
    UpdateIsARun(s, id, env, commit, works);
    RunOnlyRepairs(s, UpdateSteps(s, id, env, commit, works));
    StepNeverAddsCollision(s, Action.Save(id, env, commit));
  }

  lemma DeleteOnlyRepairs(s: State, id: nat, commit: bool, works: bool)
    requires Valid(s)
    ensures var (z, reply) := Deleted(s, id, commit, works);
            Valid(z) && Colliding(z.rows) <= Colliding(s.rows) && reply != IndexViolated
  {
    DeleteIsARun(s, id, commit, works);
    RunOnlyRepairs(s, DeleteSteps(s, id, commit, works));
  }

  /** An environment that collides cannot be written without moving it to a namespace nobody else holds. */
  lemma CollidingRowMustMove(s: State, id: nat, env: Env, commit: bool, other: nat)
    requires Valid(s) && id in s.rows && other in s.rows && other != id
             && s.rows[other].namespace == s.rows[id].namespace
    ensures Saved(s, id, env, commit).1 == Done ==> env.namespace != s.rows[id].namespace
  {
    if env.namespace == s.rows[id].namespace {
      assert Holds(s.rows, env.namespace, id, other);
    }
  }

  // ---------- the index ----------

  /** The rows share only the empty namespace: the listing sees no conflict, yet the index cannot be built. */
  predicate OnlyEmptyCollide(rows: Rows) {
    Colliding(rows) != {} && forall p <- Colliding(rows) :: p.0 in rows && rows[p.0].namespace == ""
  }

  /** Where the reconciliation itself works: the index exists afterwards iff nothing collides, and it fails iff only
      empty namespaces do. */
  lemma ReconcileOutcome(s: State)
    requires Valid(s)
    ensures Reconciled(s, true).0.index <==> Colliding(s.rows) == {}
    ensures Reconciled(s, true).1 == IndexRefused <==> OnlyEmptyCollide(s.rows)
    ensures Reconciled(s, true).1 == IndexRefused || Reconciled(s, true).1 == Done
  {
  }

  /** An accepted update or delete reports an error although it is stored, exactly when only empty namespaces still
      collide. */
  lemma StoredYetRefusedIff(s: State, id: nat, env: Env)
    requires Valid(s) && Saved(s, id, env, true).1 == Done
    ensures Updated(s, id, env, true, true).0.rows == s.rows[Target(s, id) := env]
    ensures Updated(s, id, env, true, true).1 == IndexRefused <==> OnlyEmptyCollide(s.rows[Target(s, id) := env])
    ensures Updated(s, id, env, true, true).0.index <==> Without(Colliding(s.rows), Target(s, id)) == {}
  {
    SavedClears(s, id, env, id);
    ReconcileOutcome(Saved(s, id, env, true).0);
  }

  lemma DeletedYetRefusedIff(s: State, id: nat)
    requires Valid(s)
    ensures Deleted(s, id, true, true).0.rows == s.rows - {id}
    ensures Deleted(s, id, true, true).1 == IndexRefused <==> OnlyEmptyCollide(s.rows - {id})
    ensures Deleted(s, id, true, true).0.index <==> Without(Colliding(s.rows), id) == {}
  {
    RemoveClearsCollisions(s.rows, id);
    ReconcileOutcome(s.(rows := s.rows - {id}));
  }

  /** Two rows with an empty namespace: an unrelated update is stored and still answered with an error. */
  lemma EmptyNamespacesBlockIndex()
    ensures exists s: State, env: Env ::
              Valid(s) && s.rows[3 := env] == Updated(s, 3, env, true, true).0.rows && s.rows[3 := env] != s.rows
              && Updated(s, 3, env, true, true).1 == IndexRefused
  {
    var rows := map[1 := Env(1, "a", ""), 2 := Env(1, "b", ""), 3 := Env(1, "c", "n")];
    var s := State(rows, 3, false);
    var env := Env(1, "c", "m");
    assert Colliding(rows) == {(1, 2)};
    assert Holder(rows, "m", 3, 3).None?;
    assert Saved(s, 3, env, true).1 == Done;
    assert env != rows[3];
    WriteClearsCollisions(rows, 3, env);
    assert Colliding(rows[3 := env]) == {(1, 2)};
    StoredYetRefusedIff(s, 3, env);
    assert s.rows[3 := env][3] != s.rows[3];
  }

  // ---------- the store ----------

  class EnvironmentStore {
    var rows: Rows
    var last: nat
    var index: bool

    ghost function Contents(): State
      reads this
    {
      State(rows, last, index)
    }

    constructor (s: State)
      requires Valid(s)
      ensures Contents() == s
    {
      rows, last, index := s.rows, s.last, s.index;
    }

    method EnsureNamespaceAvailable(namespace: string, exclude: nat) returns (reply: Reply)
      requires Valid(Contents())
      ensures reply == Done || (reply.NamespaceTaken? && Holds(rows, namespace, exclude, reply.holder))
      ensures reply == Done <==> forall i <- rows :: !Holds(rows, namespace, exclude, i)
      ensures reply == var holder := Holder(rows, namespace, exclude, last);
                       if holder.Some? then NamespaceTaken(holder.value) else Done
    {
      for i := 1 to last + 1
        invariant Holder(rows, namespace, exclude, i - 1).None?
      {
        if i in rows && rows[i].namespace == namespace && (exclude == 0 || i != exclude) {
          HolderStays(rows, namespace, exclude, i, last);
          return NamespaceTaken(i);
        }
      }
      reply := Done;
    }

    method Write(id: nat, env: Env) returns (reply: Reply)
      modifies this
      ensures (Contents(), reply) == Written(old(Contents()), id, env)
    {
      if NameHeld(rows, id, env) {
        return NameTaken;
      }
      if index && NamespaceHeld(rows, id, env.namespace) {
        return IndexViolated;
      }
      rows := rows[id := env];
      last := if id > last then id else last;
      reply := Done;
    }

    method Create(id: nat, env: Env, commit: bool) returns (reply: Reply)
      requires Valid(Contents())
      modifies this
      ensures (Contents(), reply) == Created(old(Contents()), id, env, commit)
      ensures Valid(Contents()) && Colliding(rows) <= old(Colliding(rows)) && reply != IndexViolated
      ensures reply == Done ==> rows == old(rows)[(if id == 0 then old(last) + 1 else id) := env]
      ensures reply != Done ==> Contents() == old(Contents())
    {
      CreatedIff(Contents(), id, env, commit);
      StepNeverAddsCollision(Contents(), Action.Create(id, env, commit));
      if !commit {
        return DatabaseFailed;
      }
      var free := EnsureNamespaceAvailable(env.namespace, 0);
      if free != Done {
        return free;
      }
      if id in rows {
        return IdTaken;
      }
      reply := Write(if id == 0 then last + 1 else id, env);
    }

    method Update(id: nat, env: Env, commit: bool, works: bool) returns (reply: Reply)
      requires Valid(Contents())
      modifies this
      ensures (Contents(), reply) == Updated(old(Contents()), id, env, commit, works)
      ensures Valid(Contents()) && Colliding(rows) <= old(Colliding(rows)) && reply != IndexViolated
    {
      UpdateOnlyRepairs(Contents(), id, env, commit, works);
      if !commit {
        return DatabaseFailed;
      }
      var free := EnsureNamespaceAvailable(env.namespace, id);
      if free != Done {
        return free;
      }
      SavedClears(Contents(), id, env, id);
      var written := Write(if id == 0 then last + 1 else id, env);
      if written != Done {
        return written;
      }
      reply := Reconcile(works);
    }

    method Delete(id: nat, commit: bool, works: bool) returns (reply: Reply)
      requires Valid(Contents())
      modifies this
      ensures (Contents(), reply) == Deleted(old(Contents()), id, commit, works)
      ensures Valid(Contents()) && Colliding(rows) <= old(Colliding(rows)) && reply != IndexViolated
    {
      DeleteOnlyRepairs(Contents(), id, commit, works);
      if !commit {
        return DatabaseFailed;
      }
      rows := rows - {id};
      reply := Reconcile(works);
    }

    method Reconcile(works: bool) returns (reply: Reply)
      modifies this`index
      ensures (Contents(), reply) == Reconciled(old(Contents()), works)
    {
      if !works {
        return DatabaseFailed;
      }
      if NamedConflict(rows) {
        return Done;
      }
      if !index && Colliding(rows) != {} {
        return IndexRefused;
      }
      index := true;
      reply := Done;
    }
  }

  lemma {:induction false} HolderStays(rows: Rows, namespace: string, exclude: nat, i: nat, bound: nat)
    requires 0 < i <= bound && Holder(rows, namespace, exclude, i) == Some(i)
    ensures Holder(rows, namespace, exclude, bound) == Some(i)
  {
    if i < bound {
      HolderStays(rows, namespace, exclude, i, bound - 1);
    }
  }
}
