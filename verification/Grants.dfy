/** Scoped approval grants with durable consumption (src/ulg/approval/grants.py). */
module Grants {
  import opened Wrappers

  type GrantId = nat
  type ActionId = nat
  type Digest = nat
  type Time = int

  datatype Scope =
    | ActionScope(action: ActionId, digest: Digest)
    | RecipeScope(recipe: string, digest: Digest)

  datatype Grant = Grant(id: GrantId, task: nat, scope: Scope, config: Digest,
                         issuedAt: Time, expiresAt: Time, maxUses: nat)

  /** `ApprovalGrant` invariants. */
  predicate ValidGrant(g: Grant) {
    && 0 < g.maxUses <= 1000
    && g.issuedAt < g.expiresAt
    && (g.scope.ActionScope? ==> g.maxUses == 1)
  }

  datatype Record = Record(grant: Grant, uses: nat, actions: set<ActionId>)

  /** `GrantRecord` invariants. */
  predicate ValidRecord(r: Record) {
    ValidGrant(r.grant) && r.uses <= r.grant.maxUses && |r.actions| == r.uses
  }

  /** The trusted configuration: its digest and the digests of its allowed recipes. */
  datatype Config = Config(digest: Digest, recipes: map<string, Digest>)

  datatype Action = Action(id: ActionId, task: nat, digest: Digest, recipe: Option<string>)

  datatype GrantError =
    | NotFound
    | ConfigChanged
    | TaskMismatch
    | Expired
    | Exhausted
    | Replayed
    | ScopeMismatch
    | ActionMismatch
    | RecipeMismatch
    | RecipeUnknown
    | DuplicateGrant
    | InvalidGrant
    | PersistFailed

  type Records = map<GrantId, Record>

  /** The store's memory and the grant file. */
  datatype Book = Book(memory: Records, durable: Records)

  /** Persist before mutating: memory follows only a write that succeeded. */
  function Committed(b: Book, candidate: Records, w: Write): Book {
    match w
    case NotLanded => b
    case LandedThenFailed => b.(durable := candidate)
    case Landed => Book(candidate, candidate)
  }

  /** `_validated_common`: every check, in order, before any scope is looked at. */
  function Checked(b: Book, id: GrantId, a: Action, config: Config, now: Time): Result<Record, GrantError> {
    if id !in b.memory then Failure(NotFound) else
      var r := b.memory[id];
      if r.grant.config != config.digest then Failure(ConfigChanged)
      else if r.grant.task != a.task then Failure(TaskMismatch)
      else if now >= r.grant.expiresAt then Failure(Expired)
      else if r.uses >= r.grant.maxUses then Failure(Exhausted)
      else if a.id in r.actions then Failure(Replayed)
      else Success(r)
  }

  function ScopeError(scope: Scope, a: Action, config: Config, asRecipe: bool): Option<GrantError> {
    if !asRecipe then
      if !scope.ActionScope? then Some(ScopeMismatch)
      else if scope.action != a.id || scope.digest != a.digest then Some(ActionMismatch)
      else None
    else
      if !scope.RecipeScope? then Some(ScopeMismatch)
      else if Some(scope.recipe) != a.recipe then Some(RecipeMismatch)
      else if scope.recipe !in config.recipes then Some(RecipeUnknown)
      else if scope.digest != config.recipes[scope.recipe] then Some(RecipeMismatch)
      else None
  }

  function Spent(r: Record, a: ActionId): Record {
    Record(r.grant, r.uses + 1, r.actions + {a})
  }

  datatype Used = Used(book: Book, outcome: Result<Grant, GrantError>)

  /** `consume_action` and `consume_recipe`. */
  function Consumed(b: Book, id: GrantId, a: Action, config: Config, now: Time, asRecipe: bool, w: Write): Used {
    match Checked(b, id, a, config, now)
    case Failure(e) => Used(b, Failure(e))
    case Success(r) =>
      match ScopeError(r.grant.scope, a, config, asRecipe)
      case Some(e) => Used(b, Failure(e))
      case None =>
        Used(Committed(b, b.memory[id := Spent(r, a.id)], w),
             if w == Landed then Success(r.grant) else Failure(PersistFailed))
  }

  /** `_register` */
  function Registered(b: Book, g: Grant, w: Write): Used {
    if !ValidGrant(g) then Used(b, Failure(InvalidGrant))
    else if g.id in b.memory then Used(b, Failure(DuplicateGrant))
    else Used(Committed(b, b.memory[g.id := Record(g, 0, {})], w),
              if w == Landed then Success(g) else Failure(PersistFailed))
  }

  predicate ForRecipe(r: Record, task: nat, recipe: string) {
    r.grant.task == task && r.grant.scope.RecipeScope? && r.grant.scope.recipe == recipe
  }

  function Retained(records: Records, task: nat, recipe: string): Records {
    map id | id in records && !ForRecipe(records[id], task, recipe) :: records[id]
  }

  /** `revoke_recipe` */
  function Revoked(b: Book, task: nat, recipe: string, w: Write): Book {
    var retained := Retained(b.memory, task, recipe);
    if retained == b.memory then b else Committed(b, retained, w)
  }

  /** A grant that `active_recipe_grants` restores to the controller. */
  predicate ActiveFor(r: Record, task: nat, config: Config, now: Time, recipe: string) {
    && ForRecipe(r, task, recipe)
    && r.grant.config == config.digest
    && r.grant.expiresAt > now
    && r.uses < r.grant.maxUses
    && recipe in config.recipes && r.grant.scope.digest == config.recipes[recipe]
  }

  class GrantFile {
    var records: Records

    constructor ()
      ensures records == map[]
    {
      records := map[];
    }
  }

  class ScopedGrantStore {
    const file: GrantFile
    var states: Records

    /** A store restored from what the file holds. */
    constructor (file: GrantFile)
      ensures this.file == file && states == file.records
    {
      this.file := file;
      this.states := file.records;
    }

    ghost function View(): Book
      reads this, file
    {
      Book(states, file.records)
    }

    /** `_commit`: the persist callback. */
    method Commit(candidate: Records, w: Write) returns (ok: bool)
      modifies file
      ensures ok == (w == Landed)
      ensures file.records == if w == NotLanded then old(file.records) else candidate
    {
      if w != NotLanded {
        file.records := candidate;
      }
      ok := w == Landed;
    }

    /** `issue_action` */
    method IssueAction(id: GrantId, a: Action, config: Config, ttl: int, now: Time, w: Write)
      returns (r: Result<Grant, GrantError>)
      modifies this, file
      ensures ttl <= 0 || ttl > 86400 ==> r == Failure(InvalidGrant) && View() == old(View())
      ensures 0 < ttl <= 86400 ==>
                Used(View(), r) == Registered(old(View()),
                  Grant(id, a.task, ActionScope(a.id, a.digest), config.digest, now, now + ttl, 1), w)
    {
      if !(0 < ttl <= 86400) { return Failure(InvalidGrant); }
      r := Register(Grant(id, a.task, ActionScope(a.id, a.digest), config.digest, now, now + ttl, 1), w);
    }

    /** `issue_recipe` */
    method IssueRecipe(id: GrantId, a: Action, config: Config, ttl: int, maxUses: nat, now: Time, w: Write)
      returns (r: Result<Grant, GrantError>)
      requires a.recipe.Some?
      modifies this, file
      ensures a.recipe.value !in config.recipes ==> r == Failure(RecipeUnknown) && View() == old(View())
      ensures a.recipe.value in config.recipes ==>
                Used(View(), r) == Registered(old(View()),
                  Grant(id, a.task, RecipeScope(a.recipe.value, config.recipes[a.recipe.value]),
                        config.digest, now, now + ttl, maxUses), w)
    {
      var recipe := a.recipe.value;
      if recipe !in config.recipes { return Failure(RecipeUnknown); }
      r := Register(Grant(id, a.task, RecipeScope(recipe, config.recipes[recipe]),
                          config.digest, now, now + ttl, maxUses), w);
    }

    method Register(g: Grant, w: Write) returns (r: Result<Grant, GrantError>)
      modifies this, file
      ensures Used(View(), r) == Registered(old(View()), g, w)
    {
      if !ValidGrant(g) { return Failure(InvalidGrant); }
      if g.id in states { return Failure(DuplicateGrant); }
      var candidate := states[g.id := Record(g, 0, {})];
      var ok := Commit(candidate, w);
      if !ok { return Failure(PersistFailed); }
      states := candidate;
      return Success(g);
    }

    method Check(id: GrantId, a: Action, config: Config, now: Time) returns (r: Result<Record, GrantError>)
      ensures r == Checked(View(), id, a, config, now)
    {
      if id !in states { return Failure(NotFound); }
      var record := states[id];
      if record.grant.config != config.digest { return Failure(ConfigChanged); }
      if record.grant.task != a.task { return Failure(TaskMismatch); }
      if now >= record.grant.expiresAt { return Failure(Expired); }
      if record.uses >= record.grant.maxUses { return Failure(Exhausted); }
      if a.id in record.actions { return Failure(Replayed); }
      return Success(record);
    }

    /** `consume_action` (`asRecipe` false) and `consume_recipe` (`asRecipe` true): the
        candidate is persisted first, then the use is counted and the action recorded. */
    method Consume(id: GrantId, a: Action, config: Config, now: Time, asRecipe: bool, w: Write)
      returns (r: Result<Grant, GrantError>)
      modifies this, file
      ensures Used(View(), r) == Consumed(old(View()), id, a, config, now, asRecipe, w)
    {
      var checked := Check(id, a, config, now);
      if checked.Failure? { return Failure(checked.error); }
      var record := checked.value;
      var scopeError := ScopeError(record.grant.scope, a, config, asRecipe);
      if scopeError.Some? { return Failure(scopeError.value); }
      var ok := Commit(states[id := Spent(record, a.id)], w);
      if !ok { return Failure(PersistFailed); }
      states := states[id := Record(record.grant, record.uses + 1, record.actions + {a.id})];
      return Success(record.grant);
    }

    /** `revoke_recipe` */
    method RevokeRecipe(task: nat, recipe: string, w: Write) returns (ok: bool)
      modifies this, file
      ensures View() == Revoked(old(View()), task, recipe, w)
      ensures ok <==> View().memory == Retained(old(states), task, recipe)
    {
      var retained := Retained(states, task, recipe);
      if retained == states { return true; }
      ok := Commit(retained, w);
      if ok {
        states := retained;
      }
    }

    /** `active_recipe_grants`: one live grant for each recipe that has any. */
    method ActiveRecipeGrants(task: nat, config: Config, now: Time) returns (active: map<string, GrantId>)
      ensures forall recipe :: recipe in active ==>
                active[recipe] in states && ActiveFor(states[active[recipe]], task, config, now, recipe)
      ensures forall id, recipe :: id in states && ActiveFor(states[id], task, config, now, recipe) ==> recipe in active
    {
      active := map[];
      var left := states.Keys;
      while left != {}
        invariant left <= states.Keys
        invariant forall recipe :: recipe in active ==>
                    active[recipe] in states && ActiveFor(states[active[recipe]], task, config, now, recipe)
        invariant forall id, recipe :: id in states && id !in left ==>
                    (ActiveFor(states[id], task, config, now, recipe) ==> recipe in active)
        decreases |left|
      {
        var id :| id in left;
        left := left - {id};
        var r := states[id];
        if r.grant.scope.RecipeScope? && ActiveFor(r, task, config, now, r.grant.scope.recipe) {
          active := active[r.grant.scope.recipe := id];
        }
      }
    }
  }
}
