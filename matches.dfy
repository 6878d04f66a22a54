/**
 * InMemoryMatchRepository: match definitions are stored once per game type,
 * match type and (nearly) equal gap, and `AddIgnore` returns the stored one.
 */
module Matches {
  import opened Wrappers
  import opened Models
  import opened Repository
  import opened Ratings

  /** Two gaps closer than this are the same gap. */
  const GapTolerance: real := 0.0000001

  /** The duplicate test of `AddIgnore`. */
  predicate SameDefinition(a: MatchDef, b: MatchDef)
  {
    a.gameType == b.gameType && a.matchType == b.matchType && Abs(a.maxMmrGap - b.maxMmrGap) < GapTolerance
  }

  /** `SameDefinition` is reflexive and symmetric. */
  lemma SameDefinitionIsSymmetric(a: MatchDef, b: MatchDef)
    ensures SameDefinition(a, a)
    ensures SameDefinition(a, b) <==> SameDefinition(b, a)
  {
    assert Abs(a.maxMmrGap - b.maxMmrGap) == Abs(b.maxMmrGap - a.maxMmrGap);
  }

  /**
   * `SameDefinition` is not transitive: gaps 0, 0.00000006 and 0.00000012 are
   * pairwise within the tolerance of their neighbours only, so which stored
   * definition a new one collapses into depends on what is stored.
   */
  lemma SameDefinitionIsNotTransitive()
    ensures var a := MatchDef(Chess, Any, 0.0);
      var b := MatchDef(Chess, Any, 0.00000006);
      var c := MatchDef(Chess, Any, 0.00000012);
      SameDefinition(a, b) && SameDefinition(b, c) && !SameDefinition(a, c)
  {
  }

  /** A gap of 0.5 and one of 0.5000000001 are one definition; 0.5 and 0.6 are two. */
  lemma SameDefinitionExample()
    ensures SameDefinition(MatchDef(Chess, Any, 0.5), MatchDef(Chess, Any, 0.5000000001))
    ensures !SameDefinition(MatchDef(Chess, Any, 0.5), MatchDef(Chess, Any, 0.6))
    ensures !SameDefinition(MatchDef(Chess, Any, 0.5), MatchDef(Chess, EasierOnly, 0.5))
  {
  }

  /** The `FirstOrDefault` filter of `AddIgnore`. */
  function DuplicateOf(definition: Match): (Match -> bool)
  {
    (m: Match) => SameDefinition(m.data, definition.data)
  }

  /**
   * The outcome of `AddIgnore(definition)`. A null definition is dereferenced by
   * the duplicate test, which only runs when the store holds a record; on an
   * empty store it reaches `Add`, which refuses null.
   */
  function AddIgnoreTo(models: Store<MatchDef>, definition: Option<Match>, now: Time): (c: Change<MatchDef, Guid>)
    requires Keyed(models)
    ensures definition.None? ==> c == Change(Failure(if models == map[] then ArgumentNull else NullReference), models)
    ensures definition.Some? && (exists m :: m in models.Values && SameDefinition(m.data, definition.value.data)) ==>
      && c.models == models
      && c.result.Success? && c.result.value in models
      && SameDefinition(models[c.result.value].data, definition.value.data)
    ensures definition.Some? && (forall m :: m in models.Values ==> !SameDefinition(m.data, definition.value.data)) ==>
      c == AddTo(models, definition, now)
    ensures Keyed(c.models)
  {
    if definition.None? then
      Change(Failure(if models == map[] then ArgumentNull else NullReference), models)
    else
      match FirstWhere(models, DuplicateOf(definition.value))
      case Some(existing) => Change(Success(existing.id), models)
      case None => AddTo(models, definition, now)
  }

  /** No two stored definitions are duplicates of each other. */
  ghost predicate Deduplicated(models: Store<MatchDef>)
  {
    forall k, j :: k in models && j in models && k != j ==> !SameDefinition(models[k].data, models[j].data)
  }

  /** Storing definitions only through `AddIgnore` keeps the store free of duplicates. */
  lemma AddIgnoreKeepsDeduplicated(models: Store<MatchDef>, definition: Option<Match>, now: Time)
    requires Keyed(models) && Deduplicated(models)
    ensures Deduplicated(AddIgnoreTo(models, definition, now).models)
  {
    var c := AddIgnoreTo(models, definition, now);
    if definition.Some? && c.models != models {
      forall k, j | k in c.models && j in c.models && k != j
        ensures !SameDefinition(c.models[k].data, c.models[j].data)
      {
        if k in models && j in models {
        } else if k in models {
          assert models[k] in models.Values;
          SameDefinitionIsSymmetric(models[k].data, definition.value.data);
        } else {
          assert models[j] in models.Values;
        }
      }
    }
  }

  /** Asking twice for the same definition returns the same id and stores nothing more. */
  lemma AddIgnoreIsIdempotent(models: Store<MatchDef>, definition: Match, now: Time, later: Time)
    requires Keyed(models) && definition.id == EmptyGuid
    ensures var first := AddIgnoreTo(models, Some(definition), now);
      && first.result.Success?
      && AddIgnoreTo(first.models, Some(definition), later) == Change(first.result, first.models)
  {
    var first := AddIgnoreTo(models, Some(definition), now);
    SameDefinitionIsSymmetric(definition.data, definition.data);
    if forall m :: m in models.Values ==> !SameDefinition(m.data, definition.data) {
      var id := first.result.value;
      assert first.models[id] in first.models.Values;
      assert KeysWhere(first.models, DuplicateOf(definition)) == {id};
    }
  }

  /**
   * A definition with the default id is always stored afterwards: the returned
   * id holds a duplicate of it, and the store grows by at most that one record.
   */
  lemma AddIgnoreStoresDefinition(models: Store<MatchDef>, definition: Match, now: Time)
    requires Keyed(models) && definition.id == EmptyGuid
    ensures var c := AddIgnoreTo(models, Some(definition), now);
      && c.result.Success? && c.result.value in c.models
      && SameDefinition(c.models[c.result.value].data, definition.data)
      && models.Keys <= c.models.Keys && |c.models.Keys| <= |models.Keys| + 1
  {
    var c := AddIgnoreTo(models, Some(definition), now);
    SameDefinitionIsSymmetric(definition.data, definition.data);
    if forall m :: m in models.Values ==> !SameDefinition(m.data, definition.data) {
      assert c.models.Keys == models.Keys + {c.result.value};
    }
  }

  class MatchRepository {
    const store: Repository<MatchDef>

    constructor (store: Repository<MatchDef>)
      ensures this.store == store
    {
      this.store := store;
    }

    /** `AddIgnore`: the id of a stored duplicate, or the id the definition is added under. */
    method AddIgnore(definition: Option<Match>, now: Time) returns (id: Result<Guid, Error>)
      requires store.Valid()
      modifies store
      ensures store.Valid()
      ensures Change(id, store.models) == AddIgnoreTo(old(store.models), definition, now)
    {
      if definition.None? {
        if store.models == map[] {
          id := store.Add(definition, now);
        } else {
          id := Failure(NullReference);
        }
        return;
      }
      var existing := FirstWhere(store.models, DuplicateOf(definition.value));
      if existing.Some? {
        return Success(existing.value.id);
      }
      id := store.Add(definition, now);
    }
  }
}
