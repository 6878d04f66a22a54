/**
 * `ControllerExtensions.AddOrUpdate`: the upsert the controllers use, which
 * routes a record by its id to the store's Add or Update.
 */
module ControllerExtensions {
  import opened Wrappers
  import opened Models
  import opened Repository
  import opened Transformers

  /**
   * The outcome of `AddOrUpdate(model)`: a record with the default id is added,
   * any other is updated, and exactly one of the two runs.
   */
  function AddOrUpdateIn<P>(models: Store<P>, model: Option<Model<P>>, now: Time): (c: Change<P, ()>)
    ensures model.None? ==> c == Change(Failure(NullReference), models)
    ensures model.Some? && model.value.id == EmptyGuid ==>
      c.result.Success? && c.models == AddTo(models, model, now).models
    ensures model.Some? && model.value.id != EmptyGuid ==>
      c.models == UpdateIn(models, model, now).models && (c.result.Success? <==> model.value.id in models)
    ensures model.Some? && model.value.id != EmptyGuid && model.value.id !in models ==>
      c == Change(Failure(RecordMissing), models)
  {
    if model.None? then Change(Failure(NullReference), models)
    else if model.value.id == EmptyGuid then
      // a model that is present and carries the default id is always accepted
      Change(Success(()), AddTo(models, model, now).models)
    else
      var updated := UpdateIn(models, model, now);
      Change(if updated.result.Success? then Success(()) else Failure(updated.result.error), updated.models)
  }

  /** `AddOrUpdate`; dereferencing a null model fails before either store call. */
  method AddOrUpdate<P>(repository: Repository<P>, model: Option<Model<P>>, now: Time) returns (r: Result<(), Error>)
    requires repository.Valid()
    modifies repository
    ensures repository.Valid()
    ensures Change(r, repository.models) == AddOrUpdateIn(old(repository.models), model, now)
  {
    if model.None? {
      return Failure(NullReference);
    }
    if model.value.id == EmptyGuid {
      var id := repository.Add(model, now);
      r := Success(());
    } else {
      var updated := repository.Update(model, now);
      r := if updated.Success? then Success(()) else Failure(updated.error);
    }
  }

  /**
   * Re-rating a user: a rating built over the stored one keeps that record's id,
   * so the upsert updates it in place; no second record appears, the rating is
   * the new one and the record keeps its user and creation time.
   */
  lemma RatingUpsertKeepsOneRecord(models: Store<RatingData>, request: UserRatingRequest, existing: UserRating, now: Time)
    requires Keyed(models) && existing in models.Values
    ensures var c := AddOrUpdateIn(models, Some(UserRatingRequestToUserRating(request, Some(existing))), now);
      && c.result.Success?
      && c.models.Keys == models.Keys
      && c.models[existing.id].data.rating == request.rating
      && c.models[existing.id].data.userId == existing.data.userId
      && (existing.createdOn != DefaultTime ==> c.models[existing.id].createdOn == existing.createdOn)
  {
    var k :| k in models && models[k] == existing;
    assert existing.id == k;
  }

  /** A first rating for a user (no stored record) is added as one new record. */
  lemma FirstRatingIsAdded(models: Store<RatingData>, request: UserRatingRequest, userId: Guid, now: Time)
    ensures var built := UserRatingRequestToUserRating(request, None);
      var c := AddOrUpdateIn(models, Some(built.(data := built.data.(userId := userId))), now);
      && c.result.Success?
      && |c.models.Keys| == |models.Keys| + 1
      && (forall k :: k in models ==> c.models[k] == models[k])
  {
    var built := UserRatingRequestToUserRating(request, None);
    var c := AddOrUpdateIn(models, Some(built.(data := built.data.(userId := userId))), now);
    var added := AddTo(models, Some(built.(data := built.data.(userId := userId))), now);
    assert c.models.Keys == models.Keys + {added.result.value};
  }

  /** A non-default id that is not stored makes the upsert fail and leaves the store as it was. */
  lemma UnknownIdFails<P>(models: Store<P>, model: Model<P>, now: Time)
    requires model.id != EmptyGuid && model.id !in models
    ensures AddOrUpdateIn(models, Some(model), now) == Change(Failure(RecordMissing), models)
  {
  }
}
