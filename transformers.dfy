/**
 * The record builders (Services/MatchRequestTransformer.cs and
 * Services/UserRatingTransformer.cs). Each builds a new record from a source
 * and an optional existing record; values absent from both take their defaults.
 */
module Transformers {
  import opened Wrappers
  import opened Models

  /**
   * The game-type rule shared by the builders: the source's game type unless it
   * is `Unspecified`, in which case the existing record's, or `Unspecified`.
   */
  function ResolveGameType(requested: GameType, existing: Option<GameType>): (r: GameType)
    ensures requested != Unspecified ==> r == requested
    ensures r == Unspecified <==> requested == Unspecified && existing.GetOr(Unspecified) == Unspecified
    ensures requested == Unspecified && existing.Some? ==> r == existing.value
  {
    if requested == Unspecified then existing.GetOr(Unspecified) else requested
  }

  /** `MatchRequestTransformer.To`: a queued request from the body of a match request. */
  function MatchRequestToMakeMatch(source: MatchRequest, existing: Option<MakeMatch>): (r: MakeMatch)
    ensures r.maxMmrGap == source.maxMmrGap && r.matchType == source.matchType
    ensures r.gameType == ResolveGameType(source.gameType, if existing.Some? then Some(existing.value.gameType) else None)
    ensures existing.None? ==> r.requestedByUserId == EmptyGuid
    ensures existing.Some? ==> r.requestedByUserId == existing.value.requestedByUserId
  {
    var existingType := if existing.Some? then Some(existing.value.gameType) else None;
    MakeMatch(
      requestedByUserId := if existing.Some? then existing.value.requestedByUserId else EmptyGuid,
      gameType := ResolveGameType(source.gameType, existingType),
      matchType := source.matchType,
      maxMmrGap := source.maxMmrGap)
  }

  /**
   * `MakeMatchMatchTransformer.To`: a match definition from a queued request. Its
   * gap is the request's, else the existing definition's, else 0; the default
   * setting is never consulted.
   */
  function MakeMatchToMatch(source: MakeMatch, existing: Option<Match>): (r: Match)
    ensures source.maxMmrGap.Some? ==> r.data.maxMmrGap == source.maxMmrGap.value
    ensures source.maxMmrGap.None? && existing.Some? ==> r.data.maxMmrGap == existing.value.data.maxMmrGap
    ensures source.maxMmrGap.None? && existing.None? ==> r.data.maxMmrGap == 0.0
    ensures r.data.matchType == source.matchType
    ensures r.data.gameType == ResolveGameType(source.gameType, if existing.Some? then Some(existing.value.data.gameType) else None)
    ensures existing.None? ==> r.id == EmptyGuid && r.createdOn == DefaultTime
    ensures existing.Some? ==> r.id == existing.value.id && r.createdOn == existing.value.createdOn
    ensures r.modifiedOn == DefaultTime
  {
    var existingGap := if existing.Some? then Some(existing.value.data.maxMmrGap) else None;
    var existingType := if existing.Some? then Some(existing.value.data.gameType) else None;
    Model(
      id := if existing.Some? then existing.value.id else EmptyGuid,
      createdOn := if existing.Some? then existing.value.createdOn else DefaultTime,
      modifiedOn := DefaultTime,
      data := MatchDef(
        gameType := ResolveGameType(source.gameType, existingType),
        matchType := source.matchType,
        maxMmrGap := source.maxMmrGap.GetOr(existingGap.GetOr(0.0))))
  }

  /**
   * `MatchPairTransformer.To`: a pair whose matched side is the candidate rating;
   * the requester's side and the definition id are left at their defaults.
   */
  function UserRatingToMatchPair(source: UserRating, existing: Option<MatchPair>): (r: MatchPair)
    ensures r.data.matchedUserId == source.data.userId && r.data.matchedUserMmr == source.data.rating
    ensures r.data.matchId == EmptyGuid && r.data.requestedUserId == EmptyGuid && r.data.requestedUserMmr == 0.0
    ensures existing.None? ==> r.id == EmptyGuid && r.createdOn == DefaultTime
    ensures existing.Some? ==> r.id == existing.value.id && r.createdOn == existing.value.createdOn
    ensures r.modifiedOn == DefaultTime
  {
    Model(
      id := if existing.Some? then existing.value.id else EmptyGuid,
      createdOn := if existing.Some? then existing.value.createdOn else DefaultTime,
      modifiedOn := DefaultTime,
      data := PairData(EmptyGuid, EmptyGuid, 0.0, source.data.userId, source.data.rating))
  }

  /**
   * `UserRatingTransformer.To`: a rating record whose rating always comes from
   * the request and whose identity (id, creation time, user) comes from the
   * existing record, when there is one.
   */
  function UserRatingRequestToUserRating(source: UserRatingRequest, existing: Option<UserRating>): (r: UserRating)
    ensures r.data.rating == source.rating
    ensures r.data.gameType == ResolveGameType(source.gameType, if existing.Some? then Some(existing.value.data.gameType) else None)
    ensures existing.None? ==> r.id == EmptyGuid && r.createdOn == DefaultTime && r.data.userId == EmptyGuid
    ensures existing.Some? ==>
      r.id == existing.value.id && r.createdOn == existing.value.createdOn && r.data.userId == existing.value.data.userId
    ensures r.modifiedOn == DefaultTime
  {
    var existingType := if existing.Some? then Some(existing.value.data.gameType) else None;
    Model(
      id := if existing.Some? then existing.value.id else EmptyGuid,
      createdOn := if existing.Some? then existing.value.createdOn else DefaultTime,
      modifiedOn := DefaultTime,
      data := RatingData(
        userId := if existing.Some? then existing.value.data.userId else EmptyGuid,
        gameType := ResolveGameType(source.gameType, existingType),
        rating := source.rating))
  }
}
