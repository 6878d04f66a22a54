/**
 * The records of the matchmaking API (the Models folder): the BaseModel identity
 * and timestamps shared by every stored record, the four stored record kinds,
 * the transient requests and the report rows, and BaseModel's equality.
 */
module Models {
  import opened Wrappers

  /** A Guid; `EmptyGuid` plays the part of `Guid.Empty`, the `default` id. */
  type Guid = nat
  const EmptyGuid: Guid := 0

  /** A DateTime; `DefaultTime` plays the part of `default(DateTime)`. */
  type Time = nat
  const DefaultTime: Time := 0

  /** The core names `Unspecified` and `Chess`; any further member of the enum is an `OtherGame`. */
  datatype GameType = Unspecified | Chess | OtherGame(ordinal: nat)

  datatype MatchType = Any | EasierOnly | HarderOnly

  /** The exceptions the core raises. */
  datatype Error =
    | ArgumentNull        // ArgumentNullException
    | ArgumentOutOfRange  // ArgumentOutOfRangeException
    | RecordMissing       // ApplicationException "Record does not exist"
    | NullReference       // a member access through a null reference

  /** A BaseModel: its id and timestamps, with the fields of the concrete record in `data`. */
  datatype Model<P> = Model(id: Guid, createdOn: Time, modifiedOn: Time, data: P)

  /** Match: a match definition. */
  datatype MatchDef = MatchDef(gameType: GameType, matchType: MatchType, maxMmrGap: real)

  /** MatchPair: one requester paired with one candidate under a match definition. */
  datatype PairData = PairData(matchId: Guid, requestedUserId: Guid, requestedUserMmr: real,
                               matchedUserId: Guid, matchedUserMmr: real)

  /** UserRating */
  datatype RatingData = RatingData(userId: Guid, gameType: GameType, rating: real)

  /** Setting */
  datatype SettingData = SettingData(defaultMaxMmrGap: real)

  type Match = Model<MatchDef>
  type MatchPair = Model<PairData>
  type UserRating = Model<RatingData>
  type Setting = Model<SettingData>

  /** The queued request to make matches for one user. */
  datatype MakeMatch = MakeMatch(requestedByUserId: Guid, gameType: GameType, matchType: MatchType,
                                 maxMmrGap: Option<real>)

  /** The body of a match request; `gameType` is the source's `Type`. */
  datatype MatchRequest = MatchRequest(gameType: GameType, matchType: MatchType, maxMmrGap: Option<real>)

  datatype UserRatingRequest = UserRatingRequest(gameType: GameType, rating: real)

  /** The filter and page of a match report; `skip` and `take` are the source's `int`s. */
  datatype QueryMatchesRequest = QueryMatchesRequest(gameType: Option<GameType>, matchType: Option<MatchType>,
                                                     maxMmrGap: Option<real>, skip: int, take: int)

  datatype MatchPairResponse = MatchPairResponse(requestedUserId: Guid, requestedUserMmr: real,
                                                 matchedUserId: Guid, matchedUserMmr: real, matchDate: Time)

  datatype MatchResponse = MatchResponse(gameType: GameType, matchType: MatchType, maxMmrGap: real,
                                         matches: seq<MatchPairResponse>)

  // ---------------------------------------------------------------------------
  // BaseModel equality

  /**
   * `Equals(BaseModel other)`: the other model is not null and has the same id.
   * Any two kinds of record compare, as every record is a BaseModel.
   */
  predicate Equals<P, Q>(self: Model<P>, other: Option<Model<Q>>)
  {
    other != None && other.value.id == self.id
  }

  /** What an `object` argument can be: null, an object that is no BaseModel, or a BaseModel at some address. */
  datatype Object<Q> = Null | Foreign | Instance(address: nat, model: Model<Q>)

  /** `Equals(object obj)`, for the model `self` that lives at `selfAddress`. */
  predicate EqualsObject<P, Q>(selfAddress: nat, self: Model<P>, obj: Object<Q>)
  {
    if obj.Null? then false
    else if obj.Instance? && obj.address == selfAddress then true   // ReferenceEquals
    else obj.Instance? && Equals(self, Some(obj.model))
  }

  /** `GetHashCode()`: the hash of the id, for whatever `guidHash` Guid.GetHashCode computes. */
  function HashCode<P>(self: Model<P>, guidHash: Guid -> int): int
  {
    guidHash(self.id)
  }

  /**
   * Apart from null, `Equals(object)` answers exactly as id equality does, as long
   * as one address holds one model (so the reference shortcut never disagrees).
   */
  lemma EqualsObjectIsIdEquality<P, Q>(selfAddress: nat, self: Model<P>, obj: Object<Q>)
    requires obj.Instance? && obj.address == selfAddress ==> obj.model.id == self.id
    ensures EqualsObject(selfAddress, self, obj) <==> obj.Instance? && obj.model.id == self.id
    ensures obj.Null? || obj.Foreign? ==> !EqualsObject(selfAddress, self, obj)
    ensures obj.Instance? && obj.address == selfAddress ==> EqualsObject(selfAddress, self, obj)
  {
  }

  /** `Equals` is an equivalence on non-null models: reflexive, symmetric and transitive. */
  lemma EqualsIsEquivalence<P, Q, S>(a: Model<P>, b: Model<Q>, c: Model<S>)
    ensures Equals(a, Some(a))
    ensures Equals(a, Some(b)) <==> Equals(b, Some(a))
    ensures Equals(a, Some(b)) && Equals(b, Some(c)) ==> Equals(a, Some(c))
    ensures !Equals<P, Q>(a, None)
  {
  }

  /** Equal models hash alike, whatever the Guid hash is. */
  lemma EqualModelsHashAlike<P, Q>(a: Model<P>, b: Model<Q>, guidHash: Guid -> int)
    ensures Equals(a, Some(b)) ==> HashCode(a, guidHash) == HashCode(b, guidHash)
    ensures EqualsObject(0, a, Instance(1, b)) ==> HashCode(a, guidHash) == HashCode(b, guidHash)
  {
  }
}
