/**
 * InMemoryUserRatingRepository: the requester's rating lookup and the rating
 * band query that yields the candidates for a match.
 */
module Ratings {
  import opened Wrappers
  import opened Models
  import opened Ordering
  import opened Repository
  import opened Settings

  function Abs(x: real): (r: real)
    ensures r >= 0.0 && (r == x || r == -x)
  {
    if x < 0.0 then -x else x
  }

  /**
   * `makeMatch.MaxMmrGap ?? GetDefaultSetting().DefaultMaxMmrGap`: the request's
   * gap when it has one; otherwise the default setting's, and a null default
   * setting is dereferenced.
   */
  function EffectiveGap(makeMatch: MakeMatch, defaultSetting: Option<Setting>): (r: Result<real, Error>)
    ensures makeMatch.maxMmrGap.Some? ==> r == Success(makeMatch.maxMmrGap.value)
    ensures makeMatch.maxMmrGap.None? && defaultSetting.Some? ==> r == Success(defaultSetting.value.data.defaultMaxMmrGap)
    ensures makeMatch.maxMmrGap.None? && defaultSetting.None? ==> r == Failure(NullReference)
  {
    if makeMatch.maxMmrGap.Some? then Success(makeMatch.maxMmrGap.value)
    else if defaultSetting.Some? then Success(defaultSetting.value.data.defaultMaxMmrGap)
    else Failure(NullReference)
  }

  /** An inclusive interval of ratings. */
  datatype Band = Band(lower: real, upper: real) {
    predicate Contains(x: real) {
      lower <= x && x <= upper
    }
  }

  /**
   * The band of acceptable ratings around `rating`: harder-only matches start at
   * the rating, easier-only matches end at it, and only the gap's size counts.
   */
  function BandFor(rating: real, matchType: MatchType, gap: real): (b: Band)
    ensures b.lower <= rating <= b.upper
  {
    Band(if matchType == HarderOnly then rating else rating - Abs(gap),
         if matchType == EasierOnly then rating else rating + Abs(gap))
  }

  /** The band as each match type promises it; its gap's sign never matters. */
  lemma BandShape(rating: real, matchType: MatchType, gap: real, x: real)
    ensures BandFor(rating, matchType, -gap) == BandFor(rating, matchType, gap)
    ensures matchType == HarderOnly ==> (BandFor(rating, matchType, gap).Contains(x) <==> rating <= x <= rating + Abs(gap))
    ensures matchType == EasierOnly ==> (BandFor(rating, matchType, gap).Contains(x) <==> rating - Abs(gap) <= x <= rating)
    ensures matchType == Any ==> (BandFor(rating, matchType, gap).Contains(x) <==> Abs(x - rating) <= Abs(gap))
  {
  }

  /** The worked example: rating 1.0 with gap 0.3. */
  lemma BandExample()
    ensures BandFor(1.0, HarderOnly, 0.3) == Band(1.0, 1.3)
    ensures BandFor(1.0, EasierOnly, 0.3) == Band(0.7, 1.0)
    ensures BandFor(1.0, Any, -0.3) == Band(0.7, 1.3)
  {
  }

  /** The `Where` filter of the band query. */
  function CandidateFilter(gameType: GameType, band: Band): (UserRating -> bool)
  {
    (u: UserRating) => u.data.gameType == gameType && band.Contains(u.data.rating)
  }

  /**
   * What `GetPossibleMatches(rating, makeMatch)` yields when `GetDefaultSetting()`
   * would return `defaultSetting`: every stored rating of the requested game type
   * inside the band, both ends included, each once.
   */
  function PossibleMatchesIn(models: Store<RatingData>, rating: real, makeMatch: MakeMatch,
                             defaultSetting: Option<Setting>): (r: Result<seq<UserRating>, Error>)
    ensures r.Failure? <==> makeMatch.maxMmrGap.None? && defaultSetting.None?
    ensures r.Failure? ==> r.error == NullReference
    ensures r.Success? ==>
      var band := BandFor(rating, makeMatch.matchType, EffectiveGap(makeMatch, defaultSetting).value);
      && (forall u :: u in r.value <==>
            u in models.Values && u.data.gameType == makeMatch.gameType && band.lower <= u.data.rating <= band.upper)
      && |r.value| == |KeysWhere(models, CandidateFilter(makeMatch.gameType, band))|
    ensures r.Success? && Keyed(models) ==> Distinct(r.value)
  {
    match EffectiveGap(makeMatch, defaultSetting)
    case Failure(e) => Failure(e)
    case Success(gap) =>
      Success(Where(models, CandidateFilter(makeMatch.gameType, BandFor(rating, makeMatch.matchType, gap))))
  }

  /** The requester is not excluded by the query: its own rating is always in its band. */
  lemma RequesterIsOwnCandidate(models: Store<RatingData>, requester: UserRating, makeMatch: MakeMatch,
                                defaultSetting: Option<Setting>)
    requires requester in models.Values && requester.data.gameType == makeMatch.gameType
    requires makeMatch.maxMmrGap.Some? || defaultSetting.Some?
    ensures var r := PossibleMatchesIn(models, requester.data.rating, makeMatch, defaultSetting);
      r.Success? && requester in r.value
  {
  }

  /** The `FirstOrDefault` of `GetByUserGameType` over the ratings `models`. */
  function RatingOf(models: Store<RatingData>, userId: Guid, gameType: GameType): Option<UserRating>
  {
    FirstWhere(models, (u: UserRating) => u.data.userId == userId && u.data.gameType == gameType)
  }

  class UserRatingRepository {
    const store: Repository<RatingData>
    const settings: SettingsRepository

    constructor (store: Repository<RatingData>, settings: SettingsRepository)
      ensures this.store == store && this.settings == settings
    {
      this.store := store;
      this.settings := settings;
    }

    /** `GetByUserGameType`: a stored rating of that user and game type, or null when there is none. */
    function GetByUserGameType(userId: Guid, gameType: GameType): (r: Option<UserRating>)
      reads store
      ensures r.Some? ==> r.value in store.models.Values && r.value.data.userId == userId && r.value.data.gameType == gameType
      ensures r.None? ==> forall u :: u in store.models.Values ==> !(u.data.userId == userId && u.data.gameType == gameType)
    {
      RatingOf(store.models, userId, gameType)
    }

    /**
     * `GetPossibleMatches`: the default setting is read (and so cached) only when
     * the request carries no gap.
     */
    method GetPossibleMatches(rating: real, makeMatch: MakeMatch) returns (matches: Result<seq<UserRating>, Error>)
      modifies settings
      ensures matches == PossibleMatchesIn(store.models, rating, makeMatch, DefaultSetting(old(settings.cached), settings.store.models))
      ensures makeMatch.maxMmrGap.Some? ==> settings.cached == old(settings.cached)
      ensures makeMatch.maxMmrGap.None? ==> settings.cached == DefaultSetting(old(settings.cached), settings.store.models)
    {
      var within: real;
      if makeMatch.maxMmrGap.Some? {
        within := makeMatch.maxMmrGap.value;
      } else {
        var defaultSetting := settings.GetDefaultSetting();
        if defaultSetting.None? {
          return Failure(NullReference);
        }
        within := defaultSetting.value.data.defaultMaxMmrGap;
      }
      var lower := if makeMatch.matchType == HarderOnly then rating else rating - Abs(within);
      var upper := if makeMatch.matchType == EasierOnly then rating else rating + Abs(within);
      assert Band(lower, upper) == BandFor(rating, makeMatch.matchType, within);
      assert EffectiveGap(makeMatch, DefaultSetting(old(settings.cached), settings.store.models)) == Success(within);
      matches := Success(Where(store.models, CandidateFilter(makeMatch.gameType, Band(lower, upper))));
    }
  }
}
