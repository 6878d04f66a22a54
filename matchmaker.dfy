/**
 * OneToOneMatchMakerService: one queued match request becomes a stored match
 * definition and one stored pair per candidate other than the requester.
 */
module MatchMaker {
  import opened Wrappers
  import opened Models
  import opened Ordering
  import opened Repository
  import opened Settings
  import opened Ratings
  import opened Transformers
  import opened Matches
  import opened MatchPairs

  /** The `Where(ur => ur.UserId != requester.UserId)` of `Match`: the candidates other than the requester. */
  function Opponents(requester: UserRating, candidates: seq<UserRating>): (r: seq<UserRating>)
    ensures forall c :: c in r <==> c in candidates && c.data.userId != requester.data.userId
    ensures |r| <= |candidates|
    ensures Distinct(candidates) ==> Distinct(r)
    decreases |candidates|
  {
    if candidates == [] then []
    else
      var init := Opponents(requester, candidates[..|candidates| - 1]);
      var last := candidates[|candidates| - 1];
      assert candidates == candidates[..|candidates| - 1] + [last];
      assert Distinct(candidates) ==> last !in candidates[..|candidates| - 1];
      if last.data.userId != requester.data.userId then init + [last] else init
  }

  /** The positions among the candidates of the users other than the requester, in increasing order. */
  function OpponentPositions(requester: UserRating, candidates: seq<UserRating>): (at: seq<nat>)
    ensures forall k :: 0 <= k < |at| ==> at[k] < |candidates|
    ensures forall k, l :: 0 <= k < l < |at| ==> at[k] < at[l]
    decreases |candidates|
  {
    if candidates == [] then []
    else
      var n := |candidates| - 1;
      var before := OpponentPositions(requester, candidates[..n]);
      assert candidates == candidates[..n] + [candidates[n]];
      if candidates[n].data.userId != requester.data.userId then before + [n] else before
  }

  /**
   * `Opponents` keeps the candidates other than the requester in their order:
   * there is one opponent per position, and opponent `k` is the candidate at
   * the `k`-th position.
   */
  lemma {:induction false} OpponentsKeepOrder(requester: UserRating, candidates: seq<UserRating>)
    ensures var at := OpponentPositions(requester, candidates);
      && |at| == |Opponents(requester, candidates)|
      && forall k :: 0 <= k < |at| ==> Opponents(requester, candidates)[k] == candidates[at[k]]
    decreases |candidates|
  {
    if candidates != [] {
      var n := |candidates| - 1;
      OpponentsKeepOrder(requester, candidates[..n]);
      assert candidates == candidates[..n] + [candidates[n]];
    }
  }

  /** The positions of `OpponentPositions` are exactly those of the candidates other than the requester. */
  lemma {:induction false} OpponentPositionsAreExact(requester: UserRating, candidates: seq<UserRating>)
    ensures var at := OpponentPositions(requester, candidates);
      forall i :: 0 <= i < |candidates| ==> (i in at <==> candidates[i].data.userId != requester.data.userId)
    decreases |candidates|
  {
    if candidates != [] {
      var n := |candidates| - 1;
      var init := candidates[..n];
      var before := OpponentPositions(requester, init);
      var at := OpponentPositions(requester, candidates);
      OpponentPositionsAreExact(requester, init);
      assert n !in before;
      if candidates[n].data.userId != requester.data.userId {
        assert at == before + [n];
        assert at[|before|] == n;
      } else {
        assert at == before;
      }
      forall i | 0 <= i < |candidates|
        ensures i in at <==> candidates[i].data.userId != requester.data.userId
      {
        if i < n {
          assert candidates[i] == init[i];
          assert i in at <==> i in before;
        }
      }
    }
  }

  /**
   * The pair `Match` writes for one opponent: `MatchPairTransformer.To(candidate)`
   * with the requester's side and the definition id filled in.
   */
  function PairFor(request: MakeMatch, requester: UserRating, matchId: Guid, candidate: UserRating): (p: MatchPair)
    ensures p.id == EmptyGuid && p.createdOn == DefaultTime
    ensures p.data == PairData(matchId, request.requestedByUserId, requester.data.rating,
                               candidate.data.userId, candidate.data.rating)
  {
    var pair := UserRatingToMatchPair(candidate, None);
    var pair := pair.(data := pair.data.(requestedUserId := request.requestedByUserId));
    var pair := pair.(data := pair.data.(requestedUserMmr := requester.data.rating));
    pair.(data := pair.data.(matchId := matchId))
  }

  /** The pairs written for the opponents, in their order. */
  function PlannedPairs(request: MakeMatch, requester: UserRating, matchId: Guid, opponents: seq<UserRating>)
    : (r: seq<MatchPair>)
    ensures |r| == |opponents|
    ensures forall i :: 0 <= i < |opponents| ==> r[i] == PairFor(request, requester, matchId, opponents[i])
  {
    seq(|opponents|, i requires 0 <= i < |opponents| => PairFor(request, requester, matchId, opponents[i]))
  }

  lemma OpponentsSnoc(requester: UserRating, candidates: seq<UserRating>, c: UserRating)
    ensures Opponents(requester, candidates + [c])
      == Opponents(requester, candidates) + (if c.data.userId != requester.data.userId then [c] else [])
  {
    assert (candidates + [c])[..|candidates|] == candidates;
  }

  lemma PlannedPairsSnoc(request: MakeMatch, requester: UserRating, matchId: Guid, opponents: seq<UserRating>, c: UserRating)
    ensures PlannedPairs(request, requester, matchId, opponents + [c])
      == PlannedPairs(request, requester, matchId, opponents) + [PairFor(request, requester, matchId, c)]
  {
  }

  /** Every body carries the default id, as `Add` demands. */
  predicate Unnumbered<P>(bodies: seq<Model<P>>)
  {
    forall i :: 0 <= i < |bodies| ==> bodies[i].id == EmptyGuid
  }

  lemma UnnumberedInit<P>(bodies: seq<Model<P>>)
    requires Unnumbered(bodies) && bodies != []
    ensures Unnumbered(bodies[..|bodies| - 1]) && bodies[|bodies| - 1].id == EmptyGuid
  {
    assert forall i :: 0 <= i < |bodies| - 1 ==> bodies[..|bodies| - 1][i] == bodies[i];
  }

  /** The store after `Add`-ing every body in turn. */
  function AddAll<P>(models: Store<P>, bodies: seq<Model<P>>, now: Time): Store<P>
  {
    if bodies == [] then models
    else AddTo(AddAll(models, bodies[..|bodies| - 1], now), Some(bodies[|bodies| - 1]), now).models
  }

  /** The ids those `Add` calls return, in order. */
  function AddedIds<P>(models: Store<P>, bodies: seq<Model<P>>, now: Time): (ids: seq<Guid>)
    requires Unnumbered(bodies)
    ensures |ids| == |bodies|
  {
    if bodies == [] then []
    else
      UnnumberedInit(bodies);
      var before := AddAll(models, bodies[..|bodies| - 1], now);
      AddedIds(models, bodies[..|bodies| - 1], now) + [AddTo(before, Some(bodies[|bodies| - 1]), now).result.value]
  }

  lemma AddAllSnoc<P>(models: Store<P>, bodies: seq<Model<P>>, body: Model<P>, now: Time)
    ensures AddAll(models, bodies + [body], now) == AddTo(AddAll(models, bodies, now), Some(body), now).models
  {
    assert (bodies + [body])[..|bodies|] == bodies;
  }

  /** One `Add` of a body with the default id, in closed form. */
  lemma AddOne<P>(models: Store<P>, body: Model<P>, now: Time)
    requires Keyed(models) && body.id == EmptyGuid
    ensures var c := AddTo(models, Some(body), now);
      var id := c.result.value;
      && c.result.Success? && id !in models && id != EmptyGuid
      && c.models == models[id := Model(id, if body.createdOn == DefaultTime then now else body.createdOn, now, body.data)]
      && Keyed(c.models)
  {
  }

  /** Adding bodies keeps the store keyed and every stored record, and adds only the returned ids. */
  lemma {:induction false} AddAllKeeps<P>(models: Store<P>, bodies: seq<Model<P>>, now: Time)
    requires Keyed(models)
    requires Unnumbered(bodies)
    ensures var r := AddAll(models, bodies, now);
      && Keyed(r)
      && (forall k :: k in models ==> k in r && r[k] == models[k])
      && (forall k :: k in r ==> k in models || k in AddedIds(models, bodies, now))
    decreases |bodies|
  {
    if bodies != [] {
      var init := bodies[..|bodies| - 1];
      var last := bodies[|bodies| - 1];
      UnnumberedInit(bodies);
      AddAllKeeps(models, init, now);
      AddOne(AddAll(models, init, now), last, now);
    }
  }

  /**
   * The bodies were filed under the distinct ids `ids`, none of them taken in
   * `models`, each holding its body's fields and stamped with `now`.
   */
  ghost predicate AddedAs<P>(models: Store<P>, r: Store<P>, bodies: seq<Model<P>>, ids: seq<Guid>, now: Time)
  {
    && |ids| == |bodies|
    && (forall i, j :: 0 <= i < j < |ids| ==> ids[i] != ids[j])
    && (forall i :: 0 <= i < |ids| ==>
          && ids[i] !in models && ids[i] in r
          && r[ids[i]].data == bodies[i].data && r[ids[i]].modifiedOn == now
          && (bodies[i].createdOn == DefaultTime ==> r[ids[i]].createdOn == now))
  }

  /** Filing one more body under an id that is still free extends `AddedAs`. */
  lemma AddedAsSnoc<P>(models: Store<P>, before: Store<P>, bodies: seq<Model<P>>, ids: seq<Guid>, last: Model<P>,
                       id: Guid, now: Time)
    requires AddedAs(models, before, bodies, ids, now)
    requires id !in before && id !in models
    ensures AddedAs(models, before[id := Model(id, if last.createdOn == DefaultTime then now else last.createdOn, now, last.data)],
                    bodies + [last], ids + [id], now)
  {
    var r := before[id := Model(id, if last.createdOn == DefaultTime then now else last.createdOn, now, last.data)];
    var ids', bodies' := ids + [id], bodies + [last];
    forall i | 0 <= i < |ids'|
      ensures ids'[i] !in models && ids'[i] in r
      ensures r[ids'[i]].data == bodies'[i].data && r[ids'[i]].modifiedOn == now
      ensures bodies'[i].createdOn == DefaultTime ==> r[ids'[i]].createdOn == now
    {
      if i < |ids| {
        assert ids'[i] == ids[i] && bodies'[i] == bodies[i] && ids[i] != id;
      } else {
        assert ids'[i] == id && bodies'[i] == last;
      }
    }
    forall i, j | 0 <= i < j < |ids'| ensures ids'[i] != ids'[j] {
      if j == |ids| {
        assert ids'[i] == ids[i] && ids[i] in before;
      } else {
        assert ids'[i] == ids[i] && ids'[j] == ids[j];
      }
    }
  }

  /**
   * Adding bodies that carry the default id files each under its own fresh id,
   * stamped with `now`.
   */
  lemma {:induction false} AddAllAddsEach<P>(models: Store<P>, bodies: seq<Model<P>>, now: Time)
    requires Keyed(models)
    requires Unnumbered(bodies)
    ensures AddedAs(models, AddAll(models, bodies, now), bodies, AddedIds(models, bodies, now), now)
    decreases |bodies|
  {
    if bodies != [] {
      var init := bodies[..|bodies| - 1];
      var last := bodies[|bodies| - 1];
      UnnumberedInit(bodies);
      AddAllAddsEach(models, init, now);
      AddAllKeeps(models, init, now);
      var before := AddAll(models, init, now);
      AddOne(before, last, now);
      var id := AddTo(before, Some(last), now).result.value;
      var stamped := Model(id, if last.createdOn == DefaultTime then now else last.createdOn, now, last.data);
      var initIds := AddedIds(models, init, now);
      AddedAsSnoc(models, before, init, initIds, last, id, now);
      assert AddAll(models, bodies, now) == before[id := stamped];
      assert AddedIds(models, bodies, now) == initIds + [id];
      assert bodies == init + [last];
    }
  }

  /** The records the service writes: definitions, pairs, and the settings cache. */
  datatype Stores = Stores(matches: Store<MatchDef>, pairs: Store<PairData>, cached: Option<Setting>)

  /** What `Match` returns (a thrown exception as a failure), and the stores it leaves. */
  datatype Outcome = Outcome(result: Result<(), Error>, after: Stores)

  /**
   * The outcome of `Match(request)` on the ratings `ratings` and the settings
   * `settings`: nothing happens without a rating of the requester for the game
   * type; otherwise the definition is added or found first, and then one pair is
   * added per opponent among the candidates.
   */
  function MatchIn(ratings: Store<RatingData>, settings: Store<SettingData>, before: Stores, request: MakeMatch,
                   now: Time): (o: Outcome)
    requires Keyed(before.matches)
  {
    match RatingOf(ratings, request.requestedByUserId, request.gameType)
    case None => Outcome(Success(()), before)
    case Some(requester) =>
      var definition := AddIgnoreTo(before.matches, Some(MakeMatchToMatch(request, None)), now);
      CandidatesIn(ratings, settings, Stores(definition.models, before.pairs, before.cached), request, requester,
                   definition.result.value, now)
  }

  /**
   * The second half of `Match`, once the definition is stored under `matchId`:
   * the candidate query (which caches the default setting only when the request
   * carries no gap), then one pair per opponent.
   */
  function CandidatesIn(ratings: Store<RatingData>, settings: Store<SettingData>, before: Stores, request: MakeMatch,
                        requester: UserRating, matchId: Guid, now: Time): Outcome
  {
    var defaultSetting := DefaultSetting(before.cached, settings);
    var cached := if request.maxMmrGap.Some? then before.cached else defaultSetting;
    match PossibleMatchesIn(ratings, requester.data.rating, request, defaultSetting)
    case Failure(e) => Outcome(Failure(e), Stores(before.matches, before.pairs, cached))
    case Success(candidates) =>
      var bodies := PlannedPairs(request, requester, matchId, Opponents(requester, candidates));
      Outcome(Success(()), Stores(before.matches, AddAll(before.pairs, bodies, now), cached))
  }

  /** Without a rating of the requester for the game type, `Match` writes nothing. */
  lemma MatchWithoutRatingWritesNothing(ratings: Store<RatingData>, settings: Store<SettingData>, before: Stores,
                                        request: MakeMatch, now: Time)
    requires Keyed(before.matches)
    requires forall u :: u in ratings.Values ==>
      !(u.data.userId == request.requestedByUserId && u.data.gameType == request.gameType)
    ensures MatchIn(ratings, settings, before, request, now) == Outcome(Success(()), before)
  {
  }

  /**
   * With a rating, the request's definition is stored afterwards (found or added
   * under the returned id) whether or not the candidate query fails, and the
   * definition store grows by at most one record.
   */
  lemma MatchRecordsDefinition(ratings: Store<RatingData>, settings: Store<SettingData>, before: Stores,
                               request: MakeMatch, now: Time)
    requires Keyed(before.matches)
    requires RatingOf(ratings, request.requestedByUserId, request.gameType).Some?
    ensures var after := MatchIn(ratings, settings, before, request, now).after;
      var definition := AddIgnoreTo(before.matches, Some(MakeMatchToMatch(request, None)), now);
      && definition.result.Success?
      && after.matches == definition.models
      && definition.result.value in after.matches
      && SameDefinition(after.matches[definition.result.value].data, MakeMatchToMatch(request, None).data)
      && before.matches.Keys <= after.matches.Keys
      && |after.matches.Keys| <= |before.matches.Keys| + 1
  {
    AddIgnoreStoresDefinition(before.matches, MakeMatchToMatch(request, None), now);
  }

  /**
   * With no gap in the request and no stored setting, `Match` fails after
   * storing the definition and writes no pair; this is its only failure.
   */
  lemma MatchFailsOnlyWithoutGap(ratings: Store<RatingData>, settings: Store<SettingData>, before: Stores,
                                 request: MakeMatch, now: Time)
    requires Keyed(before.matches)
    requires RatingOf(ratings, request.requestedByUserId, request.gameType).Some?
    ensures var o := MatchIn(ratings, settings, before, request, now);
      && (o.result.Failure? <==> request.maxMmrGap.None? && DefaultSetting(before.cached, settings).None?)
      && (o.result.Failure? ==> o.result.error == NullReference && o.after.pairs == before.pairs)
  {
  }

  /** The pairs of a successful `Match` are the planned pairs of the opponents among the candidates. */
  lemma MatchAddsPlannedPairs(ratings: Store<RatingData>, settings: Store<SettingData>, before: Stores,
                              request: MakeMatch, now: Time)
    requires Keyed(before.matches)
    requires RatingOf(ratings, request.requestedByUserId, request.gameType).Some?
    requires MatchIn(ratings, settings, before, request, now).result.Success?
    ensures var requester := RatingOf(ratings, request.requestedByUserId, request.gameType).value;
      var definition := AddIgnoreTo(before.matches, Some(MakeMatchToMatch(request, None)), now);
      var candidates := PossibleMatchesIn(ratings, requester.data.rating, request, DefaultSetting(before.cached, settings));
      && candidates.Success?
      && MatchIn(ratings, settings, before, request, now).after.pairs
         == AddAll(before.pairs, PlannedPairs(request, requester, definition.result.value, Opponents(requester, candidates.value)), now)
  {
    var requester := RatingOf(ratings, request.requestedByUserId, request.gameType).value;
    var definition := AddIgnoreTo(before.matches, Some(MakeMatchToMatch(request, None)), now);
    var stored := Stores(definition.models, before.pairs, before.cached);
    assert MatchIn(ratings, settings, before, request, now)
      == CandidatesIn(ratings, settings, stored, request, requester, definition.result.value, now);
  }

  /**
   * Adding the planned pairs of `opponents` files pair `i` under the fresh id
   * `ids[i]`, with the definition id, the requester's side and opponent `i`'s
   * side, and nothing else.
   */
  lemma PlannedPairsAdded(models: Store<PairData>, request: MakeMatch, requester: UserRating, matchId: Guid,
                          opponents: seq<UserRating>, now: Time) returns (ids: seq<Guid>)
    requires Keyed(models)
    ensures var r := AddAll(models, PlannedPairs(request, requester, matchId, opponents), now);
      && |ids| == |opponents|
      && (forall i, j :: 0 <= i < j < |ids| ==> ids[i] != ids[j])
      && (forall i :: 0 <= i < |ids| ==>
            && ids[i] !in models && ids[i] in r
            && r[ids[i]].data
               == PairData(matchId, request.requestedByUserId, requester.data.rating,
                           opponents[i].data.userId, opponents[i].data.rating)
            && r[ids[i]].createdOn == now)
      && (forall k :: k in models ==> k in r && r[k] == models[k])
      && (forall k :: k in r ==> k in models || k in ids)
  {
    var bodies := PlannedPairs(request, requester, matchId, opponents);
    AddAllKeeps(models, bodies, now);
    AddAllAddsEach(models, bodies, now);
    ids := AddedIds(models, bodies, now);
  }

  /**
   * With a rating and a successful candidate query, the new pairs correspond in
   * order to the opponents: `ids[i]` is the new pair for `opponents[i]`, which
   * is a stored rating of another user in the band, listed once; it carries the
   * definition id, the requester's id and rating, and the opponent's id and rating. No
   * other pair is added and none is changed.
   */
  lemma MatchWritesOnePairPerOpponent(ratings: Store<RatingData>, settings: Store<SettingData>, before: Stores,
                                      request: MakeMatch, now: Time)
    returns (opponents: seq<UserRating>, ids: seq<Guid>)
    requires Keyed(before.matches) && Keyed(before.pairs)
    requires RatingOf(ratings, request.requestedByUserId, request.gameType).Some?
    requires MatchIn(ratings, settings, before, request, now).result.Success?
    ensures var requester := RatingOf(ratings, request.requestedByUserId, request.gameType).value;
      var after := MatchIn(ratings, settings, before, request, now).after;
      var matchId := AddIgnoreTo(before.matches, Some(MakeMatchToMatch(request, None)), now).result.value;
      var band := BandFor(requester.data.rating, request.matchType,
                          EffectiveGap(request, DefaultSetting(before.cached, settings)).value);
      && |ids| == |opponents|
      && (forall i, j :: 0 <= i < j < |ids| ==> ids[i] != ids[j])
      && (Keyed(ratings) ==> Distinct(opponents))
      && (forall u :: u in opponents <==>
            u in ratings.Values && u.data.gameType == request.gameType && band.Contains(u.data.rating)
            && u.data.userId != requester.data.userId)
      && (forall i :: 0 <= i < |ids| ==>
            && ids[i] !in before.pairs && ids[i] in after.pairs
            && after.pairs[ids[i]].data
               == PairData(matchId, request.requestedByUserId, requester.data.rating,
                           opponents[i].data.userId, opponents[i].data.rating)
            && after.pairs[ids[i]].createdOn == now)
      && (forall k :: k in before.pairs ==> k in after.pairs && after.pairs[k] == before.pairs[k])
      && (forall k :: k in after.pairs ==> k in before.pairs || k in ids)
  {
    var requester := RatingOf(ratings, request.requestedByUserId, request.gameType).value;
    var matchId := AddIgnoreTo(before.matches, Some(MakeMatchToMatch(request, None)), now).result.value;
    var candidates := PossibleMatchesIn(ratings, requester.data.rating, request, DefaultSetting(before.cached, settings));
    MatchAddsPlannedPairs(ratings, settings, before, request, now);
    opponents := Opponents(requester, candidates.value);
    ids := PlannedPairsAdded(before.pairs, request, requester, matchId, opponents, now);
  }

  /** No pair `Match` writes has the requester as the matched user, though the requester is a candidate. */
  lemma MatchNeverPairsRequesterWithItself(ratings: Store<RatingData>, settings: Store<SettingData>, before: Stores,
                                           request: MakeMatch, now: Time)
    requires Keyed(before.matches) && Keyed(before.pairs)
    requires RatingOf(ratings, request.requestedByUserId, request.gameType).Some?
    requires MatchIn(ratings, settings, before, request, now).result.Success?
    ensures var after := MatchIn(ratings, settings, before, request, now).after;
      forall k :: k in after.pairs && k !in before.pairs ==>
        after.pairs[k].data.matchedUserId != request.requestedByUserId
  {
    var opponents, ids := MatchWritesOnePairPerOpponent(ratings, settings, before, request, now);
    var requester := RatingOf(ratings, request.requestedByUserId, request.gameType).value;
    assert requester.data.userId == request.requestedByUserId;
    var after := MatchIn(ratings, settings, before, request, now).after;
    forall k | k in after.pairs && k !in before.pairs
      ensures after.pairs[k].data.matchedUserId != request.requestedByUserId
    {
      var i :| 0 <= i < |ids| && ids[i] == k;
      assert opponents[i] in opponents;
    }
  }

  /** One pass of the candidate loop: a pair is added exactly for a candidate other than the requester. */
  lemma WriteStep(models: Store<PairData>, request: MakeMatch, requester: UserRating, matchId: Guid,
                  candidates: seq<UserRating>, i: nat, now: Time)
    requires i < |candidates|
    ensures var done := AddAll(models, PlannedPairs(request, requester, matchId, Opponents(requester, candidates[..i])), now);
      var next := AddAll(models, PlannedPairs(request, requester, matchId, Opponents(requester, candidates[..i + 1])), now);
      && (candidates[i].data.userId != requester.data.userId ==>
            next == AddTo(done, Some(PairFor(request, requester, matchId, candidates[i])), now).models)
      && (candidates[i].data.userId == requester.data.userId ==> next == done)
  {
    var c := candidates[i];
    var opponents := Opponents(requester, candidates[..i]);
    assert candidates[..i + 1] == candidates[..i] + [c];
    OpponentsSnoc(requester, candidates[..i], c);
    if c.data.userId != requester.data.userId {
      PlannedPairsSnoc(request, requester, matchId, opponents, c);
      AddAllSnoc(models, PlannedPairs(request, requester, matchId, opponents), PairFor(request, requester, matchId, c), now);
    }
  }

  class OneToOneMatchMakerService {
    const ratings: UserRatingRepository
    const matches: MatchRepository
    const pairs: MatchPairRepository

    ghost predicate Valid()
      reads this, matches, pairs, matches.store, pairs.store
    {
      matches.store.Valid() && pairs.store.Valid()
    }

    constructor (ratings: UserRatingRepository, matches: MatchRepository, pairs: MatchPairRepository)
      ensures this.ratings == ratings && this.matches == matches && this.pairs == pairs
    {
      this.ratings := ratings;
      this.matches := matches;
      this.pairs := pairs;
    }

    /** The stores `Match` writes, as values. */
    ghost function Snapshot(): Stores
      reads this, matches, pairs, ratings, matches.store, pairs.store, ratings.settings
    {
      Stores(matches.store.models, pairs.store.models, ratings.settings.cached)
    }

    /** `Match`: look up the requester, store the definition, then add a pair per opponent. */
    method Match(request: MakeMatch, now: Time) returns (r: Result<(), Error>)
      requires Valid()
      modifies matches.store, pairs.store, ratings.settings
      ensures Valid()
      ensures Outcome(r, Snapshot())
        == MatchIn(ratings.store.models, ratings.settings.store.models, old(Snapshot()), request, now)
    {
      var requester := ratings.GetByUserGameType(request.requestedByUserId, request.gameType);
      if requester.None? {
        return Success(());
      }
      r := MatchRated(request, requester.value, now);
    }

    /** The rest of `Match` once the requester's rating was found. */
    method MatchRated(request: MakeMatch, requester: UserRating, now: Time) returns (r: Result<(), Error>)
      requires Valid()
      requires RatingOf(ratings.store.models, request.requestedByUserId, request.gameType) == Some(requester)
      modifies matches.store, pairs.store, ratings.settings
      ensures Valid()
      ensures Outcome(r, Snapshot())
        == MatchIn(ratings.store.models, ratings.settings.store.models, old(Snapshot()), request, now)
    {
      var definition := MakeMatchToMatch(request, None);
      var matchId := matches.AddIgnore(Some(definition), now);
      r := MatchCandidates(request, requester, matchId.value, now);
    }

    /** The candidate query and the pairs of `Match`, once the definition is stored under `matchId`. */
    method MatchCandidates(request: MakeMatch, requester: UserRating, matchId: Guid, now: Time)
      returns (r: Result<(), Error>)
      requires Valid()
      modifies pairs.store, ratings.settings
      ensures Valid()
      ensures Outcome(r, Snapshot())
        == CandidatesIn(ratings.store.models, ratings.settings.store.models, old(Snapshot()), request, requester,
                        matchId, now)
    {
      var candidates := ratings.GetPossibleMatches(requester.data.rating, request);
      if candidates.Failure? {
        return Failure(candidates.error);
      }
      WritePairs(request, requester, matchId, candidates.value, now);
      r := Success(());
    }

    /**
     * The candidate loop of `Match`: one pair per candidate other than the
     * requester, written through the pair store's `Add`.
     */
    method WritePairs(request: MakeMatch, requester: UserRating, matchId: Guid, candidates: seq<UserRating>, now: Time)
      requires pairs.store.Valid()
      modifies pairs.store
      ensures pairs.store.Valid()
      ensures pairs.store.models
        == AddAll(old(pairs.store.models), PlannedPairs(request, requester, matchId, Opponents(requester, candidates)), now)
    {
      ghost var pairsBefore := pairs.store.models;
      var cs := candidates;
      for i := 0 to |cs|
        modifies pairs.store
        invariant pairs.store.Valid()
        invariant pairs.store.models
          == AddAll(pairsBefore, PlannedPairs(request, requester, matchId, Opponents(requester, cs[..i])), now)
      {
        var userRating := cs[i];
        WriteStep(pairsBefore, request, requester, matchId, cs, i, now);
        if userRating.data.userId != requester.data.userId {
          var matchPair := UserRatingToMatchPair(userRating, None);
          matchPair := matchPair.(data := matchPair.data.(requestedUserId := request.requestedByUserId));
          matchPair := matchPair.(data := matchPair.data.(requestedUserMmr := requester.data.rating));
          matchPair := matchPair.(data := matchPair.data.(matchId := matchId));
          assert matchPair == PairFor(request, requester, matchId, userRating);
          var _ := pairs.store.Add(Some(matchPair), now);
        }
      }
      assert cs[..|cs|] == cs;
    }
  }
}
