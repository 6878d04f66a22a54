# GameMatch matchmaking core, modelled in Dafny

This project models the matchmaking pipeline of the Samples.GameMatch.Api service
and the in-memory stores it runs on, and proves properties of that model.

- **Queue.** A queued `MakeMatch` request waits in an observed FIFO queue
  (`InMemoryMatchQueue`).
- **Matchmaker.** `OneToOneMatchMakerService.Match` handles one request:
  - it looks up the requester's rating for the game type;
  - it stores the request's match definition once, through `AddIgnore`;
  - it asks the rating store for every rating of that game type inside the band
    the match type and gap describe;
  - it writes one `MatchPair` per candidate other than the requester.
- **Report.** `InMemoryMatchPairRepository.QueryByRequest` pages through the
  stored pairs, definition by definition, newest first.
- **Supporting rules.** Also modelled:
  - the Add and Update rules shared by every store (`BaseInMemoryModelRepository`);
  - the controllers' upsert (`ControllerExtensions.AddOrUpdate`);
  - the memoised default setting;
  - the record builders (transformers);
  - `BaseModel`'s id equality.

Files and modules:

| file | module | contents |
|---|---|---|
| `wrappers.dfy` | `Wrappers` | `Option` (a C# null) and `Result` (a thrown exception as `Failure`) |
| `ordering.dfy` | `Ordering` | least and greatest element, and the ascending listing of a set of ids |
| `models.dfy` | `Models` | the records; `BaseModel` equality and hash |
| `repository.dfy` | `Repository` | the keyed store (`map` from id to record): `Add`, `Update`, `OnAddOrUpdate`, and the `FirstOrDefault`/`Where`/`OrderByDescending` queries |
| `settings.dfy` | `Settings` | `InMemorySettingsRepository.GetDefaultSetting` |
| `transformers.dfy` | `Transformers` | the four `ITransformer.To` record builders |
| `ratings.dfy` | `Ratings` | `InMemoryUserRatingRepository`: rating lookup, effective gap, rating band, band query |
| `controller_extensions.dfy` | `ControllerExtensions` | `AddOrUpdate` |
| `matches.dfy` | `Matches` | `InMemoryMatchRepository.AddIgnore` and the near-equality dedup key |
| `paging.dfy` | `Paging` | the global skip/take over grouped rows used by the report |
| `match_pairs.dfy` | `MatchPairs` | `InMemoryMatchPairRepository.QueryByRequest` |
| `matchmaker.dfy` | `MatchMaker` | `OneToOneMatchMakerService.Match` |
| `queue.dfy` | `MatchQueue` | `InMemoryMatchQueue` and its `ObservableUnsubscriber` |

How the model is built:

- **Stores are objects.** Each store is a `class` with the map as a field, and
  its methods update that field in place.
- **Each method has a specification function.** Its `ensures` ties the
  method's result and the new store to a pure function of the old state:
  - `Repository.Add` to `AddTo`;
  - `AddIgnore` to `AddIgnoreTo`;
  - `QueryByRequest` to `QueryResult`;
  - `Match` to `MatchIn`.
  The lemmas then prove what the source promises about those functions.
- **The report's loops are proved against a specification.** `QueryByRequest`'s
  nested loops are proved against one global window over all selected pairs.
  The outer loop is `Report`; the inner loop over one definition's pairs is
  `CollectPairs`, and one pass of `Report` is `ReportGroup`. `Match` is split
  at its steps: `MatchRated` runs once the requester's rating is found,
  `MatchCandidates` once the definition is stored (specified by
  `CandidatesIn`), and its loop over the candidates is `WritePairs`.
- **Basic values.**
  - A `Guid` is a natural number, and 0 stands for `Guid.Empty`.
  - A `DateTime` is a natural number, and 0 stands for `default(DateTime)`.
  - `Guid.NewGuid()` is an id that is neither 0 nor in use (`FreshId`).
  - `DateTime.UtcNow` is a `now` parameter, one per public call.
  - Ratings and gaps are reals. The tolerance `0.0000001` is the exact real.
- **Errors.** A null argument is `Option.None`. A thrown exception is a
  `Failure` carrying one of:
  - `ArgumentNull`;
  - `ArgumentOutOfRange`;
  - `RecordMissing` (the "Record does not exist" `ApplicationException`);
  - `NullReference`.

Three behaviours of the code worth noting:

- **The stored definition's gap.** The gap filed by `Match` is the request's
  own gap, or 0 when it has none (`MakeMatchMatchTransformer`). It is not the
  effective gap that sizes the band. So a request without a gap is filed under
  gap 0 whatever the default setting says.
- **Where the requester is excluded.** The rating band query does not exclude
  the requester (`RequesterIsOwnCandidate`). `Match` drops the requester
  afterwards (`Opponents`).
- **When the definition is written.** It is stored before the candidates are
  queried. So when the candidate query fails for want of a default setting,
  the definition is already stored (`MatchRecordsDefinition`,
  `MatchFailsOnlyWithoutGap`).
- **Threading.** The queue is modelled single-threaded. `ConcurrentQueue`'s
  behaviour under concurrent callers is not modelled.

## Model

| member | source | states |
|---|---|---|
| Models.Equals | Samples.GameMatch.Api/Models/BaseModel.cs:15-16 | definition of `Equals(BaseModel)`: the other model is not null and has the same id |
| Models.EqualsObject | Samples.GameMatch.Api/Models/BaseModel.cs:18-31 | definition of `Equals(object)`: false for null, true for the same reference, otherwise `Equals(BaseModel)` for a `BaseModel` and false for anything else |
| Models.HashCode | Samples.GameMatch.Api/Models/BaseModel.cs:33 | definition of `GetHashCode`: the hash of the id |
| Models.EqualsIsEquivalence | Samples.GameMatch.Api/Models/BaseModel.cs:15-16 | `Equals(BaseModel)` is reflexive, symmetric and transitive on non-null models, and false for null |
| Models.EqualsObjectIsIdEquality | Samples.GameMatch.Api/Models/BaseModel.cs:18-31 | `Equals(object)` is false for null and for a non-`BaseModel`, true for the same reference, and otherwise exactly id equality |
| Models.EqualModelsHashAlike | Samples.GameMatch.Api/Models/BaseModel.cs:33 | models equal by `Equals(BaseModel)` or `Equals(object)` have equal hash codes, whatever the Guid hash is |
| Repository.FreshId | Samples.GameMatch.Api/DataAccess/BaseInMemoryModelRepository.cs:20 | the new id is not the default id and is not used by any stored record |
| Repository.Stamp | Samples.GameMatch.Api/DataAccess/BaseInMemoryModelRepository.cs:51-59 | modification time becomes `now`; an unset creation time becomes the modification time, a set one is kept; id and fields unchanged |
| Repository.AddTo | Samples.GameMatch.Api/DataAccess/BaseInMemoryModelRepository.cs:8-25 | null fails with ArgumentNull; a set id fails with ArgumentOutOfRange; both leave the store unchanged; otherwise exactly one record is added, under a fresh id, with the given fields and stamped times, and every record of the store is kept |
| Repository.UpdateIn | Samples.GameMatch.Api/DataAccess/BaseInMemoryModelRepository.cs:27-49 | null fails with ArgumentNull, the default id with ArgumentOutOfRange, an unknown id with RecordMissing, all leaving the store unchanged; otherwise only that record is replaced, keeping the stored creation time and stamping `now` |
| Repository.Repository.Add | Samples.GameMatch.Api/DataAccess/BaseInMemoryModelRepository.cs:8-25 | the returned id and the new store are those of `AddTo`, and the store stays keyed by id |
| Repository.Repository.Update | Samples.GameMatch.Api/DataAccess/BaseInMemoryModelRepository.cs:27-49 | the returned record and the new store are those of `UpdateIn`, and the store stays keyed by id |
| Repository.FirstWhere | Samples.GameMatch.Api/DataAccess/InMemoryUserRatingRepository.cs:17 | `FirstOrDefault`: a stored record satisfying the filter, or null only when no stored record does |
| Repository.Where | Samples.GameMatch.Api/DataAccess/InMemoryUserRatingRepository.cs:35-37 | `Where`: exactly the stored records satisfying the filter, one per matching key, and no record twice in a keyed store |
| Repository.NewestFirstWhere | Samples.GameMatch.Api/DataAccess/InMemoryMatchRepository.cs:45-47 | `Where(...).OrderByDescending(CreatedOn)`: exactly the stored records satisfying the filter, one per matching key, no record twice in a keyed store, creation times non-increasing |
| Settings.DefaultSetting | Samples.GameMatch.Api/DataAccess/InMemorySettingsRepository.cs:9-10 | a cached setting is returned as is; with none cached, a stored setting, or null exactly when no setting is stored |
| Settings.CachedSettingIsSticky | Samples.GameMatch.Api/DataAccess/InMemorySettingsRepository.cs:10 | once a non-null setting is returned, every later call returns it whatever the store holds then; after a null result the next call reads the store again |
| Settings.SettingsRepository.GetDefaultSetting | Samples.GameMatch.Api/DataAccess/InMemorySettingsRepository.cs:9-10 | returns `DefaultSetting` of the old cache and the store, and caches exactly what it returns |
| Transformers.ResolveGameType | Samples.GameMatch.Api/Services/MatchRequestTransformer.cs:9-11 | the source's game type unless `Unspecified`; then the existing one; `Unspecified` results only when both are unspecified or absent |
| Transformers.MatchRequestToMakeMatch | Samples.GameMatch.Api/Services/MatchRequestTransformer.cs:5-14 | gap (null included) and match type copied; game type resolved; requester from the existing request, the default id without one |
| Transformers.MakeMatchToMatch | Samples.GameMatch.Api/Services/MatchRequestTransformer.cs:19-29 | gap is the source's, else the existing one's, else 0; match type copied; game type resolved; without an existing definition the id and creation time are default, so `Add` accepts it |
| Transformers.UserRatingToMatchPair | Samples.GameMatch.Api/Services/MatchRequestTransformer.cs:34-43 | the matched side is the candidate's user id and rating; requester side and definition id default; id and creation time from the existing pair or default |
| Transformers.UserRatingRequestToUserRating | Samples.GameMatch.Api/Services/UserRatingTransformer.cs:5-15 | the rating always comes from the request; game type resolved; id, creation time and user id from the existing record, default without one |
| Ratings.EffectiveGap | Samples.GameMatch.Api/DataAccess/InMemoryUserRatingRepository.cs:21 | the request's gap when present, else the default setting's; with neither, a null-reference failure |
| Ratings.BandFor | Samples.GameMatch.Api/DataAccess/InMemoryUserRatingRepository.cs:25-33 | the band always contains the rating, so lower <= upper |
| Ratings.BandShape | Samples.GameMatch.Api/DataAccess/InMemoryUserRatingRepository.cs:25-33 | HarderOnly is `[r, r+abs(g)]`, EasierOnly `[r-abs(g), r]`, Any `abs(x-r) <= abs(g)`; negating the gap changes nothing |
| Ratings.BandExample | Samples.GameMatch.Api/DataAccess/InMemoryUserRatingRepository.cs:25-33 | rating 1.0, gap 0.3: HarderOnly `[1.0, 1.3]`, EasierOnly `[0.7, 1.0]`, Any (gap -0.3) `[0.7, 1.3]` |
| Ratings.PossibleMatchesIn | Samples.GameMatch.Api/DataAccess/InMemoryUserRatingRepository.cs:19-38 | fails (null reference) exactly when the request has no gap and there is no default setting; otherwise exactly the stored ratings of the game type with lower <= rating <= upper, one per matching key, and none twice in a keyed store |
| Ratings.RequesterIsOwnCandidate | Samples.GameMatch.Api/DataAccess/InMemoryUserRatingRepository.cs:35-37 | the query does not exclude the requester: a stored rating of the game type is always among its own candidates |
| Ratings.RatingOf | Samples.GameMatch.Api/DataAccess/InMemoryUserRatingRepository.cs:16-17 | definition of the `FirstOrDefault` lookup by user id and game type; `GetByUserGameType` states its contract |
| Ratings.UserRatingRepository.GetByUserGameType | Samples.GameMatch.Api/DataAccess/InMemoryUserRatingRepository.cs:16-17 | a stored rating with both the user id and the game type, or null exactly when no stored rating has both |
| Ratings.UserRatingRepository.GetPossibleMatches | Samples.GameMatch.Api/DataAccess/InMemoryUserRatingRepository.cs:19-38 | returns `PossibleMatchesIn` for what `GetDefaultSetting` would return; the settings cache is touched only when the request has no gap |
| ControllerExtensions.AddOrUpdateIn | Samples.GameMatch.Api/Services/ControllerExtensions.cs:53-64 | null fails by dereference; the default id takes the Add path and always succeeds; any other id takes the Update path and succeeds exactly when stored |
| ControllerExtensions.AddOrUpdate | Samples.GameMatch.Api/Services/ControllerExtensions.cs:53-64 | the result and the new store are those of `AddOrUpdateIn`, and the store stays keyed |
| ControllerExtensions.RatingUpsertKeepsOneRecord | Samples.GameMatch.Api/Services/UserRatingTransformer.cs:5-15 | a rating built over a stored one is updated in place by the upsert: no key is added, the rating is the new one, user and creation time are kept |
| ControllerExtensions.FirstRatingIsAdded | Samples.GameMatch.Api/Services/ControllerExtensions.cs:56-58 | a rating built without an existing record is added as exactly one new record, the old ones unchanged |
| ControllerExtensions.UnknownIdFails | Samples.GameMatch.Api/Services/ControllerExtensions.cs:60-62 | a non-default id that is not stored fails with RecordMissing and changes nothing |
| Matches.SameDefinition | Samples.GameMatch.Api/DataAccess/InMemoryMatchRepository.cs:11-13 | definition of the duplicate test: same game type, same match type, gaps less than 0.0000001 apart |
| Matches.DuplicateOf | Samples.GameMatch.Api/DataAccess/InMemoryMatchRepository.cs:11-13 | the `FirstOrDefault` filter of `AddIgnore`: `SameDefinition` with the new definition |
| Matches.SameDefinitionIsSymmetric | Samples.GameMatch.Api/DataAccess/InMemoryMatchRepository.cs:11-13 | the dedup key is reflexive and symmetric |
| Matches.SameDefinitionIsNotTransitive | Samples.GameMatch.Api/DataAccess/InMemoryMatchRepository.cs:11-13 | the dedup key is not transitive: gaps 0, 0.00000006, 0.00000012 |
| Matches.SameDefinitionExample | Samples.GameMatch.Api/DataAccess/InMemoryMatchRepository.cs:11-13 | gaps 0.5 and 0.5000000001 are one definition; 0.5 and 0.6, or different match types, are two |
| Matches.AddIgnoreTo | Samples.GameMatch.Api/DataAccess/InMemoryMatchRepository.cs:9-16 | with a stored duplicate: its id, the store unchanged; with none: exactly `Add`; null: ArgumentNull on an empty store, NullReference otherwise; the store stays keyed |
| Matches.AddIgnoreStoresDefinition | Samples.GameMatch.Api/DataAccess/InMemoryMatchRepository.cs:9-16 | an unnumbered definition always ends up stored under the returned id (found or added), and the store grows by at most one record |
| Matches.AddIgnoreKeepsDeduplicated | Samples.GameMatch.Api/DataAccess/InMemoryMatchRepository.cs:9-16 | a store with no two duplicate definitions keeps that property through `AddIgnore` |
| Matches.AddIgnoreIsIdempotent | Samples.GameMatch.Api/DataAccess/InMemoryMatchRepository.cs:11-15 | a second `AddIgnore` of the same definition returns the same id and leaves the store as the first left it |
| Matches.MatchRepository.AddIgnore | Samples.GameMatch.Api/DataAccess/InMemoryMatchRepository.cs:9-16 | the returned id and the new store are those of `AddIgnoreTo` |
| Paging.PageIsWindow | Samples.GameMatch.Api/DataAccess/InMemoryMatchRepository.cs:43-71 | the rows of all reported groups, in order, are exactly rows skip+1 .. skip+take of all rows, across group boundaries |
| Paging.PageSize | Samples.GameMatch.Api/DataAccess/InMemoryMatchRepository.cs:65-87 | at most `take` rows are reported, exactly `take` when enough rows exist, and nothing when all rows are skipped |
| Paging.PageOfNothing | Samples.GameMatch.Api/DataAccess/InMemoryMatchRepository.cs:49-54 | when no row gets past the skip, no group is reported |
| Paging.PageHasNoEmptyGroup | Samples.GameMatch.Api/DataAccess/InMemoryMatchRepository.cs:73-82 | no reported group is empty |
| Paging.PageGroupOrigin | Samples.GameMatch.Api/DataAccess/InMemoryMatchRepository.cs:43-82 | every reported group is a contiguous part of one input group, under that group's head |
| Paging.PageStable | Samples.GameMatch.Api/DataAccess/InMemoryMatchRepository.cs:84-87 | once the window is full, later groups change nothing, so stopping there is correct |
| Paging.PageExample | Samples.GameMatch.Api/DataAccess/InMemoryMatchRepository.cs:49-73 | groups of 1, 3 and 2 rows with skip 2, take 2 give the second group's 2nd and 3rd rows and nothing else |
| MatchPairs.EffectiveSkip | Samples.GameMatch.Api/DataAccess/InMemoryMatchRepository.cs:51 | a negative skip skips nothing; otherwise exactly `skip` rows are passed over |
| MatchPairs.EffectiveTake | Samples.GameMatch.Api/DataAccess/InMemoryMatchRepository.cs:33-35 | the query's take when positive, otherwise 100; always positive |
| MatchPairs.Heads | Samples.GameMatch.Api/DataAccess/InMemoryMatchRepository.cs:38-41 | exactly the stored definitions that pass the query's game type, match type and gap criteria, one per matching key, none twice in a keyed store, newest first |
| MatchPairs.Rows | Samples.GameMatch.Api/DataAccess/InMemoryMatchRepository.cs:45-47 | exactly the stored pairs of that definition, requested by `byUserId` when given, one per matching key, none twice in a keyed store, newest first |
| MatchPairs.PairResponse | Samples.GameMatch.Api/DataAccess/InMemoryMatchRepository.cs:56-63 | definition of a reported pair: both users' ids and ratings, dated by the pair's creation |
| MatchPairs.Respond | Samples.GameMatch.Api/DataAccess/InMemoryMatchRepository.cs:75-81 | definition of a reported group: the definition's game type, match type and gap, with its reported pairs |
| MatchPairs.QueryResult | Samples.GameMatch.Api/DataAccess/InMemoryMatchRepository.cs:28-89 | no reported definition has an empty list of pairs |
| MatchPairs.QueryIsWindow | Samples.GameMatch.Api/DataAccess/InMemoryMatchRepository.cs:38-71 | the reported pairs are exactly rows skip+1 .. skip+take of all selected pairs: definitions newest first, then pairs newest first |
| MatchPairs.QueryIsBounded | Samples.GameMatch.Api/DataAccess/InMemoryMatchRepository.cs:65-87 | a report never holds more than the effective take of pairs |
| MatchPairs.QueryIsSound | Samples.GameMatch.Api/DataAccess/InMemoryMatchRepository.cs:38-82 | each reported group describes a stored definition passing the game-type, match-type and gap-ceiling filters, with a run of its own stored pairs, requested by `byUserId` when given, newest first |
| MatchPairs.MatchPairRepository.CollectPairs | Samples.GameMatch.Api/DataAccess/InMemoryMatchRepository.cs:45-71 | the pairs collected for one definition are its rows inside the global window, and the counters advance as the code's do |
| MatchPairs.MatchPairRepository.ReportGroup | Samples.GameMatch.Api/DataAccess/InMemoryMatchRepository.cs:42-82 | one pass of the outer loop extends the responses to the page of the groups seen so far, and a full page means enough rows were seen |
| MatchPairs.MatchPairRepository.Report | Samples.GameMatch.Api/DataAccess/InMemoryMatchRepository.cs:38-88 | the outer loop returns the responses of the page of all groups for the effective skip and take |
| MatchPairs.MatchPairRepository.QueryByRequest | Samples.GameMatch.Api/DataAccess/InMemoryMatchRepository.cs:28-89 | returns `QueryResult` of the definition and pair stores |
| MatchMaker.Opponents | Samples.GameMatch.Api/Services/OneToOneMatchMakerService.cs:51-52 | exactly the candidates whose user is not the requester, no longer than the candidates, and without repeats when the candidates have none |
| MatchMaker.OpponentPositions | Samples.GameMatch.Api/Services/OneToOneMatchMakerService.cs:51-52 | increasing positions among the candidates, one per opponent |
| MatchMaker.OpponentsKeepOrder | Samples.GameMatch.Api/Services/OneToOneMatchMakerService.cs:51-52 | opponent k is the candidate at the k-th position, so the filter keeps the candidates' order |
| MatchMaker.OpponentPositionsAreExact | Samples.GameMatch.Api/Services/OneToOneMatchMakerService.cs:51-52 | the positions are exactly those of the candidates whose user is not the requester |
| MatchMaker.PairFor | Samples.GameMatch.Api/Services/OneToOneMatchMakerService.cs:55-59 | the pair carries the definition id, the requester's id and rating, the candidate's id and rating, and default id and creation time |
| MatchMaker.PlannedPairs | Samples.GameMatch.Api/Services/OneToOneMatchMakerService.cs:51-59 | one planned pair per opponent, in order |
| MatchMaker.AddAllKeeps | Samples.GameMatch.Api/Services/OneToOneMatchMakerService.cs:61 | adding pairs one by one keeps every stored record and the keying, and adds only the returned ids |
| MatchMaker.AddAllAddsEach | Samples.GameMatch.Api/Services/OneToOneMatchMakerService.cs:61 | each added body has its own distinct fresh id, holding its fields and stamped `now` |
| MatchMaker.MatchIn | Samples.GameMatch.Api/Services/OneToOneMatchMakerService.cs:30-63 | definition of `Match`'s outcome: nothing without a rating of the requester; otherwise `AddIgnore` of the request's definition, then `CandidatesIn` |
| MatchMaker.CandidatesIn | Samples.GameMatch.Api/Services/OneToOneMatchMakerService.cs:51-62 | definition of the rest of `Match`: the candidate query (caching the default setting only without a gap), then one pair per opponent added in order |
| MatchMaker.MatchWithoutRatingWritesNothing | Samples.GameMatch.Api/Services/OneToOneMatchMakerService.cs:32-40 | without a rating of the requester for the game type, no definition, pair or setting is written |
| MatchMaker.MatchRecordsDefinition | Samples.GameMatch.Api/Services/OneToOneMatchMakerService.cs:43-45 | with a rating, the request's definition ends up stored under the id `AddIgnore` returns, even when the candidate query fails; the definition store grows by at most one |
| MatchMaker.MatchFailsOnlyWithoutGap | Samples.GameMatch.Api/Services/OneToOneMatchMakerService.cs:45-51 | with a rating, `Match` fails exactly when the request has no gap and there is no default setting, and then writes no pair |
| MatchMaker.MatchAddsPlannedPairs | Samples.GameMatch.Api/Services/OneToOneMatchMakerService.cs:51-62 | a successful `Match` adds exactly the planned pairs of the opponents among the candidates |
| MatchMaker.PlannedPairsAdded | Samples.GameMatch.Api/Services/OneToOneMatchMakerService.cs:55-61 | pair i is filed under its own fresh id with the definition id, the requester's side and opponent i's side; nothing else changes |
| MatchMaker.MatchWritesOnePairPerOpponent | Samples.GameMatch.Api/Services/OneToOneMatchMakerService.cs:51-62 | new pairs correspond one to one, in order, to the stored ratings of other users of the game type in the band, each listed once when the rating store is keyed; each copies the definition id, requester and opponent; no stored pair changes |
| MatchMaker.MatchNeverPairsRequesterWithItself | Samples.GameMatch.Api/Services/OneToOneMatchMakerService.cs:51-52 | no new pair has the requester as the matched user |
| MatchMaker.OneToOneMatchMakerService.Match | Samples.GameMatch.Api/Services/OneToOneMatchMakerService.cs:30-63 | the result and the definition, pair and settings-cache state afterwards are those of `MatchIn` |
| MatchMaker.OneToOneMatchMakerService.MatchRated | Samples.GameMatch.Api/Services/OneToOneMatchMakerService.cs:43-62 | once the requester's rating is found, the result and the state afterwards are those of `MatchIn` |
| MatchMaker.OneToOneMatchMakerService.MatchCandidates | Samples.GameMatch.Api/Services/OneToOneMatchMakerService.cs:45-62 | once the definition is stored, the result, the pairs and the settings cache afterwards are those of `CandidatesIn` |
| MatchMaker.OneToOneMatchMakerService.WritePairs | Samples.GameMatch.Api/Services/OneToOneMatchMakerService.cs:51-62 | the loop adds the planned pairs of the opponents, in candidate order, through the pair store's `Add` |
| MatchQueue.Announce | Samples.GameMatch.Api/DataAccess/InMemoryMatchQueue.cs:34-40 | one notification per listed observer, in list order |
| MatchQueue.AnnounceCallsEachOnce | Samples.GameMatch.Api/DataAccess/InMemoryMatchQueue.cs:34-40 | with no observer listed twice, each subscribed observer is notified exactly once and no other is notified |
| MatchQueue.RemoveFirst | Samples.GameMatch.Api/DataAccess/InMemoryMatchQueue.cs:42-45 | `List.Remove`: an absent observer changes nothing; a present one makes the list one shorter; no other observer is lost or added |
| MatchQueue.RemoveFirstOfDistinct | Samples.GameMatch.Api/DataAccess/InMemoryMatchQueue.cs:42-45 | on a list without repeats the observer is gone afterwards, and the list still has no repeats |
| MatchQueue.RemoveFirstTwice | Samples.GameMatch.Api/DataAccess/InMemoryMatchQueue.cs:58-61 | removing an observer a second time changes nothing |
| MatchQueue.InMemoryMatchQueue.Enqueue | Samples.GameMatch.Api/DataAccess/InMemoryMatchQueue.cs:12-17 | the request is appended at the tail, then every subscribed observer is notified once, with the request already queued |
| MatchQueue.InMemoryMatchQueue.NotifyObservers | Samples.GameMatch.Api/DataAccess/InMemoryMatchQueue.cs:34-40 | one notification per listed observer, in order; queue and observers unchanged |
| MatchQueue.InMemoryMatchQueue.Dequeue | Samples.GameMatch.Api/DataAccess/InMemoryMatchQueue.cs:19-22 | empty queue: null and nothing changes; otherwise the head is returned and removed; no observer is notified |
| MatchQueue.InMemoryMatchQueue.Subscribe | Samples.GameMatch.Api/DataAccess/InMemoryMatchQueue.cs:24-32 | the observer is appended only if not yet listed; the queue is unchanged; a new handle for this queue and observer is returned |
| MatchQueue.InMemoryMatchQueue.Unsubscribe | Samples.GameMatch.Api/DataAccess/InMemoryMatchQueue.cs:42-45 | the observer is removed and no longer listed; the queue is unchanged |
| MatchQueue.ObservableUnsubscriber.Dispose | Samples.GameMatch.Api/DataAccess/InMemoryMatchQueue.cs:58-61 | with a queue, the handle's observer is unsubscribed, the queue is unchanged; without one, nothing happens |
| MatchQueue.FirstInFirstOut | Samples.GameMatch.Api/DataAccess/InMemoryMatchQueue.cs:12-22 | two enqueued requests are dequeued in order, then the empty queue yields null |
| MatchQueue.QueuedNullLooksEmpty | Samples.GameMatch.Api/DataAccess/InMemoryMatchQueue.cs:19-22 | a queued null dequeues as null, the same answer an empty queue gives |
| MatchQueue.SubscribeEnqueueDispose | Samples.GameMatch.Api/DataAccess/InMemoryMatchQueue.cs:24-61 | subscribing twice lists the observer once; one enqueue notifies it once; disposing the handle twice leaves no observer |

## Left out

- `LocalMatchMakerProcessor` (the worker pool that drains the queue): its content is concurrency (tasks, locks, shutdown deadlines), which a sequential model cannot express.
- Thread safety of `ConcurrentQueue` and of the stores: every operation is modelled as one atomic step by a single caller.
- The controllers, start-up, filters, JWT generation, claims parsing (`GetUserId`) and the `AsOkGmApiResult(s)` wrappers: framework glue outside the matchmaking core.
- The store's own base class (`BaseInMemoryRepository`) is not part of this model; its dictionary is a map, and the order in which it enumerates records is fixed as ascending id. The contracts claim only "some matching record" (`FirstOrDefault`), "every matching record" (`Where`), and "newest first", with ties in no promised order (`OrderByDescending`).
- Laziness of `IEnumerable`: `QueryByRequest` and `GetPossibleMatches` are modelled as eager sequences read from the state at the time of the call; the source re-reads the stores when each sequence is enumerated, and in `Match` nothing writes the rating store during the enumeration.
- `double` arithmetic: ratings and gaps are exact reals, with no rounding, NaN or infinities.
- `MatchPairs.MatchPairRepository.QueryByRequest`: the `int` counters `enumerated` and `yielded` are unbounded, so 32-bit overflow after 2^31 rows is not modelled.
- Mutation of the caller's object: `Add` and `Update` in the source stamp the very object passed in, and the store keeps a reference to it. The model stores the stamped value and returns the outcome, so later changes through an alias are not modelled.
- `Settings.SettingsRepository.GetDefaultSetting`: the cache holds the value of the setting rather than a reference to the stored object. A later in-place update of that stored setting would show through the source's cache but not the model's.
- `DateTime.UtcNow` is one `now` per public call, so all pairs written by one `Match` carry the same creation time.
- The body of `Match` is split into `MatchRated`, `MatchCandidates` and `WritePairs`, and the loops of `QueryByRequest` into `Report`, `ReportGroup` and `CollectPairs`; each piece is one method with its own contract rather than one long method body.
- Observer callbacks: `OnMatchEnqueued` is not run; each call is recorded in the queue's `notified` log, and an observer is known by an identity number.
- `ObservableUnsubscriber` after the queue is gone: garbage collection and finalisation are not modelled.
- `MatchMaker.MatchWithoutRatingWritesNothing`, `MatchMaker.MatchAddsPlannedPairs`, `ControllerExtensions.UnknownIdFails` and `Ratings.RequesterIsOwnCandidate` follow by unfolding the specification function. They restate a branch of it in the terms the source promises.
- Logging (`ILogger`) is left out; it has no effect on the state.
