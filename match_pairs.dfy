/**
 * InMemoryMatchPairRepository: the paged report of stored pairs, grouped under
 * the match definitions a query selects.
 */
module MatchPairs {
  import opened Wrappers
  import opened Models
  import opened Ordering
  import opened Repository
  import opened Paging
  import opened Matches

  /** The page size used when a query asks for none. */
  const DefaultTake: nat := 100

  /** The definition filter of a query; an absent criterion selects everything. */
  function QueryFilter(query: QueryMatchesRequest): (Match -> bool)
  {
    (m: Match) =>
      && (query.gameType.None? || m.data.gameType == query.gameType.value)
      && (query.matchType.None? || m.data.matchType == query.matchType.value)
      && (query.maxMmrGap.None? || m.data.maxMmrGap <= query.maxMmrGap.value)
  }

  /** The pairs reported under one definition: its own, requested by `byUserId` when given. */
  function PairFilter(byUserId: Option<Guid>, matchId: Guid): (MatchPair -> bool)
  {
    (p: MatchPair) => (byUserId.None? || byUserId.value == p.data.requestedUserId) && p.data.matchId == matchId
  }

  /** The skip that `enumerated <= query.Skip` applies: a negative skip skips nothing. */
  function EffectiveSkip(skip: int): (s: nat)
    ensures skip >= 0 ==> s == skip
    ensures skip < 0 ==> s == 0
  {
    if skip < 0 then 0 else skip
  }

  /** The page size: the query's when positive, otherwise the default. */
  function EffectiveTake(take: int): (t: nat)
    ensures t > 0
    ensures take > 0 ==> t == take
    ensures take <= 0 ==> t == DefaultTake
  {
    if take > 0 then take else DefaultTake
  }

  /** The definitions a query selects, each once, newest first. */
  function Heads(matchModels: Store<MatchDef>, query: QueryMatchesRequest): (r: seq<Match>)
    ensures forall m :: m in r <==> m in matchModels.Values && QueryFilter(query)(m)
    ensures |r| == |KeysWhere(matchModels, QueryFilter(query))|
    ensures Keyed(matchModels) ==> Distinct(r)
    ensures forall i, j :: 0 <= i < j < |r| ==> r[i].createdOn >= r[j].createdOn
  {
    NewestFirstWhere(matchModels, QueryFilter(query))
  }

  /** Every row is a stored pair of the definition `matchId`, requested by `byUserId` when one is given. */
  ghost predicate Selected(rows: seq<MatchPair>, pairModels: Store<PairData>, byUserId: Option<Guid>, matchId: Guid)
  {
    forall p :: p in rows ==>
      p in pairModels.Values && p.data.matchId == matchId && (byUserId.None? || p.data.requestedUserId == byUserId.value)
  }

  /** Every stored pair of the definition `matchId`, requested by `byUserId` when one is given, is among the rows. */
  ghost predicate Complete(rows: seq<MatchPair>, pairModels: Store<PairData>, byUserId: Option<Guid>, matchId: Guid)
  {
    forall p :: p in pairModels.Values ==>
      (p.data.matchId == matchId && (byUserId.None? || p.data.requestedUserId == byUserId.value) ==> p in rows)
  }

  /** Creation times never increase along the rows. */
  predicate NewestFirst(rows: seq<MatchPair>)
  {
    forall i, j :: 0 <= i < j < |rows| ==> rows[i].createdOn >= rows[j].createdOn
  }

  /** The pairs reported under the definition `matchId`: all of them, each once, newest first. */
  function Rows(pairModels: Store<PairData>, byUserId: Option<Guid>, matchId: Guid): (r: seq<MatchPair>)
    ensures Selected(r, pairModels, byUserId, matchId)
    ensures Complete(r, pairModels, byUserId, matchId)
    ensures |r| == |KeysWhere(pairModels, PairFilter(byUserId, matchId))|
    ensures Keyed(pairModels) ==> Distinct(r)
    ensures NewestFirst(r)
  {
    NewestFirstWhere(pairModels, PairFilter(byUserId, matchId))
  }

  /** Every head with its pairs: the rows the report pages through. */
  function Groups(heads: seq<Match>, pairModels: Store<PairData>, byUserId: Option<Guid>): (gs: seq<Group<Match, MatchPair>>)
    ensures |gs| == |heads|
    ensures forall i :: 0 <= i < |gs| ==> gs[i] == Group(heads[i], Rows(pairModels, byUserId, heads[i].id))
  {
    seq(|heads|, i requires 0 <= i < |heads| => Group(heads[i], Rows(pairModels, byUserId, heads[i].id)))
  }

  /** The reported form of a stored pair, dated by its creation. */
  function PairResponse(p: MatchPair): MatchPairResponse
  {
    MatchPairResponse(p.data.requestedUserId, p.data.requestedUserMmr, p.data.matchedUserId, p.data.matchedUserMmr,
                      p.createdOn)
  }

  function PairResponses(rows: seq<MatchPair>): (r: seq<MatchPairResponse>)
    ensures |r| == |rows| && forall i :: 0 <= i < |rows| ==> r[i] == PairResponse(rows[i])
  {
    seq(|rows|, i requires 0 <= i < |rows| => PairResponse(rows[i]))
  }

  lemma PairResponsesSnoc(rows: seq<MatchPair>, p: MatchPair)
    ensures PairResponses(rows + [p]) == PairResponses(rows) + [PairResponse(p)]
  {
  }

  /** The reported form of one group. */
  function Respond(g: Group<Match, MatchPair>): MatchResponse
  {
    MatchResponse(g.head.data.gameType, g.head.data.matchType, g.head.data.maxMmrGap, PairResponses(g.rows))
  }

  function Responses(page: seq<Group<Match, MatchPair>>): (r: seq<MatchResponse>)
    ensures |r| == |page| && forall k :: 0 <= k < |page| ==> r[k] == Respond(page[k])
  {
    seq(|page|, k requires 0 <= k < |page| => Respond(page[k]))
  }

  lemma ResponsesSnoc(page: seq<Group<Match, MatchPair>>, g: Group<Match, MatchPair>)
    ensures Responses(page + [g]) == Responses(page) + [Respond(g)]
  {
  }

  /**
   * What `QueryByRequest(byUserId, query)` yields: the page of the grouped pairs
   * for the effective skip and take. A definition with no reported pair is left out.
   */
  function QueryResult(matchModels: Store<MatchDef>, pairModels: Store<PairData>, byUserId: Option<Guid>,
                       query: QueryMatchesRequest): (r: seq<MatchResponse>)
    ensures forall k :: 0 <= k < |r| ==> r[k].matches != []
  {
    var page := Page(Groups(Heads(matchModels, query), pairModels, byUserId), EffectiveSkip(query.skip), EffectiveTake(query.take));
    PageHasNoEmptyGroup(Groups(Heads(matchModels, query), pairModels, byUserId), EffectiveSkip(query.skip), EffectiveTake(query.take));
    Responses(page)
  }

  /** All pair responses of a report, in order. */
  function PairsOf(responses: seq<MatchResponse>): seq<MatchPairResponse>
  {
    if responses == [] then [] else PairsOf(responses[..|responses| - 1]) + responses[|responses| - 1].matches
  }

  lemma {:induction false} PairsOfResponses(page: seq<Group<Match, MatchPair>>)
    ensures PairsOf(Responses(page)) == PairResponses(Flatten(page))
    decreases |page|
  {
    if page != [] {
      var init := page[..|page| - 1];
      PairsOfResponses(init);
      assert Responses(page)[..|page| - 1] == Responses(init);
      assert PairResponses(Flatten(page)) == PairResponses(Flatten(init)) + PairResponses(page[|page| - 1].rows);
    }
  }

  /**
   * The pairs of a report are exactly rows `skip + 1 .. skip + take` of all the
   * selected pairs, taken definition by definition, newest first.
   */
  lemma QueryIsWindow(matchModels: Store<MatchDef>, pairModels: Store<PairData>, byUserId: Option<Guid>,
                      query: QueryMatchesRequest)
    ensures var all := PairResponses(Flatten(Groups(Heads(matchModels, query), pairModels, byUserId)));
      PairsOf(QueryResult(matchModels, pairModels, byUserId, query))
        == Window(all, EffectiveSkip(query.skip), EffectiveTake(query.take))
  {
    var gs := Groups(Heads(matchModels, query), pairModels, byUserId);
    var s, t := EffectiveSkip(query.skip), EffectiveTake(query.take);
    PairsOfResponses(Page(gs, s, t));
    PageIsWindow(gs, s, t);
    PairResponsesOfWindow(Flatten(gs), s, t);
  }

  lemma PairResponsesOfWindow(rows: seq<MatchPair>, skip: nat, take: nat)
    ensures PairResponses(Window(rows, skip, take)) == Window(PairResponses(rows), skip, take)
  {
  }

  /** A report never holds more than the page size of pairs. */
  lemma QueryIsBounded(matchModels: Store<MatchDef>, pairModels: Store<PairData>, byUserId: Option<Guid>,
                       query: QueryMatchesRequest)
    ensures |PairsOf(QueryResult(matchModels, pairModels, byUserId, query))| <= EffectiveTake(query.take)
  {
    var gs := Groups(Heads(matchModels, query), pairModels, byUserId);
    PairsOfResponses(Page(gs, EffectiveSkip(query.skip), EffectiveTake(query.take)));
    PageSize(gs, EffectiveSkip(query.skip), EffectiveTake(query.take));
  }

  /** Any run of a definition's rows is stored, selected and newest first. */
  lemma RunOfRows(rows: seq<MatchPair>, pairModels: Store<PairData>, byUserId: Option<Guid>, matchId: Guid, lo: nat, hi: nat)
    requires lo <= hi <= |rows|
    requires Selected(rows, pairModels, byUserId, matchId) && NewestFirst(rows)
    ensures Selected(rows[lo..hi], pairModels, byUserId, matchId) && NewestFirst(rows[lo..hi])
  {
    var part := rows[lo..hi];
    forall p | p in part
      ensures p in pairModels.Values && p.data.matchId == matchId && (byUserId.None? || p.data.requestedUserId == byUserId.value)
    {
      var i :| 0 <= i < |part| && part[i] == p;
      assert p == rows[lo + i];
    }
    forall i, j | 0 <= i < j < |part| ensures part[i].createdOn >= part[j].createdOn {
      assert part[i] == rows[lo + i] && part[j] == rows[lo + j];
    }
  }

  /** Each reported group is a run of one head's rows, under that head. */
  lemma ReportedGroup(heads: seq<Match>, pairModels: Store<PairData>, byUserId: Option<Guid>, skip: nat, take: nat, k: nat)
    returns (idx: nat, lo: nat, hi: nat)
    requires k < |Page(Groups(heads, pairModels, byUserId), skip, take)|
    ensures idx < |heads| && lo <= hi <= |Rows(pairModels, byUserId, heads[idx].id)|
    ensures Responses(Page(Groups(heads, pairModels, byUserId), skip, take))[k]
      == Respond(Group(heads[idx], Rows(pairModels, byUserId, heads[idx].id)[lo..hi]))
  {
    idx, lo, hi := PageGroupOrigin(Groups(heads, pairModels, byUserId), skip, take, k);
  }

  /**
   * Every reported group describes a stored definition the query selects, and
   * lists a run of that definition's stored pairs, requested by `byUserId` when
   * one is given, newest first.
   */
  lemma QueryIsSound(matchModels: Store<MatchDef>, pairModels: Store<PairData>, byUserId: Option<Guid>,
                     query: QueryMatchesRequest, k: nat) returns (m: Match, part: seq<MatchPair>)
    requires k < |QueryResult(matchModels, pairModels, byUserId, query)|
    ensures m in matchModels.Values && QueryFilter(query)(m)
    ensures QueryResult(matchModels, pairModels, byUserId, query)[k] == Respond(Group(m, part))
    ensures forall p :: p in part ==>
      p in pairModels.Values && p.data.matchId == m.id && (byUserId.None? || p.data.requestedUserId == byUserId.value)
    ensures forall i, j :: 0 <= i < j < |part| ==> part[i].createdOn >= part[j].createdOn
  {
    var heads := Heads(matchModels, query);
    var s, t := EffectiveSkip(query.skip), EffectiveTake(query.take);
    assert QueryResult(matchModels, pairModels, byUserId, query) == Responses(Page(Groups(heads, pairModels, byUserId), s, t));
    var idx, lo, hi := ReportedGroup(heads, pairModels, byUserId, s, t, k);
    m := heads[idx];
    var rows := Rows(pairModels, byUserId, m.id);
    part := rows[lo..hi];
    assert m in heads;
    RunOfRows(rows, pairModels, byUserId, m.id, lo, hi);
  }

  /** One pass of the outer loop: the report grows by the group's kept pairs, if any. */
  lemma ReportStep(gs: seq<Group<Match, MatchPair>>, i: nat, skip: nat, take: nat, pairs: seq<MatchPairResponse>)
    requires i < |gs| && pairs == PairResponses(Kept(gs[i].rows, |Flatten(gs[..i])|, skip, take))
    ensures |Flatten(gs[..i + 1])| == |Flatten(gs[..i])| + |gs[i].rows|
    ensures var m := gs[i].head;
      Responses(Page(gs[..i + 1], skip, take))
        == Responses(Page(gs[..i], skip, take))
           + (if |pairs| > 0 then [MatchResponse(m.data.gameType, m.data.matchType, m.data.maxMmrGap, pairs)] else [])
  {
    var kept := Kept(gs[i].rows, |Flatten(gs[..i])|, skip, take);
    PrefixSnoc(gs, i);
    FlattenSnoc(gs[..i], gs[i]);
    PageSnoc(gs[..i], gs[i], skip, take);
    var page := Page(gs[..i], skip, take);
    assert Page(gs[..i + 1], skip, take) == page + (if kept == [] then [] else [Group(gs[i].head, kept)]);
    if |pairs| > 0 {
      ResponsesSnoc(page, Group(gs[i].head, kept));
    } else {
      assert kept == [];
    }
  }

  class MatchPairRepository {
    const store: Repository<PairData>
    const matchRepository: MatchRepository

    constructor (store: Repository<PairData>, matchRepository: MatchRepository)
      ensures this.store == store && this.matchRepository == matchRepository
    {
      this.store := store;
      this.matchRepository := matchRepository;
    }

    /**
     * The inner loop of `QueryByRequest` over one definition's pairs: count each
     * pair, report it once more than `skip` are counted, and stop when `take`
     * are reported.
     */
    static method CollectPairs(rows: seq<MatchPair>, skip: int, take: nat, enumerated: nat, yielded: nat)
      returns (pairs: seq<MatchPairResponse>, enumeratedAfter: nat, yieldedAfter: nat)
      requires enumerated <= EffectiveSkip(skip) ==> yielded == 0
      requires enumerated > EffectiveSkip(skip) ==> yielded == enumerated - EffectiveSkip(skip)
      requires yielded < take
      ensures pairs == PairResponses(Kept(rows, enumerated, EffectiveSkip(skip), take))
      ensures enumeratedAfter <= EffectiveSkip(skip) ==> yieldedAfter == 0
      ensures enumeratedAfter > EffectiveSkip(skip) ==> yieldedAfter == enumeratedAfter - EffectiveSkip(skip)
      ensures yieldedAfter <= take
      ensures yieldedAfter < take ==> enumeratedAfter == enumerated + |rows|
      ensures yieldedAfter == take ==> enumerated < enumeratedAfter <= enumerated + |rows|
    {
      ghost var s := EffectiveSkip(skip);
      enumeratedAfter, yieldedAfter := enumerated, yielded;
      pairs := [];
      for j := 0 to |rows|
        invariant enumeratedAfter == enumerated + j
        invariant enumeratedAfter <= s ==> yieldedAfter == 0
        invariant enumeratedAfter > s ==> yieldedAfter == enumeratedAfter - s
        invariant yieldedAfter < take
        invariant pairs == PairResponses(KeptSoFar(rows, enumerated, s, take, j))
      {
        var matchPair := rows[j];
        enumeratedAfter := enumeratedAfter + 1;
        if enumeratedAfter <= skip {
          KeptSoFarSkip(rows, enumerated, s, take, j);
          continue;
        }
        KeptSoFarKeep(rows, enumerated, s, take, j);
        PairResponsesSnoc(KeptSoFar(rows, enumerated, s, take, j), matchPair);
        pairs := pairs + [PairResponse(matchPair)];
        yieldedAfter := yieldedAfter + 1;
        if yieldedAfter >= take {
          KeptSoFarDone(rows, enumerated, s, take, j + 1);
          return;
        }
      }
      KeptSoFarDone(rows, enumerated, s, take, |rows|);
    }

    /**
     * `QueryByRequest`: walk the selected definitions and their pairs, count every
     * pair, report the ones past the skip, and stop once `take` are reported.
     */
    method QueryByRequest(byUserId: Option<Guid>, query: QueryMatchesRequest) returns (responses: seq<MatchResponse>)
      ensures responses == QueryResult(matchRepository.store.models, store.models, byUserId, query)
    {
      var matches := Heads(matchRepository.store.models, query);
      responses := Report(matches, store.models, byUserId, query.skip, query.take);
    }

    /** The outer loop of `QueryByRequest`, over the selected definitions. */
    static method Report(matches: seq<Match>, pairModels: Store<PairData>, byUserId: Option<Guid>, skip: int, take: int)
      returns (responses: seq<MatchResponse>)
      ensures responses == Responses(Page(Groups(matches, pairModels, byUserId), EffectiveSkip(skip), EffectiveTake(take)))
    {
      var yielded := 0;
      var enumerated := 0;
      var pageSize := if take > 0 then take else DefaultTake;

      ghost var s := EffectiveSkip(skip);
      ghost var gs := Groups(matches, pairModels, byUserId);
      responses := [];
      for i := 0 to |matches|
        invariant enumerated == |Flatten(gs[..i])|
        invariant enumerated <= s ==> yielded == 0
        invariant enumerated > s ==> yielded == enumerated - s
        invariant yielded < pageSize
        invariant responses == Responses(Page(gs[..i], s, pageSize))
      {
        var m := matches[i];
        var rows := Rows(pairModels, byUserId, m.id);
        responses, enumerated, yielded := ReportGroup(gs, i, m, rows, skip, pageSize, enumerated, yielded, responses);
        if yielded >= pageSize {
          PageStable(gs, i + 1, s, pageSize);
          return;
        }
      }
      assert gs[..|matches|] == gs;
    }

    /**
     * One pass of the outer loop: walk the pairs of definition `m`, and report
     * them under `m` when any are kept.
     */
    static method ReportGroup(ghost gs: seq<Group<Match, MatchPair>>, ghost i: nat, m: Match, rows: seq<MatchPair>, skip: int,
                              pageSize: nat, enumerated: nat, yielded: nat, responses: seq<MatchResponse>)
      returns (responsesAfter: seq<MatchResponse>, enumeratedAfter: nat, yieldedAfter: nat)
      requires i < |gs| && gs[i] == Group(m, rows)
      requires enumerated == |Flatten(gs[..i])|
      requires enumerated <= EffectiveSkip(skip) ==> yielded == 0
      requires enumerated > EffectiveSkip(skip) ==> yielded == enumerated - EffectiveSkip(skip)
      requires yielded < pageSize
      requires responses == Responses(Page(gs[..i], EffectiveSkip(skip), pageSize))
      ensures responsesAfter == Responses(Page(gs[..i + 1], EffectiveSkip(skip), pageSize))
      ensures yieldedAfter <= pageSize
      ensures yieldedAfter < pageSize ==>
        && enumeratedAfter == |Flatten(gs[..i + 1])|
        && (enumeratedAfter <= EffectiveSkip(skip) ==> yieldedAfter == 0)
        && (enumeratedAfter > EffectiveSkip(skip) ==> yieldedAfter == enumeratedAfter - EffectiveSkip(skip))
      ensures yieldedAfter == pageSize ==> |Flatten(gs[..i + 1])| >= EffectiveSkip(skip) + pageSize
    {
      var pairs;
      pairs, enumeratedAfter, yieldedAfter := CollectPairs(rows, skip, pageSize, enumerated, yielded);
      ReportStep(gs, i, EffectiveSkip(skip), pageSize, pairs);
      responsesAfter := responses;
      if |pairs| > 0 {
        responsesAfter := responsesAfter + [MatchResponse(m.data.gameType, m.data.matchType, m.data.maxMmrGap, pairs)];
      }
    }
  }
}
