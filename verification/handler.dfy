/**
 * The `/top5` request handler: fetch the most-played ranking, enrich its
 * first ten apps, sort them by live count and serve them as JSON; answer
 * 500 when the ranking cannot be fetched or decoded.
 *
 * `HandleAsWritten` models the source's `Ranks[:10]`, which panics when the
 * ranking holds fewer than ten apps; `Handle` is the intended behaviour,
 * which considers the first min(10, |ranks|) apps.
 */
module Handler {
  import opened Wrappers
  import opened SteamApi
  import opened Enrichment
  import opened PlayerOrder

  /** How many ranked apps the handler enriches at most. */
  const TopLimit: nat := 10

  const StatusOK: int := 200
  const StatusInternalServerError: int := 500

  /** Why the handler answered with a server error. */
  datatype Failure = RankingFetchFailed | RankingDecodeFailed

  /**
   * A reply: a 500 error, a JSON array of records, or the JSON literal
   * `null`, which Go's encoder writes for a slice that was never appended to.
   */
  datatype Reply = InternalServerError(reason: Failure) | Json(games: seq<GameInfo>) | JsonNull

  /** The outcome of the handler as written: a reply, or a runtime panic. */
  datatype Outcome = Replied(reply: Reply) | Panicked

  function StatusCode(r: Reply): int {
    match r
    case InternalServerError(_) => StatusInternalServerError
    case Json(_) => StatusOK
    case JsonNull => StatusOK
  }

  /** The number of ranked apps the intended handler enriches. */
  function Considered(ranks: seq<RankedApp>): nat {
    if |ranks| < TopLimit then |ranks| else TopLimit
  }

  /** The intended handler: truncates the ranking to at most ten apps. */
  function Handle(up: Upstream): (r: Reply)
    ensures up.ranking.TransportFailed? <==> r == InternalServerError(RankingFetchFailed)
    ensures up.ranking.DecodeFailed? <==> r == InternalServerError(RankingDecodeFailed)
    ensures up.ranking.Decoded? <==> r.Json?
    ensures StatusCode(r) == StatusInternalServerError <==> !up.ranking.Decoded?
    ensures up.ranking.Decoded? ==>
      var ranks := up.ranking.value.ranks;
      && |r.games| <= TopLimit
      && |r.games| <= |ranks|
      && SortedByPlayers(r.games)
      && (forall g :: g in r.games ==> g.name != "")
      && multiset(r.games) == multiset(EnrichRange(ranks, 0, Considered(ranks), up))
  {
    match up.ranking
    case TransportFailed => InternalServerError(RankingFetchFailed)
    case DecodeFailed => InternalServerError(RankingDecodeFailed)
    case Decoded(mostPlayed) =>
      var ranks := mostPlayed.ranks;
      var games := SortByPlayers(EnrichRange(ranks, 0, Considered(ranks), up));
      assert forall g :: g in games ==> g.name != "" by {
        forall g | g in games ensures g.name != "" {
          SortKeepsEntries(EnrichRange(ranks, 0, Considered(ranks), up), g);
        }
      }
      Json(games)
  }

  /**
   * The handler as the source writes it: `Ranks[:10]` panics on a shorter
   * ranking, and when no app is kept the nil result is served as `null`.
   */
  function HandleAsWritten(up: Upstream): (o: Outcome)
    ensures o.Panicked? <==> up.ranking.Decoded? && |up.ranking.value.ranks| < TopLimit
    ensures o.Replied? ==> (o.reply == JsonNull <==> Handle(up) == Json([]))
    ensures o.Replied? && o.reply != JsonNull ==> o.reply == Handle(up)
  {
    match up.ranking
    case TransportFailed => Replied(InternalServerError(RankingFetchFailed))
    case DecodeFailed => Replied(InternalServerError(RankingDecodeFailed))
    case Decoded(mostPlayed) =>
      if |mostPlayed.ranks| < TopLimit then Panicked
      else
        var top := mostPlayed.ranks[..TopLimit];
        EnrichRangeFrame(top, mostPlayed.ranks, 0, TopLimit, up, up);
        var games := SortByPlayers(EnrichRange(top, 0, |top|, up));
        if |games| == 0 then Replied(JsonNull) else Replied(Json(games))
  }

  /**
   * The outbound requests of the intended handler, in the order issued. On
   * a ranking shorter than ten the source makes only the ranking request
   * before it panics.
   */
  function Calls(up: Upstream): seq<Call> {
    [RankingCall] +
      match up.ranking
      case Decoded(mostPlayed) => CallsRange(mostPlayed.ranks, 0, Considered(mostPlayed.ranks), up)
      case _ => []
  }

  /**
   * The ranking request comes first and is made once; then one details
   * request per considered app and one count request per served record,
   * so at most ten of each and 1 + 2 * 10 requests in all.
   */
  lemma {:induction false} CallBudget(up: Upstream)
    ensures Calls(up)[0] == RankingCall
    ensures CountCalls(Calls(up), ToRanking) == 1
    ensures CountCalls(Calls(up), ToDetails) <= TopLimit
    ensures CountCalls(Calls(up), ToPlayers) <= TopLimit
    ensures |Calls(up)| <= 1 + 2 * TopLimit
    ensures !up.ranking.Decoded? ==> Calls(up) == [RankingCall]
    ensures up.ranking.Decoded? ==>
      && CountCalls(Calls(up), ToDetails) == Considered(up.ranking.value.ranks)
      && CountCalls(Calls(up), ToPlayers) == |Handle(up).games|
      && |Calls(up)| == 1 + Considered(up.ranking.value.ranks) + |Handle(up).games|
  {
    var rest := Calls(up)[1..];
    assert Calls(up) == [RankingCall] + rest;
    assert [RankingCall][..0] == [];
    CountCallsAppend([RankingCall], rest, ToRanking);
    CountCallsAppend([RankingCall], rest, ToDetails);
    CountCallsAppend([RankingCall], rest, ToPlayers);
    if up.ranking.Decoded? {
      var ranks := up.ranking.value.ranks;
      CallsAccounting(ranks, 0, Considered(ranks), up);
      assert |Handle(up).games| == |EnrichRange(ranks, 0, Considered(ranks), up)| by {
        assert |multiset(Handle(up).games)| == |multiset(EnrichRange(ranks, 0, Considered(ranks), up))|;
      }
    }
  }

  /**
   * In the intended handler the details requests follow the ranking: one
   * per considered app, in ranking order, each for that app's appid, and
   * none for an appid that is not among the considered apps.
   */
  lemma {:induction false} DetailsRequestsFollowRanking(up: Upstream, a: int)
    requires up.ranking.Decoded?
    ensures |DetailsTargets(Calls(up))| == Considered(up.ranking.value.ranks)
    ensures forall i :: 0 <= i < Considered(up.ranking.value.ranks) ==>
      DetailsTargets(Calls(up))[i] == up.ranking.value.ranks[i].appId
    ensures DetailsCall(a) in Calls(up) <==>
      exists k :: 0 <= k < Considered(up.ranking.value.ranks) && up.ranking.value.ranks[k].appId == a
  {
    var ranks := up.ranking.value.ranks;
    var n := Considered(ranks);
    LoopDetailsAfterRanking(up, a);
    DetailsCallsInRankingOrder(ranks, 0, n, up);
    DetailsCallFor(ranks, 0, n, up, a);
  }

  /** The ranking request adds no details target: those of the handler are the loop's. */
  lemma {:induction false} LoopDetailsAfterRanking(up: Upstream, a: int)
    requires up.ranking.Decoded?
    ensures DetailsTargets(Calls(up))
         == DetailsTargets(CallsRange(up.ranking.value.ranks, 0, Considered(up.ranking.value.ranks), up))
    ensures DetailsCall(a) in Calls(up)
        <==> DetailsCall(a) in CallsRange(up.ranking.value.ranks, 0, Considered(up.ranking.value.ranks), up)
  {
    var rest := CallsRange(up.ranking.value.ranks, 0, Considered(up.ranking.value.ranks), up);
    assert Calls(up) == [RankingCall] + rest;
    assert [RankingCall][..0] == [];
    DetailsTargetsAppend([RankingCall], rest);
  }

  /**
   * A record is served exactly when one of the first ten ranked apps
   * admits it: details decoded under its key with a non-empty name, fields
   * copied from that data, count from the live lookup or 0.
   */
  lemma {:induction false} ServedIff(up: Upstream, g: GameInfo)
    requires up.ranking.Decoded?
    ensures g in Handle(up).games <==>
      exists k :: 0 <= k < Considered(up.ranking.value.ranks) && Admitted(up.ranking.value.ranks, k, up, g)
  {
    var ranks := up.ranking.value.ranks;
    var enriched := EnrichRange(ranks, 0, Considered(ranks), up);
    EnrichRangeMembers(ranks, 0, Considered(ranks), up, g);
    assert g in Handle(up).games <==> g in multiset(Handle(up).games);
    assert g in enriched <==> g in multiset(enriched);
  }

  /** With fewer than ten ranked apps, every one of them is considered, none is out of range. */
  lemma {:induction false} ShortRankingServesAll(up: Upstream, g: GameInfo)
    requires up.ranking.Decoded? && |up.ranking.value.ranks| < TopLimit
    ensures g in Handle(up).games <==>
      exists k :: 0 <= k < |up.ranking.value.ranks| && Admitted(up.ranking.value.ranks, k, up, g)
  {
    ServedIff(up, g);
  }

  /**
   * An app among the first ten whose details are accepted but whose live
   * count cannot be fetched or decoded is still served, with 0 players.
   */
  lemma {:induction false} CountFailureServedWithZero(up: Upstream, k: nat)
    requires up.ranking.Decoded? && k < Considered(up.ranking.value.ranks)
    requires AcceptedDetails(up.ranking.value.ranks[k].appId, up.details(k)).Some?
    requires !up.players(k).Decoded?
    ensures
      var d := AcceptedDetails(up.ranking.value.ranks[k].appId, up.details(k)).value;
      GameInfo(d.name, d.steamAppId, d.headerImage, 0) in Handle(up).games
  {
    var ranks := up.ranking.value.ranks;
    var d := AcceptedDetails(ranks[k].appId, up.details(k)).value;
    var g := GameInfo(d.name, d.steamAppId, d.headerImage, 0);
    ServedIff(up, g);
    assert Admitted(ranks, k, up, g);
  }

  /**
   * Whatever order an unstable sort leaves among equal counts, the served
   * list has the same count at every position as `Handle`'s.
   */
  lemma {:induction false} AnySortedReplyAgreesOnCounts(up: Upstream, games: seq<GameInfo>)
    requires up.ranking.Decoded?
    requires SortedByPlayers(games)
    requires multiset(games) == multiset(EnrichRange(up.ranking.value.ranks, 0, Considered(up.ranking.value.ranks), up))
    ensures |games| == |Handle(up).games|
    ensures forall i :: 0 <= i < |games| ==> games[i].currentPlayers == Handle(up).games[i].currentPlayers
  {
    SortedArrangementsAgreeOnCounts(games, Handle(up).games);
  }

  /** Apps ranked after the tenth, and the answers about them, never affect the reply. */
  lemma {:induction false} OnlyFirstTenConsidered(up: Upstream, up': Upstream)
    requires up.ranking.Decoded? && up'.ranking.Decoded?
    requires |up.ranking.value.ranks| >= TopLimit && |up'.ranking.value.ranks| >= TopLimit
    requires up.ranking.value.ranks[..TopLimit] == up'.ranking.value.ranks[..TopLimit]
    requires forall k: nat :: k < TopLimit ==> up.details(k) == up'.details(k)
    requires forall k: nat :: k < TopLimit ==> up.players(k) == up'.players(k)
    ensures Handle(up) == Handle(up')
    ensures Calls(up) == Calls(up')
  {
    var ranks := up.ranking.value.ranks;
    var ranks' := up'.ranking.value.ranks;
    forall k | 0 <= k < TopLimit ensures ranks[k] == ranks'[k] {
      assert ranks[k] == ranks[..TopLimit][k];
    }
    EnrichRangeFrame(ranks, ranks', 0, TopLimit, up, up');
  }

  /** The ranking of three apps, where the second app's details cannot be fetched. */
  function ThreeRanked(): Upstream {
    Upstream(
      Decoded(MostPlayedResponse([RankedApp(1), RankedApp(2), RankedApp(3)])),
      (k: nat) =>
        if k == 0 then Decoded(map["1" := DetailsEnvelope(GameDetails("A", 1, "a.jpg"))])
        else if k == 2 then Decoded(map["3" := DetailsEnvelope(GameDetails("C", 3, "c.jpg"))])
        else TransportFailed,
      (k: nat) =>
        if k == 0 then Decoded(PlayerCountResponse(50))
        else if k == 2 then Decoded(PlayerCountResponse(10))
        else TransportFailed)
  }

  /**
   * With three ranked apps the source panics instead of serving, while the
   * intended handler serves A (50 players) then C (10 players), without B.
   */
  lemma {:induction false} ThreeRankedScenario()
    ensures HandleAsWritten(ThreeRanked()) == Panicked
    ensures Handle(ThreeRanked()) ==
      Json([GameInfo("A", 1, "a.jpg", 50), GameInfo("C", 3, "c.jpg", 10)])
  {
    var up := ThreeRanked();
    var ranks := up.ranking.value.ranks;
    assert DetailsKey(1) == "1" && DetailsKey(3) == "3";
    var a := GameInfo("A", 1, "a.jpg", 50);
    var c := GameInfo("C", 3, "c.jpg", 10);
    assert ItemAt(ranks, 0, up) == Some(a);
    assert ItemAt(ranks, 1, up) == None;
    assert ItemAt(ranks, 2, up) == Some(c);
    assert EnrichRange(ranks, 0, 1, up) == [a];
    assert EnrichRange(ranks, 0, 2, up) == [a];
    assert EnrichRange(ranks, 0, 3, up) == [a, c];
    assert SortByPlayers([c]) == [c];
    assert [a, c][1..] == [c];
    assert SortByPlayers([a, c]) == [a, c];
  }

  /** Ten ranked apps whose details lookups all fail. */
  function NothingAccepted(): Upstream {
    Upstream(
      Decoded(MostPlayedResponse(seq(10, i => RankedApp(i + 1)))),
      (k: nat) => TransportFailed,
      (k: nat) => TransportFailed)
  }

  /**
   * When no app is kept the source serves `null` rather than an empty
   * JSON array; the intended handler serves the empty array.
   */
  lemma {:induction false} NothingAcceptedScenario()
    ensures HandleAsWritten(NothingAccepted()) == Replied(JsonNull)
    ensures Handle(NothingAccepted()) == Json([])
  {
    var up := NothingAccepted();
    var ranks := up.ranking.value.ranks;
    assert |ranks| == TopLimit && Considered(ranks) == TopLimit;
    assert ranks[..TopLimit] == ranks;
    NoDetailsNoRecords(ranks, 0, TopLimit, up);
    assert |SortByPlayers(EnrichRange(ranks, 0, TopLimit, up))| == 0;
  }
}
