/**
 * The records the handler exchanges with the three Steam endpoints and with
 * its own client, and the answers those endpoints give within one request.
 * Each HTTP GET followed by its JSON decoding is one `Fetch`: it either fails
 * in transport, fails to decode, or yields the decoded value.
 */
module SteamApi {

  datatype Fetch<+T> = TransportFailed | DecodeFailed | Decoded(value: T)

  /** One entry of `response.ranks` in the most-played answer. */
  datatype RankedApp = RankedApp(appId: int)

  /** The most-played answer, with the `response` wrapper object flattened. */
  datatype MostPlayedResponse = MostPlayedResponse(ranks: seq<RankedApp>)

  /** The `data` object of a store details answer. */
  datatype GameDetails = GameDetails(name: string, steamAppId: int, headerImage: string)

  datatype DetailsEnvelope = DetailsEnvelope(data: GameDetails)

  /** A store details answer: an object keyed by the decimal appid. */
  type DetailsResponse = map<string, DetailsEnvelope>

  /** The current-players answer, with the `response` wrapper object flattened. */
  datatype PlayerCountResponse = PlayerCountResponse(playerCount: int)

  /** One element of the JSON array the handler serves. */
  datatype GameInfo = GameInfo(name: string, steamAppId: int, headerImage: string, currentPlayers: int)

  /**
   * What the upstream services answer during one request. `details(k)` and
   * `players(k)` answer the requests the handler makes for the k-th ranked
   * app (counting from 0); answers for requests never made are ignored.
   */
  datatype Upstream = Upstream(
    ranking: Fetch<MostPlayedResponse>,
    details: nat -> Fetch<DetailsResponse>,
    players: nat -> Fetch<PlayerCountResponse>)

  /** An outbound HTTP request, in the order the handler issues them. */
  datatype Call = RankingCall | DetailsCall(appId: int) | PlayersCall(appId: int) {
    /** Which endpoint the request goes to. */
    function Kind(): CallKind {
      match this
      case RankingCall => ToRanking
      case DetailsCall(_) => ToDetails
      case PlayersCall(_) => ToPlayers
    }
  }

  datatype CallKind = ToRanking | ToDetails | ToPlayers

  /** How many of `calls` go to the endpoint `kind`. */
  function CountCalls(calls: seq<Call>, kind: CallKind): (n: nat)
    ensures n <= |calls|
  {
    if |calls| == 0 then 0
    else CountCalls(calls[..|calls| - 1], kind) + if calls[|calls| - 1].Kind() == kind then 1 else 0
  }

  /** Counting requests distributes over issuing one batch after another. */
  lemma {:induction false} CountCallsAppend(a: seq<Call>, b: seq<Call>, kind: CallKind)
    ensures CountCalls(a + b, kind) == CountCalls(a, kind) + CountCalls(b, kind)
    decreases |b|
  {
    if |b| > 0 {
      var b' := b[..|b| - 1];
      assert (a + b)[..|a + b| - 1] == a + b';
      CountCallsAppend(a, b', kind);
    } else {
      assert a + b == a;
    }
  }

  /** Every request goes to exactly one of the three endpoints. */
  lemma {:induction false} KindsPartition(calls: seq<Call>)
    ensures CountCalls(calls, ToRanking) + CountCalls(calls, ToDetails) + CountCalls(calls, ToPlayers) == |calls|
    decreases |calls|
  {
    if |calls| > 0 {
      KindsPartition(calls[..|calls| - 1]);
    }
  }

  /** The appids of the details requests among `calls`, in the order issued. */
  function DetailsTargets(calls: seq<Call>): (ids: seq<int>)
    ensures |ids| == CountCalls(calls, ToDetails)
  {
    if |calls| == 0 then []
    else
      var last := calls[|calls| - 1];
      DetailsTargets(calls[..|calls| - 1]) + if last.DetailsCall? then [last.appId] else []
  }

  /** Listing details targets distributes over issuing one batch after another. */
  lemma {:induction false} DetailsTargetsAppend(a: seq<Call>, b: seq<Call>)
    ensures DetailsTargets(a + b) == DetailsTargets(a) + DetailsTargets(b)
    decreases |b|
  {
    if |b| > 0 {
      var b' := b[..|b| - 1];
      assert (a + b)[..|a + b| - 1] == a + b';
      DetailsTargetsAppend(a, b');
    } else {
      assert a + b == a;
    }
  }

  /** An appid is a details target exactly when a details request for it was issued. */
  lemma {:induction false} DetailsTargetsMembers(calls: seq<Call>, a: int)
    ensures DetailsCall(a) in calls <==> a in DetailsTargets(calls)
    decreases |calls|
  {
    if |calls| > 0 {
      var init := calls[..|calls| - 1];
      DetailsTargetsMembers(init, a);
      assert calls == init + [calls[|calls| - 1]];
    }
  }
}
