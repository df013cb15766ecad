# steam-top request handler, modelled in Dafny

The service serves one endpoint, `/top5`. Each request asks Steam for the
most-played ranking. It takes the first ten ranked apps. For each app in
turn it fetches the store details and, if they name the game, the live
player count. It sorts the merged records by player count, most players
first, and serves them as a JSON array, or as the JSON literal `null` when
no app was kept (see Findings). A failed ranking fetch or decode
gives a 500 reply. A failed details lookup skips that app. A failed count
lookup counts as 0 players.

The model is a pure function from the upstream answers to the reply. Every
HTTP GET plus JSON decode is one input value of type
`Fetch<T> = TransportFailed | DecodeFailed | Decoded(T)`. The ranking is one
such value. The details and count answers are functions of the position `k`
of the app in the ranking: the answers to the requests made for the k-th
ranked app.

Modules:

- `SteamApi` (steam_api.dfy): the records `MostPlayedResponse`, `GameDetails`,
  `GameInfo` and the live-count answer; the `Upstream` answers of one
  request; the outbound `Call`s.
- `Decimal` (decimal.dfy): `fmt.Sprintf("%d", appid)`, the key under which
  the details answer is filed, with its inverse.
- `Players` (players.dfy): `getCurrentPlayers`, which turns a failed lookup
  into 0.
- `Enrichment` (enrichment.dfy): the per-app loop. `EnrichRange` is the
  reference definition of the records accumulated. `CallsRange` lists the
  requests issued. `RunEnrichment` is the loop itself.
- `PlayerOrder` (player_order.dfy): the sort by player count.
- `Handler` (handler.dfy): the handler. `HandleAsWritten` follows the code,
  including its panic. `Handle` is the intended variant (see Findings).
  `Calls` lists the requests of the intended handler; on a ranking shorter
  than ten the source makes only the ranking request and then panics.
- `Wrappers` (wrappers.dfy): `Option`.

The comment on main.go:84 says the slice limits the handler to ten games
for performance, that is, at most ten. The slice itself panics when the
ranking holds fewer than ten apps. The model follows the code in
`HandleAsWritten` and states the limit-to-at-most-ten behaviour in `Handle`.
Its `Panicked` outcome stands for what `net/http` does with a handler panic:
it recovers, logs it and closes the connection, so the client gets no reply.

## Model

| member | source | states |
|---|---|---|
| Decimal.FormatParseRoundTrip | main.go:105 | the decimal key of an appid reads back as that appid |
| Decimal.FormatIntInjective | main.go:105 | two appids have the same details key exactly when they are equal, so an app's lookup never picks up another app's entry |
| Decimal.DigitsRoundTrip | main.go:105 | the digits `%d` writes for a non-negative number denote that number |
| Decimal.Digits | main.go:105 | `%d` writes at least one decimal digit and no leading zero |
| Decimal.FormatInt | main.go:105 | `%d` writes a minus sign exactly for negative numbers, then decimal digits |
| Enrichment.EnrichRange | main.go:84-114 | the loop over n ranked apps yields at most n records, and every record has a non-empty name |
| Enrichment.RunEnrichment | main.go:85-114 | the source's loop, step by step, accumulates exactly the reference records and issues exactly the reference requests |
| Enrichment.EnrichRangeMembers | main.go:97-112 | a record is accumulated if and only if some ranked position has decoded details holding its appid's key with a non-empty name, the record copies name, appid and image from that `data` object, and its count is the decoded live count or 0 |
| Enrichment.EnrichRangeSplit | main.go:85-114 | records accumulate in ranking order: the records of a range are those of its first part followed by those of the rest |
| Enrichment.CallsRangeSplit | main.go:88-106 | requests are issued in ranking order: the requests of a range are those of its first part followed by those of the rest |
| Enrichment.EnrichRangeAround | main.go:88-114 | the records of the first n apps are those before app j, app j's own record if it is not skipped, then those after it |
| Enrichment.EnrichRangeFrame | main.go:88-114 | the records and requests depend only on the ranked apps in range and on the answers for those positions |
| Enrichment.FailedDetailsNoItem | main.go:90-103 | an app whose details request or decoding fails yields no record |
| Enrichment.DetailsFailureSkipsOnlyThatItem | main.go:88-103 | a failed details lookup for one app removes that app's record and leaves every record before and after it unchanged |
| Enrichment.CountFailureKeepsItemWithZero | main.go:44-63 | when the details are accepted but the live-count lookup fails, the loop still accumulates the app's record, with 0 players (the value `Players.CurrentPlayers` gives a failed lookup) and its details' name, appid and image |
| Enrichment.DetailsCallsPerPosition | main.go:88-90 | the loop makes as many details requests as it considers apps |
| Enrichment.DetailsCallsInRankingOrder | main.go:88-90 | the loop's details requests go, in ranking order, to the appid of each considered app in turn: the i-th details request is for the i-th app in range |
| Enrichment.DetailsCallFor | main.go:88-90 | a details request for an appid is made if and only if some considered position ranks that appid |
| Enrichment.PlayersCallsPerRecord | main.go:105-106 | the loop makes exactly as many live-count requests as it keeps records |
| Enrichment.NoRankingCallsInLoop | main.go:88-114 | the loop never requests the ranking again |
| Enrichment.CallsAccounting | main.go:88-106 | split by endpoint, the loop makes as many details requests as apps considered, as many count requests as records kept, no ranking request, and nothing else (which apps the details requests go to: `Enrichment.DetailsCallsInRankingOrder`) |
| Enrichment.NoDetailsNoRecords | main.go:90-103 | when every details lookup in range fails, no record is kept |
| Enrichment.CountCallsOnlyForAccepted | main.go:105-106 | a live-count request for an appid is made if and only if some position with that appid had its details accepted |
| PlayerOrder.SortByPlayers | main.go:117-119 | the sorted list has no entry with more players than an earlier one and holds exactly the same entries with the same multiplicities |
| PlayerOrder.SortKeepsEntries | main.go:117-119 | sorting neither adds nor drops an entry, and each entry occurs as many times after sorting as before |
| PlayerOrder.SortedArrangementsAgreeOnCounts | main.go:117-119 | the unstable sort leaves only the order among equal counts open: two sorted arrangements of the same entries have the same count at every position |
| Handler.Handle | main.go:71-119 | a transport failure of the ranking gives a 500 "fetch" error, a decode failure a 500 "decode" error; a decoded ranking gives a 200 JSON array (never `null`) of at most ten records, sorted by players, all with names, and exactly the enriched records of the first min(10, n) apps |
| Handler.HandleAsWritten | main.go:84-123 | the source's handler panics exactly when the ranking decoded with fewer than ten apps; otherwise it serves `null` exactly when the intended handler serves an empty array, and replies as the intended handler does in every other case |
| Handler.CallBudget | main.go:71-106 | in the intended handler, the ranking request comes first and is made once; then, split by endpoint, as many details requests as apps considered and as many count requests as records served, so at most ten of each and at most 21 in all; only the ranking request when it fails |
| Handler.DetailsRequestsFollowRanking | main.go:84-90 | in the intended handler, the i-th details request is for the i-th ranked app, one for each of the first min(10, n) apps, and a details request for an appid is made if and only if one of those apps has it |
| Handler.ServedIff | main.go:97-112 | a record is served if and only if one of the first ten ranked apps admits it (decoded details under its key, non-empty name, fields copied from `data`, count from the live lookup or 0) |
| Handler.ShortRankingServesAll | main.go:84-88 | in the intended handler, a ranking with fewer than ten apps has all of its apps considered |
| Handler.OnlyFirstTenConsidered | main.go:84-88 | apps ranked after the tenth, and the answers about them, change neither the reply nor the requests |
| Handler.CountFailureServedWithZero | main.go:44-63 | in the intended handler, an app among the first min(10, n) whose details are accepted but whose live-count lookup fails is served, with 0 players and its details' name, appid and image |
| Handler.AnySortedReplyAgreesOnCounts | main.go:117-119 | any sorted arrangement of the enriched records has, position by position, the counts of the reply |
| Handler.ThreeRankedScenario | main.go:84-119 | ranking [1,2,3] with app 2's details failing and counts 50 and 10: the source panics, and the intended handler serves A (50) then C (10) |
| Handler.NothingAcceptedScenario | main.go:85-123 | ten ranked apps whose details lookups all fail: the source serves `null`, the intended handler an empty JSON array |

## Left out

- HTTP transport, URL formatting and `resp.Body.Close`: every GET is an input `Fetch` value. The deferred close inside the loop (main.go:95) only affects when connections are released.
- JSON decoding and encoding: decoded values are inputs. A missing `player_count` decodes as 0 in Go; the model folds that into the decoded value.
- The 500 reply when encoding the response fails (main.go:122-126): it depends on writer I/O and on what was already flushed.
- Response headers and the text of the 500 bodies: the model keeps only which of the two failures occurred.
- `init`, `.env` loading, `STEAM_API_KEY`, the `PORT` default and `ListenAndServe`: process bootstrap. The API key only enters URLs.
- Logging: side effects only.
- Concurrency between requests: `net/http` runs handlers independently, with no shared state.
- Integer width: Go's `int` is 64 bits on 64-bit platforms (32 bits on 32-bit ones) and a number outside that range fails decoding. The model uses unbounded integers. It only copies, compares and prints them, so the width changes nothing.
- Handler.HandleAsWritten: panics for every ranking shorter than ten. Go allows `s[:10]` when the slice's capacity is at least 10 even if its length is shorter. Whether the JSON decoder leaves such spare capacity depends on the Go release, so that case is not modelled.
- PlayerOrder.SortByPlayers: it is one concrete sort, an insertion sort. The handler's contract promises only sortedness and permutation, which is what `sort.Slice` guarantees. The exact tie order Go produces is not modelled.

## Findings

| source | as written | input that shows it | evidently intended | confidence | as-written member | corrected member |
|---|---|---|---|---|---|---|
| main.go:84 | `mostPlayed.Response.Ranks[:10]` slices ten entries unconditionally, which panics when the ranking holds fewer than ten apps | a decoded ranking of three apps, [1, 2, 3] (`Handler.ThreeRanked`) | consider the first min(10, len) apps | high; not executed | Handler.HandleAsWritten, Handler.ThreeRankedScenario | Handler.Handle, Handler.ShortRankingServesAll |
| main.go:85-123 | `var enrichedGames []GameInfo` stays nil when every app is skipped, and encoding a nil slice writes `null` instead of an array | ten ranked apps whose details lookups all fail (`Handler.NothingAccepted`) | serve an empty JSON array, so that clients always receive an array | medium; not executed | Handler.HandleAsWritten, Handler.NothingAcceptedScenario | Handler.Handle, Handler.NothingAcceptedScenario |
