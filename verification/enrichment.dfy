/**
 * The per-app loop of the handler: for each ranked app in turn, look up its
 * store details, skip it unless the answer decoded, holds the app's key and
 * names the game, and otherwise look up its live count and append the
 * merged record. `EnrichRange` is the reference definition of what the loop
 * accumulates over positions lo..hi-1 of the ranking, and `CallsRange` the
 * requests it issues; `RunEnrichment` is the loop itself.
 */
module Enrichment {
  import opened Wrappers
  import opened SteamApi
  import Decimal
  import Players

  /** The key under which the details answer for `appId` is filed. */
  function DetailsKey(appId: int): string {
    Decimal.FormatInt(appId)
  }

  /**
   * The details the handler accepts for `appId`: none when the request or
   * its decoding failed, when the answer lacks the app's key, or when the
   * name is empty.
   */
  function AcceptedDetails(appId: int, answer: Fetch<DetailsResponse>): Option<GameDetails>
  {
    match answer
    case Decoded(m) =>
      var key := DetailsKey(appId);
      if key in m && m[key].data.name != "" then Some(m[key].data) else None
    case TransportFailed => None
    case DecodeFailed => None
  }

  /** The record served for the k-th ranked app, if it is not skipped. */
  function ItemAt(ranks: seq<RankedApp>, k: nat, up: Upstream): Option<GameInfo>
    requires k < |ranks|
  {
    match AcceptedDetails(ranks[k].appId, up.details(k))
    case None => None
    case Some(d) =>
      Some(GameInfo(d.name, d.steamAppId, d.headerImage, Players.CurrentPlayers(up.players(k))))
  }

  /** The requests made for the k-th ranked app: details, then the count only if details were accepted. */
  function ItemCalls(ranks: seq<RankedApp>, k: nat, up: Upstream): seq<Call>
    requires k < |ranks|
  {
    var appId := ranks[k].appId;
    [DetailsCall(appId)] + if AcceptedDetails(appId, up.details(k)).Some? then [PlayersCall(appId)] else []
  }

  /** The records accumulated for positions lo..hi-1, in ranking order. */
  function EnrichRange(ranks: seq<RankedApp>, lo: nat, hi: nat, up: Upstream): (games: seq<GameInfo>)
    requires lo <= hi <= |ranks|
    ensures |games| <= hi - lo
    ensures forall g :: g in games ==> g.name != ""
    decreases hi - lo
  {
    if lo == hi then []
    else
      var before := EnrichRange(ranks, lo, hi - 1, up);
      var item := ToSeq(ItemAt(ranks, hi - 1, up));
      assert forall g :: g in item ==> g.name != "";
      before + item
  }

  /** The requests issued for positions lo..hi-1, in the order issued. */
  function CallsRange(ranks: seq<RankedApp>, lo: nat, hi: nat, up: Upstream): seq<Call>
    requires lo <= hi <= |ranks|
    decreases hi - lo
  {
    if lo == hi then [] else CallsRange(ranks, lo, hi - 1, up) + ItemCalls(ranks, hi - 1, up)
  }

  /**
   * The handler's loop over the first n ranked apps, step by step as the
   * source performs it.
   */
  method RunEnrichment(ranks: seq<RankedApp>, n: nat, up: Upstream)
    returns (games: seq<GameInfo>, calls: seq<Call>)
    requires n <= |ranks|
    ensures games == EnrichRange(ranks, 0, n, up)
    ensures calls == CallsRange(ranks, 0, n, up)
  {
    games := [];
    calls := [];
    var k := 0;
    while k < n
      invariant k <= n
      invariant games == EnrichRange(ranks, 0, k, up)
      invariant calls == CallsRange(ranks, 0, k, up)
    {
      var appId := ranks[k].appId;
      calls := calls + [DetailsCall(appId)];
      var answer := up.details(k);
      if answer.Decoded? {
        var key := DetailsKey(appId);
        if key in answer.value && answer.value[key].data.name != "" {
          var data := answer.value[key].data;
          calls := calls + [PlayersCall(appId)];
          var count := Players.CurrentPlayers(up.players(k));
          games := games + [GameInfo(data.name, data.steamAppId, data.headerImage, count)];
        }
      }
      k := k + 1;
    }
  }

  /**
   * Spelled-out condition under which `g` is the record served for the k-th
   * ranked app: its details decoded, hold the key for the app's appid with
   * a non-empty name, `g` copies name, appid and image from that `data`
   * object, and its count is the decoded live count, or 0 if that lookup failed.
   */
  predicate Admitted(ranks: seq<RankedApp>, k: nat, up: Upstream, g: GameInfo)
    requires k < |ranks|
  {
    var answer := up.details(k);
    var key := DetailsKey(ranks[k].appId);
    && answer.Decoded?
    && key in answer.value
    && answer.value[key].data.name != ""
    && g.name == answer.value[key].data.name
    && g.steamAppId == answer.value[key].data.steamAppId
    && g.headerImage == answer.value[key].data.headerImage
    && g.currentPlayers == (if up.players(k).Decoded? then up.players(k).value.playerCount else 0)
  }

  lemma {:induction false} ItemAtAdmitted(ranks: seq<RankedApp>, k: nat, up: Upstream, g: GameInfo)
    requires k < |ranks|
    ensures ItemAt(ranks, k, up) == Some(g) <==> Admitted(ranks, k, up, g)
  {
  }

  /** A record is served exactly when some position in range admits it. */
  lemma {:induction false} EnrichRangeMembers(ranks: seq<RankedApp>, lo: nat, hi: nat, up: Upstream, g: GameInfo)
    requires lo <= hi <= |ranks|
    ensures g in EnrichRange(ranks, lo, hi, up) <==> exists k :: lo <= k < hi && Admitted(ranks, k, up, g)
    decreases hi - lo
  {
    if lo < hi {
      var prev := EnrichRange(ranks, lo, hi - 1, up);
      var item := ToSeq(ItemAt(ranks, hi - 1, up));
      assert EnrichRange(ranks, lo, hi, up) == prev + item;
      EnrichRangeMembers(ranks, lo, hi - 1, up, g);
      ItemAtAdmitted(ranks, hi - 1, up, g);
      assert g in item <==> Admitted(ranks, hi - 1, up, g);
      AdmittedStep(ranks, lo, hi, up, g);
    }
  }

  /** Some position of lo..hi-1 admits `g` exactly when one of lo..hi-2 does or the last one does. */
  lemma {:induction false} AdmittedStep(ranks: seq<RankedApp>, lo: nat, hi: nat, up: Upstream, g: GameInfo)
    requires lo < hi <= |ranks|
    ensures (exists k :: lo <= k < hi && Admitted(ranks, k, up, g))
        <==> (exists k :: lo <= k < hi - 1 && Admitted(ranks, k, up, g)) || Admitted(ranks, hi - 1, up, g)
  {
    if exists k :: lo <= k < hi && Admitted(ranks, k, up, g) {
      var k :| lo <= k < hi && Admitted(ranks, k, up, g);
      if k < hi - 1 {
        assert exists k :: lo <= k < hi - 1 && Admitted(ranks, k, up, g);
      }
    }
  }

  /** When no details lookup in range decodes, no record is kept. */
  lemma {:induction false} NoDetailsNoRecords(ranks: seq<RankedApp>, lo: nat, hi: nat, up: Upstream)
    requires lo <= hi <= |ranks|
    requires forall k :: lo <= k < hi ==> !up.details(k).Decoded?
    ensures EnrichRange(ranks, lo, hi, up) == []
    decreases hi - lo
  {
    if lo < hi {
      NoDetailsNoRecords(ranks, lo, hi - 1, up);
      assert ItemAt(ranks, hi - 1, up) == None;
    }
  }

  /** Records accumulate in ranking order: the range splits at any midpoint. */
  lemma {:induction false} EnrichRangeSplit(ranks: seq<RankedApp>, lo: nat, mid: nat, hi: nat, up: Upstream)
    requires lo <= mid <= hi <= |ranks|
    ensures EnrichRange(ranks, lo, hi, up) == EnrichRange(ranks, lo, mid, up) + EnrichRange(ranks, mid, hi, up)
    decreases hi - mid
  {
    if mid < hi {
      EnrichRangeSplit(ranks, lo, mid, hi - 1, up);
    }
  }

  /** Requests are issued in ranking order: the range splits at any midpoint. */
  lemma {:induction false} CallsRangeSplit(ranks: seq<RankedApp>, lo: nat, mid: nat, hi: nat, up: Upstream)
    requires lo <= mid <= hi <= |ranks|
    ensures CallsRange(ranks, lo, hi, up) == CallsRange(ranks, lo, mid, up) + CallsRange(ranks, mid, hi, up)
    decreases hi - mid
  {
    if mid < hi {
      CallsRangeSplit(ranks, lo, mid, hi - 1, up);
    }
  }

  /** A range of one position holds that position's record, if any. */
  lemma {:induction false} EnrichRangeSingle(ranks: seq<RankedApp>, j: nat, up: Upstream)
    requires j < |ranks|
    ensures EnrichRange(ranks, j, j + 1, up) == ToSeq(ItemAt(ranks, j, up))
  {
    assert EnrichRange(ranks, j, j, up) == [];
  }

  /**
   * Only positions lo..hi-1 matter: two rankings that agree there, with
   * upstream answers that agree there, give the same records and requests.
   */
  lemma {:induction false} EnrichRangeFrame(ranks: seq<RankedApp>, ranks': seq<RankedApp>, lo: nat, hi: nat, up: Upstream, up': Upstream)
    requires lo <= hi <= |ranks| && hi <= |ranks'|
    requires forall k :: lo <= k < hi ==> ranks[k] == ranks'[k]
    requires forall k :: lo <= k < hi ==> up.details(k) == up'.details(k)
    requires forall k :: lo <= k < hi ==> up.players(k) == up'.players(k)
    ensures EnrichRange(ranks, lo, hi, up) == EnrichRange(ranks', lo, hi, up')
    ensures CallsRange(ranks, lo, hi, up) == CallsRange(ranks', lo, hi, up')
    decreases hi - lo
  {
    if lo < hi {
      EnrichRangeFrame(ranks, ranks', lo, hi - 1, up, up');
    }
  }

  /** The records of a range are those before position j, j's own record if any, then those after it. */
  lemma {:induction false} EnrichRangeAround(ranks: seq<RankedApp>, j: nat, n: nat, up: Upstream)
    requires j < n <= |ranks|
    ensures EnrichRange(ranks, 0, n, up)
         == EnrichRange(ranks, 0, j, up) + ToSeq(ItemAt(ranks, j, up)) + EnrichRange(ranks, j + 1, n, up)
  {
    var before := EnrichRange(ranks, 0, j, up);
    var item := EnrichRange(ranks, j, j + 1, up);
    var after := EnrichRange(ranks, j + 1, n, up);
    EnrichRangeSplit(ranks, 0, j, n, up);
    EnrichRangeSplit(ranks, j, j + 1, n, up);
    EnrichRangeSingle(ranks, j, up);
    assert before + (item + after) == before + item + after;
  }

  /**
   * A failed details lookup for the j-th app removes that app's record and
   * nothing else: the records before and after it are the same as when
   * the lookup succeeds.
   */
  lemma {:induction false} DetailsFailureSkipsOnlyThatItem(ranks: seq<RankedApp>, j: nat, n: nat, up: Upstream, up': Upstream)
    requires j < n <= |ranks|
    requires !up'.details(j).Decoded?
    requires forall k :: k != j ==> up.details(k) == up'.details(k)
    requires forall k :: up.players(k) == up'.players(k)
    ensures EnrichRange(ranks, 0, n, up')
         == EnrichRange(ranks, 0, j, up) + EnrichRange(ranks, j + 1, n, up)
    ensures EnrichRange(ranks, 0, n, up)
         == EnrichRange(ranks, 0, j, up) + ToSeq(ItemAt(ranks, j, up)) + EnrichRange(ranks, j + 1, n, up)
  {
    EnrichRangeAround(ranks, j, n, up);
    SkippedItemLeavesNeighbours(ranks, j, n, up, up');
  }

  /** The part of `DetailsFailureSkipsOnlyThatItem` about the failing answers. */
  lemma {:induction false} SkippedItemLeavesNeighbours(ranks: seq<RankedApp>, j: nat, n: nat, up: Upstream, up': Upstream)
    requires j < n <= |ranks|
    requires !up'.details(j).Decoded?
    requires forall k :: k != j ==> up.details(k) == up'.details(k)
    requires forall k :: up.players(k) == up'.players(k)
    ensures EnrichRange(ranks, 0, n, up')
         == EnrichRange(ranks, 0, j, up) + EnrichRange(ranks, j + 1, n, up)
  {
    var before := EnrichRange(ranks, 0, j, up);
    var after := EnrichRange(ranks, j + 1, n, up);
    EnrichRangeAround(ranks, j, n, up');
    FailedDetailsNoItem(ranks, j, up');
    EnrichRangeFrame(ranks, ranks, 0, j, up, up');
    EnrichRangeFrame(ranks, ranks, j + 1, n, up, up');
    assert before + [] + after == before + after;
  }

  /** A details lookup that did not decode leaves no record for its position. */
  lemma {:induction false} FailedDetailsNoItem(ranks: seq<RankedApp>, j: nat, up: Upstream)
    requires j < |ranks|
    requires !up.details(j).Decoded?
    ensures ToSeq(ItemAt(ranks, j, up)) == []
  {
  }

  /**
   * A failed live-count lookup keeps the app, with 0 players, and the other
   * fields still come from the accepted details.
   */
  lemma {:induction false} CountFailureKeepsItemWithZero(ranks: seq<RankedApp>, k: nat, n: nat, up: Upstream)
    requires k < n <= |ranks|
    requires AcceptedDetails(ranks[k].appId, up.details(k)).Some?
    requires !up.players(k).Decoded?
    ensures
      var d := AcceptedDetails(ranks[k].appId, up.details(k)).value;
      GameInfo(d.name, d.steamAppId, d.headerImage, 0) in EnrichRange(ranks, 0, n, up)
  {
    var d := AcceptedDetails(ranks[k].appId, up.details(k)).value;
    EnrichRangeMembers(ranks, 0, n, up, GameInfo(d.name, d.steamAppId, d.headerImage, 0));
    assert Admitted(ranks, k, up, GameInfo(d.name, d.steamAppId, d.headerImage, 0));
  }

  /** Counting the requests of a range: those of all but the last position, then the last position's. */
  lemma {:induction false} CallsRangeCountStep(ranks: seq<RankedApp>, lo: nat, hi: nat, up: Upstream, kind: CallKind)
    requires lo < hi <= |ranks|
    ensures CountCalls(CallsRange(ranks, lo, hi, up), kind)
         == CountCalls(CallsRange(ranks, lo, hi - 1, up), kind) + CountCalls(ItemCalls(ranks, hi - 1, up), kind)
  {
    CountCallsAppend(CallsRange(ranks, lo, hi - 1, up), ItemCalls(ranks, hi - 1, up), kind);
  }

  /** Every position in range gets exactly one details request. */
  lemma {:induction false} DetailsCallsPerPosition(ranks: seq<RankedApp>, lo: nat, hi: nat, up: Upstream)
    requires lo <= hi <= |ranks|
    ensures CountCalls(CallsRange(ranks, lo, hi, up), ToDetails) == hi - lo
  {
    DetailsCallsInRankingOrder(ranks, lo, hi, up);
  }

  /**
   * The details requests of a range go, one each and in ranking order, to
   * the appids ranked at the positions in range.
   */
  lemma {:induction false} DetailsCallsInRankingOrder(ranks: seq<RankedApp>, lo: nat, hi: nat, up: Upstream)
    requires lo <= hi <= |ranks|
    ensures |DetailsTargets(CallsRange(ranks, lo, hi, up))| == hi - lo
    ensures forall i :: 0 <= i < hi - lo ==> DetailsTargets(CallsRange(ranks, lo, hi, up))[i] == ranks[lo + i].appId
    decreases hi - lo
  {
    if lo < hi {
      DetailsCallsInRankingOrder(ranks, lo, hi - 1, up);
      var prev := DetailsTargets(CallsRange(ranks, lo, hi - 1, up));
      var targets := DetailsTargets(CallsRange(ranks, lo, hi, up));
      DetailsTargetsStep(ranks, lo, hi, up);
      AppIdsExtend(ranks, lo, hi, prev, targets);
    }
  }

  /** Appending the appid at position hi - 1 extends the appids of lo..hi-2 to those of lo..hi-1. */
  lemma {:induction false} AppIdsExtend(ranks: seq<RankedApp>, lo: nat, hi: nat, ids: seq<int>, ext: seq<int>)
    requires lo < hi <= |ranks|
    requires |ids| == hi - 1 - lo
    requires forall i :: 0 <= i < hi - 1 - lo ==> ids[i] == ranks[lo + i].appId
    requires ext == ids + [ranks[hi - 1].appId]
    ensures forall i :: 0 <= i < hi - lo ==> ext[i] == ranks[lo + i].appId
  {
  }

  /** The details targets of a range: those of all but its last position, then the last position's appid. */
  lemma {:induction false} DetailsTargetsStep(ranks: seq<RankedApp>, lo: nat, hi: nat, up: Upstream)
    requires lo < hi <= |ranks|
    ensures DetailsTargets(CallsRange(ranks, lo, hi, up))
         == DetailsTargets(CallsRange(ranks, lo, hi - 1, up)) + [ranks[hi - 1].appId]
  {
    DetailsTargetsAppend(CallsRange(ranks, lo, hi - 1, up), ItemCalls(ranks, hi - 1, up));
    ItemDetailsTarget(ranks, hi - 1, up);
  }

  /** One app's requests hold one details request, for that app's appid. */
  lemma {:induction false} ItemDetailsTarget(ranks: seq<RankedApp>, k: nat, up: Upstream)
    requires k < |ranks|
    ensures DetailsTargets(ItemCalls(ranks, k, up)) == [ranks[k].appId]
  {
    var calls := ItemCalls(ranks, k, up);
    assert calls[..1] == [DetailsCall(ranks[k].appId)];
    assert [DetailsCall(ranks[k].appId)][..0] == [];
    if |calls| == 2 {
      assert calls[..2][..1] == calls[..1];
      assert calls[..2] == calls;
    }
  }

  /** A details request for an appid is made if and only if some position in range ranks that appid. */
  lemma {:induction false} DetailsCallFor(ranks: seq<RankedApp>, lo: nat, hi: nat, up: Upstream, a: int)
    requires lo <= hi <= |ranks|
    ensures DetailsCall(a) in CallsRange(ranks, lo, hi, up) <==> exists k :: lo <= k < hi && ranks[k].appId == a
  {
    var calls := CallsRange(ranks, lo, hi, up);
    DetailsCallsInRankingOrder(ranks, lo, hi, up);
    DetailsTargetsMembers(calls, a);
    if exists k :: lo <= k < hi && ranks[k].appId == a {
      var k :| lo <= k < hi && ranks[k].appId == a;
      assert DetailsTargets(calls)[k - lo] == a;
    }
  }

  /** Exactly one live-count request is made per record kept. */
  lemma {:induction false} PlayersCallsPerRecord(ranks: seq<RankedApp>, lo: nat, hi: nat, up: Upstream)
    requires lo <= hi <= |ranks|
    ensures CountCalls(CallsRange(ranks, lo, hi, up), ToPlayers) == |EnrichRange(ranks, lo, hi, up)|
    decreases hi - lo
  {
    if lo < hi {
      var prev := CallsRange(ranks, lo, hi - 1, up);
      var item := ItemCalls(ranks, hi - 1, up);
      PlayersCallsPerRecord(ranks, lo, hi - 1, up);
      CallsRangeCountStep(ranks, lo, hi, up, ToPlayers);
      ItemCallsCounts(ranks, hi - 1, up);
      assert CountCalls(CallsRange(ranks, lo, hi, up), ToPlayers) == CountCalls(prev, ToPlayers) + CountCalls(item, ToPlayers);
    }
  }

  /** The per-app loop never requests the ranking. */
  lemma {:induction false} NoRankingCallsInLoop(ranks: seq<RankedApp>, lo: nat, hi: nat, up: Upstream)
    requires lo <= hi <= |ranks|
    ensures CountCalls(CallsRange(ranks, lo, hi, up), ToRanking) == 0
    decreases hi - lo
  {
    if lo < hi {
      NoRankingCallsInLoop(ranks, lo, hi - 1, up);
      CallsRangeCountStep(ranks, lo, hi, up, ToRanking);
      ItemCallsNoRanking(ranks, hi - 1, up);
    }
  }

  /** One app's requests never go to the ranking. */
  lemma {:induction false} ItemCallsNoRanking(ranks: seq<RankedApp>, k: nat, up: Upstream)
    requires k < |ranks|
    ensures CountCalls(ItemCalls(ranks, k, up), ToRanking) == 0
  {
    ItemCallsCounts(ranks, k, up);
  }

  /**
   * Every position gets one details request, and exactly the accepted ones
   * get one live-count request besides; no ranking request is made here,
   * and nothing else is requested.
   */
  lemma {:induction false} CallsAccounting(ranks: seq<RankedApp>, lo: nat, hi: nat, up: Upstream)
    requires lo <= hi <= |ranks|
    ensures CountCalls(CallsRange(ranks, lo, hi, up), ToDetails) == hi - lo
    ensures CountCalls(CallsRange(ranks, lo, hi, up), ToPlayers) == |EnrichRange(ranks, lo, hi, up)|
    ensures CountCalls(CallsRange(ranks, lo, hi, up), ToRanking) == 0
    ensures |CallsRange(ranks, lo, hi, up)| == (hi - lo) + |EnrichRange(ranks, lo, hi, up)|
    decreases hi - lo
  {
    DetailsCallsPerPosition(ranks, lo, hi, up);
    PlayersCallsPerRecord(ranks, lo, hi, up);
    NoRankingCallsInLoop(ranks, lo, hi, up);
    KindsPartition(CallsRange(ranks, lo, hi, up));
  }

  /** One app's requests: one details request, and one count request exactly when its record is kept. */
  lemma {:induction false} ItemCallsCounts(ranks: seq<RankedApp>, k: nat, up: Upstream)
    requires k < |ranks|
    ensures CountCalls(ItemCalls(ranks, k, up), ToDetails) == 1
    ensures CountCalls(ItemCalls(ranks, k, up), ToPlayers) == |ToSeq(ItemAt(ranks, k, up))|
    ensures CountCalls(ItemCalls(ranks, k, up), ToRanking) == 0
  {
    var calls := ItemCalls(ranks, k, up);
    assert calls[..1] == [DetailsCall(ranks[k].appId)];
    if |calls| == 2 {
      assert calls[..2][..1] == calls[..1];
      assert calls[..2] == calls;
    }
  }

  /** A live-count request for an app is made only after its details were accepted at some position. */
  lemma {:induction false} CountCallsOnlyForAccepted(ranks: seq<RankedApp>, lo: nat, hi: nat, up: Upstream, a: int)
    requires lo <= hi <= |ranks|
    ensures PlayersCall(a) in CallsRange(ranks, lo, hi, up) <==>
      exists k :: lo <= k < hi && ranks[k].appId == a && AcceptedDetails(a, up.details(k)).Some?
    decreases hi - lo
  {
    if lo < hi {
      CountCallsOnlyForAccepted(ranks, lo, hi - 1, up, a);
      var last := hi - 1;
      if PlayersCall(a) in ItemCalls(ranks, last, up) {
        assert ranks[last].appId == a && AcceptedDetails(a, up.details(last)).Some?;
      }
      if exists k :: lo <= k < hi && ranks[k].appId == a && AcceptedDetails(a, up.details(k)).Some? {
        var k :| lo <= k < hi && ranks[k].appId == a && AcceptedDetails(a, up.details(k)).Some?;
        if k == last {
          assert ItemCalls(ranks, last, up)[1] == PlayersCall(a);
        }
      }
    }
  }
}
