/**
 * Ordering of the served list by live player count, most players first.
 * The source sorts with an unstable sort, so only the order of the counts
 * is promised, not the order among entries with equal counts.
 */
module PlayerOrder {
  import opened SteamApi

  /** No entry has more players than an entry before it. */
  predicate SortedByPlayers(s: seq<GameInfo>) {
    forall i, j :: 0 <= i < j < |s| ==> s[i].currentPlayers >= s[j].currentPlayers
  }

  /** Putting `h` in front of a sorted list keeps it sorted when `h` has the most players. */
  lemma {:induction false} PrependSorted(h: GameInfo, t: seq<GameInfo>)
    requires SortedByPlayers(t)
    requires forall x :: x in t ==> h.currentPlayers >= x.currentPlayers
    ensures SortedByPlayers([h] + t)
  {
    var r := [h] + t;
    forall i, j | 0 <= i < j < |r|
      ensures r[i].currentPlayers >= r[j].currentPlayers
    {
      assert r[j] == t[j - 1];
      if i > 0 {
        assert r[i] == t[i - 1];
      }
    }
  }

  /** The first entry of a sorted list has the most players. */
  lemma {:induction false} SortedHeadIsMax(s: seq<GameInfo>)
    requires SortedByPlayers(s) && |s| > 0
    ensures forall x :: x in s ==> s[0].currentPlayers >= x.currentPlayers
  {
    forall x | x in s ensures s[0].currentPlayers >= x.currentPlayers {
      var j :| 0 <= j < |s| && s[j] == x;
      if j > 0 {
        assert s[0].currentPlayers >= s[j].currentPlayers;
      }
    }
  }

  /** A bound on the counts of some entries holds for any arrangement of them. */
  lemma {:induction false} BoundCarriesOver(bound: int, a: seq<GameInfo>, b: seq<GameInfo>)
    requires multiset(a) == multiset(b)
    requires forall x :: x in b ==> bound >= x.currentPlayers
    ensures forall x :: x in a ==> bound >= x.currentPlayers
  {
    forall x | x in a ensures bound >= x.currentPlayers {
      assert x in multiset(a);
      assert x in b;
    }
  }

  /** Inserts `g` into a list already sorted by player count. */
  function Insert(g: GameInfo, s: seq<GameInfo>): (r: seq<GameInfo>)
    requires SortedByPlayers(s)
    ensures SortedByPlayers(r)
    ensures multiset(r) == multiset(s) + multiset{g}
  {
    if |s| == 0 || g.currentPlayers >= s[0].currentPlayers then
      if |s| > 0 then
        SortedHeadIsMax(s);
        PrependSorted(g, s);
        [g] + s
      else
        [g]
    else
      var tail := s[1..];
      assert s == [s[0]] + tail;
      var rest := Insert(g, tail);
      SortedHeadIsMax(s);
      assert multiset(rest) == multiset(tail + [g]);
      BoundCarriesOver(s[0].currentPlayers, rest, tail + [g]);
      PrependSorted(s[0], rest);
      [s[0]] + rest
  }

  /** The entries of `s`, reordered by player count, most players first. */
  function SortByPlayers(s: seq<GameInfo>): (r: seq<GameInfo>)
    ensures SortedByPlayers(r)
    ensures multiset(r) == multiset(s)
    ensures |r| == |s|
  {
    if |s| == 0 then []
    else
      assert s == [s[0]] + s[1..];
      Insert(s[0], SortByPlayers(s[1..]))
  }

  /**
   * Sorting only reorders: it neither adds, drops nor alters an entry, and
   * every entry occurs as many times after sorting as before.
   */
  lemma {:induction false} SortKeepsEntries(s: seq<GameInfo>, g: GameInfo)
    ensures g in SortByPlayers(s) <==> g in s
    ensures multiset(SortByPlayers(s))[g] == multiset(s)[g]
  {
    var r := SortByPlayers(s);
    assert g in r <==> g in multiset(r);
    assert g in s <==> g in multiset(s);
  }

  /**
   * Moving an entry that ties with the first entry to the front keeps the
   * list sorted and leaves the sequence of counts as it was.
   */
  lemma {:induction false} MoveTieToFront(t: seq<GameInfo>, j: nat) returns (t': seq<GameInfo>)
    requires SortedByPlayers(t)
    requires j < |t| && t[j].currentPlayers == t[0].currentPlayers
    ensures |t'| == |t| && t'[0] == t[j] && multiset(t') == multiset(t)
    ensures SortedByPlayers(t')
    ensures forall i :: 0 <= i < |t| ==> t'[i].currentPlayers == t[i].currentPlayers
  {
    t' := [t[j]] + t[..j] + t[j + 1..];
    assert t == t[..j] + [t[j]] + t[j + 1..];
    forall i | 0 <= i < |t| ensures t'[i].currentPlayers == t[i].currentPlayers {
      if i == 0 {
      } else if i <= j {
        assert t'[i] == t[i - 1];
        assert t[0].currentPlayers >= t[i].currentPlayers >= t[j].currentPlayers;
      } else {
        assert t'[i] == t[i];
      }
    }
  }

  /** Removing the same first entry from two arrangements of the same entries leaves arrangements of the same entries. */
  lemma {:induction false} DropSameHead(a: seq<GameInfo>, b: seq<GameInfo>)
    requires |a| > 0 && |b| > 0 && a[0] == b[0]
    requires multiset(a) == multiset(b)
    ensures multiset(a[1..]) == multiset(b[1..])
  {
    assert a == [a[0]] + a[1..];
    assert b == [b[0]] + b[1..];
    assert multiset(a[1..]) == multiset(a) - multiset{a[0]};
    assert multiset(b[1..]) == multiset(b) - multiset{b[0]};
  }

  /** The first entry of one sorted arrangement ties with the first entry of any other. */
  lemma {:induction false} HeadsTie(s: seq<GameInfo>, t: seq<GameInfo>) returns (j: nat)
    requires SortedByPlayers(s) && SortedByPlayers(t) && |s| > 0
    requires multiset(s) == multiset(t)
    ensures j < |t| && t[j] == s[0] && t[j].currentPlayers == t[0].currentPlayers
  {
    assert s[0] in multiset(t) && t[0] in multiset(s);
    j :| 0 <= j < |t| && t[j] == s[0];
    SortedHeadIsMax(s);
    SortedHeadIsMax(t);
  }

  lemma {:induction false} SortedTail(s: seq<GameInfo>)
    requires SortedByPlayers(s) && |s| > 0
    ensures SortedByPlayers(s[1..])
  {
    forall i, j | 0 <= i < j < |s| - 1
      ensures s[1..][i].currentPlayers >= s[1..][j].currentPlayers
    {
      assert s[1..][i] == s[i + 1] && s[1..][j] == s[j + 1];
    }
  }

  /**
   * The sort leaves the order among equal counts open, but nothing else:
   * any two sorted arrangements of the same entries have the same count
   * at every position.
   */
  lemma {:induction false} SortedArrangementsAgreeOnCounts(s: seq<GameInfo>, t: seq<GameInfo>)
    requires SortedByPlayers(s) && SortedByPlayers(t)
    requires multiset(s) == multiset(t)
    ensures |s| == |t|
    ensures forall i :: 0 <= i < |s| ==> s[i].currentPlayers == t[i].currentPlayers
    decreases |s|
  {
    assert |s| == |multiset(s)| == |multiset(t)| == |t|;
    if |s| > 0 {
      var j := HeadsTie(s, t);
      var t' := MoveTieToFront(t, j);
      DropSameHead(s, t');
      SortedTail(s);
      SortedTail(t');
      var s1, t1 := s[1..], t'[1..];
      SortedArrangementsAgreeOnCounts(s1, t1);
      forall i | 0 <= i < |s| ensures s[i].currentPlayers == t[i].currentPlayers {
        if i > 0 {
          assert s[i] == s1[i - 1] && t'[i] == t1[i - 1];
        }
      }
    }
  }
}
