/** The reports a peer sent about edits this client did not have yet
    (`HAN::GenericItem`, `HAN::RescoreItem`), and the list operations the
    relay performs on the four `Unparsed*` lists: trimming from the front
    before an append, finding the first entry for a revision id, and
    removing one entry. */
module Pending {
  import opened Channels

  /** One deferred report: the site and channel it came from, the revision
      id, the peer's nick and, for a SCORED report, the score. */
  datatype HanItem =
    | GenericItem(Site: WikiSite, RevID: int, User: string)
    | RescoreItem(Site: WikiSite, RevID: int, Score: int, User: string)

  function Min(a: nat, b: nat): nat
  {
    if a < b then a else b
  }

  /** The newest `n` entries of a list, in their order. */
  function Newest<T>(list: seq<T>, n: nat): seq<T>
  {
    list[|list| - Min(|list|, n)..]
  }

  /** `while (list.count() > cache) list.removeAt(0);`: what is left is the
      newest `cache` entries, or the whole list when it is no longer. */
  method Trim<T>(list: seq<T>, cache: nat) returns (r: seq<T>)
    ensures |r| == Min(|list|, cache)
    ensures r == list[|list| - |r|..]
  {
    r := list;
    while |r| > cache
      invariant |r| >= Min(|list|, cache)
      invariant r == list[|list| - |r|..]
    {
      r := r[1..];
    }
  }

  /** A miss: trim, then append the new report last. */
  function Recorded<T>(list: seq<T>, cache: nat, x: T): seq<T>
  {
    Newest(list, cache) + [x]
  }

  /** However long the list was, after a miss it holds at most `cache + 1`
      entries (one more than the configured cache size), and the new report
      is the last of them. */
  lemma RecordedBound<T>(list: seq<T>, cache: nat, x: T)
    ensures 1 <= |Recorded(list, cache, x)| <= cache + 1
    ensures Recorded(list, cache, x)[|Recorded(list, cache, x)| - 1] == x
  {
  }

  /** Recording reports one after the other from a list that already
      respects the bound keeps exactly the newest `cache + 1` of all of them:
      eviction is oldest first. */
  function RecordAll<T>(list: seq<T>, cache: nat, xs: seq<T>): seq<T>
  {
    if |xs| == 0 then list
    else Recorded(RecordAll(list, cache, xs[..|xs| - 1]), cache, xs[|xs| - 1])
  }

  lemma {:induction false} RecordAllKeepsNewest<T>(list: seq<T>, cache: nat, xs: seq<T>)
    requires |list| <= cache + 1
    ensures RecordAll(list, cache, xs) == Newest(list + xs, if |xs| == 0 then |list| else cache + 1)
  {
    if |xs| > 0 {
      var front := xs[..|xs| - 1];
      var x := xs[|xs| - 1];
      RecordAllKeepsNewest(list, cache, front);
      var before := RecordAll(list, cache, front);
      var all := list + xs;
      assert list + front == all[..|all| - 1];
      assert all == (list + front) + [x];
      var m := Min(|before|, cache);
      assert Newest(before, cache) == all[|all| - 1 - m..|all| - 1];
      assert Recorded(before, cache, x) == all[|all| - 1 - m..];
    }
  }

  /** The position of the first entry for `revid`, or the list's length when
      there is none; the site is not compared. */
  function FirstMatch(list: seq<HanItem>, revid: int): (r: nat)
    ensures r <= |list|
    ensures forall j :: 0 <= j < r ==> list[j].RevID != revid
    ensures r < |list| ==> list[r].RevID == revid
  {
    if |list| == 0 then 0
    else if list[0].RevID == revid then 0
    else 1 + FirstMatch(list[1..], revid)
  }

  /** The index-based scan of `IsParsed` and `Rescore`. */
  method FindRevID(list: seq<HanItem>, revid: int) returns (item: nat)
    ensures item == FirstMatch(list, revid)
  {
    item := 0;
    while item < |list| && list[item].RevID != revid
      invariant item <= |list|
      invariant forall j :: 0 <= j < item ==> list[j].RevID != revid
    {
      item := item + 1;
    }
    FirstMatchUnique(list, revid, item);
  }

  /** The first match is the only index that is a match with no match
      before it. */
  lemma FirstMatchUnique(list: seq<HanItem>, revid: int, i: nat)
    requires i <= |list|
    requires forall j :: 0 <= j < i ==> list[j].RevID != revid
    requires i < |list| ==> list[i].RevID == revid
    ensures i == FirstMatch(list, revid)
  {
  }

  /** `list.removeAt(i)`. */
  function RemoveAt<T>(list: seq<T>, i: nat): seq<T>
    requires i < |list|
  {
    list[..i] + list[i + 1..]
  }

  /** Removing exactly one entry: the one at `i` goes, every other entry
      stays, in order. */
  lemma RemoveAtOne<T>(list: seq<T>, i: nat)
    requires i < |list|
    ensures multiset(RemoveAt(list, i)) + multiset{list[i]} == multiset(list)
    ensures |RemoveAt(list, i)| == |list| - 1
    ensures forall j :: 0 <= j < i ==> RemoveAt(list, i)[j] == list[j]
    ensures forall j :: i <= j < |list| - 1 ==> RemoveAt(list, i)[j] == list[j + 1]
  {
    assert list == list[..i] + [list[i]] + list[i + 1..];
  }

  /** Removing the first match for `revid` from a list leaves the entries
      for other revision ids untouched and removes one entry for `revid`. */
  lemma RemoveFirstMatch(list: seq<HanItem>, revid: int)
    requires FirstMatch(list, revid) < |list|
    ensures var rest := RemoveAt(list, FirstMatch(list, revid));
      multiset(rest) + multiset{list[FirstMatch(list, revid)]} == multiset(list)
      && list[FirstMatch(list, revid)].RevID == revid
      && |rest| == |list| - 1
  {
    RemoveAtOne(list, FirstMatch(list, revid));
  }
}
