/** The L3 offset cache's merge of new offsets into a cached list. */
module OffsetCache {
  import opened Strconv
  import opened Types

  predicate Distinct(s: seq<int>) {
    forall i, j :: 0 <= i < j < |s| ==> s[i] != s[j]
  }

  /** The backward walk of SetOffsets over a non-empty cached list: offsets that are not positive are
      skipped, new ones appended, and the first one already cached ends the walk. */
  function Merged(cached: seq<int>, offsets: seq<int>): seq<int>
    decreases |offsets|
  {
    if offsets == [] then cached
    else
      var last := offsets[|offsets| - 1];
      var init := offsets[..|offsets| - 1];
      if last <= 0 then Merged(cached, init)
      else if last !in cached then Merged(cached + [last], init)
      else cached
  }

  /** One initialised shard of the cache. */
  class L3Shard {
    var cache: map<string, seq<int>>
    var que: seq<PQItem>
    var countFlagEx: nat
    var countSet: nat

    constructor ()
      ensures cache == map[] && que == [] && countFlagEx == 0 && countSet == 0
    {
      cache, que, countFlagEx, countSet := map[], [], 0, 0;
    }

    method ValueExistsInSliceReverseOrder(value: int, slice: seq<int>) returns (found: bool)
      ensures found <==> value in slice
    {
      var i := |slice| - 1;
      while i >= 0
        invariant -1 <= i < |slice|
        invariant value !in slice[i + 1..]
      {
        if slice[i] == value {
          return true;
        }
        assert slice[i..] == [slice[i]] + slice[i + 1..];
        i := i - 1;
      }
      assert slice[0..] == slice;
      return false;
    }

    /** The new list is None for Go's nil. now is the clock, ttl the cache's expiry in nanoseconds. */
    method SetOffsets(key: string, newOffsets: Option<seq<int>>, flagexpires: bool, now: int, ttl: nat)
      modifies this
      ensures key == "" || newOffsets.None? ==>
        cache == old(cache) && que == old(que) && countFlagEx == old(countFlagEx) && countSet == old(countSet)
      ensures key != "" && newOffsets.Some? ==>
        && cache == old(cache)[key := if key in old(cache) && old(cache)[key] != []
                                      then Merged(old(cache)[key], newOffsets.value) else newOffsets.value]
        && que == old(que) + (if flagexpires then [PQItem(key, now + ttl)] else [])
        && countFlagEx == old(countFlagEx) + (if flagexpires && newOffsets.value != [] then 1 else 0)
        && countSet == old(countSet) + (if flagexpires then 0 else 1)
    {
      if key == "" || newOffsets.None? {
        return;
      }
      var offsets := newOffsets.value;
      if flagexpires {
        que := que + [PQItem(key, now + ttl)];
      }
      if flagexpires {
        if |offsets| > 0 {
          countFlagEx := countFlagEx + 1;
        }
      } else {
        countSet := countSet + 1;
      }
      label counted:
      if key in cache {
        if |cache[key]| == 0 {
          cache := cache[key := offsets];
          return;
        }
        var i := |offsets| - 1;
        assert offsets[..i + 1] == offsets;
        while i >= 0
          invariant -1 <= i < |offsets|
          invariant key in cache && cache == old(cache)[key := cache[key]]
          invariant Merged(old(cache)[key], offsets) == Merged(cache[key], offsets[..i + 1])
          invariant que == old@counted(que) && countFlagEx == old@counted(countFlagEx) && countSet == old@counted(countSet)
        {
          assert offsets[..i + 1][..i] == offsets[..i];
          if offsets[i] > 0 {
            var hit := ValueExistsInSliceReverseOrder(offsets[i], cache[key]);
            if hit {
              return;
            }
            cache := cache[key := cache[key] + [offsets[i]]];
          }
          i := i - 1;
        }
      } else {
        cache := cache[key := offsets];
      }
    }
  }

  /** A merge keeps the cached list in front and keeps it free of repeats. */
  lemma {:induction false} MergeKeepsDistinct(cached: seq<int>, offsets: seq<int>)
    requires Distinct(cached)
    ensures cached <= Merged(cached, offsets) && Distinct(Merged(cached, offsets))
    decreases |offsets|
  {
    if offsets != [] {
      var last := offsets[|offsets| - 1];
      var init := offsets[..|offsets| - 1];
      if last <= 0 {
        MergeKeepsDistinct(cached, init);
      } else if last !in cached {
        MergeKeepsDistinct(cached + [last], init);
      }
    }
  }

  /** Offset i ends the walk: it is positive and already known, from the cache or from a later offset. */
  predicate Stops(cached: seq<int>, offsets: seq<int>, i: int)
    requires 0 <= i < |offsets|
  {
    offsets[i] > 0 && (offsets[i] in cached || offsets[i] in offsets[i + 1..])
  }

  /** Every offset before one that ends the walk is known already or not positive. */
  ghost predicate NothingBehindStop(cached: seq<int>, offsets: seq<int>) {
    forall i, j :: 0 <= j < i < |offsets| && Stops(cached, offsets, i) && offsets[j] > 0 ==>
      offsets[j] in cached || offsets[j] in offsets[i..]
  }

  /** The merge holds the cached offsets and all new positive ones. */
  ghost predicate Lossless(cached: seq<int>, offsets: seq<int>) {
    forall x :: x in Merged(cached, offsets) <==> x in cached || (x in offsets && x > 0)
  }

  /** The positive offsets, last first. */
  function PositivesReversed(offsets: seq<int>): seq<int> {
    if offsets == [] then []
    else
      var last := offsets[|offsets| - 1];
      (if last > 0 then [last] else []) + PositivesReversed(offsets[..|offsets| - 1])
  }

  /** What is cached once the walk has passed offset last. */
  function Passed(cached: seq<int>, last: int): seq<int> {
    if last <= 0 then cached else cached + [last]
  }

  /** Behind a last offset that does not end the walk, the others end it as if that one were cached. */
  lemma SameStops(cached: seq<int>, init: seq<int>, last: int)
    requires !Stops(cached, init + [last], |init|)
    ensures last <= 0 || last !in cached
    ensures forall i :: 0 <= i < |init| ==> (Stops(Passed(cached, last), init, i) <==> Stops(cached, init + [last], i))
  {
    var offsets := init + [last];
    forall i | 0 <= i < |init|
      ensures Stops(Passed(cached, last), init, i) <==> Stops(cached, offsets, i)
    {
      assert offsets[i + 1..] == init[i + 1..] + [last];
    }
  }

  /** What a merge holds, in order: the cached offsets, then, last first, the positive offsets down to
      where the walk ends. */
  lemma {:induction false} MergeOrder(cached: seq<int>, offsets: seq<int>, stop: nat)
    requires stop <= |offsets| && (stop > 0 ==> Stops(cached, offsets, stop - 1))
    requires forall i :: stop <= i < |offsets| ==> !Stops(cached, offsets, i)
    ensures Merged(cached, offsets) == cached + PositivesReversed(offsets[stop..])
    decreases |offsets|
  {
    if stop < |offsets| {
      hide Stops;
      var n := |offsets| - 1;
      var last, init := offsets[n], offsets[..n];
      assert offsets == init + [last];
      SameStops(cached, init, last);
      MergeOrder(Passed(cached, last), init, stop);
      ReversedSnoc(init[stop..], last);
      assert offsets[stop..] == init[stop..] + [last];
      ConcatAssoc(cached, [last], PositivesReversed(init[stop..]));
      assert cached + ([] + PositivesReversed(init[stop..])) == cached + PositivesReversed(init[stop..]);
    } else {
      assert offsets[stop..] == [];
      assert offsets != [] ==> offsets[stop - 1 + 1..] == [];
    }
  }

  lemma ReversedSnoc(s: seq<int>, last: int)
    ensures PositivesReversed(s + [last]) == (if last > 0 then [last] else []) + PositivesReversed(s)
  {
    assert (s + [last])[..|s|] == s;
  }

  /** Where the walk ends, and which offsets a merge holds for it. */
  lemma {:induction false} MergeContents(cached: seq<int>, offsets: seq<int>) returns (stop: nat)
    ensures stop <= |offsets|
    ensures stop > 0 ==> Stops(cached, offsets, stop - 1)
    ensures forall i :: stop <= i < |offsets| ==> !Stops(cached, offsets, i)
    ensures forall x :: x in Merged(cached, offsets) <==> x in cached || (x in offsets[stop..] && x > 0)
    decreases |offsets|
  {
    if offsets == [] {
      stop := 0;
    } else {
      var n := |offsets| - 1;
      var last := offsets[n];
      var init := offsets[..n];
      if last > 0 && last in cached {
        stop := |offsets|;
        assert offsets[stop..] == [];
      } else {
        assert offsets == init + [last];
        SameStops(cached, init, last);
        stop := MergeContents(Passed(cached, last), init);
        assert offsets[stop..] == init[stop..] + [last];
      }
    }
  }

  /** The early return loses nothing exactly when no new positive offset stands before one that is
      already known. */
  lemma LosslessIff(cached: seq<int>, offsets: seq<int>)
    ensures Lossless(cached, offsets) <==> NothingBehindStop(cached, offsets)
  {
    hide Merged;
    var stop := MergeContents(cached, offsets);
    assert offsets == offsets[..stop] + offsets[stop..];
    if NothingBehindStop(cached, offsets) {
      forall x | x in offsets && x > 0 && x !in cached
        ensures x in offsets[stop..]
      {
        var j :| 0 <= j < |offsets| && offsets[j] == x;
        if j < stop - 1 {
          assert Stops(cached, offsets, stop - 1);
          assert offsets[stop - 1..] == [offsets[stop - 1]] + offsets[stop..];
        }
      }
    }
    if Lossless(cached, offsets) {
      forall i, j | 0 <= j < i < |offsets| && Stops(cached, offsets, i) && offsets[j] > 0
        ensures offsets[j] in cached || offsets[j] in offsets[i..]
      {
        assert offsets[j] in offsets;
        assert offsets[j] in Merged(cached, offsets);
        if offsets[j] !in cached {
          assert i < stop;
          assert offsets[i..][stop - i..] == offsets[stop..];
        }
      }
    }
  }

  /** The usual call, cached offsets followed by new distinct positive ones, gives the set union. */
  lemma KnownThenNew(cached: seq<int>, known: seq<int>, added: seq<int>)
    requires forall x :: x in known ==> x in cached
    requires Distinct(added) && forall x :: x in added ==> x > 0 && x !in cached
    ensures Lossless(cached, known + added)
    ensures Merged(cached, known + added) == cached + Reversed(added)
  {
    var offsets := known + added;
    forall i | |known| <= i < |offsets|
      ensures !Stops(cached, offsets, i)
    {
      assert offsets[i] in added;
      assert offsets[i + 1..] == added[i + 1 - |known|..];
    }
    assert forall j :: 0 <= j < |known| ==> offsets[j] in known;
    LosslessIff(cached, offsets);
    MergeNew(cached, known, added);
  }

  function Reversed(s: seq<int>): seq<int> {
    if s == [] then [] else [s[|s| - 1]] + Reversed(s[..|s| - 1])
  }

  lemma {:induction false} MergeNew(cached: seq<int>, known: seq<int>, added: seq<int>)
    requires forall x :: x in known ==> x in cached
    requires Distinct(added) && forall x :: x in added ==> x > 0 && x !in cached
    ensures Merged(cached, known + added) == cached + Reversed(added)
    decreases |added|
  {
    if added == [] {
      assert known + added == known;
      MergeKnown(cached, known);
    } else {
      var last, init := added[|added| - 1], added[..|added| - 1];
      assert forall k :: 0 <= k < |init| ==> init[k] == added[k] && init[k] != last && init[k] in added;
      assert last in added;
      MergeNew(cached + [last], known, init);
      assert (known + added)[..|known + added| - 1] == known + init;
      assert cached + [last] + Reversed(init) == cached + ([last] + Reversed(init));
    }
  }

  lemma {:induction false} MergeKnown(cached: seq<int>, known: seq<int>)
    requires forall x :: x in known ==> x in cached
    ensures Merged(cached, known) == cached
  {
    if known != [] {
      MergeKnown(cached, known[..|known| - 1]);
    }
  }
}
