/**
 * Bounded dispatch of downloads and the draining of finished ones
 * (`process_futures`), shared by the library and asset synchronisers.
 *
 * A download task ends in `Some(item)` when its checksum matched and in
 * `None` otherwise. Tasks finish in an order nobody controls: each drain is
 * handed its tasks' results in an arbitrary permutation.
 */
module Dispatch {
  import opened Wrappers

  /** `CONCURRENT_TASKS_COUNT` */
  const ConcurrentTasksCount: nat := 100

  /** `CONCURRENT_BUFFERS_SIZE`: 16 KiB per pooled buffer. */
  const ConcurrentBuffersSize: nat := 16 * 1024

  /** One progress update: the item finished, the set size before it was added, and the total. */
  datatype Report<T> = Report(item: T, current: nat, total: nat)

  datatype Drained<T> = Drained(downloaded: set<T>, reports: seq<Report<T>>)

  /** The items carried by the `Some` results. */
  function Somes<T>(results: seq<Option<T>>): set<T>
    decreases |results|
  {
    if |results| == 0 then {}
    else (if results[0].Some? then {results[0].value} else {}) + Somes(results[1..])
  }

  /** How many results are `Some`. */
  function CountSome<T>(results: seq<Option<T>>): nat
    decreases |results|
  {
    if |results| == 0 then 0
    else (if results[0].Some? then 1 else 0) + CountSome(results[1..])
  }

  lemma {:induction false} SomesAppend<T>(a: seq<Option<T>>, b: seq<Option<T>>)
    ensures Somes(a + b) == Somes(a) + Somes(b)
    ensures CountSome(a + b) == CountSome(a) + CountSome(b)
    decreases |a|
  {
    if |a| > 0 {
      assert (a + b)[1..] == a[1..] + b;
      SomesAppend(a[1..], b);
    }
    else {
      assert a + b == b;
    }
  }

  /** An item is among the `Some`s exactly when `Some(item)` is one of the results. */
  lemma {:induction false} SomesMembers<T>(results: seq<Option<T>>, x: T)
    ensures x in Somes(results) <==> Some(x) in results
    decreases |results|
  {
    if |results| > 0 {
      SomesMembers(results[1..], x);
      assert results == [results[0]] + results[1..];
    }
  }

  /** The `Some`s are the results that are not `None`. */
  lemma {:induction false} CountSomeByMultiset<T>(results: seq<Option<T>>)
    ensures CountSome(results) == |results| - multiset(results)[None]
    decreases |results|
  {
    if |results| > 0 {
      CountSomeByMultiset(results[1..]);
      assert results == [results[0]] + results[1..];
      assert multiset(results) == multiset{results[0]} + multiset(results[1..]);
    }
  }

  /**
   * `process_futures`: takes finished results in completion order; each
   * `Some` is reported with the set's size before insertion and the fixed
   * total, then inserted; each `None` is dropped silently.
   */
  function ProcessFutures<T(==)>(results: seq<Option<T>>, downloaded: set<T>, max: nat): (r: Drained<T>)
    ensures r.downloaded == downloaded + Somes(results)
    ensures |r.reports| == CountSome(results)
    ensures forall i :: 0 <= i < |r.reports| ==> r.reports[i].total == max && r.reports[i].item in r.downloaded
    decreases |results|
  {
    if |results| == 0 then Drained(downloaded, [])
    else
      match results[0]
      case None => ProcessFutures(results[1..], downloaded, max)
      case Some(x) =>
        var rest := ProcessFutures(results[1..], downloaded + {x}, max);
        Drained(rest.downloaded, [Report(x, |downloaded|, max)] + rest.reports)
  }

  /** The completion order does not change what ends up downloaded, nor how many reports there are. */
  lemma DrainOrderIrrelevant<T>(a: seq<Option<T>>, b: seq<Option<T>>, downloaded: set<T>, max: nat)
    requires multiset(a) == multiset(b)
    ensures ProcessFutures(a, downloaded, max).downloaded == ProcessFutures(b, downloaded, max).downloaded
    ensures |ProcessFutures(a, downloaded, max).reports| == |ProcessFutures(b, downloaded, max).reports|
  {
    var sa, sb := Somes(a), Somes(b);
    forall x | x in sa ensures x in sb {
      SomesMembers(a, x);
      SomesMembers(b, x);
      assert Some(x) in multiset(a);
    }
    forall x | x in sb ensures x in sa {
      SomesMembers(a, x);
      SomesMembers(b, x);
      assert Some(x) in multiset(b);
    }
    assert sa == sb;
    CountSomeByMultiset(a);
    CountSomeByMultiset(b);
    assert |a| == |multiset(a)|;
    assert |b| == |multiset(b)|;
  }

  /** A result equal to something already downloaded is reported but does not grow the set. */
  lemma DuplicateDoesNotGrow<T>(x: T, downloaded: set<T>, max: nat)
    requires x in downloaded
    ensures ProcessFutures([Some(x)], downloaded, max) == Drained(downloaded, [Report(x, |downloaded|, max)])
  {
    assert [Some(x)][1..] == [];
    assert downloaded + {x} == downloaded;
  }

  /**
   * With distinct new items, the progress counter counts up by one from the
   * size of the set the drain started with.
   */
  lemma {:induction false} ProgressCountsUp<T>(results: seq<Option<T>>, downloaded: set<T>, max: nat)
    requires forall i :: 0 <= i < |results| ==> results[i].Some? && results[i].value !in downloaded
    requires forall i, j :: 0 <= i < j < |results| ==> results[i] != results[j]
    ensures var r := ProcessFutures(results, downloaded, max);
      |r.reports| == |results|
      && forall i :: 0 <= i < |results| ==> r.reports[i] == Report(results[i].value, |downloaded| + i, max)
    decreases |results|
  {
    if |results| > 0 {
      var x := results[0].value;
      var tail := results[1..];
      assert forall i :: 0 <= i < |tail| ==> tail[i] == results[i + 1];
      assert forall i :: 0 <= i < |tail| ==> tail[i].value != x;
      ProgressCountsUp(tail, downloaded + {x}, max);
      assert |downloaded + {x}| == |downloaded| + 1;
      var rest := ProcessFutures(tail, downloaded + {x}, max);
      assert ProcessFutures(results, downloaded, max).reports == [Report(x, |downloaded|, max)] + rest.reports;
    }
    else {
      assert CountSome(results) == 0;
    }
  }

  /** A task's result: the item itself when `fetch` succeeds, None otherwise. */
  function Outcome<T(==)>(fetch: T -> bool, item: T): Option<T> {
    if fetch(item) then Some(item) else None
  }

  function Outcomes<T(==)>(fetch: T -> bool, items: seq<T>): (r: seq<Option<T>>)
    ensures |r| == |items|
    ensures forall i :: 0 <= i < |items| ==> r[i] == Outcome(fetch, items[i])
  {
    seq(|items|, i requires 0 <= i < |items| => Outcome(fetch, items[i]))
  }

  /** The items whose download succeeds. */
  function Succeeded<T(==,!new)>(fetch: T -> bool, items: seq<T>): (r: set<T>)
    ensures forall x :: x in r <==> x in items && fetch(x)
  {
    set i | 0 <= i < |items| && fetch(items[i]) :: items[i]
  }

  lemma OutcomesSomes<T(!new)>(fetch: T -> bool, items: seq<T>)
    ensures Somes(Outcomes(fetch, items)) == Succeeded(fetch, items)
  {
    var o := Outcomes(fetch, items);
    forall x ensures x in Somes(o) <==> x in Succeeded(fetch, items) {
      SomesMembers(o, x);
      if x in Succeeded(fetch, items) {
        var i :| 0 <= i < |items| && items[i] == x;
        assert o[i] == Some(x);
      }
    }
  }

  /** Dispatching one more item adds its outcome to the tally. */
  lemma OutcomesExtend<T>(fetch: T -> bool, items: seq<T>, start: nat, i: nat)
    requires start <= i < |items|
    ensures Outcomes(fetch, items[start..i + 1]) == Outcomes(fetch, items[start..i]) + [Outcome(fetch, items[i])]
    ensures Somes(Outcomes(fetch, items[start..i + 1])) == Somes(Outcomes(fetch, items[start..i])) + Somes([Outcome(fetch, items[i])])
    ensures CountSome(Outcomes(fetch, items[start..i + 1])) == CountSome(Outcomes(fetch, items[start..i])) + CountSome([Outcome(fetch, items[i])])
  {
    assert Outcomes(fetch, items[start..i + 1]) == Outcomes(fetch, items[start..i]) + [Outcome(fetch, items[i])];
    SomesAppend(Outcomes(fetch, items[start..i]), [Outcome(fetch, items[i])]);
  }

  /** The dispatcher's state: tasks in flight, what has been downloaded, the reports so far, and the most tasks ever in flight. */
  datatype Flight<T> = Flight(inFlight: seq<Option<T>>, downloaded: set<T>, reports: seq<Report<T>>, peak: nat)

  /**
   * Pushing one task, then draining everything in flight if that makes
   * `ConcurrentTasksCount` of them.
   */
  function Submit<T(==,!new)>(f: Flight<T>, o: Option<T>, reorder: seq<Option<T>> -> seq<Option<T>>, max: nat): (r: Flight<T>)
    requires forall s :: multiset(reorder(s)) == multiset(s)
    requires |f.inFlight| < ConcurrentTasksCount
    ensures |r.inFlight| < ConcurrentTasksCount
    ensures r.peak == if |f.inFlight| + 1 > f.peak then |f.inFlight| + 1 else f.peak
    ensures r.downloaded + Somes(r.inFlight) == f.downloaded + Somes(f.inFlight) + Somes([o])
    ensures |r.reports| + CountSome(r.inFlight) == |f.reports| + CountSome(f.inFlight) + CountSome([o])
    ensures f.downloaded <= r.downloaded && |f.reports| <= |r.reports| && r.reports[..|f.reports|] == f.reports
    ensures forall k :: |f.reports| <= k < |r.reports| ==> r.reports[k].total == max && r.reports[k].item in r.downloaded
  {
    var pushed := f.inFlight + [o];
    SomesAppend(f.inFlight, [o]);
    var peak := if |pushed| > f.peak then |pushed| else f.peak;
    if |pushed| >= ConcurrentTasksCount then
      var d := Drain(pushed, reorder, f.downloaded, max);
      Flight([], d.downloaded, f.reports + d.reports, peak)
    else
      Flight(pushed, f.downloaded, f.reports, peak)
  }

  /**
   * The dispatch loop of `download_missing_libs` / `extract_manifest_assets`:
   * one task per item; whenever `ConcurrentTasksCount` are in flight they are
   * drained, and whatever is left is drained at the end. `reorder` is the
   * completion order of each drain.
   */
  method DispatchAll<T(==,!new)>(items: seq<T>, fetch: T -> bool, reorder: seq<Option<T>> -> seq<Option<T>>,
                        max: nat)
    returns (downloaded: set<T>, reports: seq<Report<T>>, peak: nat)
    requires forall s :: multiset(reorder(s)) == multiset(s)
    ensures downloaded == Succeeded(fetch, items)
    ensures |reports| == CountSome(Outcomes(fetch, items))
    ensures forall i :: 0 <= i < |reports| ==> reports[i].total == max && reports[i].item in downloaded
    ensures peak <= ConcurrentTasksCount
    ensures |items| > 0 ==> peak > 0
  {
    var f: Flight<T> := Flight([], {}, [], 0);
    for i := 0 to |items|
      invariant |f.inFlight| < ConcurrentTasksCount
      invariant f.downloaded + Somes(f.inFlight) == Somes(Outcomes(fetch, items[0..i]))
      invariant |f.reports| + CountSome(f.inFlight) == CountSome(Outcomes(fetch, items[0..i]))
      invariant forall k :: 0 <= k < |f.reports| ==> f.reports[k].total == max && f.reports[k].item in f.downloaded
      invariant f.peak <= ConcurrentTasksCount
      invariant i > 0 ==> f.peak > 0
    {
      OutcomesExtend(fetch, items, 0, i);
      f := Submit(f, Outcome(fetch, items[i]), reorder, max);
    }
    var drained := Drain(f.inFlight, reorder, f.downloaded, max);
    downloaded, reports, peak := drained.downloaded, f.reports + drained.reports, f.peak;
    assert items[0..|items|] == items;
    OutcomesSomes(fetch, items);
  }

  /** One drain: the in-flight results in some completion order, through `ProcessFutures`. */
  function Drain<T(==,!new)>(inFlight: seq<Option<T>>, reorder: seq<Option<T>> -> seq<Option<T>>,
                    downloaded: set<T>, max: nat): (r: Drained<T>)
    requires forall s :: multiset(reorder(s)) == multiset(s)
    ensures r.downloaded == downloaded + Somes(inFlight)
    ensures |r.reports| == CountSome(inFlight)
    ensures forall i :: 0 <= i < |r.reports| ==> r.reports[i].total == max && r.reports[i].item in r.downloaded
  {
    DrainOrderIrrelevant(reorder(inFlight), inFlight, downloaded, max);
    ProcessFutures(reorder(inFlight), downloaded, max)
  }
}
