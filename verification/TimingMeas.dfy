/**
 The running time statistics: an 11-entry array is sorted after every sample, and entry 0 is where the
 next sample goes. What survives in entries 1 to 10 is compared with the whole history.
 */
module TimingMeas {
  import opened Arith

  const ENTRIES := 11
  const INT_MAX := 0x7fff_ffff
  const U32 := 0x1_0000_0000
  const U64 := 0x1_0000_0000_0000_0000

  // ---- the comparison function ----

  // Conversion of a 64-bit difference to int.
  function ToInt(v: int): int {
    var w := v % U32;
    if w <= INT_MAX then w else w - U32
  }

  // cmpint, and with its arguments exchanged cmpintRev
  function Compare(a: nat, b: nat, maxMin: bool): int {
    ToInt(if maxMin then (a - b) % U64 else (b - a) % U64)
  }

  // Sorting order: ascending for the largest values, descending for the smallest.
  predicate Before(a: nat, b: nat, maxMin: bool) {
    if maxMin then a <= b else a >= b
  }

  lemma ToIntOfDifference(d: int)
    requires -INT_MAX <= d <= INT_MAX
    ensures ToInt(d % U64) == d
  {
    if d >= 0 {
      assert d % U64 == d && d % U32 == d;
    } else {
      assert d % U64 == d + U64;
      assert d + U64 == (d + U32) + (U32 - 1) * U32;
      assert (d + U64) % U32 == d + U32;
    }
  }

  /** The truncated difference has the right sign for values below 2^31. */
  lemma CompareOrders(a: nat, b: nat, maxMin: bool)
    requires a <= INT_MAX && b <= INT_MAX
    ensures Compare(a, b, maxMin) <= 0 <==> Before(a, b, maxMin)
  {
    hide ToInt;
    ToIntOfDifference(a - b);
    ToIntOfDifference(b - a);
  }

  /** Beyond that it can have the wrong one. */
  lemma CompareWraps()
    ensures Compare(INT_MAX + 1, 0, true) < 0 && !Before(INT_MAX + 1, 0, true)
  {
  }

  /** The comparison orders all values up to m exactly if m is below 2^31. */
  lemma CompareExactly(m: nat)
    requires m < U64
    ensures m <= INT_MAX <==>
            forall a: nat, b: nat, maxMin :: a <= m && b <= m ==> (Compare(a, b, maxMin) <= 0 <==> Before(a, b, maxMin))
  {
    if m <= INT_MAX {
      forall a: nat, b: nat, maxMin | a <= m && b <= m
        ensures Compare(a, b, maxMin) <= 0 <==> Before(a, b, maxMin)
      {
        CompareOrders(a, b, maxMin);
      }
    } else {
      CompareWraps();
    }
  }

  predicate Small(s: seq<nat>) {
    forall i :: 0 <= i < |s| ==> s[i] <= INT_MAX
  }

  predicate Sorted(s: seq<nat>, maxMin: bool) {
    forall i, j :: 0 <= i < j < |s| ==> Before(s[i], s[j], maxMin)
  }

  method Exchange(a: array<nat>, j: nat)
    requires 0 < j < a.Length
    modifies a
    ensures a[..] == old(a[..])[j := old(a[j - 1])][j - 1 := old(a[j])]
    ensures multiset(a[..]) == multiset(old(a[..]))
  {
    a[j - 1], a[j] := a[j], a[j - 1];
  }

  // Entry i moves down to its place among those before it.
  method Insert(a: array<nat>, i: nat, maxMin: bool)
    requires i < a.Length
    modifies a
    ensures multiset(a[..]) == multiset(old(a[..]))
    ensures Small(old(a[..])) && Sorted(old(a[..i]), maxMin) ==> Small(a[..]) && Sorted(a[..i + 1], maxMin)
  {
    hide Compare;
    ghost var sound := Small(a[..]) && Sorted(a[..i], maxMin);
    var j := i;
    while j > 0 && Compare(a[j - 1], a[j], maxMin) > 0
      invariant 0 <= j <= i && multiset(a[..]) == multiset(old(a[..]))
      invariant sound ==> Small(a[..])
      invariant sound ==> forall k, l :: 0 <= k < l <= i && l != j ==> Before(a[k], a[l], maxMin)
    {
      if sound {
        CompareOrders(a[j - 1], a[j], maxMin);
      }
      Exchange(a, j);
      j := j - 1;
    }
    if sound && j > 0 {
      CompareOrders(a[j - 1], a[j], maxMin);
    }
  }

  // Stands for the library's qsort, with the comparison as it is: it puts values below 2^31 in order and
  // loses none in any case.
  method Sort(a: array<nat>, maxMin: bool)
    modifies a
    ensures multiset(a[..]) == multiset(old(a[..]))
    ensures Small(old(a[..])) ==> Sorted(a[..], maxMin) && Small(a[..])
  {
    hide Small;
    for i := 0 to a.Length
      invariant multiset(a[..]) == multiset(old(a[..]))
      invariant Small(old(a[..])) ==> Small(a[..]) && Sorted(a[..i], maxMin)
    {
      Insert(a, i, maxMin);
    }
    assert a[..a.Length] == a[..];
  }

  // ---- ten largest or ten smallest ----

  /** `kept` holds, in sorting order, as many values of `all` as it has entries, and no value left out
      ranks above any kept one. */
  ghost predicate IsTop(kept: seq<nat>, all: multiset<nat>, maxMin: bool) {
    && Sorted(kept, maxMin)
    && multiset(kept) <= all
    && forall x, i :: x in all - multiset(kept) && 0 <= i < |kept| ==> Before(x, kept[i], maxMin)
  }

  /** There is only one such list. */
  lemma {:induction false} TopIsUnique(a: seq<nat>, b: seq<nat>, all: multiset<nat>, maxMin: bool)
    requires IsTop(a, all, maxMin) && IsTop(b, all, maxMin) && |a| == |b|
    ensures a == b
  {
    hide IsTop;
    if a != [] {
      var n := |a| - 1;
      SameLast(a, b, all, maxMin);
      WithoutLast(a, all, maxMin);
      WithoutLast(b, all, maxMin);
      TopIsUnique(a[..n], b[..n], all - multiset{a[n]}, maxMin);
      assert a == a[..n] + [a[n]] && b == b[..n] + [b[n]];
    }
  }

  lemma SameLast(a: seq<nat>, b: seq<nat>, all: multiset<nat>, maxMin: bool)
    requires IsTop(a, all, maxMin) && IsTop(b, all, maxMin) && a != [] && b != []
    ensures a[|a| - 1] == b[|b| - 1]
  {
    hide IsTop;
    LastIsBest(a, all, maxMin);
    LastIsBest(b, all, maxMin);
    assert Before(a[|a| - 1], b[|b| - 1], maxMin) && Before(b[|b| - 1], a[|a| - 1], maxMin);
  }

  lemma LastIsBest(kept: seq<nat>, all: multiset<nat>, maxMin: bool)
    requires IsTop(kept, all, maxMin) && kept != []
    ensures kept[|kept| - 1] in all
    ensures forall x :: x in all ==> Before(x, kept[|kept| - 1], maxMin)
  {
    assert kept[|kept| - 1] in multiset(kept);
    forall x | x in all
      ensures Before(x, kept[|kept| - 1], maxMin)
    {
      if x !in all - multiset(kept) {
        assert x in multiset(kept);
        var i :| 0 <= i < |kept| && kept[i] == x;
      }
    }
  }

  lemma WithoutLast(kept: seq<nat>, all: multiset<nat>, maxMin: bool)
    requires IsTop(kept, all, maxMin) && kept != []
    ensures IsTop(kept[..|kept| - 1], all - multiset{kept[|kept| - 1]}, maxMin)
  {
    var n := |kept| - 1;
    assert kept == kept[..n] + [kept[n]];
    assert all - multiset(kept) == all - multiset{kept[n]} - multiset(kept[..n]);
  }

  /** One sample more: sort, and let the first entry go. */
  lemma TopGrows(before: seq<nat>, after: seq<nat>, x: nat, all: multiset<nat>, maxMin: bool)
    requires IsTop(before, all, maxMin) && |after| == |before| + 1
    requires multiset(after) == multiset([x] + before) && Sorted(after, maxMin)
    ensures IsTop(after[1..], all + multiset{x}, maxMin)
  {
    assert after == [after[0]] + after[1..];
    assert multiset(after) == multiset{x} + multiset(before) == multiset{after[0]} + multiset(after[1..]);
    assert after[0] in multiset(after);
    var now := all + multiset{x};
    DropOne(all, multiset(before), multiset(after[1..]), x, after[0]);
    forall y, i | y in now - multiset(after[1..]) && 0 <= i < |after[1..]|
      ensures Before(y, after[1..][i], maxMin)
    {
      if y != after[0] {
        assert after[i + 1] in multiset(after);
        FirstsLose(before, after, x, y, all, maxMin, i + 1);
      }
    }
  }

  lemma DropOne(all: multiset<nat>, before: multiset<nat>, rest: multiset<nat>, x: nat, first: nat)
    requires before <= all && multiset{x} + before == multiset{first} + rest
    ensures rest <= all + multiset{x} && all + multiset{x} - rest == all - before + multiset{first}
  {
    forall y
      ensures rest[y] <= (all + multiset{x})[y]
      ensures (all + multiset{x} - rest)[y] == (all - before + multiset{first})[y]
    {
      assert (multiset{x} + before)[y] == (multiset{first} + rest)[y];
      assert before[y] <= all[y];
    }
  }

  // A value dropped earlier ranks below everything kept now.
  lemma FirstsLose(before: seq<nat>, after: seq<nat>, x: nat, y: nat, all: multiset<nat>, maxMin: bool, i: nat)
    requires IsTop(before, all, maxMin) && 0 < i < |after| == |before| + 1
    requires multiset(after) == multiset{x} + multiset(before) && Sorted(after, maxMin)
    requires y in all - multiset(before)
    ensures Before(y, after[i], maxMin)
  {
    assert after[0] in multiset(after) && after[i] in multiset(after);
    assert Before(after[0], after[i], maxMin);
    if after[i] in multiset(before) {
      var k :| 0 <= k < |before| && before[k] == after[i];
    } else {
      assert after[i] == x;
      assert after == [after[0]] + after[1..];
      assert after[i] == after[1..][i - 1];
      assert after[i] in multiset(after[1..]);
      assert multiset(after)[x] == 1;
      assert after[0] != x;
      var k :| 0 <= k < |before| && before[k] == after[0];
    }
  }

  // Entries 1 to 10 before the first sample.
  function Fill(v: nat): (r: seq<nat>)
    ensures |r| == ENTRIES - 1 && forall i :: 0 <= i < |r| ==> r[i] == v
  {
    seq(ENTRIES - 1, _ => v)
  }

  function Sum(s: seq<nat>): nat {
    if s == [] then 0 else Sum(s[..|s| - 1]) + s[|s| - 1]
  }

  /** What printMeas2 prints: the average and entries 1 to 10. */
  datatype Report = Report(average: nat, iterations: nat, values: seq<nat>)

  class Meas {
    var iterations: nat
    var sum: nat                   // 64 bits wide
    const maxArray: array<nat>
    ghost var history: seq<nat>    // samples since the last reset
    ghost var filler: nat          // what the array was filled with

    ghost predicate Valid(maxMin: bool)
      reads this, maxArray
    {
      && maxArray.Length == ENTRIES && filler <= INT_MAX
      && iterations == |history| && sum == Sum(history) % U64
      && (Small(history) ==>
            Small(maxArray[..]) && IsTop(maxArray[1..], multiset(Fill(filler)) + multiset(history), maxMin))
    }

    // initRefTimes
    constructor (maxMin: bool)
      ensures Valid(maxMin) && history == [] && filler == 0 && fresh(maxArray)
    {
      iterations, sum := 0, 0;
      maxArray := new nat[ENTRIES](_ => 0);
      history, filler := [], 0;
      new;
      hide IsTop;
      assert maxArray[1..] == Fill(0);
      FreshTop(0, maxMin);
    }

    // Entering one sample.
    method AddSample(diff: nat, maxMin: bool)
      requires Valid(maxMin) && diff < U64
      modifies this, maxArray
      ensures Valid(maxMin) && history == old(history) + [diff] && filler == old(filler)
      ensures multiset(maxArray[..]) == multiset(old(maxArray[1..])) + multiset{diff}
    {
      hide IsTop, Compare, Sorted;
      ghost var before := maxArray[1..];
      maxArray[0] := diff;
      sum := (sum + diff) % U64;
      iterations := iterations + 1;
      assert maxArray[..] == [diff] + before;
      SmallHistory(history, diff);
      Sort(maxArray, maxMin);
      SumWraps(history, diff);
      if Small(history + [diff]) {
        OneSampleMore(before, maxArray[..], history, diff, filler, maxMin);
      }
      history := history + [diff];
      assert maxArray[..][1..] == maxArray[1..];
    }

    // bzero, then INT_MAX in every entry in min mode.
    method Reset(maxMin: bool)
      requires maxArray.Length == ENTRIES
      modifies this, maxArray
      ensures Valid(maxMin) && history == [] && filler == if maxMin then 0 else INT_MAX
    {
      hide IsTop;
      iterations, sum := 0, 0;
      var fill := if maxMin then 0 else INT_MAX;
      for i := 0 to ENTRIES
        invariant iterations == 0 && sum == 0 && forall k :: 0 <= k < i ==> maxArray[k] == fill
      {
        maxArray[i] := fill;
      }
      history, filler := [], fill;
      assert maxArray[1..] == Fill(fill);
      FreshTop(fill, maxMin);
    }

    // printMeas2, and starting over.
    method PrintAndReset(maxMin: bool) returns (report: Report)
      requires Valid(maxMin) && history != []
      modifies this, maxArray
      ensures Valid(maxMin) && history == [] && filler == if maxMin then 0 else INT_MAX
      ensures report.iterations == |old(history)| && report.average == Sum(old(history)) % U64 / |old(history)|
      ensures report.values == old(maxArray[1..])
      ensures Small(old(history)) ==>
                IsTop(report.values, multiset(Fill(old(filler))) + multiset(old(history)), maxMin)
    {
      hide IsTop, Small, Fill;
      report := Report(sum / iterations, iterations, maxArray[1..]);
      Reset(maxMin);
    }

    /** updateTimesReset and measTransportTime with the elapsed time already computed and converted to 64
        bits. Every `period` samples it reports the average, from the sum modulo 2^64, and entries 1 to
        10, and starts over; if all samples are below 2^31 these are the ten largest (or smallest). */
    method UpdateTimesReset(start: nat, diff: nat, period: nat, maxMin: bool) returns (report: seq<Report>)
      requires Valid(maxMin) && period > 0 && diff < U64
      modifies this, maxArray
      ensures Valid(maxMin)
      ensures start == 0 ==> report == [] && history == old(history) && filler == old(filler) && maxArray[..] == old(maxArray[..])
      ensures start != 0 ==>
                multiset(if report == [] then maxArray[..] else report[0].values)
                <= multiset(old(maxArray[1..])) + multiset{diff}
      ensures start != 0 ==>
                var samples := old(history) + [diff];
                if |samples| % period == 0 then
                  && history == [] && filler == (if maxMin then 0 else INT_MAX) && |report| == 1
                  && report[0].iterations == |samples| && report[0].average == Sum(samples) % U64 / |samples|
                  && |report[0].values| == ENTRIES - 1
                  && (Small(samples) ==>
                        IsTop(report[0].values, multiset(Fill(old(filler))) + multiset(samples), maxMin))
                else report == [] && history == samples && filler == old(filler)
    {
      hide IsTop, Small, Fill, Sum;
      report := [];
      if start != 0 {
        AddSample(diff, maxMin);
        TailWithin(maxArray[..]);
        assert maxArray[..][1..] == maxArray[1..];
        if iterations % period == 0 {
          var printed := PrintAndReset(maxMin);
          report := [printed];
        }
      }
    }
  }

  lemma TailWithin(s: seq<nat>)
    requires s != []
    ensures multiset(s[1..]) <= multiset(s)
  {
    assert s == s[..1] + s[1..];
  }

  lemma SmallHistory(history: seq<nat>, x: nat)
    ensures Small(history + [x]) <==> Small(history) && x <= INT_MAX
  {
    assert (history + [x])[|history|] == x;
    assert forall i :: 0 <= i < |history| ==> (history + [x])[i] == history[i];
  }

  lemma SumWraps(history: seq<nat>, x: nat)
    ensures Sum(history + [x]) % U64 == (Sum(history) % U64 + x) % U64
  {
    assert (history + [x])[..|history|] == history;
    var q := Sum(history) / U64;
    assert Sum(history) + x == Sum(history) % U64 + x + q * U64;
    DivModShift(Sum(history) % U64 + x, q, U64);
  }

  lemma OneSampleMore(before: seq<nat>, after: seq<nat>, history: seq<nat>, x: nat, filler: nat, maxMin: bool)
    requires |after| == ENTRIES && |before| == ENTRIES - 1
    requires IsTop(before, multiset(Fill(filler)) + multiset(history), maxMin)
    requires multiset(after) == multiset([x] + before) && Sorted(after, maxMin)
    ensures IsTop(after[1..], multiset(Fill(filler)) + multiset(history + [x]), maxMin)
    ensures Sum(history + [x]) == Sum(history) + x
  {
    hide IsTop, Sorted, Fill;
    var all := multiset(Fill(filler)) + multiset(history);
    TopGrows(before, after, x, all, maxMin);
    assert all + multiset{x} == multiset(Fill(filler)) + multiset(history + [x]);
    assert (history + [x])[..|history|] == history;
  }

  lemma FreshTop(fill: nat, maxMin: bool)
    ensures var s := Fill(fill);
            IsTop(s, multiset(s) + multiset([]), maxMin)
  {
    var s := Fill(fill);
    assert multiset(s) + multiset([]) - multiset(s) == multiset{};
  }

  /** In min mode the array starts out zero, not INT_MAX as after a reset: until the first reset it shows
      zeros, whatever the samples, which are the ten smallest exactly if ten samples are zero. */
  lemma FirstMinReportIsZero(values: seq<nat>, samples: seq<nat>)
    requires |values| == ENTRIES - 1 && IsTop(values, multiset(Fill(0)) + multiset(samples), false)
    ensures values == Fill(0)
    ensures IsTop(values, multiset(samples), false) <==> multiset(samples)[0] >= ENTRIES - 1
  {
    var zeros := Fill(0);
    var all := multiset(zeros) + multiset(samples);
    assert all - multiset(zeros) == multiset(samples);
    assert IsTop(zeros, all, false);
    TopIsUnique(values, zeros, all, false);
    TenZeros();
    assert multiset(zeros) <= multiset(samples) <==> multiset(samples)[0] >= ENTRIES - 1;
  }

  lemma TenZeros()
    ensures forall x :: multiset(Fill(0))[x] == if x == 0 then ENTRIES - 1 else 0
  {
    assert Fill(0) == [0, 0, 0, 0, 0, 0, 0, 0, 0, 0];
  }
}
