/** The per-category spike part of the monthly report: `detect_spikes` in
    backend/services/analytics_services.py. */
module Spikes {
  import opened Wrappers
  import opened Calendar
  import opened Percent

  /** One row of a grouped query: a category name and that category's expense in the month. */
  datatype CategorySum = CategorySum(name: string, amount: real)

  datatype Spike = Spike(category: string, changePercent: real, spike: bool)

  /** Growth strictly above this many percent is a spike. */
  const SpikeThreshold: real := 40.0

  /** `{c: amt for c, amt in previous}`: a later row for a name replaces an earlier one. */
  function PrevLookup(previous: seq<CategorySum>): (r: map<string, real>)
    ensures previous == [] ==> r == map[]
    ensures previous != [] ==> var last := previous[|previous| - 1];
                               last.name in r && r[last.name] == last.amount
  {
    if previous == [] then map[]
    else
      var last := previous[|previous| - 1];
      PrevLookup(previous[..|previous| - 1])[last.name := last.amount]
  }

  /** Some previous row is for category `name`. */
  ghost predicate HasRow(previous: seq<CategorySum>, name: string) {
    exists i :: 0 <= i < |previous| && previous[i].name == name
  }

  /** Row `i` is the last row for its category. */
  ghost predicate IsLastRow(previous: seq<CategorySum>, i: int) {
    0 <= i < |previous| && forall j :: i < j < |previous| ==> previous[j].name != previous[i].name
  }

  /** The lookup has a key exactly for each category with a row. */
  lemma {:induction false} PrevLookupKeys(previous: seq<CategorySum>, c: string)
    ensures c in PrevLookup(previous) <==> HasRow(previous, c)
  {
    if previous != [] {
      var init, last := previous[..|previous| - 1], previous[|previous| - 1];
      PrevLookupKeys(init, c);
      if c == last.name {
        assert previous[|previous| - 1].name == c;
      } else {
        if HasRow(previous, c) {
          var i :| 0 <= i < |previous| && previous[i].name == c;
          assert init[i].name == c;
        }
        if HasRow(init, c) {
          var i :| 0 <= i < |init| && init[i].name == c;
          assert previous[i].name == c;
        }
      }
    }
  }

  /** Each category is mapped to the amount of its last row. */
  lemma {:induction false} PrevLookupLastRow(previous: seq<CategorySum>, i: int)
    requires IsLastRow(previous, i)
    ensures previous[i].name in PrevLookup(previous)
    ensures PrevLookup(previous)[previous[i].name] == previous[i].amount
  {
    var init, last := previous[..|previous| - 1], previous[|previous| - 1];
    if i < |init| {
      assert init[i] == previous[i];
      assert IsLastRow(init, i);
      PrevLookupLastRow(init, i);
    }
  }

  /** A category's amount last month, 0 for a category the lookup does not have. */
  function PrevAmount(prevMap: map<string, real>, name: string): (r: real)
    ensures name in prevMap ==> r == prevMap[name]
    ensures name !in prevMap ==> r == 0.0
  {
    if name in prevMap then prevMap[name] else 0.0
  }

  /** A category spikes when it had a positive amount last month and grew by more than the threshold. */
  predicate IsSpike(row: CategorySum, prevMap: map<string, real>) {
    var prev := PrevAmount(prevMap, row.name);
    prev > 0.0 && ChangePercent(row.amount, prev) > SpikeThreshold
  }

  function SpikeOf(row: CategorySum, prevMap: map<string, real>): Spike
    requires PrevAmount(prevMap, row.name) > 0.0
  {
    Spike(row.name, ChangePercent(row.amount, PrevAmount(prevMap, row.name)), true)
  }

  /** The spikes among `current`, in its order. */
  function SpikesOf(current: seq<CategorySum>, prevMap: map<string, real>): seq<Spike> {
    if current == [] then []
    else
      var last := current[|current| - 1];
      SpikesOf(current[..|current| - 1], prevMap) + (if IsSpike(last, prevMap) then [SpikeOf(last, prevMap)] else [])
  }

  /** The indices of the rows of `current` that spike. */
  ghost function SpikeSources(current: seq<CategorySum>, prevMap: map<string, real>): seq<nat> {
    if current == [] then []
    else
      var last := current[|current| - 1];
      SpikeSources(current[..|current| - 1], prevMap) + (if IsSpike(last, prevMap) then [|current| - 1] else [])
  }

  /** `detect_spikes(user_id, year, month)` after its two grouped queries, whose rows are `current`
      and `previous`. It resolves the month's range and the previous month's (raising when Python
      cannot represent either), looks every current row up in last month's amounts and emits the
      rows that spike. */
  method DetectSpikes(year: int, month: int, current: seq<CategorySum>, previous: seq<CategorySum>)
    returns (r: Result<seq<Spike>, DateError>)
    ensures r.Ok? <==> HasMonthRange(year, month) && HasMonthRange(PrevMonth(year, month).0, PrevMonth(year, month).1)
    ensures r.Err? ==> r.error == if !HasMonthRange(year, month) then MonthRange(year, month).error
                                  else MonthRange(PrevMonth(year, month).0, PrevMonth(year, month).1).error
    ensures r.Ok? ==> r.value == SpikesOf(current, PrevLookup(previous))
  {
    var range := MonthRange(year, month);
    if range.Err? {
      return Err(range.error);
    }
    var (prevYear, prevMonth) := PrevMonth(year, month);
    var prevRange := MonthRange(prevYear, prevMonth);
    if prevRange.Err? {
      return Err(prevRange.error);
    }
    var prevMap := PrevLookup(previous);
    var spikes: seq<Spike> := [];
    for i := 0 to |current|
      invariant spikes == SpikesOf(current[..i], prevMap)
    {
      var row := current[i];
      assert current[..i + 1] == current[..i] + [row];
      assert SpikesOf(current[..i + 1], prevMap) ==
             SpikesOf(current[..i], prevMap) + (if IsSpike(row, prevMap) then [SpikeOf(row, prevMap)] else []) by {
        assert current[..i + 1][..i] == current[..i];
      }
      var prevAmt := PrevAmount(prevMap, row.name);
      if prevAmt > 0.0 {
        var change := ChangePercent(row.amount, prevAmt);
        if change > SpikeThreshold {
          assert IsSpike(row, prevMap) && SpikeOf(row, prevMap) == Spike(row.name, change, true);
          spikes := spikes + [Spike(row.name, change, true)];
        } else {
          assert !IsSpike(row, prevMap);
        }
      } else {
        assert !IsSpike(row, prevMap);
      }
    }
    assert current[..|current|] == current;
    return Ok(spikes);
  }

  /** The spikes are the spiking rows of `current`, each once and in their original order: an
      order-preserving subsequence, every entry flagged as a spike. */
  lemma {:induction false} SpikesAreSubsequence(current: seq<CategorySum>, prevMap: map<string, real>)
    ensures var spikes, sources := SpikesOf(current, prevMap), SpikeSources(current, prevMap);
            |spikes| == |sources| &&
            (forall k :: 0 <= k < |sources| ==>
               sources[k] < |current| && IsSpike(current[sources[k]], prevMap) &&
               spikes[k] == SpikeOf(current[sources[k]], prevMap) && spikes[k].spike) &&
            (forall k, l :: 0 <= k < l < |sources| ==> sources[k] < sources[l]) &&
            (forall i :: 0 <= i < |current| && IsSpike(current[i], prevMap) ==> i in sources)
  {
    if current != [] {
      var init := current[..|current| - 1];
      SpikesAreSubsequence(init, prevMap);
      assert forall i :: 0 <= i < |init| ==> init[i] == current[i];
    }
  }

  /** The threshold stated without division: growth over 40% means more than 1.4 times last
      month's (positive) amount. */
  lemma SpikeIffAboveThreshold(row: CategorySum, prevMap: map<string, real>)
    ensures IsSpike(row, prevMap) <==>
            row.name in prevMap && prevMap[row.name] > 0.0 &&
            row.amount * 100.0 > prevMap[row.name] * (100.0 + SpikeThreshold)
  {
    var prev := PrevAmount(prevMap, row.name);
    if prev > 0.0 {
      ChangeAbove(row.amount, prev, SpikeThreshold);
    }
  }

  /** A category that is new this month, or whose previous amount is not positive, never spikes;
      a category absent this month is never reported because every spike comes from a current row. */
  lemma NoBaselineNoSpike(current: seq<CategorySum>, previous: seq<CategorySum>, k: nat)
    requires k < |SpikesOf(current, PrevLookup(previous))|
    ensures var s := SpikesOf(current, PrevLookup(previous))[k];
            (exists i :: 0 <= i < |current| && current[i].name == s.category) &&
            HasRow(previous, s.category) && s.category in PrevLookup(previous) && PrevLookup(previous)[s.category] > 0.0
  {
    var prevMap := PrevLookup(previous);
    SpikesAreSubsequence(current, prevMap);
    var src := SpikeSources(current, prevMap)[k];
    assert current[src].name == SpikesOf(current, prevMap)[k].category;
    PrevLookupKeys(previous, current[src].name);
  }

  /** The threshold's edges: 45% growth is a spike, exactly 40% is not, nor is growth from nothing. */
  lemma SpikeBoundaries()
    ensures var prevMap := PrevLookup([CategorySum("Food", 100.0), CategorySum("Rent", 0.0)]);
            IsSpike(CategorySum("Food", 145.0), prevMap) &&
            SpikeOf(CategorySum("Food", 145.0), prevMap) == Spike("Food", 45.0, true) &&
            !IsSpike(CategorySum("Food", 140.0), prevMap) &&
            !IsSpike(CategorySum("Rent", 500.0), prevMap) &&
            !IsSpike(CategorySum("Travel", 500.0), prevMap)
  {
  }
}
