/**
 * The "my diet" page (src/pages/MyDiet.tsx): the day's consumed calories read from the saved
 * meal logs, the share of the daily budget they take with the card that shows it, and the
 * deletion of a meal log with its stored image.
 */
module Diet {
  import opened Options
  import opened Text

  /** A row of the food_logs table as the page holds it. */
  datatype FoodLog = FoodLog(
    id: string,
    foodName: string,
    imageUrl: string,
    calories: Option<string>,
    riskLevel: Option<string>,
    riskComment: Option<string>,
    createdAt: string)

  // ---------------------------------------------------------------------------
  // Consumed calories

  /**
   * What one log adds to the total: nothing for a null or empty calorie text, otherwise
   * parseInt of the first run of digits, and nothing when the text has no digit.
   */
  function LogCalories(log: FoodLog): (r: nat)
    ensures log.calories.None? ==> r == 0
    ensures log.calories.Some? && FirstDigitRun(log.calories.value).None? ==> r == 0
  {
    match log.calories
    case None => 0
    case Some(text) =>
      if text == [] then 0
      else
        match FirstDigitRun(text)
        case None => 0
        case Some((i, j)) =>
          assert AllDigits(text[i..j]) by {
            assert forall m :: 0 <= m < j - i ==> text[i..j][m] == text[i + m];
          }
          DecimalValue(text[i..j])
  }

  /** The callback of `foodLogs.reduce(..., 0)`, folded from the left. */
  function ReduceCalories(logs: seq<FoodLog>, total: nat): (r: nat)
    ensures r >= total
  {
    if logs == [] then total else ReduceCalories(logs[1..], total + LogCalories(logs[0]))
  }

  /** calculateConsumedCalories: the sum over all logs of their contributions. */
  function ConsumedCalories(logs: seq<FoodLog>): (r: nat)
    ensures r == SumCalories(logs)
  {
    ReduceIsSum(logs, 0);
    ReduceCalories(logs, 0)
  }

  /** The reference definition: the sum of what each log contributes. */
  function SumCalories(logs: seq<FoodLog>): nat {
    if logs == [] then 0 else LogCalories(logs[0]) + SumCalories(logs[1..])
  }

  lemma {:induction false} ReduceIsSum(logs: seq<FoodLog>, total: nat)
    ensures ReduceCalories(logs, total) == total + SumCalories(logs)
  {
    if logs != [] {
      ReduceIsSum(logs[1..], total + LogCalories(logs[0]));
    }
  }

  lemma {:induction false} SumConcat(a: seq<FoodLog>, b: seq<FoodLog>)
    ensures SumCalories(a + b) == SumCalories(a) + SumCalories(b)
  {
    if a == [] {
      assert a + b == b;
    } else {
      assert (a + b)[1..] == a[1..] + b;
      SumConcat(a[1..], b);
    }
  }

  lemma SumRemoveAt(b: seq<FoodLog>, i: nat)
    requires i < |b|
    ensures SumCalories(b) == LogCalories(b[i]) + SumCalories(b[..i] + b[i + 1..])
  {
    assert b == b[..i] + ([b[i]] + b[i + 1..]);
    SumConcat(b[..i], [b[i]] + b[i + 1..]);
    assert ([b[i]] + b[i + 1..])[1..] == b[i + 1..];
    SumConcat(b[..i], b[i + 1..]);
  }

  lemma MultisetRemoveAt(a: seq<FoodLog>, b: seq<FoodLog>, i: nat)
    requires multiset(a) == multiset(b) && a != [] && i < |b| && b[i] == a[0]
    ensures multiset(a[1..]) == multiset(b[..i] + b[i + 1..])
  {
    assert a == [a[0]] + a[1..];
    assert b == b[..i] + [b[i]] + b[i + 1..];
    calc {
      multiset(a[1..]);
      multiset(a) - multiset{a[0]};
      multiset(b) - multiset{b[i]};
      multiset(b[..i]) + multiset(b[i + 1..]);
      multiset(b[..i] + b[i + 1..]);
    }
  }

  lemma {:induction false} SumPermutation(a: seq<FoodLog>, b: seq<FoodLog>)
    requires multiset(a) == multiset(b)
    ensures SumCalories(a) == SumCalories(b)
    decreases |a|
  {
    if a != [] {
      assert a[0] in multiset(b);
      var i :| 0 <= i < |b| && b[i] == a[0];
      MultisetRemoveAt(a, b, i);
      SumPermutation(a[1..], b[..i] + b[i + 1..]);
      SumRemoveAt(b, i);
    } else {
      assert |b| == |multiset(b)| == 0;
    }
  }

  /** The consumed total does not depend on the order the logs are listed in. */
  lemma ConsumedOrderIndependent(a: seq<FoodLog>, b: seq<FoodLog>)
    requires multiset(a) == multiset(b)
    ensures ConsumedCalories(a) == ConsumedCalories(b)
  {
    SumPermutation(a, b);
  }

  /** Only the first run of digits counts, whatever text follows it. */
  lemma FirstNumberCounts(log: FoodLog, prefix: string, digits: string, rest: string)
    requires log.calories == Some(prefix + digits + rest)
    requires forall m :: 0 <= m < |prefix| ==> !IsDigit(prefix[m])
    requires |digits| > 0 && AllDigits(digits)
    requires rest == [] || !IsDigit(rest[0])
    ensures LogCalories(log) == DecimalValue(digits)
  {
    var text := prefix + digits + rest;
    FirstDigitRunOf(prefix, digits, rest);
    assert text[|prefix|..|prefix| + |digits|] == digits;
  }

  /** A calorie text without any digit contributes nothing instead of failing. */
  lemma NoDigitsCountZero(log: FoodLog)
    requires log.calories.Some?
    requires forall m :: 0 <= m < |log.calories.value| ==> !IsDigit(log.calories.value[m])
    ensures LogCalories(log) == 0
  {
  }

  lemma DecimalExamples()
    ensures AllDigits("550") && DecimalValue("550") == 550
    ensures AllDigits("420") && DecimalValue("420") == 420
  {
    assert "550"[..2] == "55" && "55"[..1] == "5" && "5"[..0] == [];
    assert "420"[..2] == "42" && "42"[..1] == "4" && "4"[..0] == [];
  }

  /** "약 550 kcal" counts 550: the Korean word for "about" and the space before the digits are skipped. */
  lemma ApproximateCalories(log: FoodLog)
    requires log.calories == Some("약 550 kcal")
    ensures LogCalories(log) == 550
  {
    DecimalExamples();
    assert "약 550 kcal" == "약 " + "550" + " kcal";
    FirstNumberCounts(log, "약 ", "550", " kcal");
  }

  /** "420kcal" counts 420: the unit right after the digits ends the run. */
  lemma SuffixedCalories(log: FoodLog)
    requires log.calories == Some("420kcal")
    ensures LogCalories(log) == 420
  {
    DecimalExamples();
    assert "420kcal" == [] + "420" + "kcal";
    FirstNumberCounts(log, [], "420", "kcal");
  }

  /** "약 550 kcal", "420kcal" and a log without calories add up to 970. */
  lemma ConsumedExample(a: FoodLog, b: FoodLog, c: FoodLog)
    requires a.calories == Some("약 550 kcal") && b.calories == Some("420kcal") && c.calories == None
    ensures ConsumedCalories([a, b, c]) == 970
  {
    ApproximateCalories(a);
    SuffixedCalories(b);
    var logs := [a, b, c];
    assert logs[1..] == [b, c] && logs[1..][1..] == [c] && logs[1..][1..][1..] == [];
    assert SumCalories([c]) == 0;
    assert SumCalories([b, c]) == 420;
  }

  // ---------------------------------------------------------------------------
  // Share of the daily budget

  /**
   * Math.round(n / d) on exact rationals: the integer r with r <= n / d + 1/2 < r + 1, so
   * halves round up, towards positive infinity, as Math.round does.
   */
  function RoundedQuotient(n: int, d: int): (r: int)
    requires d != 0
    ensures d > 0 ==> 2 * d * r <= 2 * n + d < 2 * d * (r + 1)
    ensures d < 0 ==> 2 * d * r >= 2 * n + d > 2 * d * (r + 1)
  {
    if d > 0 then (2 * n + d) / (2 * d) else (-2 * n - d) / (-2 * d)
  }

  function Min(a: int, b: int): int {
    if a <= b then a else b
  }

  /**
   * caloriePercentage: 0 without a budget (null or 0), otherwise the rounded percentage of
   * the budget consumed, capped at 100.
   */
  function CaloriePercentage(consumed: nat, daily: Option<int>): (p: int)
    ensures p <= 100
    ensures (daily.None? || daily == Some(0)) ==> p == 0
    ensures daily.Some? && daily.value > 0 ==> 0 <= p
  {
    if daily.None? || daily.value == 0 then 0
    else Min(RoundedQuotient(consumed * 100, daily.value), 100)
  }

  lemma MulMonotone(a: int, x: int, y: int)
    requires a > 0 && x <= y
    ensures a * x <= a * y
  {
    assert a * y - a * x == a * (y - x);
  }

  /** With a positive budget the percentage reaches 100 exactly when the consumed calories are at least 99.5% of it; below that it is the rounded percentage itself. */
  lemma PercentageOfPositiveBudget(consumed: nat, daily: int)
    requires daily > 0
    ensures 0 <= CaloriePercentage(consumed, Some(daily)) <= 100
    ensures CaloriePercentage(consumed, Some(daily)) == 100 <==> 200 * consumed >= 199 * daily
    ensures CaloriePercentage(consumed, Some(daily)) < 100 ==>
      CaloriePercentage(consumed, Some(daily)) == RoundedQuotient(consumed * 100, daily)
  {
    var r := RoundedQuotient(consumed * 100, daily);
    assert 2 * daily * r <= 2 * (consumed * 100) + daily < 2 * daily * (r + 1);
    if r >= 100 {
      MulMonotone(2 * daily, 100, r);
      assert 200 * consumed >= 199 * daily;
    } else {
      MulMonotone(2 * daily, r + 1, 100);
      assert 200 * consumed < 199 * daily;
    }
  }

  /** What the budget card shows. */
  datatype Banner = OverBudget | BudgetReached | NoBanner

  datatype BudgetCard =
    | Hidden
    | Card(daily: int, consumed: nat, percentage: int, alarming: bool, banner: Banner)

  /** The message branch under the progress bar: over budget above 100, reached at 100 or more. */
  function BannerFor(p: int): (r: Banner)
    ensures r == OverBudget <==> p > 100
    ensures r == BudgetReached <==> p == 100
    ensures r == NoBanner <==> p < 100
  {
    if p > 100 then OverBudget else if p >= 100 then BudgetReached else NoBanner
  }

  /** The budget card: shown when dailyCalories is truthy, with red styling when the percentage exceeds 100. */
  function BudgetView(logs: seq<FoodLog>, daily: Option<int>): (r: BudgetCard)
    ensures r.Hidden? <==> (daily.None? || daily == Some(0))
    ensures r.Card? ==>
      && r.daily == daily.value && r.consumed == SumCalories(logs)
      && r.percentage == CaloriePercentage(r.consumed, daily)
      && (r.alarming <==> r.percentage > 100)
      && r.banner == BannerFor(r.percentage)
  {
    if daily.None? || daily.value == 0 then Hidden
    else
      var consumed := ConsumedCalories(logs);
      var p := CaloriePercentage(consumed, daily);
      Card(daily.value, consumed, p, p > 100, BannerFor(p))
  }

  /** Because of the cap at 100, the over-budget styling and message never show, and the reached message shows exactly at 100. */
  lemma OverBudgetUnreachable(logs: seq<FoodLog>, daily: Option<int>)
    ensures BudgetView(logs, daily).Card? ==>
      var card := BudgetView(logs, daily);
      && !card.alarming
      && card.banner != OverBudget
      && (card.banner == BudgetReached <==> card.percentage == 100)
  {
  }

  // ---------------------------------------------------------------------------
  // Deleting a meal log

  const ImagePathMarker: string := "/object/public/food-images/"

  /** The storage key of an image: `imageUrl.split(marker)[1]`, used only when non-empty. */
  function StoragePath(url: string): (r: Option<string>)
    ensures r.Some? ==> |r.value| > 0 && forall k :: !OccursAt(r.value, ImagePathMarker, k)
    ensures (forall k :: !OccursAt(url, ImagePathMarker, k)) ==> r.None?
  {
    match SecondField(url, ImagePathMarker)
    case None => None
    case Some((a, b)) =>
      if a == b then None
      else
        SliceOccurrences(url, ImagePathMarker, a, b);
        Some(url[a..b])
  }

  /** A public object URL whose first marker is the one before the key yields that key. */
  lemma StoragePathOfPublicUrl(base: string, key: string)
    requires forall k: nat :: k < |base| ==> !OccursAt(base + ImagePathMarker + key, ImagePathMarker, k)
    requires forall k :: !OccursAt(key, ImagePathMarker, k)
    requires key != []
    ensures StoragePath(base + ImagePathMarker + key) == Some(key)
  {
    SecondFieldOf(base, ImagePathMarker, key);
    var url := base + ImagePathMarker + key;
    assert url[|base| + |ImagePathMarker|..|url|] == key;
  }

  /**
   * The key is what lies between the first marker and the next one, or the end of the URL:
   * whatever follows that next marker is not part of it, and an empty key gives no path.
   */
  lemma StoragePathUpToNextMarker(base: string, key: string, rest: string)
    requires forall k: nat :: (k < |base| || |base| + |ImagePathMarker| <= k < |base| + |ImagePathMarker| + |key|) ==>
      !OccursAt(base + ImagePathMarker + key + rest, ImagePathMarker, k)
    requires rest == [] || OccursAt(rest, ImagePathMarker, 0)
    ensures StoragePath(base + ImagePathMarker + key + rest) == if key == [] then None else Some(key)
  {
    var url := base + ImagePathMarker + key + rest;
    var a := |base| + |ImagePathMarker|;
    var end := a + |key|;
    assert url[|base|..a] == ImagePathMarker;
    assert OccursAt(url, ImagePathMarker, |base|);
    if rest != [] {
      assert url[end..end + |ImagePathMarker|] == rest[..|ImagePathMarker|];
      assert OccursAt(url, ImagePathMarker, end);
    }
    var r := SecondField(url, ImagePathMarker);
    assert r.Some?;
    var (a', b') := r.value;
    assert a' == a;
    assert b' == end;
    assert url[a..end] == key;
  }

  /** `foodLogs.filter(log => log.id !== id)`. */
  function RemoveId(logs: seq<FoodLog>, id: string): (r: seq<FoodLog>)
    ensures |r| <= |logs|
    ensures forall k :: 0 <= k < |r| ==> r[k].id != id
  {
    if logs == [] then []
    else if logs[0].id != id then [logs[0]] + RemoveId(logs[1..], id)
    else RemoveId(logs[1..], id)
  }

  /** The filter works piecewise, so it keeps the surviving logs in their order. */
  lemma {:induction false} RemoveIdConcat(a: seq<FoodLog>, b: seq<FoodLog>, id: string)
    ensures RemoveId(a + b, id) == RemoveId(a, id) + RemoveId(b, id)
  {
    if a == [] {
      assert a + b == b;
    } else {
      assert (a + b)[1..] == a[1..] + b;
      RemoveIdConcat(a[1..], b, id);
    }
  }

  /** Every log of that id is gone and every other log is kept as often as it was there. */
  lemma {:induction false} RemoveIdCounts(logs: seq<FoodLog>, id: string, log: FoodLog)
    ensures multiset(RemoveId(logs, id))[log] == if log.id == id then 0 else multiset(logs)[log]
  {
    if logs != [] {
      RemoveIdCounts(logs[1..], id, log);
      assert logs == [logs[0]] + logs[1..];
    }
  }

  /** A list without that id is left as it is. */
  lemma {:induction false} RemoveIdAbsent(logs: seq<FoodLog>, id: string)
    requires forall k :: 0 <= k < |logs| ==> logs[k].id != id
    ensures RemoveId(logs, id) == logs
  {
    if logs != [] {
      RemoveIdAbsent(logs[1..], id);
    }
  }

  /** Deleting logs never raises the consumed total. */
  lemma {:induction false} RemoveIdLowersConsumed(logs: seq<FoodLog>, id: string)
    ensures SumCalories(RemoveId(logs, id)) <= SumCalories(logs)
  {
    if logs != [] {
      RemoveIdLowersConsumed(logs[1..], id);
      if logs[0].id != id {
        SumConcat([logs[0]], RemoveId(logs[1..], id));
      }
    }
  }

  /** How the storage removal of the image ends: an error returned, or an exception thrown. */
  datatype StorageOutcome = StorageRemoved | StorageError | StorageThrows

  /** How the delete of the row ends; an error returned and an exception both reach the catch. */
  datatype DbOutcome = RowDeleted | DbFailed

  /** The observable steps of handleDelete, in order. */
  datatype Step =
    | RemoveImage(path: string)
    | LogStorageError
    | DeleteRow(id: string)
    | ToastDeleted
    | ToastDeleteFailed

  predicate IsToast(step: Step) {
    step == ToastDeleted || step == ToastDeleteFailed
  }

  /**
   * The steps of handleDelete for the storage key the URL names (if any) and the outcomes of
   * the two calls: the image removal first and at most once, an error it returns logged right
   * after it, the row delete at most once and right before the toast, and exactly one toast,
   * last.
   */
  function DeleteSteps(path: Option<string>, id: string, storage: StorageOutcome, db: DbOutcome): (steps: seq<Step>)
    ensures |steps| >= 2
    ensures path.Some? ==> steps[0] == RemoveImage(path.value)
    ensures path.None? ==> steps[0] == DeleteRow(id)
    ensures forall k :: 0 <= k < |steps| && steps[k].RemoveImage? ==> k == 0
    ensures forall k :: 0 <= k < |steps| && steps[k] == LogStorageError ==> k == 1
    ensures forall k :: 0 <= k < |steps| && steps[k].DeleteRow? ==> k == |steps| - 2
    ensures forall k :: 0 <= k < |steps| - 1 ==> !IsToast(steps[k])
    ensures DeleteRow(id) in steps <==> (path.None? || storage != StorageThrows)
    ensures LogStorageError in steps <==> (path.Some? && storage == StorageError)
    ensures steps[|steps| - 1] ==
      if (path.None? || storage != StorageThrows) && db == RowDeleted then ToastDeleted else ToastDeleteFailed
  {
    var removal := if path.Some? then [RemoveImage(path.value)] else [];
    if path.Some? && storage == StorageThrows then removal + [ToastDeleteFailed]
    else
      var logged := if path.Some? && storage == StorageError then [LogStorageError] else [];
      removal + logged + [DeleteRow(id), if db == RowDeleted then ToastDeleted else ToastDeleteFailed]
  }

  /**
   * handleDelete: remove the stored image when the URL names one (an error there is only
   * logged), delete the row, and on success drop every log of that id from the list.
   */
  method HandleDelete(foodLogs: seq<FoodLog>, id: string, imageUrl: string, storage: StorageOutcome, db: DbOutcome)
    returns (newLogs: seq<FoodLog>, steps: seq<Step>)
    ensures steps == DeleteSteps(StoragePath(imageUrl), id, storage, db)
    ensures
      var deleted := (StoragePath(imageUrl).None? || storage != StorageThrows) && db == RowDeleted;
      newLogs == (if deleted then RemoveId(foodLogs, id) else foodLogs)
  {
    steps := [];
    newLogs := foodLogs;
    var filePath := StoragePath(imageUrl);
    if filePath.Some? {
      steps := steps + [RemoveImage(filePath.value)];
      if storage == StorageThrows {
        steps := steps + [ToastDeleteFailed];
        return;
      }
      if storage == StorageError {
        steps := steps + [LogStorageError];
      }
    }
    steps := steps + [DeleteRow(id)];
    if db == DbFailed {
      steps := steps + [ToastDeleteFailed];
      return;
    }
    newLogs := RemoveId(foodLogs, id);
    steps := steps + [ToastDeleted];
  }
}
