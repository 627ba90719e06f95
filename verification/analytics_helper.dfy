/**
 The aggregate computations of backend/src/utils/analyticsHelper.js over a
 list of file documents: the image/video/JSON metrics, the processing
 averages, the storage-efficiency score, the snapshot record, the trend
 series and the seven-category distribution.

 JavaScript numbers are modelled as `nat` for counts and byte sizes and as
 `real` for the processing statistics, whose averages are true quotients
 here (floating-point rounding is not modelled).
 */
module AnalyticsHelper {

  import opened Common
  import opened Constants
  import opened FileHelper
  import opened FileModel

  function ItemOf(f: FileRecord): Item
  {
    Item(f.category, f.size)
  }

  function Items(files: seq<FileRecord>): (items: seq<Item>)
    ensures |items| == |files|
    ensures forall i :: 0 <= i < |files| ==> items[i] == ItemOf(files[i])
  {
    seq(|files|, i requires 0 <= i < |files| => ItemOf(files[i]))
  }

  /** `items.filter(f => f.category === c)`. */
  function FilterCategory(items: seq<Item>, c: Category): (r: seq<Item>)
    ensures forall i :: 0 <= i < |r| ==> r[i].category == c && r[i] in items
  {
    if |items| == 0 then []
    else
      var rest := FilterCategory(items[..|items| - 1], c);
      if items[|items| - 1].category == c then rest + [items[|items| - 1]] else rest
  }

  /** Filtering by category and then taking the length or the summed size
      gives the per-category count and size. */
  lemma {:induction false} FilterCategoryMeasures(items: seq<Item>, c: Category)
    ensures |FilterCategory(items, c)| == CountOf(items, c)
    ensures TotalSize(FilterCategory(items, c)) == SizeOf(items, c)
  {
    if |items| > 0 {
      var init := items[..|items| - 1];
      FilterCategoryMeasures(init, c);
      var rest := FilterCategory(init, c);
      if items[|items| - 1].category == c {
        assert (rest + [items[|items| - 1]])[..|rest|] == rest;
      }
    }
  }

  /** The three categories `calculateMetrics` reports. */
  datatype Triple = Triple(images: nat, videos: nat, jsonFiles: nat)

  datatype Metrics = Metrics(totalFiles: nat, totalSize: nat, fileCount: Triple, storageUsed: Triple)

  /** `calculateMetrics(files)`: totals over every file, counts and sizes for
      images, videos and JSON only. */
  function CalculateMetrics(files: seq<FileRecord>): (m: Metrics)
    ensures m.totalFiles == |files|
    ensures m.totalSize == TotalSize(Items(files))
    ensures m.fileCount == Triple(CountOf(Items(files), Image), CountOf(Items(files), Video),
                                  CountOf(Items(files), Json))
    ensures m.storageUsed == Triple(SizeOf(Items(files), Image), SizeOf(Items(files), Video),
                                    SizeOf(Items(files), Json))
  {
    var items := Items(files);
    FilterCategoryMeasures(items, Image);
    FilterCategoryMeasures(items, Video);
    FilterCategoryMeasures(items, Json);
    Metrics(
      |files|,
      TotalSize(items),
      Triple(|FilterCategory(items, Image)|, |FilterCategory(items, Video)|, |FilterCategory(items, Json)|),
      Triple(TotalSize(FilterCategory(items, Image)), TotalSize(FilterCategory(items, Video)),
             TotalSize(FilterCategory(items, Json))))
  }

  /** Every per-category size is bounded by the total size. */
  lemma {:induction false} SizeOfAtMostTotal(items: seq<Item>, c: Category)
    ensures SizeOf(items, c) <= TotalSize(items)
  {
    if |items| > 0 {
      SizeOfAtMostTotal(items[..|items| - 1], c);
    }
  }

  /** No reported count exceeds the number of files, and together the three
      counts do not either; no reported size exceeds the total size. */
  lemma MetricsBounded(files: seq<FileRecord>)
    ensures var m := CalculateMetrics(files);
      && m.fileCount.images <= m.totalFiles
      && m.fileCount.videos <= m.totalFiles
      && m.fileCount.jsonFiles <= m.totalFiles
      && m.fileCount.images + m.fileCount.videos + m.fileCount.jsonFiles <= m.totalFiles
      && m.storageUsed.images <= m.totalSize
      && m.storageUsed.videos <= m.totalSize
      && m.storageUsed.jsonFiles <= m.totalSize
  {
    var items := Items(files);
    CountTallySum(items);
    SizeOfAtMostTotal(items, Image);
    SizeOfAtMostTotal(items, Video);
    SizeOfAtMostTotal(items, Json);
  }

  /** A file whose `fileStats.processingTime` is truthy. */
  predicate HasTime(f: FileRecord)
  {
    f.fileStats.Some? && f.fileStats.value.processingTime != 0.0
  }

  /** A file whose `fileStats.accuracy` is truthy. */
  predicate HasAccuracy(f: FileRecord)
  {
    f.fileStats.Some? && f.fileStats.value.accuracy != 0.0
  }

  function TimedCount(files: seq<FileRecord>): (n: nat)
    ensures n <= |files|
  {
    if |files| == 0 then 0
    else TimedCount(files[..|files| - 1]) + (if HasTime(files[|files| - 1]) then 1 else 0)
  }

  function TimeSum(files: seq<FileRecord>): real
  {
    if |files| == 0 then 0.0
    else TimeSum(files[..|files| - 1])
         + (if HasTime(files[|files| - 1]) then files[|files| - 1].fileStats.value.processingTime else 0.0)
  }

  function AccurateCount(files: seq<FileRecord>): (n: nat)
    ensures n <= |files|
  {
    if |files| == 0 then 0
    else AccurateCount(files[..|files| - 1]) + (if HasAccuracy(files[|files| - 1]) then 1 else 0)
  }

  function AccuracySum(files: seq<FileRecord>): real
  {
    if |files| == 0 then 0.0
    else AccuracySum(files[..|files| - 1])
         + (if HasAccuracy(files[|files| - 1]) then files[|files| - 1].fileStats.value.accuracy else 0.0)
  }

  datatype ProcessingMetrics = ProcessingMetrics(averageProcessingTime: real, averageAccuracy: real, totalProcessed: nat)

  /** `calculateProcessingMetrics(files)`. `totalProcessed` counts every file;
      the time average is taken over the files with a truthy time; the
      accuracy average over the files with a truthy accuracy, and only when
      some file has a truthy time. */
  function CalculateProcessingMetrics(files: seq<FileRecord>): (m: ProcessingMetrics)
    ensures m.totalProcessed == |files|
    ensures TimedCount(files) == 0 ==> m.averageProcessingTime == 0.0 && m.averageAccuracy == 0.0
    ensures 0 < TimedCount(files) ==> m.averageProcessingTime * (TimedCount(files) as real) == TimeSum(files)
    ensures 0 < TimedCount(files) && 0 < AccurateCount(files) ==>
              m.averageAccuracy * (AccurateCount(files) as real) == AccuracySum(files)
    ensures AccurateCount(files) == 0 ==> m.averageAccuracy == 0.0
  {
    var timed := TimedCount(files);
    var accurate := AccurateCount(files);
    if timed == 0 then ProcessingMetrics(0.0, 0.0, |files|)
    else
      var avgTime := TimeSum(files) / (timed as real);
      var avgAccuracy := if accurate > 0 then AccuracySum(files) / (accurate as real) else 0.0;
      ProcessingMetrics(avgTime, avgAccuracy, |files|)
  }

  /** Every truthy processing time lies in `[lo, hi]`. */
  predicate TimesWithin(files: seq<FileRecord>, lo: real, hi: real)
  {
    forall i :: 0 <= i < |files| && HasTime(files[i]) ==>
      lo <= files[i].fileStats.value.processingTime <= hi
  }

  /** Every truthy accuracy lies in `[lo, hi]`. */
  predicate AccuraciesWithin(files: seq<FileRecord>, lo: real, hi: real)
  {
    forall i :: 0 <= i < |files| && HasAccuracy(files[i]) ==>
      lo <= files[i].fileStats.value.accuracy <= hi
  }

  lemma TimesWithinPrefix(files: seq<FileRecord>, lo: real, hi: real)
    requires |files| > 0 && TimesWithin(files, lo, hi)
    ensures TimesWithin(files[..|files| - 1], lo, hi)
    ensures HasTime(files[|files| - 1]) ==> lo <= files[|files| - 1].fileStats.value.processingTime <= hi
  {
    var init := files[..|files| - 1];
    forall i | 0 <= i < |init| && HasTime(init[i])
      ensures lo <= init[i].fileStats.value.processingTime <= hi
    {
      assert init[i] == files[i];
    }
  }

  lemma AccuraciesWithinPrefix(files: seq<FileRecord>, lo: real, hi: real)
    requires |files| > 0 && AccuraciesWithin(files, lo, hi)
    ensures AccuraciesWithin(files[..|files| - 1], lo, hi)
    ensures HasAccuracy(files[|files| - 1]) ==> lo <= files[|files| - 1].fileStats.value.accuracy <= hi
  {
    var init := files[..|files| - 1];
    forall i | 0 <= i < |init| && HasAccuracy(init[i])
      ensures lo <= init[i].fileStats.value.accuracy <= hi
    {
      assert init[i] == files[i];
    }
  }

  /** The times the upload path records (`Math.random() * 100`) sum to at most
      100 per timed file. */
  lemma {:induction false} TimeSumWithin(files: seq<FileRecord>)
    requires TimesWithin(files, 0.0, 100.0)
    ensures 0.0 <= TimeSum(files) <= 100.0 * (TimedCount(files) as real)
  {
    if |files| > 0 {
      TimesWithinPrefix(files, 0.0, 100.0);
      TimeSumWithin(files[..|files| - 1]);
    }
  }

  /** The accuracies the upload path records (`85 + Math.random() * 15`) sum to
      between 85 and 100 per file with an accuracy. */
  lemma {:induction false} AccuracySumWithin(files: seq<FileRecord>)
    requires AccuraciesWithin(files, 85.0, 100.0)
    ensures 85.0 * (AccurateCount(files) as real) <= AccuracySum(files) <= 100.0 * (AccurateCount(files) as real)
  {
    if |files| > 0 {
      AccuraciesWithinPrefix(files, 85.0, 100.0);
      AccuracySumWithin(files[..|files| - 1]);
    }
  }

  /** An average lies within the bounds of what it averages: with the times
      and accuracies the upload path records, the average time is in
      `[0, 100]` and the average accuracy in `[85, 100]` whenever they are
      computed. */
  lemma AveragesWithin(files: seq<FileRecord>)
    requires TimesWithin(files, 0.0, 100.0) && AccuraciesWithin(files, 85.0, 100.0)
    ensures var m := CalculateProcessingMetrics(files);
      && 0.0 <= m.averageProcessingTime <= 100.0
      && 0.0 <= m.averageAccuracy <= 100.0
      && (0 < TimedCount(files) && 0 < AccurateCount(files) ==> 85.0 <= m.averageAccuracy)
  {
    var m := CalculateProcessingMetrics(files);
    TimeSumWithin(files);
    AccuracySumWithin(files);
    if 0 < TimedCount(files) {
      var n := TimedCount(files) as real;
      assert m.averageProcessingTime == TimeSum(files) / n;
      QuotientWithin(0.0, TimeSum(files), 100.0, n);
      if 0 < AccurateCount(files) {
        var a := AccurateCount(files) as real;
        assert m.averageAccuracy == AccuracySum(files) / a;
        QuotientWithin(85.0, AccuracySum(files), 100.0, a);
      }
    }
  }

  /** A sum of `n` values of `[lo, hi]`, divided by `n`, is in `[lo, hi]`. */
  lemma QuotientWithin(lo: real, sum: real, hi: real, n: real)
    requires 0.0 < n
    requires lo * n <= sum <= hi * n
    ensures lo <= sum / n <= hi
  {
    assert (sum / n) * n == sum;
  }

  /** `calculateStorageEfficiency(totalSize)`: `min(95, 50 + 45)` for a
      positive total, 50 otherwise. */
  function CalculateStorageEfficiency(totalSize: int): (e: nat)
    ensures e == (if totalSize > 0 then 95 else 50)
  {
    Min(95, 50 + (if totalSize > 0 then 45 else 0))
  }

  /** A snapshot record (the `Analytics` document `createAnalyticsRecord`
      builds). */
  datatype AnalyticsRecord = AnalyticsRecord(
    analyticsId: string,
    timestamp: int,
    metrics: Metrics,
    processingMetrics: ProcessingMetrics,
    storageEfficiency: nat,
    dailyUploads: nat)

  /** Whether two instants fall on the same local calendar day
      (`toDateString()` equality); the time zone is outside the model. */
  type SameDay = (int, int) -> bool

  function UploadedOn(files: seq<FileRecord>, now: int, sameDay: SameDay): (n: nat)
    ensures n <= |files|
  {
    if |files| == 0 then 0
    else UploadedOn(files[..|files| - 1], now, sameDay) + (if sameDay(files[|files| - 1].uploadedAt, now) then 1 else 0)
  }

  /** `createAnalyticsRecord(files)`, with the identifier and the clock as
      parameters. */
  function CreateAnalyticsRecord(files: seq<FileRecord>, analyticsId: string, now: int, sameDay: SameDay): (r: AnalyticsRecord)
    ensures r.metrics == CalculateMetrics(files)
    ensures r.processingMetrics == CalculateProcessingMetrics(files)
    ensures r.storageEfficiency == (if r.metrics.totalSize > 0 then 95 else 50)
    ensures r.dailyUploads <= |files|
    ensures r.dailyUploads == UploadedOn(files, now, sameDay)
    ensures r.analyticsId == analyticsId && r.timestamp == now
  {
    var metrics := CalculateMetrics(files);
    AnalyticsRecord(analyticsId, now, metrics, CalculateProcessingMetrics(files),
                    CalculateStorageEfficiency(metrics.totalSize), UploadedOn(files, now, sameDay))
  }

  /** One point of a trend series; `day` counts calendar days, so consecutive
      days differ by one. */
  datatype TrendPoint = TrendPoint(day: int, value: int)

  /** The number of points for a period: 7 for `'7d'`, 30 for `'30d'`, 90 for
      every other string. */
  function TrendDays(period: string): (n: nat)
    ensures period == "7d" ==> n == 7
    ensures period == "30d" ==> n == 30
    ensures period != "7d" && period != "30d" ==> n == 90
  {
    if period == "7d" then 7 else if period == "30d" then 30 else 90
  }

  /** `Math.floor(x * 100)` for a draw `x` of `Math.random()`. */
  function Percentile(x: real): int
  {
    (x * 100.0).Floor
  }

  /** `getTrendData(analyticsData, period)` with the length of the history,
      today's day number and the successive `Math.random()` draws as
      parameters: the i-th iteration describes the day `today - i`, and the
      list is reversed at the end. */
  method GetTrendData(historyLength: nat, period: string, today: int, random: nat -> real)
    returns (data: seq<TrendPoint>)
    requires forall i :: 0.0 <= random(i) < 1.0
    ensures |data| == TrendDays(period)
    ensures data[|data| - 1].day == today
    ensures forall k :: 0 <= k < |data| ==> data[k].day == today - (|data| - 1 - k)
    ensures forall k :: 0 < k < |data| ==> data[k].day == data[k - 1].day + 1
    ensures historyLength == 0 ==> forall k :: 0 <= k < |data| ==> data[k].value == 0
    ensures 0 < historyLength ==> forall k :: 0 <= k < |data| ==> 0 <= data[k].value <= 99
    ensures 0 < historyLength ==>
              forall k :: 0 <= k < |data| ==> data[k].value == Percentile(random(|data| - 1 - k))
  {
    var days := TrendDays(period);
    var built: seq<TrendPoint> := [];
    var i := 0;
    while i < days
      invariant 0 <= i <= days
      invariant |built| == i
      invariant forall j :: 0 <= j < i ==> built[j].day == today - j
      invariant historyLength == 0 ==> forall j :: 0 <= j < i ==> built[j].value == 0
      invariant 0 < historyLength ==> forall j :: 0 <= j < i ==> built[j].value == Percentile(random(j))
    {
      var value := if historyLength > 0 then Percentile(random(i)) else 0;
      built := built + [TrendPoint(today - i, value)];
      i := i + 1;
    }
    data := Reverse(built);
    if 0 < historyLength {
      forall k | 0 <= k < |data|
        ensures 0 <= data[k].value <= 99
      {
        PercentileRange(random(|data| - 1 - k));
      }
    }
  }

  lemma PercentileRange(x: real)
    requires 0.0 <= x < 1.0
    ensures 0 <= Percentile(x) <= 99
  {
  }

  /** `getDistributionData(files)`: the number of files of each of the seven
      categories. */
  function GetDistributionData(files: seq<FileRecord>): (t: Tally)
    ensures t == CountTally(Items(files))
    ensures t.Sum() <= |files|
  {
    var items := Items(files);
    FilterCategoryMeasures(items, Image);
    FilterCategoryMeasures(items, Video);
    FilterCategoryMeasures(items, Audio);
    FilterCategoryMeasures(items, Document);
    FilterCategoryMeasures(items, Json);
    FilterCategoryMeasures(items, Code);
    FilterCategoryMeasures(items, Archive);
    CountTallySum(items);
    Tally(|FilterCategory(items, Image)|, |FilterCategory(items, Video)|, |FilterCategory(items, Audio)|,
          |FilterCategory(items, Document)|, |FilterCategory(items, Json)|, |FilterCategory(items, Code)|,
          |FilterCategory(items, Archive)|)
  }
}
