/**
 The analytics endpoints (backend/src/controllers/analyticsController.js).
 Every endpoint first probes the database connection; without one it scans
 the upload directory instead of querying the file documents. The two modes
 use different denominators for their percentages, and this module keeps
 them apart:

 - a directory scan classifies every entry by its name and only ever sees
   entries, never deleted records; its percentages are `Math.round`ed over
   the entries of a named category;
 - a database query sees the documents that are not soft-deleted; its
   percentages are unrounded quotients.

 Display labels (names, icons, colours) are carried as plain strings.
 */
module AnalyticsController {

  import opened Common
  import opened Constants
  import opened FileHelper
  import opened UploadDir
  import opened FileModel
  import opened AnalyticsHelper

  /** What probing `File.collection.conn` can find: no connection object, a
      connection in some `readyState`, or a probe that throws. */
  datatype ConnProbe = NoConnection | Connection(readyState: int) | ProbeThrows

  /** `isDBAvailable()`: a connection whose `readyState` is 1 (connected); a
      missing connection and a throwing probe both read as unavailable. */
  function IsDBAvailable(p: ConnProbe): (up: bool)
    ensures up <==> p.Connection? && p.readyState == 1
  {
    match p
    case NoConnection => false
    case Connection(state) => state == 1
    case ProbeThrows => false
  }

  /** The items of a directory scan: every entry classified by its name, with
      `fallback` for names the lookup does not know. */
  function ScanItems(lookup: MimeLookup, dir: Option<seq<DirEntry>>, fallback: string): (items: seq<Item>)
    ensures |items| == |Entries(dir)|
  {
    EntryItems(lookup, Entries(dir), fallback)
  }

  // ---------------------------------------------------------------- dashboard

  /** The `data` of the dashboard response, in either mode; `counts` is the
      scan's `fileCount`, which holds all seven categories. */
  datatype DashboardStats =
    | ScanDashboard(totalFiles: nat, counts: Tally, totalSize: nat, efficiency: nat)
    | DatabaseDashboard(totalFiles: nat, fileCount: Triple, storageUsed: Triple, totalSize: nat,
                        efficiency: nat, perCategory: Tally)

  /** The dashboard of classified directory entries, one entry at a time as
      the scan's loop goes: every entry counts towards `totalFiles` and
      `totalSize`, an entry of a named category also towards its category's
      count, and the efficiency is fixed at 95. */
  method ScanDashboardOf(items: seq<Item>) returns (d: DashboardStats)
    ensures d.ScanDashboard?
    ensures d.totalFiles == |items|
    ensures d.totalSize == TotalSize(items)
    ensures d.counts == CountTally(items)
    ensures d.counts.Sum() <= d.totalFiles
    ensures d.efficiency == 95
  {
    var stats := ZeroTally;
    var totalSize := 0;
    var i := 0;
    while i < |items|
      invariant 0 <= i <= |items|
      invariant totalSize == TotalSize(items[..i])
      invariant stats == CountTally(items[..i])
    {
      var item := items[i];
      assert items[..i + 1] == items[..i] + [item];
      TallyStep(items[..i], item);
      totalSize := totalSize + item.size;
      if item.category.Known() {
        stats := stats.Set(item.category, stats.Get(item.category) + 1);
      }
      i := i + 1;
    }
    assert items[..i] == items;
    CountTallySum(items);
    d := ScanDashboard(|items|, stats, totalSize, 95);
  }

  /** `getDashboardStats` without a database: the directory's entries,
      classified by name with the octet-stream fallback. */
  method ScanDashboardStats(lookup: MimeLookup, dir: Option<seq<DirEntry>>) returns (d: DashboardStats)
    ensures d.ScanDashboard?
    ensures d.totalFiles == |Entries(dir)|
    ensures d.counts == CountTally(ScanItems(lookup, dir, OctetStream))
    ensures d.counts.Sum() <= d.totalFiles
    ensures d.efficiency == 95
  {
    d := ScanDashboardOf(ScanItems(lookup, dir, OctetStream));
  }

  /** The dashboard from the documents that are not soft-deleted: the
      image/video/JSON metrics, the seven per-category counts of
      `calculateStorageStats`, and the efficiency heuristic on the total. */
  method DatabaseDashboardStats(store: seq<FileRecord>) returns (d: DashboardStats)
    ensures d.DatabaseDashboard?
    ensures d.totalFiles == |Live(store)|
    ensures d.totalSize == TotalSize(Items(Live(store)))
    ensures d.perCategory == CountTally(Items(Live(store)))
    ensures d.fileCount == CalculateMetrics(Live(store)).fileCount
    ensures d.storageUsed == CalculateMetrics(Live(store)).storageUsed
    ensures d.efficiency == (if d.totalSize > 0 then 95 else 50)
  {
    var files := Live(store);
    var metrics := CalculateMetrics(files);
    var storage := CalculateStorageStats(Items(files));
    d := DatabaseDashboard(metrics.totalFiles, metrics.fileCount, metrics.storageUsed, storage.totalSize,
                           CalculateStorageEfficiency(storage.totalSize), storage.flat);
  }

  /** `getDashboardStats`: the mode follows the connection probe. */
  method GetDashboardStats(probe: ConnProbe, lookup: MimeLookup, dir: Option<seq<DirEntry>>, store: seq<FileRecord>)
    returns (d: DashboardStats)
    ensures d.ScanDashboard? <==> !IsDBAvailable(probe)
    ensures !IsDBAvailable(probe) ==> d.totalFiles == |Entries(dir)| && d.efficiency == 95
    ensures IsDBAvailable(probe) ==> d.totalFiles == |Live(store)|
    ensures IsDBAvailable(probe) ==> d.perCategory == CountTally(Items(Live(store)))
  {
    if !IsDBAvailable(probe) {
      d := ScanDashboardStats(lookup, dir);
    } else {
      d := DatabaseDashboardStats(store);
    }
  }

  // ----------------------------------------------------------------- labels

  /** How a report row is displayed. */
  datatype Label = Label(name: string, icon: string, color: string)

  function Icon(c: Category): string
  {
    match c
    case Image => "fa-image"
    case Video => "fa-video"
    case Audio => "fa-music"
    case Document => "fa-file-alt"
    case Json => "fa-file-code"
    case Code => "fa-code"
    case Archive => "fa-archive"
    case Unknown => ""
  }

  /** The colour of a category; the archive colour is `#ffa502` in a directory
      scan and `#ffe66d` in the database reports. */
  function Color(c: Category, database: bool): string
  {
    match c
    case Image => "#4361ee"
    case Video => "#7209b7"
    case Audio => "#f72585"
    case Document => "#ff006e"
    case Json => "#4cc9f0"
    case Code => "#06ffa5"
    case Archive => if database then "#ffe66d" else "#ffa502"
    case Unknown => ""
  }

  /** The directory-scan breakdown names a category by capitalising it. */
  function ScanBreakdownLabel(c: Category): Label
  {
    var name := match c
      case Image => "Image"
      case Video => "Video"
      case Audio => "Audio"
      case Document => "Document"
      case Json => "Json"
      case Code => "Code"
      case Archive => "Archive"
      case Unknown => "Unknown";
    Label(name, Icon(c), Color(c, false))
  }

  function DatabaseBreakdownLabel(c: Category): Label
  {
    var name := match c
      case Image => "Images"
      case Video => "Videos"
      case Audio => "Audio"
      case Document => "Documents"
      case Json => "JSON Data"
      case Code => "Code Files"
      case Archive => "Archives"
      case Unknown => "";
    Label(name, Icon(c), Color(c, true))
  }

  /** The distribution rows carry no icon. */
  function DistributionLabel(c: Category, database: bool): Label
  {
    var name := match c
      case Image => "Images"
      case Video => "Videos"
      case Audio => "Audio"
      case Document => "Documents"
      case Json => "JSON"
      case Code => "Code"
      case Archive => "Archives"
      case Unknown => "";
    Label(name, "", Color(c, database))
  }

  // ------------------------------------------------------ rounded percentages

  /** `Math.round(100 * x / b)` for every part `x`. */
  function RoundedShares(xs: seq<nat>, b: nat): (r: seq<nat>)
    requires 0 < b
    ensures |r| == |xs|
    ensures forall i :: 0 <= i < |xs| ==> r[i] == RoundPercent(xs[i], b)
  {
    seq(|xs|, i requires 0 <= i < |xs| => RoundPercent(xs[i], b))
  }

  /** `2 * b` times each rounded share, summed. */
  function ScaledShareSum(xs: seq<nat>, b: nat): nat
    requires 0 < b
  {
    if |xs| == 0 then 0 else ScaledShareSum(xs[..|xs| - 1], b) + 2 * b * RoundPercent(xs[|xs| - 1], b)
  }

  lemma {:induction false} ScaledShareSumIsScaled(xs: seq<nat>, b: nat)
    requires 0 < b
    ensures ScaledShareSum(xs, b) == 2 * b * SumOf(RoundedShares(xs, b))
  {
    if |xs| > 0 {
      var init := xs[..|xs| - 1];
      ScaledShareSumIsScaled(init, b);
      var rs := RoundedShares(xs, b);
      assert rs[..|rs| - 1] == RoundedShares(init, b);
      var s := SumOf(RoundedShares(init, b));
      var r := RoundPercent(xs[|xs| - 1], b);
      assert SumOf(rs) == s + r;
      MulDistributes(2 * b, s, r);
    }
  }

  lemma MulDistributes(k: nat, x: nat, y: nat)
    ensures k * (x + y) == k * x + k * y
  {
  }

  /** Each rounding moves a share by at most half a point: with `n` parts the
      scaled rounded shares stay within `n * b` of `200` times the total. */
  lemma {:induction false} RoundingDrift(xs: seq<nat>, b: nat, n: nat)
    requires 0 < b && n == |xs|
    ensures ScaledShareSum(xs, b) <= 200 * SumOf(xs) + n * b
    ensures 200 * SumOf(xs) + n * b + n <= ScaledShareSum(xs, b) + 2 * (n * b)
  {
    if |xs| > 0 {
      RoundingDrift(xs[..|xs| - 1], b, n - 1);
      DriftLast(xs, b);
      MulPred(n, b);
    }
  }

  lemma MulPred(n: nat, b: nat)
    requires 0 < n
    ensures n * b == (n - 1) * b + b
  {
  }

  /** The last part moves the scaled sum by `200` times its value, give or
      take `b`. */
  lemma DriftLast(xs: seq<nat>, b: nat)
    requires 0 < b && 0 < |xs|
    ensures var init := xs[..|xs| - 1];
      && SumOf(xs) == SumOf(init) + xs[|xs| - 1]
      && ScaledShareSum(init, b) + 200 * xs[|xs| - 1] - b < ScaledShareSum(xs, b)
      && ScaledShareSum(xs, b) <= ScaledShareSum(init, b) + 200 * xs[|xs| - 1] + b
  {
    var r := RoundPercent(xs[|xs| - 1], b);
    assert ScaledShareSum(xs, b) == ScaledShareSum(xs[..|xs| - 1], b) + 2 * b * r;
  }

  /** Seven rounded shares of a positive whole add up to between 97 and 103. */
  lemma SevenSharesNearHundred(xs: seq<nat>, b: nat)
    requires 0 < b && |xs| == 7 && SumOf(xs) == b
    ensures 97 <= SumOf(RoundedShares(xs, b)) <= 103
  {
    RoundingDrift(xs, b, 7);
    ScaledShareSumIsScaled(xs, b);
    var s := SumOf(RoundedShares(xs, b));
    if s > 103 {
      MulMonotone(2 * b, 104, s);
      assert false;
    }
    if s < 97 {
      MulMonotone(2 * b, s, 96);
      assert false;
    }
  }

  /** The seven per-category values of a tally, in report order. */
  function Slots(t: Tally): (xs: seq<nat>)
    ensures |xs| == 7
    ensures forall i :: 0 <= i < 7 ==> xs[i] == t.Get(KnownCategories[i])
    ensures SumOf(xs) == t.Sum()
  {
    var s1 := [t.image];
    assert SumOf(s1) == t.image by { assert s1[..0] == []; }
    var s2 := s1 + [t.video];
    assert s2[..1] == s1;
    assert SumOf(s2) == SumOf(s1) + t.video;
    var s3 := s2 + [t.audio];
    assert s3[..2] == s2;
    assert SumOf(s3) == SumOf(s2) + t.audio;
    var s4 := s3 + [t.document];
    assert s4[..3] == s3;
    assert SumOf(s4) == SumOf(s3) + t.document;
    var s5 := s4 + [t.json];
    assert s5[..4] == s4;
    assert SumOf(s5) == SumOf(s4) + t.json;
    var s6 := s5 + [t.code];
    assert s6[..5] == s5;
    assert SumOf(s6) == SumOf(s5) + t.code;
    var s7 := s6 + [t.archive];
    assert s7[..6] == s6;
    assert SumOf(s7) == SumOf(s6) + t.archive;
    s7
  }

  // --------------------------------------------------------- storage breakdown

  datatype BreakdownRow<P> = BreakdownRow(category: Category, display: Label, count: nat, sizeBytes: nat, percentage: P)

  function BreakdownSizes<P>(rows: seq<BreakdownRow<P>>): seq<nat>
  {
    Column(rows, (r: BreakdownRow<P>) => r.sizeBytes)
  }

  function BreakdownCounts<P>(rows: seq<BreakdownRow<P>>): seq<nat>
  {
    Column(rows, (r: BreakdownRow<P>) => r.count)
  }

  function BreakdownPercentages<P>(rows: seq<BreakdownRow<P>>): seq<P>
  {
    Column(rows, (r: BreakdownRow<P>) => r.percentage)
  }


  /** The size of the items of one named category is part of the size of
      all items of a named category. */
  lemma {:induction false} SizeOfAtMostKnown(items: seq<Item>, c: Category)
    requires c.Known()
    ensures SizeOf(items, c) <= KnownSize(items)
  {
    if |items| > 0 {
      SizeOfAtMostKnown(items[..|items| - 1], c);
    }
  }

  /** The number of items of one named category is part of the number of
      items of a named category. */
  lemma {:induction false} CountOfAtMostKnown(items: seq<Item>, c: Category)
    requires c.Known()
    ensures CountOf(items, c) <= KnownCount(items)
  {
    if |items| > 0 {
      CountOfAtMostKnown(items[..|items| - 1], c);
    }
  }

  /** `(x / n) * 100` for every part `x`. */
  function CountShares(xs: seq<nat>, n: nat): (r: seq<real>)
    requires 0 < n
    ensures |r| == |xs|
    ensures forall i :: 0 <= i < |xs| ==> r[i] == (xs[i] as real / n as real) * 100.0
  {
    seq(|xs|, i requires 0 <= i < |xs| => (xs[i] as real / n as real) * 100.0)
  }

  /** Unrounded shares add up to the share of the sum. */
  lemma {:induction false} CountSharesSum(xs: seq<nat>, n: nat)
    requires 0 < n
    ensures SumReal(CountShares(xs, n)) == (SumOf(xs) as real / n as real) * 100.0
  {
    if |xs| > 0 {
      var init := xs[..|xs| - 1];
      var x := xs[|xs| - 1];
      CountSharesSum(init, n);
      var rs := CountShares(xs, n);
      assert rs[..|rs| - 1] == CountShares(init, n);
      var s := SumOf(init) as real;
      var m := n as real;
      assert s / m + (x as real) / m == (s + x as real) / m;
    }
  }

  /** One row of the storage breakdown without a database. */
  function ScanBreakdownRow(items: seq<Item>, c: Category): BreakdownRow<nat>
  {
    var total := KnownSize(items);
    BreakdownRow(c, ScanBreakdownLabel(c), CountOf(items, c), SizeOf(items, c),
                 if total > 0 then RoundPercent(SizeOf(items, c), total) else 0)
  }

  /** The storage breakdown of classified directory entries: seven rows in
      category order, each with the number and the summed size of the entries
      of its category. */
  function ScanBreakdownOf(items: seq<Item>): (rows: seq<BreakdownRow<nat>>)
    ensures |rows| == 7
    ensures forall i :: 0 <= i < 7 ==> rows[i].category == KnownCategories[i]
    ensures forall i :: 0 <= i < 7 ==> rows[i].count == CountOf(items, KnownCategories[i])
    ensures forall i :: 0 <= i < 7 ==> rows[i].sizeBytes == SizeOf(items, KnownCategories[i])
  {
    seq(7, i requires 0 <= i < 7 => ScanBreakdownRow(items, KnownCategories[i]))
  }

  /** `getStorageBreakdown` without a database; this scan falls back to the
      misspelled octet-stream type, which classifies the same. */
  function ScanBreakdown(lookup: MimeLookup, dir: Option<seq<DirEntry>>): (rows: seq<BreakdownRow<nat>>)
    ensures rows == ScanBreakdownOf(ScanItems(lookup, dir, MisspelledOctetStream))
    ensures rows == ScanBreakdownOf(ScanItems(lookup, dir, OctetStream))
  {
    FallbackIrrelevant(lookup, Entries(dir));
    ScanBreakdownOf(ScanItems(lookup, dir, MisspelledOctetStream))
  }

  /** Every directory-scan breakdown percentage is a rounded size share of
      the entries of a named category: at most 100, and 0 throughout when
      those entries have no bytes. */
  lemma ScanBreakdownBounded(items: seq<Item>)
    ensures forall i :: 0 <= i < 7 ==> ScanBreakdownOf(items)[i].percentage <= 100
    ensures KnownSize(items) == 0 ==> forall i :: 0 <= i < 7 ==> ScanBreakdownOf(items)[i].percentage == 0
    ensures 0 < KnownSize(items) ==> forall i :: 0 <= i < 7 ==>
              ScanBreakdownOf(items)[i].percentage == RoundPercent(ScanBreakdownOf(items)[i].sizeBytes, KnownSize(items))
  {
    var total := KnownSize(items);
    var rows := ScanBreakdownOf(items);
    forall i | 0 <= i < 7
      ensures rows[i].percentage <= 100
    {
      var c := KnownCategories[i];
      assert rows[i] == ScanBreakdownRow(items, c);
      if total > 0 {
        SizeOfAtMostKnown(items, c);
        RoundPercentAtMost100(SizeOf(items, c), total);
      }
    }
  }

  /** The seven row sizes add up to the bytes of the entries of a named
      category, and when those are positive the rounded percentages add up to
      between 97 and 103. */
  lemma ScanBreakdownNearHundred(items: seq<Item>)
    ensures SumOf(BreakdownSizes(ScanBreakdownOf(items))) == KnownSize(items)
    ensures 0 < KnownSize(items) ==> 97 <= SumOf(BreakdownPercentages(ScanBreakdownOf(items))) <= 103
  {
    var total := KnownSize(items);
    var rows := ScanBreakdownOf(items);
    SizeTallySum(items);
    assert BreakdownSizes(rows) == Slots(SizeTally(items));
    if 0 < total {
      ScanBreakdownBounded(items);
      assert BreakdownPercentages(rows) == RoundedShares(BreakdownSizes(rows), total);
      SevenSharesNearHundred(BreakdownSizes(rows), total);
    }
  }

  /** One row of the storage breakdown from the database. */
  function DatabaseBreakdownRow(items: seq<Item>, c: Category): BreakdownRow<real>
  {
    var n := |items|;
    BreakdownRow(c, DatabaseBreakdownLabel(c), CountOf(items, c), SizeOf(items, c),
                 if n > 0 then (CountOf(items, c) as real / n as real) * 100.0 else 0.0)
  }

  /** The storage breakdown of the documents that are not soft-deleted: seven
      rows in category order, each with the number and the summed size of its
      category's documents. */
  function DatabaseBreakdownOf(items: seq<Item>): (rows: seq<BreakdownRow<real>>)
    ensures |rows| == 7
    ensures forall i :: 0 <= i < 7 ==> rows[i].category == KnownCategories[i]
    ensures forall i :: 0 <= i < 7 ==> rows[i].count == CountOf(items, KnownCategories[i])
    ensures forall i :: 0 <= i < 7 ==> rows[i].sizeBytes == SizeOf(items, KnownCategories[i])
  {
    seq(7, i requires 0 <= i < 7 => DatabaseBreakdownRow(items, KnownCategories[i]))
  }

  /** `getStorageBreakdown` with a database. */
  function DatabaseBreakdown(store: seq<FileRecord>): (rows: seq<BreakdownRow<real>>)
    ensures rows == DatabaseBreakdownOf(Items(Live(store)))
  {
    DatabaseBreakdownOf(Items(Live(store)))
  }

  /** One hundred percent of a whole. */
  lemma WholeShare(n: nat)
    requires 0 < n
    ensures (n as real / n as real) * 100.0 == 100.0
  {
  }

  /** A database breakdown percentage is the row's share of the NUMBER of
      documents, unknown ones included, not of their bytes; it is 0 when there
      are none. */
  lemma DatabaseBreakdownCountBased(items: seq<Item>)
    ensures |items| == 0 ==> forall i :: 0 <= i < 7 ==> DatabaseBreakdownOf(items)[i].percentage == 0.0
    ensures 0 < |items| ==>
              BreakdownPercentages(DatabaseBreakdownOf(items)) == CountShares(BreakdownCounts(DatabaseBreakdownOf(items)), |items|)
  {
    var rows := DatabaseBreakdownOf(items);
    assert forall i :: 0 <= i < 7 ==> rows[i] == DatabaseBreakdownRow(items, KnownCategories[i]);
  }

  /** Every stored document passed validation, so every live one has an
      image, video or JSON category. */
  lemma LiveItemsKnown(store: seq<FileRecord>)
    requires StoreInvariant(store)
    ensures forall i :: 0 <= i < |Items(Live(store))| ==> Items(Live(store))[i].category.Known()
  {
    var files := Live(store);
    forall i | 0 <= i < |files|
      ensures files[i].category.Known()
    {
      assert files[i] in store;
      var k :| 0 <= k < |store| && store[k] == files[i];
      assert ValidFile(store[k]);
    }
  }

  /** With every document of a named category, the count shares of the
      database breakdown add up to exactly 100 once there is any. */
  lemma DatabaseBreakdownOfSumsToHundred(items: seq<Item>)
    requires 0 < |items|
    requires forall i :: 0 <= i < |items| ==> items[i].category.Known()
    ensures SumReal(BreakdownPercentages(DatabaseBreakdownOf(items))) == 100.0
  {
    var rows := DatabaseBreakdownOf(items);
    CountTallySum(items);
    assert BreakdownCounts(rows) == Slots(CountTally(items));
    DatabaseBreakdownCountBased(items);
    CountSharesSum(BreakdownCounts(rows), |items|);
    WholeShare(|items|);
  }

  /** Every stored document has an image, video or JSON category, so the
      count shares of the database breakdown add up to exactly 100 once any
      document is live. */
  lemma DatabaseBreakdownSumsToHundred(store: seq<FileRecord>)
    requires StoreInvariant(store)
    requires 0 < |Live(store)|
    ensures SumReal(BreakdownPercentages(DatabaseBreakdown(store))) == 100.0
  {
    LiveItemsKnown(store);
    DatabaseBreakdownOfSumsToHundred(Items(Live(store)));
  }

  // ------------------------------------------------------ file distribution

  datatype DistributionRow<P> = DistributionRow(category: Category, display: Label, count: nat, percentage: P)

  function DistributionCounts<P>(rows: seq<DistributionRow<P>>): seq<nat>
  {
    Column(rows, (r: DistributionRow<P>) => r.count)
  }

  function DistributionPercentages<P>(rows: seq<DistributionRow<P>>): seq<P>
  {
    Column(rows, (r: DistributionRow<P>) => r.percentage)
  }


  /** One row of the file distribution without a database. */
  function ScanDistributionRow(items: seq<Item>, c: Category): DistributionRow<nat>
  {
    var total := KnownCount(items);
    DistributionRow(c, DistributionLabel(c, false), CountOf(items, c),
                    if total > 0 then RoundPercent(CountOf(items, c), total) else 0)
  }

  /** The file distribution of classified directory entries: seven rows in
      category order, each with the number of entries of its category. */
  function ScanDistributionOf(items: seq<Item>): (rows: seq<DistributionRow<nat>>)
    ensures |rows| == 7
    ensures forall i :: 0 <= i < 7 ==> rows[i].category == KnownCategories[i]
    ensures forall i :: 0 <= i < 7 ==> rows[i].count == CountOf(items, KnownCategories[i])
  {
    seq(7, i requires 0 <= i < 7 => ScanDistributionRow(items, KnownCategories[i]))
  }

  /** `getFileDistribution` without a database. */
  function ScanDistribution(lookup: MimeLookup, dir: Option<seq<DirEntry>>): (rows: seq<DistributionRow<nat>>)
    ensures rows == ScanDistributionOf(ScanItems(lookup, dir, OctetStream))
  {
    ScanDistributionOf(ScanItems(lookup, dir, OctetStream))
  }

  /** The directory-scan distribution's denominator counts only the entries of
      a named category: each percentage is a rounded count share of them, at
      most 100, and 0 throughout when there are none. */
  lemma ScanDistributionBounded(items: seq<Item>)
    ensures forall i :: 0 <= i < 7 ==> ScanDistributionOf(items)[i].percentage <= 100
    ensures KnownCount(items) == 0 ==> forall i :: 0 <= i < 7 ==> ScanDistributionOf(items)[i].percentage == 0
    ensures 0 < KnownCount(items) ==> forall i :: 0 <= i < 7 ==>
              ScanDistributionOf(items)[i].percentage == RoundPercent(ScanDistributionOf(items)[i].count, KnownCount(items))
  {
    var total := KnownCount(items);
    var rows := ScanDistributionOf(items);
    forall i | 0 <= i < 7
      ensures rows[i].percentage <= 100
    {
      var c := KnownCategories[i];
      assert rows[i] == ScanDistributionRow(items, c);
      if total > 0 {
        CountOfAtMostKnown(items, c);
        RoundPercentAtMost100(CountOf(items, c), total);
      }
    }
  }

  /** The seven counts add up to the number of entries of a named category,
      and when there are any the rounded percentages add up to between 97 and
      103. */
  lemma ScanDistributionNearHundred(items: seq<Item>)
    ensures SumOf(DistributionCounts(ScanDistributionOf(items))) == KnownCount(items)
    ensures 0 < KnownCount(items) ==> 97 <= SumOf(DistributionPercentages(ScanDistributionOf(items))) <= 103
  {
    var total := KnownCount(items);
    var rows := ScanDistributionOf(items);
    CountTallySum(items);
    assert DistributionCounts(rows) == Slots(CountTally(items));
    if 0 < total {
      ScanDistributionBounded(items);
      assert DistributionPercentages(rows) == RoundedShares(DistributionCounts(rows), total);
      SevenSharesNearHundred(DistributionCounts(rows), total);
    }
  }

  /** The database distribution response: the rows and the `total` they are
      shares of. */
  datatype DistributionReport = DistributionReport(rows: seq<DistributionRow<real>>, total: nat)

  function DatabaseDistributionRow(dist: Tally, c: Category): DistributionRow<real>
  {
    var total := dist.Sum();
    DistributionRow(c, DistributionLabel(c, true), dist.Get(c),
                    if total > 0 then (dist.Get(c) as real / total as real) * 100.0 else 0.0)
  }

  /** The file distribution of a tally of counts: seven rows in category
      order, and as `total` the sum of the seven counts. */
  function DatabaseDistributionOf(dist: Tally): (r: DistributionReport)
    ensures |r.rows| == 7
    ensures forall i :: 0 <= i < 7 ==> r.rows[i].category == KnownCategories[i]
    ensures forall i :: 0 <= i < 7 ==> r.rows[i].count == dist.Get(KnownCategories[i])
    ensures r.total == SumOf(DistributionCounts(r.rows))
  {
    var rows := seq(7, i requires 0 <= i < 7 => DatabaseDistributionRow(dist, KnownCategories[i]));
    assert DistributionCounts(rows) == Slots(dist);
    DistributionReport(rows, dist.Sum())
  }

  /** `getFileDistribution` with a database: the counts of
      `getDistributionData` over the documents that are not soft-deleted; the
      total leaves out unknown documents. */
  function DatabaseDistribution(store: seq<FileRecord>): (r: DistributionReport)
    ensures r == DatabaseDistributionOf(CountTally(Items(Live(store))))
    ensures r.total == KnownCount(Items(Live(store)))
    ensures r.total <= |Live(store)|
  {
    CountTallySum(Items(Live(store)));
    DatabaseDistributionOf(GetDistributionData(Live(store)))
  }

  /** The unrounded count shares of the database distribution are 0 for an
      empty total and otherwise add up to exactly 100. */
  lemma DatabaseDistributionSumsToHundred(dist: Tally)
    ensures var r := DatabaseDistributionOf(dist);
      && (r.total == 0 ==> forall i :: 0 <= i < 7 ==> r.rows[i].percentage == 0.0)
      && (0 < r.total ==> SumReal(DistributionPercentages(r.rows)) == 100.0)
  {
    var r := DatabaseDistributionOf(dist);
    assert forall i :: 0 <= i < 7 ==> r.rows[i] == DatabaseDistributionRow(dist, KnownCategories[i]);
    if 0 < r.total {
      var counts := DistributionCounts(r.rows);
      assert DistributionPercentages(r.rows) == CountShares(counts, r.total);
      CountSharesSum(counts, r.total);
      WholeShare(r.total);
    }
  }

  // ----------------------------------------------------- performance metrics

  datatype PerformanceMetrics = PerformanceMetrics(
    processingSpeed: real,
    categorizationAccuracy: real,
    storageEfficiency: nat,
    systemStatus: string,
    totalProcessed: nat)

  /** `getPerformanceMetrics`: fixed values without a database; otherwise the
      speed is `max(0, 100 - average / 2)` for a truthy average time and 0
      for none, the accuracy the average accuracy, and the efficiency the
      heuristic on the summed size of the live documents. */
  function GetPerformanceMetrics(probe: ConnProbe, store: seq<FileRecord>): (m: PerformanceMetrics)
    ensures !IsDBAvailable(probe) ==> m == PerformanceMetrics(0.0, 0.0, 95, "Ready", 0)
    ensures IsDBAvailable(probe) ==> m.totalProcessed == |Live(store)| && m.systemStatus == "Ready"
    ensures IsDBAvailable(probe) ==>
              m.storageEfficiency == (if TotalSize(Items(Live(store))) > 0 then 95 else 50)
    ensures 0.0 <= m.processingSpeed
    ensures IsDBAvailable(probe) ==>
              m.categorizationAccuracy == CalculateProcessingMetrics(Live(store)).averageAccuracy
    ensures IsDBAvailable(probe) && 0.0 <= CalculateProcessingMetrics(Live(store)).averageProcessingTime ==>
              m.processingSpeed <= 100.0
    ensures IsDBAvailable(probe) ==>
              var t := CalculateProcessingMetrics(Live(store)).averageProcessingTime;
              && (t == 0.0 || 200.0 <= t ==> m.processingSpeed == 0.0)
              && (t != 0.0 && t < 200.0 ==> m.processingSpeed == 100.0 - t / 2.0)
  {
    if !IsDBAvailable(probe) then PerformanceMetrics(0.0, 0.0, 95, "Ready", 0)
    else
      var files := Live(store);
      var pm := CalculateProcessingMetrics(files);
      var half := pm.averageProcessingTime / 2.0;
      var speed := if pm.averageProcessingTime != 0.0 then (if 100.0 - half >= 0.0 then 100.0 - half else 0.0)
                   else 0.0;
      PerformanceMetrics(speed, pm.averageAccuracy, CalculateStorageEfficiency(TotalSize(Items(files))),
                         "Ready", pm.totalProcessed)
  }

  /** With the statistics the upload path records, the reported speed is 0
      (nothing timed) or between 50 and 100, and the accuracy is 0 or between
      85 and 100. */
  lemma PerformanceWithinBounds(probe: ConnProbe, store: seq<FileRecord>)
    requires TimesWithin(Live(store), 0.0, 100.0) && AccuraciesWithin(Live(store), 85.0, 100.0)
    ensures var m := GetPerformanceMetrics(probe, store);
      && (m.processingSpeed == 0.0 || 50.0 <= m.processingSpeed <= 100.0)
      && (m.categorizationAccuracy == 0.0 || 85.0 <= m.categorizationAccuracy <= 100.0)
  {
    var files := Live(store);
    AveragesWithin(files);
    var pm := CalculateProcessingMetrics(files);
    if 0 < TimedCount(files) && AccurateCount(files) == 0 {
      assert pm.averageAccuracy == 0.0;
    }
  }

  // -------------------------------------------------------------- snapshots

  /** The status of a snapshot request and the analytics history after it. */
  datatype SnapshotOutcome = SnapshotOutcome(status: nat, history: seq<AnalyticsRecord>)

  /** `createAnalyticsSnapshot`: 503 and no write without a database.
      Otherwise the live documents are read and one new record built from
      them is saved: 201 and the record appended when the read and the save
      succeed (`stored`), and when either fails the error goes to the error
      middleware, which answers 500, and nothing is appended. */
  function CreateAnalyticsSnapshot(probe: ConnProbe, stored: bool, store: seq<FileRecord>,
                                   history: seq<AnalyticsRecord>, analyticsId: string, now: int,
                                   sameDay: SameDay): (o: SnapshotOutcome)
    ensures !IsDBAvailable(probe) ==> o.status == 503 && o.history == history
    ensures IsDBAvailable(probe) && !stored ==> o.status == 500 && o.history == history
    ensures IsDBAvailable(probe) && stored ==> o.status == 201 && |o.history| == |history| + 1
    ensures o.status == 201 ==> o.history[..|history|] == history
    ensures o.status == 201 ==> o.history[|history|].metrics.totalFiles == |Live(store)|
    ensures o.status == 201 ==> o.history[|history|].dailyUploads <= |Live(store)|
  {
    if !IsDBAvailable(probe) then SnapshotOutcome(503, history)
    else if !stored then SnapshotOutcome(500, history)
    else SnapshotOutcome(201, history + [CreateAnalyticsRecord(Live(store), analyticsId, now, sameDay)])
  }

  // ------------------------------------------------------------------ trend

  /** `getTrendData` of the controller: the period defaults to `'7d'` only when
      the parameter is absent; without a database the series is built from an
      empty history (all zeros), otherwise from at most the 100 newest
      snapshots. When the read of the snapshots fails (`readOk` false) the
      error goes to the error middleware, which answers 500 with no series. */
  method GetTrend(probe: ConnProbe, readOk: bool, period: Option<string>, history: seq<AnalyticsRecord>,
                  today: int, random: nat -> real)
    returns (status: nat, data: seq<TrendPoint>, echoed: string)
    requires forall i :: 0.0 <= random(i) < 1.0
    ensures status == (if IsDBAvailable(probe) && !readOk then 500 else 200)
    ensures status == 500 ==> data == []
    ensures echoed == (if period.Some? then period.value else "7d")
    ensures status == 200 ==> |data| == TrendDays(echoed) && data[|data| - 1].day == today
    ensures !IsDBAvailable(probe) || |history| == 0 ==> forall k :: 0 <= k < |data| ==> data[k].value == 0
    ensures forall k :: 0 <= k < |data| ==> 0 <= data[k].value <= 99
  {
    echoed := if period.Some? then period.value else "7d";
    if IsDBAvailable(probe) && !readOk {
      return 500, [], echoed;
    }
    status := 200;
    var recent := if IsDBAvailable(probe) then Min(|history|, 100) else 0;
    data := GetTrendData(recent, echoed, today, random);
  }
}
