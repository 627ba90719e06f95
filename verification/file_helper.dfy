/**
 The classification and storage-statistics helpers of the backend
 (backend/src/utils/fileHelper.js), and the per-category vocabulary every
 aggregate of the dashboard is written in.

 An aggregate only ever looks at two things of a file: its category and its
 size in bytes. `Item` is that view; database records and directory entries
 are both reduced to it before they are counted.
 */
module FileHelper {

  import opened Common
  import opened Constants

  /** `getFileCategory(m)`: the table category of an exact key, `unknown` for
      every other string. */
  function GetFileCategory(m: string): (c: Category)
    ensures c == Unknown <==> forall i :: 0 <= i < |AllowedMimeTypes| ==> AllowedMimeTypes[i].mime != m
    ensures forall i :: 0 <= i < |AllowedMimeTypes| && AllowedMimeTypes[i].mime == m ==>
              c == AllowedMimeTypes[i].category
  {
    MimeTableShape();
    MimeKeysDistinct();
    match Lookup(AllowedMimeTypes, m)
    case Some(e) => e.category
    case None => Unknown
  }

  /** `getFileExtension(m)`: the table extension of an exact key, `bin` for
      every other string. */
  function GetFileExtension(m: string): (x: string)
    ensures (forall i :: 0 <= i < |AllowedMimeTypes| ==> AllowedMimeTypes[i].mime != m) ==> x == "bin"
    ensures forall i :: 0 <= i < |AllowedMimeTypes| && AllowedMimeTypes[i].mime == m ==>
              x == AllowedMimeTypes[i].ext
  {
    MimeKeysDistinct();
    match Lookup(AllowedMimeTypes, m)
    case Some(e) => e.ext
    case None => "bin"
  }

  /** Classification is exact: a known type in upper case, or with parameters
      appended, is `unknown`, and so is the octet-stream fallback. */
  lemma ClassificationIsExact()
    ensures GetFileCategory("IMAGE/PNG") == Unknown
    ensures GetFileCategory("image/png; charset=binary") == Unknown
    ensures GetFileCategory("application/octet-stream") == Unknown
    ensures GetFileExtension("application/octet-stream") == "bin"
  {
    NotAKey("IMAGE/PNG");
    NotAKey("image/png; charset=binary");
    NotAKey("application/octet-stream");
  }

  /** `validateFileSize(size, maxSize)`. */
  function ValidateFileSize(size: int, maxSize: int): (ok: bool)
    ensures ok <==> size <= maxSize
  {
    size <= maxSize
  }

  /** At the default bound a file of exactly 512 MiB passes and one byte more
      fails, so the bound is larger than the 500 MiB the browser enforces. */
  lemma DefaultBoundEdge()
    ensures ValidateFileSize(MaxFileSize, MaxFileSize)
    ensures !ValidateFileSize(MaxFileSize + 1, MaxFileSize)
    ensures ValidateFileSize(500 * 1024 * 1024 + 1, MaxFileSize)
  {
  }

  /** What an aggregate sees of a file. */
  datatype Item = Item(category: Category, size: nat)

  /** One number per named category, as the `{ image, video, audio, document,
      json, code, archive }` objects of the service hold them. */
  datatype Tally = Tally(image: nat, video: nat, audio: nat, document: nat, json: nat, code: nat, archive: nat)
  {
    /** The slot of `c`; `unknown` has no slot and reads as 0. */
    function Get(c: Category): nat
    {
      match c
      case Image => image
      case Video => video
      case Audio => audio
      case Document => document
      case Json => json
      case Code => code
      case Archive => archive
      case Unknown => 0
    }

    /** Overwrites the slot of `c` with `v`; `unknown` has no slot, so nothing
        changes for it. */
    function Set(c: Category, v: nat): (t: Tally)
      ensures c.Known() ==> t.Get(c) == v
      ensures forall d :: d != c ==> t.Get(d) == Get(d)
      ensures !c.Known() ==> t == this
    {
      match c
      case Image => this.(image := v)
      case Video => this.(video := v)
      case Audio => this.(audio := v)
      case Document => this.(document := v)
      case Json => this.(json := v)
      case Code => this.(code := v)
      case Archive => this.(archive := v)
      case Unknown => this
    }

    /** The sum of the seven slots. */
    function Sum(): nat
    {
      image + video + audio + document + json + code + archive
    }
  }

  const ZeroTally: Tally := Tally(0, 0, 0, 0, 0, 0, 0)

  /** The number of items of category `c`. */
  function CountOf(items: seq<Item>, c: Category): (n: nat)
    ensures n <= |items|
  {
    if |items| == 0 then 0
    else CountOf(items[..|items| - 1], c) + (if items[|items| - 1].category == c then 1 else 0)
  }

  /** The total size of the items of category `c`. */
  function SizeOf(items: seq<Item>, c: Category): nat
  {
    if |items| == 0 then 0
    else SizeOf(items[..|items| - 1], c) + (if items[|items| - 1].category == c then items[|items| - 1].size else 0)
  }

  /** The total size of all items. */
  function TotalSize(items: seq<Item>): nat
  {
    if |items| == 0 then 0 else TotalSize(items[..|items| - 1]) + items[|items| - 1].size
  }

  /** The number of items in one of the seven named categories. */
  function KnownCount(items: seq<Item>): (n: nat)
    ensures n <= |items|
    ensures (forall i :: 0 <= i < |items| ==> items[i].category.Known()) ==> n == |items|
  {
    if |items| == 0 then 0
    else KnownCount(items[..|items| - 1]) + (if items[|items| - 1].category.Known() then 1 else 0)
  }

  /** The total size of the items in one of the seven named categories. */
  function KnownSize(items: seq<Item>): (n: nat)
    ensures n <= TotalSize(items)
    ensures (forall i :: 0 <= i < |items| ==> items[i].category.Known()) ==> n == TotalSize(items)
  {
    if |items| == 0 then 0
    else KnownSize(items[..|items| - 1]) + (if items[|items| - 1].category.Known() then items[|items| - 1].size else 0)
  }

  /** The per-category counts of `items`. */
  function CountTally(items: seq<Item>): (t: Tally)
    ensures forall c: Category :: c.Known() ==> t.Get(c) == CountOf(items, c)
  {
    Tally(CountOf(items, Image), CountOf(items, Video), CountOf(items, Audio), CountOf(items, Document),
          CountOf(items, Json), CountOf(items, Code), CountOf(items, Archive))
  }

  /** The per-category sizes of `items`. */
  function SizeTally(items: seq<Item>): (t: Tally)
    ensures forall c: Category :: c.Known() ==> t.Get(c) == SizeOf(items, c)
  {
    Tally(SizeOf(items, Image), SizeOf(items, Video), SizeOf(items, Audio), SizeOf(items, Document),
          SizeOf(items, Json), SizeOf(items, Code), SizeOf(items, Archive))
  }

  /** The seven per-category counts add up to the number of items with a named
      category: at most all items, and exactly all when none is `unknown`. */
  lemma {:induction false} CountTallySum(items: seq<Item>)
    ensures CountTally(items).Sum() == KnownCount(items)
    ensures CountTally(items).Sum() <= |items|
  {
    if |items| > 0 {
      CountTallySum(items[..|items| - 1]);
    }
  }

  /** The seven per-category sizes add up to the size of the items with a named
      category: at most the total size, and exactly it when none is `unknown`. */
  lemma {:induction false} SizeTallySum(items: seq<Item>)
    ensures SizeTally(items).Sum() == KnownSize(items)
    ensures SizeTally(items).Sum() <= TotalSize(items)
  {
    if |items| > 0 {
      SizeTallySum(items[..|items| - 1]);
    }
  }

  /** Adding one item to the end bumps the count and the size of its category
      and leaves the other six alone. */
  lemma TallyStep(items: seq<Item>, x: Item)
    ensures CountTally(items + [x]) ==
      CountTally(items).Set(x.category, CountTally(items).Get(x.category) + 1)
    ensures SizeTally(items + [x]) ==
      SizeTally(items).Set(x.category, SizeTally(items).Get(x.category) + x.size)
    ensures TotalSize(items + [x]) == TotalSize(items) + x.size
  {
    CountStep(items, x);
    SizeStep(items, x);
  }

  lemma CountStep(items: seq<Item>, x: Item)
    ensures CountTally(items + [x]) ==
      CountTally(items).Set(x.category, CountTally(items).Get(x.category) + 1)
  {
    assert (items + [x])[..|items|] == items;
  }

  lemma SizeStep(items: seq<Item>, x: Item)
    ensures SizeTally(items + [x]) ==
      SizeTally(items).Set(x.category, SizeTally(items).Get(x.category) + x.size)
    ensures TotalSize(items + [x]) == TotalSize(items) + x.size
  {
    assert (items + [x])[..|items|] == items;
  }

  /** The result of `calculateStorageStats`: the totals, the flat per-category
      fields (`stats.image`, ...) and the `byCategory` counts and sizes. */
  datatype StorageStats = StorageStats(totalSize: nat, totalFiles: nat, flat: Tally, counts: Tally, sizes: Tally)

  /** What `calculateStorageStats` has gathered after the files `files`:
      the flat fields equal the counts. */
  predicate Summarizes(stats: StorageStats, files: seq<Item>)
  {
    && stats.totalFiles == |files|
    && stats.totalSize == TotalSize(files)
    && stats.counts == CountTally(files)
    && stats.sizes == SizeTally(files)
    && stats.flat == stats.counts
  }

  /** One turn of the `forEach`: the totals always grow, and a file of a named
      category bumps its count and size and copies the new count into its
      flat field. */
  function AddFile(stats: StorageStats, f: Item): StorageStats
  {
    if f.category.Known() then
      var counts := stats.counts.Set(f.category, stats.counts.Get(f.category) + 1);
      var sizes := stats.sizes.Set(f.category, stats.sizes.Get(f.category) + f.size);
      StorageStats(stats.totalSize + f.size, stats.totalFiles + 1, stats.flat.Set(f.category, counts.Get(f.category)),
                   counts, sizes)
    else StorageStats(stats.totalSize + f.size, stats.totalFiles + 1, stats.flat, stats.counts, stats.sizes)
  }

  lemma AddFileStep(stats: StorageStats, files: seq<Item>, f: Item)
    requires Summarizes(stats, files)
    ensures Summarizes(AddFile(stats, f), files + [f])
  {
    TallyStep(files, f);
  }

  /** `calculateStorageStats(files)`, one file at a time as its `forEach` does.
      Files of another category change only the totals, and a flat field is
      written only when its category's count changes. */
  method CalculateStorageStats(files: seq<Item>) returns (stats: StorageStats)
    ensures stats.totalFiles == |files|
    ensures stats.totalSize == TotalSize(files)
    ensures stats.counts == CountTally(files)
    ensures stats.sizes == SizeTally(files)
    ensures forall c :: stats.flat.Get(c) == stats.counts.Get(c)
  {
    stats := StorageStats(0, 0, ZeroTally, ZeroTally, ZeroTally);
    var i := 0;
    while i < |files|
      invariant 0 <= i <= |files|
      invariant Summarizes(stats, files[..i])
    {
      assert files[..i + 1] == files[..i] + [files[i]];
      AddFileStep(stats, files[..i], files[i]);
      stats := AddFile(stats, files[i]);
      i := i + 1;
    }
    assert files[..i] == files;
  }
}
