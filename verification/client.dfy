/**
 The browser side of the dashboard (script.js): the checks an upload passes
 before it is sent, the text helpers of the activity feed and the gallery,
 the icon of a MIME type, the theme switch, the gallery's page navigation,
 the dashboard's total, and the query the gallery sends for a page of files.

 The DOM, `fetch`, notifications and the socket are left out; an answer of
 the server reaches the gallery as an event.
 */
module Client {

  import opened Common
  import opened Strings
  import opened Constants
  import opened FileHelper
  import opened FileController

  // ------------------------------------------------------------- MIME table

  /** `FILE_CATEGORIES` as `Object.values(...).flat()` lists it: every MIME
      type the browser knows, in declaration order, with the category whose
      list holds it. */
  const ClientMimeTable: seq<(Category, string)> := [
    (Image, "image/jpeg"), (Image, "image/png"), (Image, "image/gif"), (Image, "image/webp"),
    (Image, "image/svg+xml"), (Image, "image/bmp"), (Image, "image/tiff"), (Image, "image/x-icon"),
    (Video, "video/mp4"), (Video, "video/webm"), (Video, "video/ogg"), (Video, "video/quicktime"),
    (Video, "video/x-msvideo"), (Video, "video/x-matroska"),
    (Audio, "audio/mpeg"), (Audio, "audio/wav"), (Audio, "audio/ogg"), (Audio, "audio/flac"),
    (Audio, "audio/aac"), (Audio, "audio/webm"),
    (Document, "application/pdf"), (Document, "text/plain"), (Document, "application/msword"),
    (Document, "application/vnd.openxmlformats-officedocument.wordprocessingml.document"),
    (Document, "application/vnd.ms-excel"),
    (Document, "application/vnd.openxmlformats-officedocument.spreadsheetml.sheet"), (Document, "text/csv"),
    (Json, "application/json"),
    (Code, "text/javascript"), (Code, "text/css"), (Code, "text/html"), (Code, "application/xml"),
    (Code, "text/xml"), (Code, "text/x-python"), (Code, "text/x-java"),
    (Archive, "application/zip"), (Archive, "application/x-rar-compressed"),
    (Archive, "application/x-7z-compressed"), (Archive, "application/gzip")
  ]

  /** The MIME types of the browser's table. */
  predicate ClientKnowsMime(m: string)
  {
    exists i :: 0 <= i < |ClientMimeTable| && ClientMimeTable[i].1 == m
  }

  /** The row of the server's table that row `i` of the browser's table
      corresponds to: the server lists `video/mpeg` as its tenth row, and
      the browser does not list it at all. */
  function ServerRow(i: nat): nat
  {
    if i < 9 then i else i + 1
  }

  /** The browser's table is the server's table without `video/mpeg`: the
      same MIME types in the same order, in the same categories. */
  lemma ClientTableIsServerTable()
    ensures |ClientMimeTable| == 39 && |AllowedMimeTypes| == 40
    ensures forall i :: 0 <= i < |ClientMimeTable| ==>
              && ServerRow(i) < |AllowedMimeTypes|
              && AllowedMimeTypes[ServerRow(i)].mime == ClientMimeTable[i].1
              && AllowedMimeTypes[ServerRow(i)].category == ClientMimeTable[i].0
  {
    ImageRowsAgree();
    VideoAudioRowsAgree();
    DocumentRowsAgree();
    CodeArchiveRowsAgree();
  }

  /** The image rows agree. */
  lemma ImageRowsAgree()
    ensures forall i :: 0 <= i < 8 ==>
              && AllowedMimeTypes[ServerRow(i)].mime == ClientMimeTable[i].1
              && AllowedMimeTypes[ServerRow(i)].category == ClientMimeTable[i].0
  {
  }

  /** The video and audio rows agree, past the server's `video/mpeg`. */
  lemma VideoAudioRowsAgree()
    ensures forall i :: 8 <= i < 20 ==>
              && AllowedMimeTypes[ServerRow(i)].mime == ClientMimeTable[i].1
              && AllowedMimeTypes[ServerRow(i)].category == ClientMimeTable[i].0
  {
  }

  /** The document and JSON rows agree. */
  lemma DocumentRowsAgree()
    ensures forall i :: 20 <= i < 28 ==>
              && AllowedMimeTypes[ServerRow(i)].mime == ClientMimeTable[i].1
              && AllowedMimeTypes[ServerRow(i)].category == ClientMimeTable[i].0
  {
  }

  /** The code and archive rows agree. */
  lemma CodeArchiveRowsAgree()
    ensures forall i :: 28 <= i < 39 ==>
              && AllowedMimeTypes[ServerRow(i)].mime == ClientMimeTable[i].1
              && AllowedMimeTypes[ServerRow(i)].category == ClientMimeTable[i].0
  {
  }

  /** The one type only the server knows is `video/mpeg`. */
  lemma MpegOnlyOnServer()
    ensures AllowedMimeTypes[9].mime == "video/mpeg"
    ensures !ClientKnowsMime("video/mpeg")
  {
    var c := ClientMimeTable;
    forall i | 0 <= i < |c|
      ensures c[i].1 != "video/mpeg"
    {
      if |c[i].1| == 10 {
        assert c[i].1[0] != 'v' || c[i].1[6] != 'm';
      }
    }
  }

  /** Every MIME type the browser lets through by its table is one the
      server classifies, and into the same category. */
  lemma ClientMimeKnownToServer(i: nat)
    requires i < |ClientMimeTable|
    ensures GetFileCategory(ClientMimeTable[i].1) == ClientMimeTable[i].0
    ensures GetFileCategory(ClientMimeTable[i].1) != Unknown
  {
    ClientTableIsServerTable();
    var j := ServerRow(i);
    assert AllowedMimeTypes[j].mime == ClientMimeTable[i].1;
    assert ClientMimeTable[i].0 != Unknown;
  }

  // ------------------------------------------------------------ validation

  /** The size limit of the browser, 500 MiB. */
  const ClientMaxSize: nat := 500 * 1024 * 1024

  /** The extensions accepted when the browser does not know the MIME type. */
  const ValidExtensions: seq<string> := [
    "jpg", "jpeg", "png", "gif", "webp", "svg", "bmp", "tiff", "ico",
    "mp4", "webm", "ogg", "mov", "avi", "mkv",
    "mp3", "wav", "flac", "aac", "weba",
    "pdf", "txt", "doc", "docx", "xls", "xlsx", "csv",
    "json",
    "js", "css", "html", "xml",
    "zip", "rar", "7z", "gz"
  ]

  /** A file picked by the user: its name, the MIME type the browser reports
      (`""` when it has none) and its size. */
  datatype PickedFile = PickedFile(name: string, mimeType: string, size: int)

  /** `name.split('.').pop().toLowerCase()`: the lower-cased text after the
      last dot, or the whole lower-cased name when there is no dot. */
  function Extension(name: string): (x: string)
    ensures '.' !in x
  {
    var parts := Split(name, '.');
    var last := parts[|parts| - 1];
    assert forall k :: 0 <= k < |last| ==> ToLower(last)[k] == LowerChar(last[k]) != '.';
    ToLower(last)
  }

  /** The last piece of a split is what follows the last delimiter. */
  lemma {:induction false} SplitLast(a: string, d: char, b: string)
    requires d !in b
    ensures |Split(a + [d] + b, d)| >= 2
    ensures Split(a + [d] + b, d)[|Split(a + [d] + b, d)| - 1] == b
    decreases |a|
  {
    var s := a + [d] + b;
    if |a| == 0 {
      assert s[0] == d && s[1..] == b;
      SplitWithout(b, d);
    } else {
      assert s[1..] == a[1..] + [d] + b;
      SplitLast(a[1..], d, b);
    }
  }

  /** The extension of `stem.ext` is the lower-cased `ext`, whatever dots
      the stem holds. */
  lemma ExtensionAfterLastDot(stem: string, ext: string)
    requires '.' !in ext
    ensures Extension(stem + "." + ext) == ToLower(ext)
  {
    SplitLast(stem, '.', ext);
  }

  /** A name without a dot is its own extension, so a file named `json`
      passes the extension check. */
  lemma NameWithoutDotIsExtension(name: string)
    requires '.' !in name
    ensures Extension(name) == ToLower(name)
  {
    SplitWithout(name, '.');
  }

  /** Why the browser refuses a file. */
  datatype Verdict = Accepted | TooLarge | Unsupported(extension: string)

  /** `validateFile`: the size is checked first, then the file passes when
      either its MIME type is in the table or its extension is allowed. */
  function ValidateFile(f: PickedFile): (v: Verdict)
    ensures v == TooLarge <==> f.size > ClientMaxSize
    ensures v == Accepted <==>
              f.size <= ClientMaxSize && (ClientKnowsMime(f.mimeType) || Extension(f.name) in ValidExtensions)
    ensures v.Unsupported? ==> v.extension == Extension(f.name) && v.extension !in ValidExtensions
  {
    if f.size > ClientMaxSize then TooLarge
    else if !(ClientKnowsMime(f.mimeType)) && Extension(f.name) !in ValidExtensions then
      Unsupported(Extension(f.name))
    else Accepted
  }

  /** A file too large is refused whatever its name and type, and a file
      the browser accepts is within the server's default size bound too. */
  lemma AcceptedFitsServer(f: PickedFile)
    ensures f.size > ClientMaxSize ==> ValidateFile(f) == TooLarge
    ensures ValidateFile(f) == Accepted ==> ValidateFileSize(f.size, MaxFileSize)
  {
  }

  /** Between 500 MiB and 512 MiB the two bounds disagree: the browser
      refuses what the server would take. */
  lemma BoundsDisagree()
    ensures ValidateFile(PickedFile("a.png", "image/png", ClientMaxSize + 1)) == TooLarge
    ensures ValidateFileSize(ClientMaxSize + 1, MaxFileSize)
  {
  }

  // -------------------------------------------------------------- truncate

  /** The `...` that `truncate` appends, as code units. */
  const Ellipsis: seq<CodeUnit> := [46, 46, 46]

  /** `truncate(text, length)`: texts longer than `length` are cut to their
      first `length` characters followed by `...`. Both the length and the
      cut count UTF-16 code units, so the text is taken as its code units. */
  function Truncate(t: seq<CodeUnit>, n: nat): (r: seq<CodeUnit>)
    ensures |t| <= n ==> r == t
    ensures |t| > n ==> |r| == n + 3 && r[..n] == t[..n] && r[n..] == Ellipsis
  {
    if |t| > n then t[..n] + Ellipsis else t
  }

  lemma EllipsisIsDots()
    ensures Ellipsis == Utf16("...")
  {
    assert "..."[..2][..1] == ".";
  }

  /** A truncated text is at most three units longer than the limit and
      starts with the kept part of the original; truncating again changes
      nothing. */
  lemma TruncateProperties(t: seq<CodeUnit>, n: nat)
    ensures |Truncate(t, n)| <= n + 3
    ensures var k := Min(n, |t|); k <= |Truncate(t, n)| && Truncate(t, n)[..k] == t[..k]
    ensures Truncate(Truncate(t, n), n) == Truncate(t, n)
  {
    var r := Truncate(t, n);
    if |t| > n {
      assert r[..n] == t[..n];
      assert Truncate(r, n) == r[..n] + Ellipsis;
    }
  }

  /** A text comes back unchanged exactly when it fits, or when it already
      is its first `length` units followed by `...`. */
  lemma TruncateUnchangedIff(t: seq<CodeUnit>, n: nat)
    ensures Truncate(t, n) == t <==> |t| <= n || (|t| == n + 3 && t[n..] == Ellipsis)
  {
    if |t| > n && |t| == n + 3 && t[n..] == Ellipsis {
      assert t == t[..n] + t[n..];
    }
  }

  /** Cutting a well-formed text keeps it well formed exactly when the cut
      does not fall inside a surrogate pair. */
  lemma TruncateWellFormedIff(t: seq<CodeUnit>, n: nat)
    requires WellFormed(t)
    ensures WellFormed(Truncate(t, n)) <==> n >= |t| || !IsLow(t[n])
  {
    if n < |t| {
      var r := Truncate(t, n);
      if IsLow(t[n]) {
        assert IsHigh(r[n - 1]) && !IsLow(r[n]);
      } else {
        forall i | 0 <= i < |r| && IsHigh(r[i])
          ensures i + 1 < |r| && IsLow(r[i + 1])
        {
          assert i < n && r[i] == t[i];
        }
        forall i | 0 <= i < |r| && IsLow(r[i])
          ensures 0 < i && IsHigh(r[i - 1])
        {
          assert i < n && r[i] == t[i] && r[i - 1] == t[i - 1];
        }
      }
    }
  }

  /** Two emoji cut after one code unit leave a lone high surrogate before
      the `...`: `substring` splits the pair. */
  lemma TruncateSplitsPair()
    ensures var t := Utf16("\U{1F600}\U{1F600}");
      WellFormed(t) && |t| == 4 && !WellFormed(Truncate(t, 1))
  {
    var e := "\U{1F600}\U{1F600}";
    Utf16WellFormed(e);
    assert |Utf16(e[..1])| == 2;
    assert e[..1] == e[..|e| - 1];
    TruncateWellFormedIff(Utf16(e), 1);
    assert Utf16(e)[1] == Utf16(e[..1])[1];
  }

  // --------------------------------------------------------------- time ago

  /** The four shapes of `getTimeAgo`. */
  datatype Ago = JustNow | MinutesAgo(minutes: nat) | HoursAgo(hours: nat) | DaysAgo(days: nat)

  /** The text of each shape. */
  function AgoText(a: Ago): string
  {
    match a
    case JustNow => "just now"
    case MinutesAgo(m) => NatToString(m) + "m ago"
    case HoursAgo(h) => NatToString(h) + "h ago"
    case DaysAgo(d) => NatToString(d) + "d ago"
  }

  /** Flooring by `a` and then by `b` is flooring by `a * b`. */
  lemma DivDiv(x: int, a: nat, b: nat)
    requires 0 < a && 0 < b
    ensures x / a / b == x / (a * b)
  {
    var q := x / a;
    var q2 := q / b;
    var r := x % a;
    var r2 := q % b;
    assert x == a * q + r;
    assert q == b * q2 + r2;
    Regroup(a, b, q2, r2);
    MulMonotone(a, r2, b - 1);
    assert a * (b - 1) == a * b - a;
    DivUnique(x, a * b, q2, a * r2 + r);
  }

  /** `a * (b * q + r) == (a * b) * q + a * r`. */
  lemma Regroup(a: int, b: int, q: int, r: int)
    ensures a * (b * q + r) == (a * b) * q + a * r
  {
  }

  lemma MulSign(d: int, k: int)
    requires 0 <= d
    ensures k >= 1 ==> d * k >= d
    ensures k <= -1 ==> d * k <= -d
  {
    if k >= 1 {
      assert d * k == d + d * (k - 1);
    } else if k <= -1 {
      assert d * k == -d + d * (k + 1);
    }
  }

  /** The quotient is the only `q` with a remainder in `[0, d)`. */
  lemma DivUnique(x: int, d: nat, q: int, r: int)
    requires 0 < d && x == d * q + r && 0 <= r < d
    ensures x / d == q
  {
    var q' := x / d;
    var r' := x % d;
    assert d * (q' - q) == r - r';
    MulSign(d, q' - q);
  }

  /** `Math.floor(x / d) < k` exactly when `x < k * d`. */
  lemma FloorBelow(x: int, d: nat, k: int)
    requires 0 < d
    ensures x / d < k <==> x < k * d
  {
    var q := x / d;
    assert x == d * q + x % d;
    if q < k {
      assert d * q <= d * (k - 1);
    } else {
      assert d * q >= d * k;
    }
  }

  /** `getTimeAgo` for `elapsed` milliseconds since the date, with each step
      floored as the source does: seconds, then minutes, hours and days. */
  function TimeAgo(elapsed: int): (a: Ago)
    ensures a == JustNow <==> elapsed < 60000
    ensures a.MinutesAgo? <==> 60000 <= elapsed < 3600000
    ensures a.HoursAgo? <==> 3600000 <= elapsed < 86400000
    ensures a.DaysAgo? <==> 86400000 <= elapsed
    ensures a.MinutesAgo? ==> a.minutes == elapsed / 60000 && 1 <= a.minutes < 60
    ensures a.HoursAgo? ==> a.hours == elapsed / 3600000 && 1 <= a.hours < 24
    ensures a.DaysAgo? ==> a.days == elapsed / 86400000 && 1 <= a.days
  {
    var seconds := elapsed / 1000;
    DivDiv(elapsed, 1000, 60);
    DivDiv(elapsed, 60000, 60);
    DivDiv(elapsed, 3600000, 24);
    FloorBelow(elapsed, 1000, 60);
    FloorBelow(elapsed, 60000, 60);
    FloorBelow(elapsed, 3600000, 24);
    FloorBelow(elapsed, 60000, 1);
    FloorBelow(elapsed, 3600000, 1);
    FloorBelow(elapsed, 86400000, 1);
    if seconds < 60 then JustNow
    else
      var minutes := seconds / 60;
      if minutes < 60 then MinutesAgo(minutes)
      else
        var hours := minutes / 60;
        if hours < 24 then HoursAgo(hours)
        else DaysAgo(hours / 24)
  }

  /** A date in the future reads as `just now`. */
  lemma FutureIsJustNow(elapsed: int)
    requires elapsed < 0
    ensures AgoText(TimeAgo(elapsed)) == "just now"
  {
  }

  // ------------------------------------------------------------------ icons

  /** A test of `getIcon` on a MIME type. */
  datatype IconTest =
    | StartsWithAny(prefixes: seq<string>)
    | IsExactly(mime: string)
    | IncludesAny(parts: seq<string>)

  predicate Passes(t: IconTest, m: string)
  {
    match t
    case StartsWithAny(ps) => exists k :: 0 <= k < |ps| && StartsWith(m, ps[k])
    case IsExactly(e) => m == e
    case IncludesAny(ps) => exists k :: 0 <= k < |ps| && Includes(m, ps[k])
  }

  /** The rules of `getIcon`, in the order they are tried. */
  const IconRules: seq<(IconTest, string)> := [
    (StartsWithAny(["image/"]), "fa-image"),
    (StartsWithAny(["video/"]), "fa-video"),
    (StartsWithAny(["audio/"]), "fa-music"),
    (IsExactly("application/json"), "fa-code"),
    (IsExactly("application/pdf"), "fa-file-pdf"),
    (StartsWithAny(["application/vnd", "text/"]), "fa-file-alt"),
    (IncludesAny(["zip", "rar", "7z", "gzip"]), "fa-archive")
  ]

  /** The icon of the first rule `m` passes, `fa-file` when it passes none. */
  function FirstMatchingIcon(rules: seq<(IconTest, string)>, m: string): (icon: string)
    ensures icon == "fa-file" || exists k :: 0 <= k < |rules| && Passes(rules[k].0, m) && icon == rules[k].1
  {
    if |rules| == 0 then "fa-file"
    else if Passes(rules[0].0, m) then rules[0].1
    else
      var icon := FirstMatchingIcon(rules[1..], m);
      assert forall k :: 0 <= k < |rules| - 1 ==> rules[1..][k] == rules[k + 1];
      icon
  }

  /** `getIcon`, as the chain of tests the source writes. */
  function GetIcon(m: string): (icon: string)
    ensures StartsWith(m, "image/") ==> icon == "fa-image"
  {
    if StartsWith(m, "image/") then "fa-image"
    else if StartsWith(m, "video/") then "fa-video"
    else if StartsWith(m, "audio/") then "fa-music"
    else if m == "application/json" then "fa-code"
    else if m == "application/pdf" then "fa-file-pdf"
    else if StartsWith(m, "application/vnd") || StartsWith(m, "text/") then "fa-file-alt"
    else if Includes(m, "zip") || Includes(m, "rar") || Includes(m, "7z") || Includes(m, "gzip") then "fa-archive"
    else "fa-file"
  }

  lemma PassesPrefix(p: string, m: string)
    ensures Passes(StartsWithAny([p]), m) <==> StartsWith(m, p)
  {
    if StartsWith(m, p) {
      assert StartsWith(m, [p][0]);
    }
  }

  lemma PassesEitherPrefix(p: string, q: string, m: string)
    ensures Passes(StartsWithAny([p, q]), m) <==> StartsWith(m, p) || StartsWith(m, q)
  {
    if StartsWith(m, p) {
      assert StartsWith(m, [p, q][0]);
    }
    if StartsWith(m, q) {
      assert StartsWith(m, [p, q][1]);
    }
  }

  lemma PassesAnyPart(a: string, b: string, c: string, d: string, m: string)
    ensures Passes(IncludesAny([a, b, c, d]), m) <==> Includes(m, a) || Includes(m, b) || Includes(m, c) || Includes(m, d)
  {
    var ps := [a, b, c, d];
    if Includes(m, a) {
      assert Includes(m, ps[0]);
    }
    if Includes(m, b) {
      assert Includes(m, ps[1]);
    }
    if Includes(m, c) {
      assert Includes(m, ps[2]);
    }
    if Includes(m, d) {
      assert Includes(m, ps[3]);
    }
  }

  /** The rules after the three media rules. */
  lemma LaterRules(m: string)
    ensures FirstMatchingIcon(IconRules[3..], m) ==
              if m == "application/json" then "fa-code"
              else if m == "application/pdf" then "fa-file-pdf"
              else if StartsWith(m, "application/vnd") || StartsWith(m, "text/") then "fa-file-alt"
              else if Includes(m, "zip") || Includes(m, "rar") || Includes(m, "7z") || Includes(m, "gzip") then "fa-archive"
              else "fa-file"
  {
    var r := IconRules;
    PassesEitherPrefix("application/vnd", "text/", m);
    PassesAnyPart("zip", "rar", "7z", "gzip", m);
    assert FirstMatchingIcon(r[7..], m) == "fa-file";
    assert FirstMatchingIcon(r[6..], m) == if Passes(r[6].0, m) then "fa-archive" else "fa-file";
    assert FirstMatchingIcon(r[5..], m) == if Passes(r[5].0, m) then "fa-file-alt" else FirstMatchingIcon(r[6..], m);
    assert FirstMatchingIcon(r[4..], m) == if Passes(r[4].0, m) then "fa-file-pdf" else FirstMatchingIcon(r[5..], m);
  }

  /** The chain of tests is the first match over the rule list: every rule
      is tried in order and `fa-file` is the fallback. */
  lemma GetIconFollowsRules(m: string)
    ensures GetIcon(m) == FirstMatchingIcon(IconRules, m)
  {
    var r := IconRules;
    PassesPrefix("image/", m);
    PassesPrefix("video/", m);
    PassesPrefix("audio/", m);
    LaterRules(m);
    assert FirstMatchingIcon(r[2..], m) == if Passes(r[2].0, m) then "fa-music" else FirstMatchingIcon(r[3..], m);
    assert FirstMatchingIcon(r[1..], m) == if Passes(r[1].0, m) then "fa-video" else FirstMatchingIcon(r[2..], m);
  }

  // ------------------------------------------------------------------ theme

  /** The theme read at start: the stored value, or `light` when nothing
      (or an empty string) is stored. */
  function InitialTheme(stored: Option<string>): (t: string)
    ensures t != ""
    ensures stored.Some? && stored.value != "" ==> t == stored.value
    ensures stored.None? || stored.value == "" ==> t == "light"
  {
    if stored.Some? && stored.value != "" then stored.value else "light"
  }

  /** `ThemeManager.toggle`: `light` becomes `dark`, and anything else
      becomes `light`. */
  function Toggle(t: string): (r: string)
    ensures r == "light" || r == "dark"
    ensures r == "dark" <==> t == "light"
  {
    if t == "light" then "dark" else "light"
  }

  /** Toggling twice restores `light` and `dark`; a foreign stored value is
      replaced by the first toggle, and from then on toggling alternates. */
  lemma ToggleTwice(t: string)
    ensures t == "light" || t == "dark" ==> Toggle(Toggle(t)) == t
    ensures t != "light" && t != "dark" ==> Toggle(t) == "light" && Toggle(Toggle(t)) == "dark"
    ensures Toggle(Toggle(Toggle(t))) == Toggle(t)
  {
  }

  // ---------------------------------------------------------------- gallery

  /** The request `getFiles` sends: `all` becomes the empty category, and the
      limit is always 12. */
  datatype FilesRequest = FilesRequest(category: string, search: string, sort: string, page: int, limit: int)

  const GalleryLimit: nat := 12

  function GetFilesParams(category: string, search: string, sort: string, page: int): (q: FilesRequest)
    ensures q.limit == GalleryLimit && q.page == page && q.search == search && q.sort == sort
    ensures q.category == "" <==> category == "all" || category == ""
    ensures category != "all" ==> q.category == category
  {
    FilesRequest(if category != "all" then category else "", search, sort, page, GalleryLimit)
  }

  /** The query the server reads from the request's parameters: the decimal
      page and limit parse back to themselves. */
  function ServerQuery(q: FilesRequest): ListQuery
  {
    ListQuery(q.category, q.search, q.sort, Some(q.page), Some(q.limit))
  }

  /** The server lists exactly the page the gallery asks for, 12 at a time,
      filters by category unless the gallery shows all, and sorts as chosen. */
  lemma RequestAsServerReadsIt(category: string, search: string, sort: string, page: int)
    requires 1 <= page
    ensures var sq := ServerQuery(GetFilesParams(category, search, sort, page));
      && PageOf(sq) == page && LimitOf(sq) == GalleryLimit
      && (FiltersCategory(sq) <==> category != "all" && category != "")
      && ParseSort(sq.sort) == ParseSort(sort)
  {
  }

  /** The state of the gallery that drives its requests. */
  datatype Gallery = Gallery(category: string, sort: string, page: int, search: string, totalPages: int)

  const InitialGallery: Gallery := Gallery("all", "newest", 1, "", 1)

  /** What can happen to the gallery: the user's controls, and the answer to
      a request (`count` items and the pagination, when it has one). */
  datatype GalleryEvent =
    | SearchInput(text: string)
    | SearchClear
    | FilterClick(category: string)
    | SortChange(sort: string)
    | PrevClick
    | NextClick
    | FilesLoaded(success: bool, count: nat, pagination: Option<Pagination>)

  /** The new state, and the request `loadFiles` sends, if any. */
  datatype Reaction = Reaction(next: Gallery, request: Option<FilesRequest>)

  function RequestFor(g: Gallery): FilesRequest
  {
    GetFilesParams(g.category, g.search, g.sort, g.page)
  }

  function Load(g: Gallery): (r: Reaction)
    ensures r.next == g && r.request == Some(RequestFor(g))
  {
    Reaction(g, Some(RequestFor(g)))
  }

  /** The listeners and `loadFiles`. A successful answer with items sets the
      page count to `pagination.pages || 1`; an empty or failed answer
      leaves it. */
  function Step(g: Gallery, e: GalleryEvent): (r: Reaction)
    ensures e.SearchInput? || e.SearchClear? || e.FilterClick? || e.SortChange? ==>
              r.next.page == 1 && r.request == Some(RequestFor(r.next))
    ensures e.PrevClick? ==> (r.request.Some? <==> g.page > 1)
    ensures e.NextClick? ==> (r.request.Some? <==> g.page < g.totalPages)
    ensures e.PrevClick? || e.NextClick? ==> r.next.page - g.page == (if r.request.None? then 0 else if e.PrevClick? then -1 else 1)
    ensures e.FilesLoaded? ==> r.request.None? && r.next.page == g.page
    ensures !e.FilesLoaded? ==> r.next.totalPages == g.totalPages
    ensures r.request.Some? ==> r.request.value == RequestFor(r.next)
  {
    match e
    case SearchInput(text) => Load(g.(search := text, page := 1))
    case SearchClear => Load(g.(search := "", page := 1))
    case FilterClick(c) => Load(g.(category := c, page := 1))
    case SortChange(s) => Load(g.(sort := s, page := 1))
    case PrevClick => if g.page > 1 then Load(g.(page := g.page - 1)) else Reaction(g, None)
    case NextClick => if g.page < g.totalPages then Load(g.(page := g.page + 1)) else Reaction(g, None)
    case FilesLoaded(success, count, pagination) =>
      if success && count > 0 then
        var pages := if pagination.Some? && pagination.value.pages != 0 then pagination.value.pages else 1;
        Reaction(g.(totalPages := pages), None)
      else Reaction(g, None)
  }

  /** The page and the page count are at least 1. */
  predicate GalleryInvariant(g: Gallery)
  {
    1 <= g.page && 1 <= g.totalPages
  }

  /** Every step keeps the invariant, so every request asks for a page the
      server takes as given. */
  lemma StepKeepsInvariant(g: Gallery, e: GalleryEvent)
    requires GalleryInvariant(g)
    ensures GalleryInvariant(Step(g, e).next)
    ensures Step(g, e).request.Some? ==> 1 <= Step(g, e).request.value.page
  {
  }

  /** Stepping through a list of events from a state that keeps the
      invariant. */
  function Run(g: Gallery, events: seq<GalleryEvent>): (h: Gallery)
    requires GalleryInvariant(g)
    ensures GalleryInvariant(h)
    decreases |events|
  {
    if |events| == 0 then g
    else
      StepKeepsInvariant(g, events[0]);
      Run(Step(g, events[0]).next, events[1..])
  }

  /** If page `p` of the matches has items, so has every earlier page. */
  lemma EarlierPageHasData<T>(m: seq<T>, p: nat, q: nat, limit: nat)
    requires 1 <= q <= p && 1 <= limit
    requires Page(m, p, limit).data != []
    ensures Page(m, q, limit).data != []
  {
    MulMonotone(limit, q - 1, p - 1);
  }

  /** If page `p` has items and the pagination reports more pages, the next
      page has items too. */
  lemma NextPageHasData<T>(m: seq<T>, p: nat, limit: nat)
    requires 1 <= p && 1 <= limit
    requires p < Page(m, p, limit).pagination.pages
    ensures Page(m, p + 1, limit).data != []
  {
    var pages := Page(m, p, limit).pagination.pages;
    assert (pages - 1) * limit < |m|;
    MulMonotone(limit, p, pages - 1);
    assert Skip(p + 1, limit) == p * limit;
  }

  /** After the gallery shows a page with items, prev and next only ever ask
      for pages that have items too. */
  lemma NavigationStaysOnData<T>(g: Gallery, m: seq<T>, e: GalleryEvent)
    requires GalleryInvariant(g)
    requires Page(m, g.page, GalleryLimit).data != []
    requires e.PrevClick? || e.NextClick?
    ensures var shown := Step(g, FilesLoaded(true, |Page(m, g.page, GalleryLimit).data|,
                                              Some(Page(m, g.page, GalleryLimit).pagination))).next;
      var r := Step(shown, e);
      r.request.Some? ==> Page(m, r.next.page, GalleryLimit).data != []
  {
    var listing := Page(m, g.page, GalleryLimit);
    var shown := Step(g, FilesLoaded(true, |listing.data|, Some(listing.pagination))).next;
    var r := Step(shown, e);
    if r.request.Some? {
      if e.PrevClick? {
        EarlierPageHasData(m, g.page, g.page - 1, GalleryLimit);
      } else {
        assert listing.pagination.pages != 0;
        NextPageHasData(m, g.page, GalleryLimit);
      }
    }
  }

  // -------------------------------------------------------------- dashboard

  /** `stats.key || 0` for a JSON number, absent keys reading as 0. */
  function Or0(stats: map<string, int>, key: string): int
  {
    if key in stats then stats[key] else 0
  }

  /** The categories that have a card on the dashboard: all but `code`. */
  const ShownCategories: seq<Category> := [Image, Video, Audio, Document, Json, Archive]

  /** `updateDashboard`'s total: the sum of the six shown counts. */
  function DashboardTotal(stats: map<string, int>): int
  {
    Or0(stats, "image") + Or0(stats, "video") + Or0(stats, "audio") + Or0(stats, "document")
    + Or0(stats, "json") + Or0(stats, "archive")
  }

  /** The flat per-category counts of the server's dashboard response. */
  function FlatCounts(t: Tally): (stats: map<string, int>)
    ensures forall c :: c in KnownCategories ==> CategoryName(c) in stats && stats[CategoryName(c)] == t.Get(c)
  {
    map["image" := t.image, "video" := t.video, "audio" := t.audio, "document" := t.document,
        "json" := t.json, "code" := t.code, "archive" := t.archive]
  }

  /** The dashboard's total leaves code files out: the number of `code` has
      no effect on it, and for the server's counts it falls short of their
      sum by exactly the code files. */
  lemma DashboardTotalOmitsCode(stats: map<string, int>, n: int, t: Tally)
    ensures DashboardTotal(stats["code" := n]) == DashboardTotal(stats)
    ensures DashboardTotal(FlatCounts(t)) == t.Sum() - t.code
    ensures DashboardTotal(FlatCounts(t)) + t.Get(Code) == t.Sum()
  {
  }
}
