/**
 The static configuration of the backend (backend/src/config/constants.js):
 the MIME table that drives classification, the category enumeration and the
 default upload size bound.
 */
module Constants {

  import opened Common

  /** The seven categories of the MIME table, plus the `unknown` fallback. */
  datatype Category = Image | Video | Audio | Document | Json | Code | Archive | Unknown
  {
    predicate Known() { !Unknown? }
  }

  /** `FILE_CATEGORIES`, in the order every per-category report lists them. */
  const KnownCategories: seq<Category> := [Image, Video, Audio, Document, Json, Code, Archive]

  /** The string the service stores and compares for a category. */
  function CategoryName(c: Category): string
  {
    match c
    case Image => "image"
    case Video => "video"
    case Audio => "audio"
    case Document => "document"
    case Json => "json"
    case Code => "code"
    case Archive => "archive"
    case Unknown => "unknown"
  }

  lemma CategoryNameInjective(c: Category, c': Category)
    ensures CategoryName(c) == CategoryName(c') ==> c == c'
  {
  }

  /** One row of `ALLOWED_MIME_TYPES`: a MIME type, its category and its
      canonical extension. */
  datatype MimeEntry = MimeEntry(mime: string, category: Category, ext: string)

  /** `ALLOWED_MIME_TYPES`, in declaration order. */
  const AllowedMimeTypes: seq<MimeEntry> := [
    MimeEntry("image/jpeg", Image, "jpg"),
    MimeEntry("image/png", Image, "png"),
    MimeEntry("image/gif", Image, "gif"),
    MimeEntry("image/webp", Image, "webp"),
    MimeEntry("image/svg+xml", Image, "svg"),
    MimeEntry("image/bmp", Image, "bmp"),
    MimeEntry("image/tiff", Image, "tiff"),
    MimeEntry("image/x-icon", Image, "ico"),
    MimeEntry("video/mp4", Video, "mp4"),
    MimeEntry("video/mpeg", Video, "mpeg"),
    MimeEntry("video/webm", Video, "webm"),
    MimeEntry("video/ogg", Video, "ogg"),
    MimeEntry("video/quicktime", Video, "mov"),
    MimeEntry("video/x-msvideo", Video, "avi"),
    MimeEntry("video/x-matroska", Video, "mkv"),
    MimeEntry("audio/mpeg", Audio, "mp3"),
    MimeEntry("audio/wav", Audio, "wav"),
    MimeEntry("audio/ogg", Audio, "ogg"),
    MimeEntry("audio/flac", Audio, "flac"),
    MimeEntry("audio/aac", Audio, "aac"),
    MimeEntry("audio/webm", Audio, "weba"),
    MimeEntry("application/pdf", Document, "pdf"),
    MimeEntry("text/plain", Document, "txt"),
    MimeEntry("application/msword", Document, "doc"),
    MimeEntry("application/vnd.openxmlformats-officedocument.wordprocessingml.document", Document, "docx"),
    MimeEntry("application/vnd.ms-excel", Document, "xls"),
    MimeEntry("application/vnd.openxmlformats-officedocument.spreadsheetml.sheet", Document, "xlsx"),
    MimeEntry("text/csv", Document, "csv"),
    MimeEntry("application/json", Json, "json"),
    MimeEntry("text/javascript", Code, "js"),
    MimeEntry("text/css", Code, "css"),
    MimeEntry("text/html", Code, "html"),
    MimeEntry("application/xml", Code, "xml"),
    MimeEntry("text/xml", Code, "xml"),
    MimeEntry("text/x-python", Code, "py"),
    MimeEntry("text/x-java", Code, "java"),
    MimeEntry("application/zip", Archive, "zip"),
    MimeEntry("application/x-rar-compressed", Archive, "rar"),
    MimeEntry("application/x-7z-compressed", Archive, "7z"),
    MimeEntry("application/gzip", Archive, "gz")
  ]

  /** The MIME types the table knows. */
  function MimeKeys(table: seq<MimeEntry>): (keys: seq<string>)
    ensures |keys| == |table|
    ensures forall i :: 0 <= i < |table| ==> keys[i] == table[i].mime
  {
    seq(|table|, i requires 0 <= i < |table| => table[i].mime)
  }

  /** No MIME type has two rows, as for the keys of a JavaScript object. */
  predicate DistinctKeys(table: seq<MimeEntry>)
  {
    forall i, j :: 0 <= i < j < |table| ==> table[i].mime != table[j].mime
  }

  /** `MAX_FILE_SIZE` when the environment does not override it. */
  const MaxFileSize: nat := 536870912

  /** The table has 40 rows, and every row is classified into one of the
      seven named categories. */
  lemma MimeTableShape()
    ensures |AllowedMimeTypes| == 40
    ensures forall i :: 0 <= i < |AllowedMimeTypes| ==> AllowedMimeTypes[i].category.Known()
  {
    var t := AllowedMimeTypes;
    forall i | 0 <= i < |t|
      ensures t[i].category.Known()
    {
    }
  }

  /** The row holding key `m`, or -1. The keys are compared by length first,
      so that telling two keys apart rarely needs their characters. */
  function RowOf(m: string): int
  {
    if |m| == 8 then
      if m == "text/csv" then 27
      else if m == "text/css" then 30
      else if m == "text/xml" then 33
      else -1
    else if |m| == 9 then
      if m == "image/png" then 1
      else if m == "image/gif" then 2
      else if m == "image/bmp" then 5
      else if m == "video/mp4" then 8
      else if m == "video/ogg" then 11
      else if m == "audio/wav" then 16
      else if m == "audio/ogg" then 17
      else if m == "audio/aac" then 19
      else if m == "text/html" then 31
      else -1
    else if |m| == 10 then
      if m == "image/jpeg" then 0
      else if m == "image/webp" then 3
      else if m == "image/tiff" then 6
      else if m == "video/mpeg" then 9
      else if m == "video/webm" then 10
      else if m == "audio/mpeg" then 15
      else if m == "audio/flac" then 18
      else if m == "audio/webm" then 20
      else if m == "text/plain" then 22
      else -1
    else if |m| == 11 then
      if m == "text/x-java" then 35
      else -1
    else if |m| == 12 then
      if m == "image/x-icon" then 7
      else -1
    else if |m| == 13 then
      if m == "image/svg+xml" then 4
      else if m == "text/x-python" then 34
      else -1
    else if |m| == 15 then
      if m == "video/quicktime" then 12
      else if m == "video/x-msvideo" then 13
      else if m == "application/pdf" then 21
      else if m == "text/javascript" then 29
      else if m == "application/xml" then 32
      else if m == "application/zip" then 36
      else -1
    else if |m| == 16 then
      if m == "video/x-matroska" then 14
      else if m == "application/json" then 28
      else if m == "application/gzip" then 39
      else -1
    else if |m| == 18 then
      if m == "application/msword" then 23
      else -1
    else if |m| == 24 then
      if m == "application/vnd.ms-excel" then 25
      else -1
    else if |m| == 27 then
      if m == "application/x-7z-compressed" then 38
      else -1
    else if |m| == 28 then
      if m == "application/x-rar-compressed" then 37
      else -1
    else if |m| == 65 then
      if m == "application/vnd.openxmlformats-officedocument.spreadsheetml.sheet" then 26
      else -1
    else if |m| == 71 then
      if m == "application/vnd.openxmlformats-officedocument.wordprocessingml.document" then 24
      else -1
    else -1
  }

  lemma RowsFrom0()
    ensures forall i :: 0 <= i < 10 ==> RowOf(AllowedMimeTypes[i].mime) == i
  {
    var t := AllowedMimeTypes;
    forall i | 0 <= i < 10
      ensures RowOf(t[i].mime) == i
    {
    }
  }

  lemma RowsFrom10()
    ensures forall i :: 10 <= i < 20 ==> RowOf(AllowedMimeTypes[i].mime) == i
  {
    var t := AllowedMimeTypes;
    forall i | 10 <= i < 20
      ensures RowOf(t[i].mime) == i
    {
    }
  }

  lemma RowsFrom20()
    ensures forall i :: 20 <= i < 30 ==> RowOf(AllowedMimeTypes[i].mime) == i
  {
    var t := AllowedMimeTypes;
    forall i | 20 <= i < 30
      ensures RowOf(t[i].mime) == i
    {
    }
  }

  lemma RowsFrom30()
    ensures forall i :: 30 <= i < 40 ==> RowOf(AllowedMimeTypes[i].mime) == i
  {
    var t := AllowedMimeTypes;
    forall i | 30 <= i < 40
      ensures RowOf(t[i].mime) == i
    {
    }
  }

  /** Every key leads back to its own row. */
  lemma {:induction false} RowsFindKeys()
    ensures forall i :: 0 <= i < |AllowedMimeTypes| ==> RowOf(AllowedMimeTypes[i].mime) == i
  {
    RowsFrom0();
    RowsFrom10();
    RowsFrom20();
    RowsFrom30();
  }

  /** No MIME type has two rows. */
  lemma MimeKeysDistinct()
    ensures DistinctKeys(AllowedMimeTypes)
  {
    RowsFindKeys();
  }

  /** A string that `RowOf` does not find is not a key. */
  lemma NotAKey(m: string)
    requires RowOf(m) == -1
    ensures forall i :: 0 <= i < |AllowedMimeTypes| ==> AllowedMimeTypes[i].mime != m
  {
    RowsFindKeys();
  }

  /** `table[m]` for an exact key `m`: the row whose key is `m`, if any. No
      prefix matching and no case folding take place. */
  function Lookup(table: seq<MimeEntry>, m: string): (r: Option<MimeEntry>)
    ensures r.Some? ==> r.value.mime == m && exists j :: 0 <= j < |table| && table[j] == r.value
    ensures r.None? <==> forall j :: 0 <= j < |table| ==> table[j].mime != m
  {
    if |table| == 0 then None
    else if table[0].mime == m then Some(table[0])
    else
      var r := Lookup(table[1..], m);
      assert forall j :: 1 <= j < |table| ==> table[j] == table[1..][j - 1];
      r
  }

  /** Extensions do not determine the MIME type: `xml` and `ogg` each belong to
      two rows. */
  lemma ExtensionsNotUnique()
    ensures exists i, j ::
              0 <= i < j < |AllowedMimeTypes| &&
              AllowedMimeTypes[i].ext == AllowedMimeTypes[j].ext == "xml"
    ensures exists i, j ::
              0 <= i < j < |AllowedMimeTypes| &&
              AllowedMimeTypes[i].ext == AllowedMimeTypes[j].ext == "ogg" &&
              AllowedMimeTypes[i].category != AllowedMimeTypes[j].category
  {
    assert AllowedMimeTypes[32].ext == AllowedMimeTypes[33].ext == "xml";
    assert AllowedMimeTypes[11].ext == AllowedMimeTypes[17].ext == "ogg";
  }

  /** The default is 512 MiB, although its comment says 500 MB. */
  lemma MaxFileSizeIs512MiB()
    ensures MaxFileSize == 512 * 1024 * 1024
  {
  }
}
