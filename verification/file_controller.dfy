/**
 The file endpoints (backend/src/controllers/fileController.js): upload,
 listing, delete and lookup by id, each in database mode or, without a
 database, over the upload directory.

 A stored file is named `<epoch-ms>-<token>-<original name>`, where the token
 is the base-36 tail of a `Math.random()` draw. Without a database the
 listing recovers the original name from the stored one, and the directory
 entry's name doubles as its `fileId`.

 The clock, the random draws and the identifier sources are parameters, and
 so are the outcome of removing a file from disk, the locale-dependent name
 ordering and the database's `$regex` search.
 */
module FileController {

  import opened Common
  import opened Strings
  import opened Sorting
  import opened Constants
  import opened FileHelper
  import opened UploadDir
  import opened FileModel
  import opened ActivityModel

  // -------------------------------------------------------------- file names

  /** A random token: base-36 digits, so never a `-`. */
  predicate IsToken(token: string)
  {
    '-' !in token
  }

  /** The stored name `${Date.now()}-${token}-${file.name}`. */
  function StoredName(time: nat, token: string, original: string): string
  {
    NatToString(time) + "-" + token + "-" + original
  }

  /** Every piece of a string after the second `-`, or none. */
  function AfterSecondDash(name: string): seq<string>
  {
    var parts := Split(name, '-');
    if |parts| > 2 then parts[2..] else []
  }

  /** The listing's recovery of the original name: the pieces after the
      second `-` rejoined, or the whole name when it has fewer than three
      pieces. */
  function ListingName(name: string): (r: string)
    ensures |Split(name, '-')| <= 2 ==> r == name
    ensures 2 < |Split(name, '-')| ==> r == Join(Split(name, '-')[2..], '-')
  {
    var parts := Split(name, '-');
    if |parts| > 2 then Join(parts[2..], '-') else name
  }

  /** The delete path's recovery: the pieces after the second `-` rejoined,
      falling back to the whole name whenever that is empty. */
  function DeleteName(name: string): (r: string)
    ensures r != "" || name == ""
    ensures Join(AfterSecondDash(name), '-') != "" ==> r == Join(AfterSecondDash(name), '-')
  {
    var recovered := Join(AfterSecondDash(name), '-');
    if recovered == "" then name else recovered
  }

  /** The pieces of a stored name: the time, the token, then the pieces of
      the original name. */
  lemma StoredNamePieces(time: nat, token: string, original: string)
    requires IsToken(token)
    ensures Split(StoredName(time, token, original), '-') == [NatToString(time), token] + Split(original, '-')
  {
    var t := NatToString(time);
    DigitsHaveNoDash(time);
    assert StoredName(time, token, original) == t + ['-'] + (token + ['-'] + original);
    SplitAfterPiece(t, '-', token + ['-'] + original);
    SplitAfterPiece(token, '-', original);
  }

  /** The listing recovers the original name of every stored name. */
  lemma ListingNameRoundTrip(time: nat, token: string, original: string)
    requires IsToken(token)
    ensures ListingName(StoredName(time, token, original)) == original
  {
    var parts := Split(StoredName(time, token, original), '-');
    StoredNamePieces(time, token, original);
    assert parts[2..] == Split(original, '-');
    JoinSplit(original, '-');
  }

  /** The delete path recovers every non-empty original name, and falls back
      to the stored name for an empty one. */
  lemma DeleteNameRoundTrip(time: nat, token: string, original: string)
    requires IsToken(token)
    ensures original != "" ==> DeleteName(StoredName(time, token, original)) == original
    ensures original == "" ==> DeleteName(StoredName(time, token, original)) == StoredName(time, token, original)
  {
    var parts := Split(StoredName(time, token, original), '-');
    StoredNamePieces(time, token, original);
    assert parts[2..] == Split(original, '-');
    JoinSplit(original, '-');
  }

  /** The two recoveries disagree on a name whose pieces after the second `-`
      join to nothing: the listing shows an empty name, the delete path the
      stored one. */
  lemma RecoveriesDiffer()
    ensures ListingName("1-a-") == ""
    ensures DeleteName("1-a-") == "1-a-"
  {
    assert Split("1-a-", '-') == ["1", "a", ""] by {
      assert "1-a-" == "1" + ['-'] + ("a" + ['-'] + "");
      SplitAfterPiece("1", '-', "a" + ['-'] + "");
      SplitAfterPiece("a", '-', "");
    }
  }

  /** A name without `-` is shown and reported as it is. */
  lemma NamesWithoutDashKept(name: string)
    requires '-' !in name
    ensures ListingName(name) == name && DeleteName(name) == name
  {
    SplitWithout(name, '-');
  }

  // ----------------------------------------------------------------- upload

  /** A file of the multipart request. */
  datatype UploadedFile = UploadedFile(name: string, mimetype: string, size: nat)

  /** The value of one form field of `req.files`: one file or a list. */
  datatype FieldValue = One(file: UploadedFile) | Several(files: seq<UploadedFile>)

  /** `req.files.files || req.files.file || []`, made a list: the `files`
      field wins over `file`, and a form with neither uploads nothing. */
  function FilesOf(form: map<string, FieldValue>): (files: seq<UploadedFile>)
    ensures "files" in form && form["files"].One? ==> files == [form["files"].file]
    ensures "files" in form && form["files"].Several? ==> files == form["files"].files
    ensures "files" !in form && "file" in form && form["file"].One? ==> files == [form["file"].file]
    ensures "files" !in form && "file" !in form ==> files == []
  {
    var v: Option<FieldValue> := if "files" in form then Some(form["files"]) else if "file" in form then Some(form["file"]) else None;
    match v
    case None => []
    case Some(One(f)) => [f]
    case Some(Several(fs)) => fs
  }

  /** The fields of the parsed `metadata` object; an empty string stands
      for an absent or falsy key. */
  datatype MetadataInput = MetadataInput(description: string, tags: seq<string>, category: string, comments: string)

  /** The `metadata` form field as `JSON.parse` leaves it: absent (or empty,
      which reads as `{}`), text that does not parse, the JSON `null` (whose
      keys cannot be read), or an object. */
  datatype MetadataField = Absent | Malformed | NullValue | Given(fields: MetadataInput)

  /** The keys the upload reads: those of a given object, none otherwise. */
  function Fields(meta: MetadataField): MetadataInput
  {
    if meta.Given? then meta.fields else MetadataInput("", [], "", "")
  }

  /** The per-file sources the upload consumes: the clock, the random token,
      the document and activity identifiers, the simulated statistics, and
      whether `file.mv` writes the file into the upload directory. */
  datatype UploadEnv = UploadEnv(
    clock: nat -> nat,
    token: nat -> string,
    fileId: nat -> string,
    activityId: nat -> string,
    stats: nat -> FileStats,
    moves: nat -> bool,
    uploadsDir: string)

  ghost predicate ValidEnv(env: UploadEnv)
  {
    forall i :: IsToken(env.token(i))
  }

  /** One element of the response's `data`. */
  datatype UploadView = UploadView(fileId: string, originalName: string, filename: string, mimeType: string,
                                   size: nat, category: Category)

  /** The response status and `count`, the views, the names written into the
      upload directory, the file documents and the activity log. */
  datatype UploadOutcome = UploadOutcome(
    status: nat,
    count: nat,
    data: seq<UploadView>,
    written: seq<string>,
    store: seq<FileRecord>,
    log: seq<Activity>)

  /** The document `new File({...})` builds for the `i`-th file. */
  function UploadDocument(env: UploadEnv, meta: MetadataInput, f: UploadedFile, i: nat): (doc: FileRecord)
    ensures doc.filename == StoredName(env.clock(i), env.token(i), f.name)
    ensures doc.originalName == f.name && doc.mimeType == f.mimetype && doc.size == f.size
    ensures doc.category == GetFileCategory(f.mimetype)
    ensures !doc.isDeleted
  {
    var name := StoredName(env.clock(i), env.token(i), f.name);
    var category := GetFileCategory(f.mimetype);
    var metadata := Metadata(meta.description, meta.tags,
                             if meta.category != "" then meta.category else CategoryName(category),
                             meta.comments);
    WithDefaults(FileDraft(f.name, name, env.uploadsDir + "/" + name, f.mimetype, f.size, category, metadata,
                           Some(env.stats(i))),
                 env.fileId(i), env.clock(i))
  }

  /** The activity recorded after the `i`-th file is saved. */
  function UploadActivity(env: UploadEnv, doc: FileRecord, i: nat): (a: Activity)
    ensures a.kind == Upload && a.status == Success && a.fileId == Some(doc.fileId)
  {
    Activity(env.activityId(i), Some(doc.fileId), Upload, doc.originalName, doc.size, CategoryName(doc.category),
             "File \"" + doc.originalName + "\" uploaded successfully", Success, env.clock(i))
  }

  /** The documents of the request's files, in order. */
  function Documents(env: UploadEnv, meta: MetadataInput, files: seq<UploadedFile>): (docs: seq<FileRecord>)
    ensures |docs| == |files|
    ensures forall i :: 0 <= i < |files| ==> docs[i] == UploadDocument(env, meta, files[i], i)
  {
    seq(|files|, i requires 0 <= i < |files| => UploadDocument(env, meta, files[i], i))
  }

  /** What the response shows of a file. Without a database the mock entry
      has the same fields, its id drawn the same way. */
  function ViewOf(doc: FileRecord): (v: UploadView)
    ensures v.fileId == doc.fileId && v.filename == doc.filename && v.originalName == doc.originalName
    ensures v.category == doc.category
  {
    UploadView(doc.fileId, doc.originalName, doc.filename, doc.mimeType, doc.size, doc.category)
  }

  /** The store takes a document when it passes validation and clashes with
      no unique key, exactly when `Insert` succeeds. */
  predicate Accepts(store: seq<FileRecord>, f: FileRecord)
  {
    ValidFile(f) && !ClashesWith(store, f)
  }

  /** How far a request got: how many files were handled, whether all of
      them were, the names written to disk, and the records after them. */
  datatype Batch = Batch(saved: nat, ok: bool, store: seq<FileRecord>, log: seq<Activity>, written: seq<string>)

  /** The loop over the request's files. Each file is first moved into the
      upload directory under its stored name; a failed move ends the request.
      Without a database nothing is recorded. With one the document is then
      built, which fails when the metadata is `null`, and saved behind the
      documents already there, followed by its upload activity; the first
      document that cannot be built or that the store refuses ends the
      request. What was written and saved before the failure stays. */
  function SaveAll(env: UploadEnv, dbUp: bool, unreadable: bool, store: seq<FileRecord>, log: seq<Activity>,
                   docs: seq<FileRecord>): (b: Batch)
    ensures b.saved <= |docs| && (b.ok <==> b.saved == |docs|)
    ensures forall k :: 0 <= k < b.saved ==> env.moves(k)
    ensures b.ok ==> |b.written| == |docs|
    ensures !b.ok ==> |b.written| == if env.moves(b.saved) then b.saved + 1 else b.saved
    ensures forall k :: 0 <= k < |b.written| ==> k < |docs| && b.written[k] == docs[k].filename
    ensures !b.ok ==> !env.moves(b.saved) || (dbUp && (unreadable || !Accepts(b.store, docs[b.saved])))
    ensures !dbUp ==> b.store == store && b.log == log
    ensures dbUp && unreadable && 0 < |docs| ==> b.saved == 0
    ensures dbUp ==> |b.store| == |store| + b.saved && |b.log| == |log| + b.saved
    ensures |store| <= |b.store| && b.store[..|store|] == store
    ensures dbUp ==> forall k :: 0 <= k < b.saved ==> b.store[|store| + k] == docs[k] && ValidFile(docs[k])
    decreases |docs|
  {
    if |docs| == 0 then Batch(0, true, store, log, [])
    else
      var last := |docs| - 1;
      var prev := SaveAll(env, dbUp, unreadable, store, log, docs[..last]);
      assert forall k :: 0 <= k < last ==> docs[..last][k] == docs[k];
      if !prev.ok then prev
      else if !env.moves(last) then Batch(prev.saved, false, prev.store, prev.log, prev.written)
      else
        var written := prev.written + [docs[last].filename];
        if !dbUp then Batch(|docs|, true, store, log, written)
        else if unreadable || !Accepts(prev.store, docs[last]) then
          Batch(prev.saved, false, prev.store, prev.log, written)
        else
          var st := prev.store + [docs[last]];
          assert st[..|store|] == prev.store[..|store|];
          Batch(|docs|, true, st, prev.log + [UploadActivity(env, docs[last], last)], written)
  }

  /** Every save keeps the store's invariant. */
  lemma {:induction false} SaveAllKeepsInvariant(env: UploadEnv, dbUp: bool, unreadable: bool,
                                                 store: seq<FileRecord>, log: seq<Activity>, docs: seq<FileRecord>)
    requires StoreInvariant(store)
    ensures StoreInvariant(SaveAll(env, dbUp, unreadable, store, log, docs).store)
    decreases |docs|
  {
    if dbUp && |docs| > 0 {
      var last := |docs| - 1;
      SaveAllKeepsInvariant(env, dbUp, unreadable, store, log, docs[..last]);
      var prev := SaveAll(env, dbUp, unreadable, store, log, docs[..last]);
      if prev.ok && env.moves(last) && !unreadable && Accepts(prev.store, docs[last]) {
        InsertKeepsInvariant(prev.store, docs[last]);
      }
    }
  }

  /** `!req.files || Object.keys(req.files).length === 0`. */
  predicate NoFiles(form: Option<map<string, FieldValue>>)
  {
    form.None? || |form.value| == 0
  }

  /** `uploadFiles`. No `req.files`, or one without fields, is a 400.
      Metadata that does not parse is a 500 before anything is written. Each
      file is then written to disk under its stored name, and a failed write
      is a 500. With a database its document is saved and an upload activity
      appended, and the first document that cannot be built or saved ends the
      request with a 500, keeping what was written and saved before it.
      Without a database nothing is recorded, and the request succeeds
      exactly when the metadata parses and every file is written. A success
      is a 201 whose `count` is the number of files. */
  function UploadFiles(form: Option<map<string, FieldValue>>, dbUp: bool, meta: MetadataField, env: UploadEnv,
                       store: seq<FileRecord>, log: seq<Activity>): (o: UploadOutcome)
    ensures NoFiles(form) ==> o.status == 400 && o.store == store && o.log == log && o.written == []
    ensures !NoFiles(form) ==> o.status == 201 || o.status == 500
    ensures !NoFiles(form) && meta.Malformed? ==>
              o.status == 500 && o.written == [] && o.store == store && o.log == log
    ensures o.status != 201 ==> o.count == 0 && o.data == []
    ensures o.status == 201 ==> o.count == |FilesOf(form.value)| && |o.data| == o.count && |o.written| == o.count
    ensures !dbUp ==> o.store == store && o.log == log
    ensures forall k :: 0 <= k < |o.written| ==>
              && form.Some? && k < |FilesOf(form.value)|
              && o.written[k] == StoredName(env.clock(k), env.token(k), FilesOf(form.value)[k].name)
    ensures o.status == 201 ==> forall k :: 0 <= k < o.count ==> env.moves(k)
    ensures !dbUp && !NoFiles(form) ==>
              (o.status == 201 <==> !meta.Malformed? && forall k :: 0 <= k < |FilesOf(form.value)| ==> env.moves(k))
  {
    if NoFiles(form) then UploadOutcome(400, 0, [], [], store, log)
    else if meta.Malformed? then UploadOutcome(500, 0, [], [], store, log)
    else
      var docs := Documents(env, Fields(meta), FilesOf(form.value));
      var b := SaveAll(env, dbUp, meta.NullValue?, store, log, docs);
      if !b.ok then UploadOutcome(500, 0, [], b.written, b.store, b.log)
      else UploadOutcome(201, |docs|, Views(docs), b.written, b.store, b.log)
  }

  /** A 201 shows, for each file, the name it was written under, from which
      the listing recovers the original name, and the classifier's
      category. */
  lemma UploadSuccessViews(form: Option<map<string, FieldValue>>, dbUp: bool, meta: MetadataField, env: UploadEnv,
                           store: seq<FileRecord>, log: seq<Activity>)
    requires ValidEnv(env)
    ensures var o := UploadFiles(form, dbUp, meta, env, store, log);
      o.status == 201 ==> forall k :: 0 <= k < o.count ==>
        && o.data[k].filename == o.written[k]
        && ListingName(o.data[k].filename) == FilesOf(form.value)[k].name
        && o.data[k].originalName == FilesOf(form.value)[k].name
        && o.data[k].category == GetFileCategory(FilesOf(form.value)[k].mimetype)
  {
    var o := UploadFiles(form, dbUp, meta, env, store, log);
    if o.status == 201 {
      var files := FilesOf(form.value);
      var docs := Documents(env, Fields(meta), files);
      var b := SaveAll(env, dbUp, meta.NullValue?, store, log, docs);
      assert o.written == b.written && o.data == Views(docs);
      UploadViews(env, Fields(meta), files, b.written);
    }
  }

  /** With a database, `null` metadata fails the first file before anything
      is saved, and a 201 saves one document of a schema category and one
      activity per file. In every mode the stored documents are kept and the
      store invariant is preserved. */
  lemma UploadRecords(form: Option<map<string, FieldValue>>, dbUp: bool, meta: MetadataField, env: UploadEnv,
                      store: seq<FileRecord>, log: seq<Activity>)
    ensures var o := UploadFiles(form, dbUp, meta, env, store, log);
      && (dbUp && !NoFiles(form) && meta.NullValue? && 0 < |FilesOf(form.value)| ==>
            o.status == 500 && o.store == store)
      && (dbUp && o.status == 201 ==> |o.store| == |store| + o.count && |o.log| == |log| + o.count)
      && (dbUp && o.status == 201 ==> forall k :: 0 <= k < o.count ==> SchemaCategory(o.data[k].category))
      && |store| <= |o.store| && o.store[..|store|] == store
      && (StoreInvariant(store) ==> StoreInvariant(o.store))
  {
    var o := UploadFiles(form, dbUp, meta, env, store, log);
    if !NoFiles(form) && !meta.Malformed? {
      var files := FilesOf(form.value);
      var docs := Documents(env, Fields(meta), files);
      if StoreInvariant(store) {
        SaveAllKeepsInvariant(env, dbUp, meta.NullValue?, store, log, docs);
      }
      var b := SaveAll(env, dbUp, meta.NullValue?, store, log, docs);
      if dbUp && o.status == 201 {
        forall k | 0 <= k < o.count
          ensures SchemaCategory(o.data[k].category)
        {
          assert o.data[k] == ViewOf(docs[k]) && ValidFile(docs[k]);
        }
      }
    }
  }

  /** The response's view of each document. */
  function Views(docs: seq<FileRecord>): (data: seq<UploadView>)
    ensures |data| == |docs|
    ensures forall k :: 0 <= k < |docs| ==> data[k] == ViewOf(docs[k])
  {
    seq(|docs|, k requires 0 <= k < |docs| => ViewOf(docs[k]))
  }

  /** The views of a request's documents name the written files and recover
      the original names and categories. */
  lemma UploadViews(env: UploadEnv, meta: MetadataInput, files: seq<UploadedFile>, written: seq<string>)
    requires ValidEnv(env)
    requires |written| == |files|
    requires forall k :: 0 <= k < |written| ==> written[k] == Documents(env, meta, files)[k].filename
    ensures var data := Views(Documents(env, meta, files));
      forall k :: 0 <= k < |files| ==>
        && data[k].filename == written[k]
        && written[k] == StoredName(env.clock(k), env.token(k), files[k].name)
        && ListingName(data[k].filename) == files[k].name
        && data[k].originalName == files[k].name
        && data[k].category == GetFileCategory(files[k].mimetype)
  {
    forall k | 0 <= k < |files|
      ensures ListingName(StoredName(env.clock(k), env.token(k), files[k].name)) == files[k].name
    {
      ListingNameRoundTrip(env.clock(k), env.token(k), files[k].name);
    }
  }

  // ---------------------------------------------------------------- listing

  /** One element of a listing's `data`. */
  datatype Listed = Listed(fileId: string, originalName: string, filename: string, mimeType: string,
                           sizeBytes: nat, category: Category, uploadedAt: int)

  /** A directory entry as the listing shows it: its name is also its id. */
  function ListedEntry(lookup: MimeLookup, e: DirEntry): (l: Listed)
    ensures l.fileId == e.name && l.filename == e.name && l.originalName == ListingName(e.name)
    ensures l.sizeBytes == e.size && l.uploadedAt == e.mtime
  {
    var mime := MimeOf(lookup, e.name, OctetStream);
    Listed(e.name, ListingName(e.name), e.name, mime, e.size, GetFileCategory(mime), e.mtime)
  }

  function ListedEntries(lookup: MimeLookup, entries: seq<DirEntry>): (ls: seq<Listed>)
    ensures |ls| == |entries|
    ensures forall i :: 0 <= i < |entries| ==> ls[i] == ListedEntry(lookup, entries[i])
  {
    seq(|entries|, i requires 0 <= i < |entries| => ListedEntry(lookup, entries[i]))
  }

  /** The listing query: `category`, `search` and `sort` as strings (an
      absent one is `""`), `page` and `limit` as the result of `parseInt`
      (`None` where it gives `NaN`). */
  datatype ListQuery = ListQuery(category: string, search: string, sort: string, page: Option<int>, limit: Option<int>)

  /** The category filter applies unless the value is `''` or `'all'`. */
  predicate FiltersCategory(q: ListQuery)
  {
    q.category != "" && q.category != "all"
  }

  /** An entry passes the category filter when its category is named exactly
      as asked, and the search filter when the lower-cased search text occurs
      in its lower-cased original name. */
  predicate MatchesScan(q: ListQuery, l: Listed)
  {
    && (FiltersCategory(q) ==> CategoryName(l.category) == q.category)
    && (q.search != "" ==> Includes(ToLower(l.originalName), ToLower(q.search)))
  }

  /** The four orders of the `sort` parameter; every other value is newest
      first. */
  datatype SortMode = Oldest | ByName | BySize | Newest

  function ParseSort(s: string): (m: SortMode)
    ensures s == "oldest" <==> m == Oldest
    ensures s == "name" <==> m == ByName
    ensures s == "size" <==> m == BySize
  {
    if s == "oldest" then Oldest else if s == "name" then ByName else if s == "size" then BySize else Newest
  }

  /** The comparator of a mode as "may come before": ascending time, the
      given name order, descending size, descending time. */
  function ListedLe(mode: SortMode, nameLe: (string, string) -> bool): (Listed, Listed) -> bool
  {
    match mode
    case Oldest => (a: Listed, b: Listed) => a.uploadedAt <= b.uploadedAt
    case ByName => (a: Listed, b: Listed) => nameLe(a.originalName, b.originalName)
    case BySize => (a: Listed, b: Listed) => b.sizeBytes <= a.sizeBytes
    case Newest => (a: Listed, b: Listed) => b.uploadedAt <= a.uploadedAt
  }

  lemma ListedLeIsPreorder(mode: SortMode, nameLe: (string, string) -> bool)
    requires TotalPreorder(nameLe)
    ensures TotalPreorder(ListedLe(mode, nameLe))
  {
    var le := ListedLe(mode, nameLe);
    if mode == ByName {
      forall a, b, c | le(a, b) && le(b, c)
        ensures le(a, c)
      {
        assert nameLe(a.originalName, b.originalName) && nameLe(b.originalName, c.originalName);
      }
      forall a, b
        ensures le(a, b) || le(b, a)
      {
        assert nameLe(a.originalName, b.originalName) || nameLe(b.originalName, a.originalName);
      }
    }
  }

  /** The page and the page size after clamping: at least 1, by default 1
      and 12. */
  function PageOf(q: ListQuery): (p: nat)
    ensures 1 <= p
  {
    ClampParam(q.page, 1)
  }

  function LimitOf(q: ListQuery): (l: nat)
    ensures 1 <= l
  {
    ClampParam(q.limit, 12)
  }

  /** `MatchesScan` as the filter callback. */
  function ScanFilter(q: ListQuery): Listed -> bool
  {
    (l: Listed) => MatchesScan(q, l)
  }

  /** The entries of the directory that match the query, each as often as it
      is listed, in the requested order; entries the order ties keep their
      directory order, as `Array.prototype.sort` is stable. */
  function ScanMatches(lookup: MimeLookup, dir: Option<seq<DirEntry>>, q: ListQuery,
                       nameLe: (string, string) -> bool): (r: seq<Listed>)
    requires TotalPreorder(nameLe)
    ensures forall l :: multiset(r)[l] == if MatchesScan(q, l) then multiset(ListedEntries(lookup, Entries(dir)))[l] else 0
    ensures forall l :: l in r <==> l in ListedEntries(lookup, Entries(dir)) && MatchesScan(q, l)
    ensures |r| == |FilterBy(ListedEntries(lookup, Entries(dir)), ScanFilter(q))|
    ensures SortedBy(r, ListedLe(ParseSort(q.sort), nameLe))
    ensures forall c :: FilterBy(r, Tie(ListedLe(ParseSort(q.sort), nameLe), c))
                        == FilterBy(FilterBy(ListedEntries(lookup, Entries(dir)), ScanFilter(q)),
                                    Tie(ListedLe(ParseSort(q.sort), nameLe), c))
  {
    var matching := FilterBy(ListedEntries(lookup, Entries(dir)), ScanFilter(q));
    ListedLeIsPreorder(ParseSort(q.sort), nameLe);
    SortByMembers(matching, ListedLe(ParseSort(q.sort), nameLe));
    FilterMultiplicity(ListedEntries(lookup, Entries(dir)), ScanFilter(q));
    SortBy(matching, ListedLe(ParseSort(q.sort), nameLe))
  }

  /** `getFiles` without a database: filter, sort, then take page `page` of
      `limit` entries; `total` counts the matches before the page is cut. */
  function ScanListing(lookup: MimeLookup, dir: Option<seq<DirEntry>>, q: ListQuery,
                       nameLe: (string, string) -> bool): (r: Listing<Listed>)
    requires TotalPreorder(nameLe)
  {
    Page(ScanMatches(lookup, dir, q, nameLe), PageOf(q), LimitOf(q))
  }

  /** `total` counts the matching entries, every entry when nothing is
      filtered; a page holds at most `limit` of them, each a directory entry
      that matches the query, in the requested order. */
  lemma ScanListingSound(lookup: MimeLookup, dir: Option<seq<DirEntry>>, q: ListQuery,
                         nameLe: (string, string) -> bool)
    requires TotalPreorder(nameLe)
    ensures var r := ScanListing(lookup, dir, q, nameLe);
      && r.pagination.total == |ScanMatches(lookup, dir, q, nameLe)|
      && r.pagination.total == |FilterBy(ListedEntries(lookup, Entries(dir)), ScanFilter(q))|
      && (!FiltersCategory(q) && q.search == "" ==> r.pagination.total == |Entries(dir)|)
      && |r.data| <= LimitOf(q)
      && (forall i :: 0 <= i < |r.data| ==>
            r.data[i] == ScanMatches(lookup, dir, q, nameLe)[Skip(PageOf(q), LimitOf(q)) + i])
      && (forall l :: l in r.data ==> MatchesScan(q, l) && l in ListedEntries(lookup, Entries(dir)))
      && SortedBy(r.data, ListedLe(ParseSort(q.sort), nameLe))
  {
    var m := ScanMatches(lookup, dir, q, nameLe);
    if !FiltersCategory(q) && q.search == "" {
      FilterKeepsAll(ListedEntries(lookup, Entries(dir)), ScanFilter(q));
    }
    PageMembers(m, PageOf(q), LimitOf(q));
    PageSorted(m, PageOf(q), LimitOf(q), ListedLe(ParseSort(q.sort), nameLe));
  }

  /** The database search: `$regex` over the original name, the description
      and the tags, whose semantics the model does not fix. */
  type SearchMatch = (string, FileRecord) -> bool

  /** A document passes the database query when it is not soft-deleted, its
      category is named as asked (unless `''` or `'all'`), and the search (if
      any) matches it. */
  predicate MatchesQuery(q: ListQuery, search: SearchMatch, f: FileRecord)
  {
    && !f.isDeleted
    && (FiltersCategory(q) ==> CategoryName(f.category) == q.category)
    && (q.search != "" ==> search(q.search, f))
  }

  /** The sort object of a mode as "may come before". */
  function RecordLe(mode: SortMode, nameLe: (string, string) -> bool): (FileRecord, FileRecord) -> bool
  {
    match mode
    case Oldest => (a: FileRecord, b: FileRecord) => a.uploadedAt <= b.uploadedAt
    case ByName => (a: FileRecord, b: FileRecord) => nameLe(a.originalName, b.originalName)
    case BySize => (a: FileRecord, b: FileRecord) => b.size <= a.size
    case Newest => (a: FileRecord, b: FileRecord) => b.uploadedAt <= a.uploadedAt
  }

  lemma RecordLeIsPreorder(mode: SortMode, nameLe: (string, string) -> bool)
    requires TotalPreorder(nameLe)
    ensures TotalPreorder(RecordLe(mode, nameLe))
  {
    var le := RecordLe(mode, nameLe);
    if mode == ByName {
      forall a, b, c | le(a, b) && le(b, c)
        ensures le(a, c)
      {
        assert nameLe(a.originalName, b.originalName) && nameLe(b.originalName, c.originalName);
      }
      forall a, b
        ensures le(a, b) || le(b, a)
      {
        assert nameLe(a.originalName, b.originalName) || nameLe(b.originalName, a.originalName);
      }
    }
  }

  /** `MatchesQuery` as a filter callback. */
  function QueryFilter(q: ListQuery, search: SearchMatch): FileRecord -> bool
  {
    (f: FileRecord) => MatchesQuery(q, search, f)
  }

  /** The documents that match the query, each as often as it is stored, in
      the requested order. */
  function DatabaseMatches(store: seq<FileRecord>, q: ListQuery, search: SearchMatch,
                           nameLe: (string, string) -> bool): (r: seq<FileRecord>)
    requires TotalPreorder(nameLe)
    ensures forall f :: multiset(r)[f] == if MatchesQuery(q, search, f) then multiset(store)[f] else 0
    ensures forall f :: f in r <==> f in store && MatchesQuery(q, search, f)
    ensures |r| == |FilterBy(store, QueryFilter(q, search))|
    ensures SortedBy(r, RecordLe(ParseSort(q.sort), nameLe))
    ensures |r| <= |Live(store)|
  {
    var keep := QueryFilter(q, search);
    var matching := FilterBy(store, keep);
    FilterLiveBound(store, keep);
    RecordLeIsPreorder(ParseSort(q.sort), nameLe);
    SortByMembers(matching, RecordLe(ParseSort(q.sort), nameLe));
    FilterMultiplicity(store, keep);
    SortBy(matching, RecordLe(ParseSort(q.sort), nameLe))
  }

  /** A filter that keeps no soft-deleted document keeps at most the live
      ones. */
  lemma {:induction false} FilterLiveBound(store: seq<FileRecord>, keep: FileRecord -> bool)
    requires forall f :: keep(f) ==> !f.isDeleted
    ensures |FilterBy(store, keep)| <= |Live(store)|
  {
    if |store| > 0 {
      FilterLiveBound(store[..|store| - 1], keep);
    }
  }

  /** A filter that keeps exactly the live documents keeps as many as
      `Live`. */
  lemma {:induction false} FilterLiveExact(store: seq<FileRecord>, keep: FileRecord -> bool)
    requires forall f :: keep(f) <==> !f.isDeleted
    ensures |FilterBy(store, keep)| == |Live(store)|
  {
    if |store| > 0 {
      FilterLiveExact(store[..|store| - 1], keep);
      FilterLast(store, keep);
    }
  }

  /** `getFiles` with a database: `countDocuments(query)` as `total` and
      `find(query).sort(...).skip(skip).limit(limit)` as `data`. */
  function DatabaseListing(store: seq<FileRecord>, q: ListQuery, search: SearchMatch,
                           nameLe: (string, string) -> bool): (r: Listing<FileRecord>)
    requires TotalPreorder(nameLe)
  {
    Page(DatabaseMatches(store, q, search, nameLe), PageOf(q), LimitOf(q))
  }

  /** A soft-deleted document is never listed, the count never exceeds the
      live documents and equals them when nothing is filtered, and a page holds at most `limit` matching documents in
      the requested order. */
  lemma DatabaseListingSound(store: seq<FileRecord>, q: ListQuery, search: SearchMatch,
                             nameLe: (string, string) -> bool)
    requires TotalPreorder(nameLe)
    ensures var r := DatabaseListing(store, q, search, nameLe);
      && r.pagination.total == |DatabaseMatches(store, q, search, nameLe)| <= |Live(store)|
      && r.pagination.total == |FilterBy(store, QueryFilter(q, search))|
      && (!FiltersCategory(q) && q.search == "" ==> r.pagination.total == |Live(store)|)
      && |r.data| <= LimitOf(q)
      && (forall i :: 0 <= i < |r.data| ==>
            r.data[i] == DatabaseMatches(store, q, search, nameLe)[Skip(PageOf(q), LimitOf(q)) + i])
      && (forall f :: f in r.data ==> !f.isDeleted && MatchesQuery(q, search, f) && f in store)
      && SortedBy(r.data, RecordLe(ParseSort(q.sort), nameLe))
  {
    var m := DatabaseMatches(store, q, search, nameLe);
    if !FiltersCategory(q) && q.search == "" {
      FilterLiveExact(store, QueryFilter(q, search));
    }
    PageMembers(m, PageOf(q), LimitOf(q));
    PageSorted(m, PageOf(q), LimitOf(q), RecordLe(ParseSort(q.sort), nameLe));
  }

  // ----------------------------------------------------------------- delete

  /** The response status of a delete, and the name it reports. */
  datatype DeleteOutcome<S> = DeleteOutcome(status: nat, state: S, name: Option<string>)

  /** The index of the first entry named exactly `name`. */
  function FindEntry(entries: seq<DirEntry>, name: string): (r: Option<nat>)
    ensures r.Some? ==> r.value < |entries| && entries[r.value].name == name
    ensures r.Some? ==> forall k :: 0 <= k < r.value ==> entries[k].name != name
    ensures r.None? ==> forall k :: 0 <= k < |entries| ==> entries[k].name != name
  {
    if |entries| == 0 then None
    else if entries[0].name == name then Some(0)
    else
      var r := FindEntry(entries[1..], name);
      if r.Some? then Some(r.value + 1) else None
  }

  /** `deleteFile` without a database: a missing directory or no entry named
      exactly `fileId` is a 404; a failed removal a 500 that leaves the
      directory as it was; otherwise the entry is removed and the original
      name recovered for the notification. */
  function ScanDelete(dir: Option<seq<DirEntry>>, fileId: string, unlinkSucceeds: bool)
    : (o: DeleteOutcome<Option<seq<DirEntry>>>)
    ensures dir.None? ==> o.status == 404 && o.state == dir
    ensures dir.Some? && (forall k :: 0 <= k < |dir.value| ==> dir.value[k].name != fileId) ==>
              o.status == 404 && o.state == dir
    ensures o.status == 500 ==> !unlinkSucceeds && o.state == dir
    ensures o.status != 200 ==> o.state == dir && o.name.None?
    ensures o.status == 200 ==> dir.Some? && o.state.Some? && |o.state.value| == |dir.value| - 1
    ensures o.status == 200 ==> o.name == Some(DeleteName(fileId))
    ensures o.status == 200 ==> multiset(o.state.value) + multiset{dir.value[FindEntry(dir.value, fileId).value]}
                                == multiset(dir.value)
    ensures dir.Some? && (exists k :: 0 <= k < |dir.value| && dir.value[k].name == fileId) ==>
              o.status == (if unlinkSucceeds then 200 else 500)
  {
    if dir.None? then DeleteOutcome(404, dir, None)
    else
      match FindEntry(dir.value, fileId)
      case None => DeleteOutcome(404, dir, None)
      case Some(i) =>
        if !unlinkSucceeds then DeleteOutcome(500, dir, None)
        else
          var entries := dir.value;
          assert entries == entries[..i] + [entries[i]] + entries[i + 1..];
          DeleteOutcome(200, Some(entries[..i] + entries[i + 1..]), Some(DeleteName(fileId)))
  }

  /** Directory names are unique. */
  predicate DistinctNames(entries: seq<DirEntry>)
  {
    forall i, j :: 0 <= i < j < |entries| ==> entries[i].name != entries[j].name
  }

  /** With unique names a successful delete leaves no entry of that name, so
      deleting again is a 404. */
  lemma ScanDeleteTwice(dir: Option<seq<DirEntry>>, fileId: string, u1: bool, u2: bool)
    requires dir.Some? && DistinctNames(dir.value)
    requires ScanDelete(dir, fileId, u1).status == 200
    ensures ScanDelete(ScanDelete(dir, fileId, u1).state, fileId, u2).status == 404
  {
    var entries := dir.value;
    var i := FindEntry(entries, fileId).value;
    var rest := entries[..i] + entries[i + 1..];
    assert ScanDelete(dir, fileId, u1).state == Some(rest);
    forall k | 0 <= k < |rest|
      ensures rest[k].name != fileId
    {
      if k < i {
        assert rest[k] == entries[k];
      } else {
        assert rest[k] == entries[k + 1];
      }
    }
  }

  /** The index of the live document with id `fileId`:
      `File.findOne({ fileId, isDeleted: false })`. */
  function FindLive(store: seq<FileRecord>, fileId: string): (r: Option<nat>)
    ensures r.Some? ==> r.value < |store| && store[r.value].fileId == fileId && !store[r.value].isDeleted
    ensures r.None? ==> forall k :: 0 <= k < |store| ==> store[k].fileId != fileId || store[k].isDeleted
  {
    if |store| == 0 then None
    else if store[0].fileId == fileId && !store[0].isDeleted then Some(0)
    else
      var r := FindLive(store[1..], fileId);
      if r.Some? then Some(r.value + 1) else None
  }

  /** The store and the activity log together. */
  datatype Records = Records(store: seq<FileRecord>, log: seq<Activity>)

  /** `deleteFile` with a database: a 404 unless a live document has the id;
      otherwise the document is marked deleted (a failure to remove the file
      from disk is ignored) and a delete activity is appended. */
  function DatabaseDelete(r: Records, fileId: string, activityId: string, now: int): (o: DeleteOutcome<Records>)
    ensures FindLive(r.store, fileId).None? ==> o.status == 404 && o.state == r
    ensures FindLive(r.store, fileId).Some? ==> o.status == 200
    ensures o.status == 200 ==>
              var i := FindLive(r.store, fileId).value;
              && o.state.store == r.store[i := r.store[i].(isDeleted := true)]
              && |o.state.log| == |r.log| + 1 && o.state.log[..|r.log|] == r.log
              && o.state.log[|r.log|].kind == Delete
              && o.state.log[|r.log|].fileId == Some(fileId)
              && o.name == Some(r.store[i].originalName)
  {
    match FindLive(r.store, fileId)
    case None => DeleteOutcome(404, r, None)
    case Some(i) =>
      var f := r.store[i];
      var act := Activity(activityId, Some(f.fileId), Delete, f.originalName, f.size, CategoryName(f.category),
                          "File \"" + f.originalName + "\" deleted", Success, now);
      DeleteOutcome(200, Records(r.store[i := f.(isDeleted := true)], r.log + [act]), Some(f.originalName))
  }

  /** A database delete keeps the store invariant, removes exactly one
      document from the live ones, and leaves none with that id, so a
      repeated delete is a 404. */
  lemma DatabaseDeleteEffect(r: Records, fileId: string, activityId: string, now: int, id2: string, now2: int)
    requires StoreInvariant(r.store)
    requires DatabaseDelete(r, fileId, activityId, now).status == 200
    ensures var after := DatabaseDelete(r, fileId, activityId, now).state;
      && StoreInvariant(after.store)
      && FindLive(after.store, fileId).None?
      && |Live(after.store)| + 1 == |Live(r.store)|
      && DatabaseDelete(after, fileId, id2, now2).status == 404
  {
    var i := FindLive(r.store, fileId).value;
    var after := DatabaseDelete(r, fileId, activityId, now).state;
    var s := after.store;
    assert s == r.store[i := r.store[i].(isDeleted := true)];
    forall k | 0 <= k < |s|
      ensures s[k].fileId != fileId || s[k].isDeleted
    {
      if k != i {
        assert s[k] == r.store[k];
        if k < i {
          assert r.store[k].fileId != r.store[i].fileId;
        } else {
          assert r.store[i].fileId != r.store[k].fileId;
        }
      }
    }
    assert forall k :: 0 <= k < |s| ==> ValidFile(s[k]) by {
      forall k | 0 <= k < |s|
        ensures ValidFile(s[k])
      {
        assert ValidFile(r.store[k]);
      }
    }
    LiveAfterMark(r.store, i);
  }

  /** Marking a live document deleted shrinks the live documents by one. */
  lemma {:induction false} LiveAfterMark(store: seq<FileRecord>, i: nat)
    requires i < |store| && !store[i].isDeleted
    ensures |Live(store[i := store[i].(isDeleted := true)])| + 1 == |Live(store)|
  {
    var s := store[i := store[i].(isDeleted := true)];
    var init := store[..|store| - 1];
    if i == |store| - 1 {
      assert s[..|s| - 1] == init;
    } else {
      LiveAfterMark(init, i);
      assert s[..|s| - 1] == init[i := init[i].(isDeleted := true)];
    }
  }

  /** `getFileById`: the live document with the id, or a 404 (`None`). The
      endpoint has no directory mode. */
  function GetFileById(store: seq<FileRecord>, fileId: string): (r: Option<FileRecord>)
    ensures r.Some? ==> r.value.fileId == fileId && !r.value.isDeleted && r.value in store
    ensures r.None? <==> forall k :: 0 <= k < |store| ==> store[k].fileId != fileId || store[k].isDeleted
  {
    match FindLive(store, fileId)
    case None => None
    case Some(i) => Some(store[i])
  }

  /** After a database delete the document is not found by id. */
  lemma NotFoundAfterDelete(r: Records, fileId: string, activityId: string, now: int)
    requires StoreInvariant(r.store)
    requires DatabaseDelete(r, fileId, activityId, now).status == 200
    ensures GetFileById(DatabaseDelete(r, fileId, activityId, now).state.store, fileId).None?
  {
    DatabaseDeleteEffect(r, fileId, activityId, now, activityId, now);
  }
}
