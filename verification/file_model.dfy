/**
 The file document of the record store (backend/src/models/File.js): its
 fields, the defaults the schema fills in, the validators that run before a
 document is written, and the two unique indexes.
 */
module FileModel {

  import opened Common
  import opened Constants
  import opened FileHelper

  /** The free-form `metadata` sub-document. */
  datatype Metadata = Metadata(description: string, tags: seq<string>, category: string, comments: string)

  /** The `fileStats` sub-document; a `processingTime` or `accuracy` of 0 reads
      as absent wherever the service tests it for truthiness. */
  datatype FileStats = FileStats(processingTime: real, accuracy: real, processedAt: int)

  /** A stored file document; `uploadedAt` is in milliseconds since the epoch. */
  datatype FileRecord = FileRecord(
    fileId: string,
    originalName: string,
    filename: string,
    filepath: string,
    mimeType: string,
    size: nat,
    category: Category,
    metadata: Metadata,
    fileStats: Option<FileStats>,
    uploadedAt: int,
    isDeleted: bool)

  /** What the service passes to `new File({...})`. */
  datatype FileDraft = FileDraft(
    originalName: string,
    filename: string,
    filepath: string,
    mimeType: string,
    size: nat,
    category: Category,
    metadata: Metadata,
    fileStats: Option<FileStats>)

  /** The values of the schema's `category` enum. */
  predicate SchemaCategory(c: Category)
  {
    c == Image || c == Video || c == Json
  }

  /** A document the validators accept: the five required strings are
      non-empty (a `required` string rejects `''`) and the category is one of
      the enum values. */
  predicate ValidFile(f: FileRecord)
  {
    && f.originalName != ""
    && f.filename != ""
    && f.filepath != ""
    && f.mimeType != ""
    && SchemaCategory(f.category)
  }

  function RequiredMessage(path: string): string
  {
    "Path `" + path + "` is required."
  }

  function RequiredCheck(value: string, path: string): seq<string>
  {
    if value == "" then [RequiredMessage(path)] else []
  }

  /** The validation messages of a document, one per failing path, in schema
      order. */
  function Violations(f: FileRecord): (msgs: seq<string>)
    ensures |msgs| == 0 <==> ValidFile(f)
    ensures !SchemaCategory(f.category) ==>
              msgs[|msgs| - 1] == "`" + CategoryName(f.category) + "` is not a valid enum value for path `category`."
  {
    RequiredCheck(f.originalName, "originalName")
    + RequiredCheck(f.filename, "filename")
    + RequiredCheck(f.filepath, "filepath")
    + RequiredCheck(f.mimeType, "mimeType")
    + (if SchemaCategory(f.category) then []
       else ["`" + CategoryName(f.category) + "` is not a valid enum value for path `category`."])
  }

  /** The document `new File(d)` builds: `fileId` from the identifier source,
      `uploadedAt` the creation time, `isDeleted` false. */
  function WithDefaults(d: FileDraft, fileId: string, now: int): (f: FileRecord)
    ensures f.fileId == fileId && f.uploadedAt == now && !f.isDeleted
    ensures f.originalName == d.originalName && f.filename == d.filename && f.filepath == d.filepath
    ensures f.mimeType == d.mimeType && f.size == d.size && f.category == d.category
  {
    FileRecord(fileId, d.originalName, d.filename, d.filepath, d.mimeType, d.size, d.category, d.metadata,
               d.fileStats, now, false)
  }

  /** `File.find({ isDeleted: false })`: the documents not soft-deleted, in
      store order. */
  function Live(store: seq<FileRecord>): (live: seq<FileRecord>)
    ensures |live| <= |store|
    ensures forall i :: 0 <= i < |live| ==> !live[i].isDeleted && live[i] in store
    ensures forall i :: 0 <= i < |store| && !store[i].isDeleted ==> store[i] in live
  {
    if |store| == 0 then []
    else
      var rest := Live(store[..|store| - 1]);
      assert forall i :: 0 <= i < |store| - 1 ==> store[..|store| - 1][i] == store[i];
      if store[|store| - 1].isDeleted then rest else rest + [store[|store| - 1]]
  }

  /** Both unique indexes hold: no two documents share a `fileId` or a
      `filename`, whether or not they are soft-deleted. */
  predicate UniqueKeys(store: seq<FileRecord>)
  {
    forall i, j :: 0 <= i < j < |store| ==>
      store[i].fileId != store[j].fileId && store[i].filename != store[j].filename
  }

  /** Every document passed validation and both unique indexes hold. */
  predicate StoreInvariant(store: seq<FileRecord>)
  {
    UniqueKeys(store) && forall i :: 0 <= i < |store| ==> ValidFile(store[i])
  }

  /** Why a write is refused: the validators (Mongoose's `ValidationError`) or a
      unique index (MongoDB error code 11000). */
  datatype SaveError = ValidationError(messages: seq<string>) | DuplicateKey

  predicate ClashesWith(store: seq<FileRecord>, f: FileRecord)
  {
    exists i :: 0 <= i < |store| && (store[i].fileId == f.fileId || store[i].filename == f.filename)
  }

  /** `doc.save()` of a new document: validation runs first, then the unique
      indexes; a write that passes both appends the document. */
  function Insert(store: seq<FileRecord>, f: FileRecord): (r: Result<seq<FileRecord>, SaveError>)
    ensures r.Ok? <==> ValidFile(f) && !ClashesWith(store, f)
    ensures !ValidFile(f) ==> r == Err(ValidationError(Violations(f)))
    ensures r.Ok? ==> r.value == store + [f]
  {
    var msgs := Violations(f);
    if |msgs| > 0 then Err(ValidationError(msgs))
    else if ClashesWith(store, f) then Err(DuplicateKey)
    else Ok(store + [f])
  }

  /** A successful insert keeps the store invariant. */
  lemma InsertKeepsInvariant(store: seq<FileRecord>, f: FileRecord)
    requires StoreInvariant(store)
    requires Insert(store, f).Ok?
    ensures StoreInvariant(Insert(store, f).value)
  {
    var s' := store + [f];
    forall i, j | 0 <= i < j < |s'|
      ensures s'[i].fileId != s'[j].fileId && s'[i].filename != s'[j].filename
    {
      if j == |store| {
        assert !(store[i].fileId == f.fileId || store[i].filename == f.filename);
      }
    }
  }

  /** Only image, video and JSON files can be recorded: a document built from
      any other classification fails validation with the enum message. */
  lemma OtherCategoriesRejected(store: seq<FileRecord>, f: FileRecord)
    requires !SchemaCategory(f.category)
    ensures Insert(store, f).Err?
    ensures Insert(store, f).error.ValidationError?
  {
  }
}
