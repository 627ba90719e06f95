/**
 The activity document of the record store (backend/src/models/Activity.js):
 an append-only event with a kind, an outcome and copies of the file's name,
 size and category taken when the event happened.
 */
module ActivityModel {

  import opened Common

  /** The values of the schema's `type` enum. */
  datatype ActivityType = Upload | Delete | Update | View | Download

  const ActivityTypes: seq<ActivityType> := [Upload, Delete, Update, View, Download]

  function TypeName(t: ActivityType): string
  {
    match t
    case Upload => "upload"
    case Delete => "delete"
    case Update => "update"
    case View => "view"
    case Download => "download"
  }

  /** The `type` enum check: exactly the five names are accepted. */
  function ParseType(s: string): (r: Option<ActivityType>)
    ensures r.Some? ==> TypeName(r.value) == s
    ensures (exists t :: TypeName(t) == s) ==> r.Some?
  {
    if s == "upload" then Some(Upload)
    else if s == "delete" then Some(Delete)
    else if s == "update" then Some(Update)
    else if s == "view" then Some(View)
    else if s == "download" then Some(Download)
    else None
  }

  /** Distinct kinds have distinct names. */
  lemma TypeNameInjective(a: ActivityType, b: ActivityType)
    ensures TypeName(a) == TypeName(b) ==> a == b
  {
  }

  /** The values of the schema's `status` enum. */
  datatype Status = Success | Failed | Pending

  function StatusName(s: Status): string
  {
    match s
    case Success => "success"
    case Failed => "failed"
    case Pending => "pending"
  }

  /** The `status` enum check: exactly the three names are accepted. */
  function ParseStatus(s: string): (r: Option<Status>)
    ensures r.Some? ==> StatusName(r.value) == s
    ensures (exists st :: StatusName(st) == s) ==> r.Some?
  {
    if s == "success" then Some(Success)
    else if s == "failed" then Some(Failed)
    else if s == "pending" then Some(Pending)
    else None
  }

  /** A stored activity. `fileId` is a plain string, never checked against the
      files; `timestamp` is in milliseconds since the epoch. */
  datatype Activity = Activity(
    activityId: string,
    fileId: Option<string>,
    kind: ActivityType,
    fileName: string,
    fileSize: nat,
    fileCategory: string,
    description: string,
    status: Status,
    timestamp: int)

  /** What a caller passes to `Activity.create({...})`: `type` and `status` as
      strings, `status` possibly absent. */
  datatype ActivityDraft = ActivityDraft(
    fileId: Option<string>,
    kind: string,
    fileName: string,
    fileSize: nat,
    fileCategory: string,
    description: string,
    status: Option<string>)

  /** `Activity.create(d)`: the `type` must be one of the five kinds (an empty
      one is missing), an explicit `status` one of the three outcomes, an
      absent one defaults to `success`; the identifier and the timestamp come
      from the caller's sources. */
  function CreateActivity(d: ActivityDraft, activityId: string, now: int): (r: Result<Activity, seq<string>>)
    ensures r.Ok? <==> ParseType(d.kind).Some? && (d.status.None? || ParseStatus(d.status.value).Some?)
    ensures r.Ok? ==> TypeName(r.value.kind) == d.kind
    ensures r.Ok? && d.status.None? ==> r.value.status == Success
    ensures r.Ok? && d.status.Some? ==> StatusName(r.value.status) == d.status.value
    ensures r.Ok? ==> r.value.fileId == d.fileId && r.value.timestamp == now && r.value.activityId == activityId
    ensures r.Ok? ==> r.value.fileName == d.fileName && r.value.fileSize == d.fileSize
                      && r.value.fileCategory == d.fileCategory
  {
    var kind := ParseType(d.kind);
    var status := if d.status.None? then Some(Success) else ParseStatus(d.status.value);
    if kind.None? || status.None? then
      Err((if d.kind == "" then ["Path `type` is required."]
           else if kind.None? then ["`" + d.kind + "` is not a valid enum value for path `type`."]
           else [])
          + (if status.None? then ["`" + d.status.value + "` is not a valid enum value for path `status`."]
             else []))
    else
      Ok(Activity(activityId, d.fileId, kind.value, d.fileName, d.fileSize, d.fileCategory, d.description,
                  status.value, now))
  }
}
