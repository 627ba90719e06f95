/**
 The activity endpoints (backend/src/controllers/activityController.js): the
 newest-first activity feed, clearing the log, and the count of activities of
 each kind.

 Only the feed checks the connection first. Clearing and counting go straight
 to the store, and a store that cannot answer makes them fail; the error
 handler turns that into a 500.
 */
module ActivityController {

  import opened Common
  import opened Sorting
  import opened ActivityModel

  /** An activity as the feed shows it: everything but the file id. */
  datatype ActivityView = ActivityView(
    activityId: string,
    kind: ActivityType,
    fileName: string,
    fileSize: nat,
    fileCategory: string,
    description: string,
    status: Status,
    timestamp: int)

  function ViewOf(a: Activity): (v: ActivityView)
    ensures v.activityId == a.activityId && v.kind == a.kind && v.timestamp == a.timestamp
  {
    ActivityView(a.activityId, a.kind, a.fileName, a.fileSize, a.fileCategory, a.description, a.status, a.timestamp)
  }

  /** The feed query: `type` as a string (`""` when absent), `page` and
      `limit` as the result of `parseInt` (`None` for `NaN`). */
  datatype FeedQuery = FeedQuery(kind: string, page: Option<int>, limit: Option<int>)

  /** `type ? { type } : {}`: an empty `type` selects everything; any other
      value selects the activities whose kind is named exactly so, and a
      value that names no kind selects nothing. */
  predicate Selects(kind: string, a: Activity)
  {
    kind != "" ==> TypeName(a.kind) == kind
  }

  /** `sort({ timestamp: -1 })` as "may come before". */
  function NewestFirst(): (le: (Activity, Activity) -> bool)
    ensures forall a, b :: le(a, b) <==> b.timestamp <= a.timestamp
  {
    (a: Activity, b: Activity) => b.timestamp <= a.timestamp
  }

  lemma NewestFirstIsPreorder()
    ensures TotalPreorder(NewestFirst())
  {
  }

  /** `Selects` as a filter callback. */
  function Selector(kind: string): Activity -> bool
  {
    (a: Activity) => Selects(kind, a)
  }

  /** The selected activities, each as often as it is logged, newest first. */
  function FeedMatches(log: seq<Activity>, kind: string): (r: seq<Activity>)
    ensures forall a :: multiset(r)[a] == if Selects(kind, a) then multiset(log)[a] else 0
    ensures forall a :: a in r <==> a in log && Selects(kind, a)
    ensures |r| == |FilterBy(log, Selector(kind))| <= |log|
    ensures SortedBy(r, NewestFirst())
  {
    var selected := FilterBy(log, Selector(kind));
    NewestFirstIsPreorder();
    SortByMembers(selected, NewestFirst());
    FilterMultiplicity(log, Selector(kind));
    SortBy(selected, NewestFirst())
  }

  /** An empty `type` selects every activity. */
  lemma {:induction false} SelectAllCount(log: seq<Activity>)
    ensures |FilterBy(log, Selector(""))| == |log|
  {
    if |log| > 0 {
      SelectAllCount(log[..|log| - 1]);
      FilterLast(log, Selector(""));
    }
  }

  /** The name of a kind selects as many activities as the kind counts. */
  lemma {:induction false} SelectKindCount(log: seq<Activity>, t: ActivityType)
    ensures |FilterBy(log, Selector(TypeName(t)))| == CountKind(log, t)
  {
    if |log| > 0 {
      SelectKindCount(log[..|log| - 1], t);
      FilterLast(log, Selector(TypeName(t)));
      TypeNameInjective(log[|log| - 1].kind, t);
    }
  }

  /** A value that names no kind selects nothing. */
  lemma {:induction false} SelectNoneCount(log: seq<Activity>, kind: string)
    requires kind != "" && forall t :: TypeName(t) != kind
    ensures |FilterBy(log, Selector(kind))| == 0
  {
    if |log| > 0 {
      SelectNoneCount(log[..|log| - 1], kind);
      FilterLast(log, Selector(kind));
    }
  }

  /** `getActivities`: page `page` (default 1) of `limit` (default 10)
      activities. Without a connection, or when the query fails, the page is
      empty and the pagination reports no matches. */
  function GetActivities(dbUp: bool, queryFails: bool, log: seq<Activity>, q: FeedQuery): (r: Listing<ActivityView>)
  {
    var page := ClampParam(q.page, 1);
    var limit := ClampParam(q.limit, 10);
    if !dbUp || queryFails then Page([], page, limit)
    else
      var shown := Page(FeedMatches(log, q.kind), page, limit);
      Listing(seq(|shown.data|, i requires 0 <= i < |shown.data| => ViewOf(shown.data[i])), shown.pagination)
  }

  /** The feed reports every selected activity in `total`, shows at most
      `limit` of them newest first, and shows nothing when the store cannot
      answer. */
  lemma GetActivitiesSound(dbUp: bool, queryFails: bool, log: seq<Activity>, q: FeedQuery)
    ensures var r := GetActivities(dbUp, queryFails, log, q);
      && r.pagination.page == ClampParam(q.page, 1) && r.pagination.limit == ClampParam(q.limit, 10)
      && (!dbUp || queryFails ==> r.data == [] && r.pagination.total == 0 && r.pagination.pages == 0)
      && (dbUp && !queryFails ==> r.pagination.total == |FeedMatches(log, q.kind)|)
      && |r.data| <= ClampParam(q.limit, 10)
      && (forall i :: 0 <= i < |r.data| ==>
            exists a :: a in log && Selects(q.kind, a) && r.data[i] == ViewOf(a))
      && (forall i, j :: 0 <= i < j < |r.data| ==> r.data[j].timestamp <= r.data[i].timestamp)
  {
    var page := ClampParam(q.page, 1);
    var limit := ClampParam(q.limit, 10);
    var r := GetActivities(dbUp, queryFails, log, q);
    if dbUp && !queryFails {
      var m := FeedMatches(log, q.kind);
      var shown := Page(m, page, limit);

      PageMembers(m, page, limit);
      PageSorted(m, page, limit, NewestFirst());
      forall i | 0 <= i < |r.data|
        ensures exists a :: a in log && Selects(q.kind, a) && r.data[i] == ViewOf(a)
      {
        assert shown.data[i] in shown.data;
        assert r.data[i] == ViewOf(shown.data[i]);
      }
      forall i, j | 0 <= i < j < |r.data|
        ensures r.data[j].timestamp <= r.data[i].timestamp
      {
        assert NewestFirst()(shown.data[i], shown.data[j]);
      }
    }
  }

  /** How many activities the feed selects, which is the `total` it reports
      when the store answers (`GetActivitiesSound`): the whole log for no
      `type`, the kind's count for a kind's name, and nothing for any other
      name. */
  lemma FeedTotal(log: seq<Activity>, q: FeedQuery)
    ensures var total := |FeedMatches(log, q.kind)|;
      && (q.kind == "" ==> total == |log|)
      && (forall t :: q.kind == TypeName(t) ==> total == CountKind(log, t))
      && (q.kind != "" && (forall t :: TypeName(t) != q.kind) ==> total == 0)
  {
    if q.kind == "" {
      SelectAllCount(log);
    }
    forall t | q.kind == TypeName(t)
      ensures |FeedMatches(log, q.kind)| == CountKind(log, t)
    {
      SelectKindCount(log, t);
    }
    if q.kind != "" && forall t :: TypeName(t) != q.kind {
      SelectNoneCount(log, q.kind);
    }
  }

  /** `clearActivities`: `deleteMany({})` empties the log; a store that cannot
      answer fails the request and keeps the log. */
  function ClearActivities(dbUp: bool, log: seq<Activity>): (r: Result<seq<Activity>, nat>)
    ensures dbUp ==> r == Ok([])
    ensures !dbUp ==> r == Err(500)
  {
    if dbUp then Ok([]) else Err(500)
  }

  /** The number of activities of one kind. */
  function CountKind(log: seq<Activity>, t: ActivityType): (n: nat)
    ensures n <= |log|
    ensures n == 0 <==> forall i :: 0 <= i < |log| ==> log[i].kind != t
  {
    if |log| == 0 then 0
    else
      var rest := CountKind(log[..|log| - 1], t);
      assert forall i :: 0 <= i < |log| - 1 ==> log[..|log| - 1][i] == log[i];
      rest + (if log[|log| - 1].kind == t then 1 else 0)
  }

  /** After a clear the feed is empty and no kind has a count. */
  lemma ClearEmptiesFeedAndStats(log: seq<Activity>, q: FeedQuery)
    ensures var cleared := ClearActivities(true, log).value;
      && GetActivities(true, false, cleared, q).pagination.total == 0
      && GetActivities(true, false, cleared, q).data == []
      && GetActivityStats(true, cleared).value == map[]
  {
    GetActivitiesSound(true, false, [], q);
  }

  /** Every activity has exactly one of the five kinds. */
  lemma {:induction false} KindCountsSum(log: seq<Activity>)
    ensures CountKind(log, Upload) + CountKind(log, Delete) + CountKind(log, Update)
            + CountKind(log, View) + CountKind(log, Download) == |log|
  {
    if |log| > 0 {
      KindCountsSum(log[..|log| - 1]);
    }
  }

  lemma EveryKindListed()
    ensures forall t: ActivityType :: t in ActivityTypes
  {
    forall t: ActivityType
      ensures t in ActivityTypes
    {
      match t
      case Upload => assert ActivityTypes[0] == t;
      case Delete => assert ActivityTypes[1] == t;
      case Update => assert ActivityTypes[2] == t;
      case View => assert ActivityTypes[3] == t;
      case Download => assert ActivityTypes[4] == t;
    }
  }

  /** `getActivityStats`: `$group` by `type` with `$sum: 1`, folded into an
      object; a kind that never occurs has no key. A store that cannot
      answer fails the request. */
  function GetActivityStats(dbUp: bool, log: seq<Activity>): (r: Result<map<ActivityType, nat>, nat>)
    ensures !dbUp ==> r == Err(500)
    ensures dbUp ==> r.Ok? && forall t :: t in r.value <==> exists i :: 0 <= i < |log| && log[i].kind == t
    ensures dbUp ==> forall t :: t in r.value ==> 0 < r.value[t] == CountKind(log, t)
  {
    if !dbUp then Err(500)
    else
      EveryKindListed();
      Ok(map t | t in ActivityTypes && CountKind(log, t) > 0 :: CountKind(log, t))
  }

  /** The counts of the stats cover the whole log. */
  lemma StatsCoverLog(log: seq<Activity>)
    ensures var stats := GetActivityStats(true, log).value;
      (if Upload in stats then stats[Upload] else 0) + (if Delete in stats then stats[Delete] else 0)
      + (if Update in stats then stats[Update] else 0) + (if View in stats then stats[View] else 0)
      + (if Download in stats then stats[Download] else 0) == |log|
  {
    KindCountsSum(log);
  }
}
