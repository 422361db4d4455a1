/**
 * Crawled data awaiting review: each `CrawledData` row keeps the imported data and the
 * pending data of the latest crawl; a row "has a change" while the two differ.
 */
module CrawledData {
  import opened Wrappers
  import opened Strs
  import opened Values
  import opened Seqs
  import opened Sorting

  /** The three `data_type` choices. */
  const Medians := "medians"
  const OrcDepartmentCourses := "orc_department_courses"
  const CourseTimetable := "course_timetable"

  /**
   * One `CrawledData` row. `resource` is unique; JSON `null` (and a missing
   * `current_data`) is `Null`; the `created_at`/`updated_at` times are integers.
   */
  datatype CrawledRecord = CrawledRecord(
    pk: nat, resource: string, dataType: string,
    currentData: Value, pendingData: Value,
    createdAt: int, updatedAt: int)

  /** `has_change`: the pending data differs from the imported data. */
  predicate HasChange(d: CrawledRecord)
  {
    d.pendingData != d.currentData
  }

  predicate Unchanged(d: CrawledRecord)
  {
    !HasChange(d)
  }

  function UpdatedAt(d: CrawledRecord): int
  {
    d.updatedAt
  }

  /**
   * `CrawledDataManager.sorted`: the rows by descending `updated_at` (ties in table
   * order), then the changed rows of that list followed by the unchanged ones.
   */
  function ReviewOrder(records: seq<CrawledRecord>): seq<CrawledRecord>
  {
    var qs := SortDesc(records, UpdatedAt);
    Filter(qs, HasChange) + Filter(qs, Unchanged)
  }

  /**
   * The review list holds every row exactly once, every changed row comes before every
   * unchanged one, and within each of the two groups rows go by descending `updated_at`.
   */
  lemma ReviewOrderSpec(records: seq<CrawledRecord>)
    ensures var r := ReviewOrder(records);
      multiset(r) == multiset(records)
      && (forall i, j :: 0 <= i < j < |r| && HasChange(r[j]) ==> HasChange(r[i]))
      && (forall i, j :: 0 <= i < j < |r| && HasChange(r[i]) == HasChange(r[j]) ==> r[i].updatedAt >= r[j].updatedAt)
  {
    var qs := SortDesc(records, UpdatedAt);
    FilterMultiset(qs, HasChange, Unchanged);
    SortDescSorted(records, UpdatedAt);
    FilterSortedDesc(qs, HasChange, UpdatedAt);
    FilterSortedDesc(qs, Unchanged, UpdatedAt);
    GroupsInOrder(Filter(qs, HasChange), Filter(qs, Unchanged));
  }

  /** Changed rows, each group sorted, then unchanged rows: the concatenation keeps both orders. */
  lemma GroupsInOrder(a: seq<CrawledRecord>, b: seq<CrawledRecord>)
    requires forall x :: x in a ==> HasChange(x)
    requires forall x :: x in b ==> !HasChange(x)
    requires SortedDesc(a, UpdatedAt) && SortedDesc(b, UpdatedAt)
    ensures var r := a + b;
      (forall i, j :: 0 <= i < j < |r| && HasChange(r[j]) ==> HasChange(r[i]))
      && (forall i, j :: 0 <= i < j < |r| && HasChange(r[i]) == HasChange(r[j]) ==> r[i].updatedAt >= r[j].updatedAt)
  {
    var r := a + b;
    assert forall k :: 0 <= k < |a| ==> r[k] == a[k] && HasChange(r[k]);
    assert forall k :: |a| <= k < |r| ==> r[k] == b[k - |a|] && !HasChange(r[k]);
  }

  /** What the `diff` property produces, with `pretty_json` and `unified_diff` left symbolic. */
  datatype DiffText = PrettyJson(data: Value) | UnifiedDiff(before: Value, after: Value)

  /**
   * `diff` as written: the pending data alone when there is no current data, else the
   * unified diff. Its `has_change` test names the method without calling it, and a
   * bound method is always true, so the "no change gives None" branch never happens.
   */
  function Diff(d: CrawledRecord): DiffText
  {
    if !Truthy(d.currentData) then PrettyJson(d.pendingData)
    else UnifiedDiff(d.currentData, d.pendingData)
  }

  /** An unchanged row with data still gets a (vacuous) unified diff of its data with itself. */
  lemma DiffOfUnchanged(d: CrawledRecord)
    requires Truthy(d.currentData) && !HasChange(d)
    ensures Diff(d) == UnifiedDiff(d.currentData, d.currentData)
  {
  }

  /** The notification mail `email_change` sends to every admin address. */
  datatype Email = Email(subject: string, body: DiffText, recipients: seq<string>)

  /** `assert self.has_change()` in `email_change` failed. */
  datatype HandleError = AssertionFailed

  /** The mail's subject line: data type, resource and primary key in brackets. */
  function Subject(d: CrawledRecord): string
  {
    "[" + d.dataType + "][" + d.resource + "][" + IntToString(d.pk) + "] New Import"
  }

  function AdminEmails(admins: seq<(string, string)>): (r: seq<string>)
    ensures |r| == |admins| && forall k :: 0 <= k < |admins| ==> r[k] == admins[k].1
  {
    seq(|admins|, k requires 0 <= k < |admins| => admins[k].1)
  }

  /** `email_change`: refused unless the row has a change; otherwise its diff goes to every admin. */
  function EmailChange(d: CrawledRecord, admins: seq<(string, string)>): (r: Result<Email, HandleError>)
    ensures r.Ok? <==> HasChange(d)
    ensures r.Ok? ==> r.value.body == Diff(d) && r.value.recipients == AdminEmails(admins)
  {
    if !HasChange(d) then Err(AssertionFailed)
    else Ok(Email(Subject(d), Diff(d), AdminEmails(admins)))
  }

  /** Side effects of handling a crawl: a mail sent, or `import_pending_crawled_data` queued for a row. */
  datatype Effect = Emailed(email: Email) | ImportQueued(pk: nat)

  /** The insert violated `resource`'s uniqueness: another data type already owns the resource. */
  datatype UpsertError = IntegrityError

  /** The index of the row for `resource`, if there is one. */
  function FindResource(records: seq<CrawledRecord>, resource: string): (i: Option<nat>)
    ensures i.Some? ==> i.value < |records| && records[i.value].resource == resource
    ensures i.None? ==> forall k :: 0 <= k < |records| ==> records[k].resource != resource
    decreases |records|
  {
    if |records| == 0 then None
    else if records[0].resource == resource then Some(0)
    else match FindResource(records[1..], resource)
      case None => None
      case Some(j) => Some(j + 1)
  }

  /** The `unique=True` constraint on `resource`. */
  ghost predicate UniqueResources(records: seq<CrawledRecord>)
  {
    forall i, j :: 0 <= i < j < |records| ==> records[i].resource != records[j].resource
  }

  /** The table after an upsert, the row it touched and whether it was inserted. */
  datatype Upserted = Upserted(records: seq<CrawledRecord>, index: nat, created: bool)

  /**
   * `update_or_create(resource=..., data_type=..., defaults={"pending_data": new})` at
   * time `now`: the row with that resource and data type gets the new pending data,
   * or a new row with no current data is inserted under primary key `nextPk`.
   */
  function UpdateOrCreate(records: seq<CrawledRecord>, nextPk: nat, resource: string, dataType: string, newData: Value, now: int): Result<Upserted, UpsertError>
  {
    match FindResource(records, resource)
    case None => Ok(Upserted(records + [CrawledRecord(nextPk, resource, dataType, Null, newData, now, now)], |records|, true))
    case Some(i) =>
      if records[i].dataType != dataType then Err(IntegrityError)
      else Ok(Upserted(records[i := records[i].(pendingData := newData, updatedAt := now)], i, false))
  }

  /**
   * The upsert fails exactly when another data type owns the resource. Otherwise the
   * touched row has the resource, the data type, the new pending data and `now` as its
   * update time; a new row has no current data, an existing one keeps its current data;
   * every other row is unchanged and resources stay unique.
   */
  lemma UpdateOrCreateSpec(records: seq<CrawledRecord>, nextPk: nat, resource: string, dataType: string, newData: Value, now: int)
    requires UniqueResources(records)
    ensures var r := UpdateOrCreate(records, nextPk, resource, dataType, newData, now);
      (r.Err? <==> exists k :: 0 <= k < |records| && records[k].resource == resource && records[k].dataType != dataType)
      && (r.Ok? ==>
        var u := r.value;
        UniqueResources(u.records)
        && u.index < |u.records|
        && (u.created <==> forall k :: 0 <= k < |records| ==> records[k].resource != resource)
        && |u.records| == |records| + Indicator(u.created)
        && u.records[u.index].resource == resource && u.records[u.index].dataType == dataType
        && u.records[u.index].pendingData == newData && u.records[u.index].updatedAt == now
        && u.records[u.index].currentData == (if u.created then Null else records[u.index].currentData)
        && (forall k :: 0 <= k < |records| && k != u.index ==> u.records[k] == records[k]))
  {
    var r := UpdateOrCreate(records, nextPk, resource, dataType, newData, now);
    match FindResource(records, resource)
    case None =>
      var u := r.value;
      assert forall k :: 0 <= k < |records| ==> u.records[k] == records[k];
    case Some(i) =>
      forall k | 0 <= k < |records| && records[k].resource == resource
        ensures k == i
      {
        SameResource(records, k, i);
      }
      if r.Ok? {
        var u := r.value;
        assert forall k :: 0 <= k < |records| ==> u.records[k].resource == records[k].resource;
      }
  }

  /**
   * What follows a successful upsert: a created or changed row is mailed to the
   * admins and, when auto-import is on, queued for import, and the answer is True;
   * anything else answers False. A row created with `null` data has no change, so the
   * mail's assertion fails.
   */
  function AfterUpsert(d: CrawledRecord, created: bool, autoImport: bool, admins: seq<(string, string)>): Result<(bool, seq<Effect>), HandleError>
  {
    if created || HasChange(d) then
      match EmailChange(d, admins)
      case Err(e) => Err(e)
      case Ok(mail) => Ok((true, [Emailed(mail)] + (if autoImport then [ImportQueued(d.pk)] else [])))
    else Ok((false, []))
  }

  /** The outcome of one `handle_new_crawled_data` call: new table, next key, answer and side effects. */
  datatype Handled = Handled(records: seq<CrawledRecord>, nextPk: nat, answer: Result<bool, HandleError>, effects: seq<Effect>)

  /**
   * `handle_new_crawled_data`: a failing upsert answers False and changes nothing;
   * otherwise the upsert is kept whatever follows it.
   */
  function Handle(records: seq<CrawledRecord>, nextPk: nat, newData: Value, resource: string, dataType: string,
                  now: int, autoImport: bool, admins: seq<(string, string)>): Handled
  {
    match UpdateOrCreate(records, nextPk, resource, dataType, newData, now)
    case Err(_) => Handled(records, nextPk, Ok(false), [])
    case Ok(u) =>
      var nextPk' := if u.created then nextPk + 1 else nextPk;
      match AfterUpsert(u.records[u.index], u.created, autoImport, admins)
      case Err(e) => Handled(u.records, nextPk', Err(e), [])
      case Ok((b, effects)) => Handled(u.records, nextPk', Ok(b), effects)
  }

  /** The current data the row for `resource` had before the call, `Null` when there was no row. */
  function PreviousData(records: seq<CrawledRecord>, resource: string): Value
  {
    match FindResource(records, resource)
    case None => Null
    case Some(i) => records[i].currentData
  }

  /** The resource is owned by a row of another data type. */
  predicate Conflicts(records: seq<CrawledRecord>, resource: string, dataType: string)
  {
    exists k :: 0 <= k < |records| && records[k].resource == resource && records[k].dataType != dataType
  }

  /**
   * The answer of `handle_new_crawled_data`: False with nothing changed on a conflicting
   * resource; an AssertionError when a new row is created with `null` data; otherwise
   * True exactly when the new data differs from the data imported so far. The current
   * data is never touched, the row's pending data becomes the new data, and an import
   * is queued exactly when the answer is True and auto-import is on.
   */
  lemma HandleSpec(records: seq<CrawledRecord>, nextPk: nat, newData: Value, resource: string, dataType: string,
                   now: int, autoImport: bool, admins: seq<(string, string)>)
    requires UniqueResources(records)
    ensures var h := Handle(records, nextPk, newData, resource, dataType, now, autoImport, admins);
      var isNew := forall k :: 0 <= k < |records| ==> records[k].resource != resource;
      UniqueResources(h.records)
      && (Conflicts(records, resource, dataType) ==> h.records == records && h.answer == Ok(false) && h.effects == [])
      && (!Conflicts(records, resource, dataType) ==>
        (h.answer.Err? <==> isNew && newData == Null)
        && (h.answer == Ok(true) <==> newData != PreviousData(records, resource))
        && FindResource(h.records, resource).Some?
        && h.records[FindResource(h.records, resource).value].pendingData == newData
        && h.records[FindResource(h.records, resource).value].currentData == PreviousData(records, resource)
        && (ImportQueued(h.records[FindResource(h.records, resource).value].pk) in h.effects <==> autoImport && h.answer == Ok(true)))
  {
    UpdateOrCreateSpec(records, nextPk, resource, dataType, newData, now);
    var r := UpdateOrCreate(records, nextPk, resource, dataType, newData, now);
    if r.Ok? {
      var u := r.value;
      FindUnique(u.records, u.index);
      assert PreviousData(records, resource) == u.records[u.index].currentData by {
        if !u.created {
          FindUnique(records, u.index);
        }
      }
    }
  }

  /** In a table with unique resources, a row's resource finds that row. */
  lemma FindUnique(records: seq<CrawledRecord>, k: int)
    requires UniqueResources(records) && 0 <= k < |records|
    ensures FindResource(records, records[k].resource) == Some(k)
  {
    SameResource(records, k, FindResource(records, records[k].resource).value);
  }

  lemma SameResource(records: seq<CrawledRecord>, k: int, i: int)
    requires UniqueResources(records) && 0 <= k < |records| && 0 <= i < |records|
    requires records[k].resource == records[i].resource
    ensures k == i
  {
  }

  /**
   * Until the pending data is approved, every later crawl bringing the same data gets
   * the same answer: a change keeps being reported (and mailed) crawl after crawl.
   */
  lemma HandleAgain(records: seq<CrawledRecord>, nextPk: nat, newData: Value, resource: string, dataType: string,
                    now: int, later: int, autoImport: bool, admins: seq<(string, string)>)
    requires UniqueResources(records)
    requires Handle(records, nextPk, newData, resource, dataType, now, autoImport, admins).answer.Ok?
    ensures var h := Handle(records, nextPk, newData, resource, dataType, now, autoImport, admins);
      Handle(h.records, h.nextPk, newData, resource, dataType, later, autoImport, admins).answer == h.answer
  {
    var h := Handle(records, nextPk, newData, resource, dataType, now, autoImport, admins);
    HandleSpec(records, nextPk, newData, resource, dataType, now, autoImport, admins);
    HandleSpec(h.records, h.nextPk, newData, resource, dataType, later, autoImport, admins);
    if Conflicts(records, resource, dataType) {
      assert h.records == records;
    } else {
      var i := FindResource(h.records, resource).value;
      assert !Conflicts(h.records, resource, dataType) by {
        UpdateOrCreateSpec(records, nextPk, resource, dataType, newData, now);
        FindUnique(h.records, i);
      }
      assert PreviousData(h.records, resource) == PreviousData(records, resource);
      if newData == PreviousData(records, resource) {
        assert h.answer == Ok(false);
      }
    }
  }

  /** The `CrawledData` table behind `CrawledDataManager`, with the next primary key to hand out. */
  class CrawledTable {
    var records: seq<CrawledRecord>
    var nextPk: nat

    ghost predicate Valid()
      reads this
    {
      UniqueResources(records)
    }

    constructor()
      ensures Valid() && records == [] && nextPk == 1
    {
      records := [];
      nextPk := 1;
    }

    /**
     * `handle_new_crawled_data(new_data, resource_name, data_type)` with the
     * `AUTO_IMPORT_CRAWLED_DATA` setting and the admin list passed in: the upsert, then
     * the mail and the optional import for a created or changed row. Its answer and new
     * table are those of `Handle`, whose properties `HandleSpec` states.
     */
    method HandleNewCrawledData(newData: Value, resource: string, dataType: string, now: int,
                                autoImport: bool, admins: seq<(string, string)>)
      returns (answer: Result<bool, HandleError>, effects: seq<Effect>)
      requires Valid()
      modifies this
      ensures Valid()
      ensures var h := Handle(old(records), old(nextPk), newData, resource, dataType, now, autoImport, admins);
        records == h.records && nextPk == h.nextPk && answer == h.answer && effects == h.effects
    {
      HandleSpec(records, nextPk, newData, resource, dataType, now, autoImport, admins);
      var upserted := UpdateOrCreate(records, nextPk, resource, dataType, newData, now);
      if upserted.Err? {
        return Ok(false), [];
      }
      records := upserted.value.records;
      if upserted.value.created {
        nextPk := nextPk + 1;
      }
      var d := records[upserted.value.index];
      if upserted.value.created || HasChange(d) {
        var mail := EmailChange(d, admins);
        if mail.Err? {
          return Err(mail.error), [];
        }
        effects := [Emailed(mail.value)];
        if autoImport {
          effects := effects + [ImportQueued(d.pk)];
        }
        return Ok(true), effects;
      }
      return Ok(false), [];
    }
  }
}
