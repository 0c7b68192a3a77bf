/** The export metadata catalogue of the service (api/services/logic.py):
    the role-gated listing of export descriptors and the refresh bookkeeping
    that runs a backend query and stamps the matching descriptor. */
module Metadata {
  import opened Wrappers
  import opened Errors

  /** A formatted "%Y-%m-%d %H:%M:%S" timestamp; the caller reads the clock
      and formats it. */
  type Stamp = string

  /** One entry of the metadata record: `{fileName, role, updatedAt}`.
      `updatedAt` is None while the entry has never been stamped. */
  datatype FileDetail = FileDetail(fileName: string, role: string, updatedAt: Option<Stamp>)

  // ---------------------------------------------------------------------
  // Substring containment (Python's `needle in hay` on strings)
  // ---------------------------------------------------------------------

  /** `needle` occurs in `hay` starting at position `i`. */
  ghost predicate OccursAt(needle: string, hay: string, i: int) {
    0 <= i && i + |needle| <= |hay| && hay[i..i + |needle|] == needle
  }

  /** Substring test: `needle` is a prefix of `hay` or occurs in its tail.
      `ContainsIff` ties it to "occurs at some position". */
  function Contains(needle: string, hay: string): (r: bool)
    ensures needle == [] ==> r
    ensures r ==> |needle| <= |hay|
    decreases |hay|
  {
    (|needle| <= |hay| && hay[..|needle|] == needle)
    || (|hay| > 0 && Contains(needle, hay[1..]))
  }

  /** The recursive test agrees with "occurs at some position", in both
      directions; in particular the empty string occurs in every string. */
  lemma {:induction false} ContainsIff(needle: string, hay: string)
    ensures Contains(needle, hay) <==> exists i :: OccursAt(needle, hay, i)
    decreases |hay|
  {
    if |hay| > 0 {
      ContainsIff(needle, hay[1..]);
    }
    if Contains(needle, hay) {
      if |needle| <= |hay| && hay[..|needle|] == needle {
        assert OccursAt(needle, hay, 0);
      } else {
        var i :| OccursAt(needle, hay[1..], i);
        assert hay[1..][i..i + |needle|] == hay[i + 1..i + 1 + |needle|];
        assert OccursAt(needle, hay, i + 1);
      }
    }
    if exists i :: OccursAt(needle, hay, i) {
      var i :| OccursAt(needle, hay, i);
      if i > 0 {
        assert hay[1..][i - 1..i - 1 + |needle|] == hay[i..i + |needle|];
        assert OccursAt(needle, hay[1..], i - 1);
      } else {
        assert hay[..|needle|] == hay[0..|needle|];
      }
    }
  }

  // ---------------------------------------------------------------------
  // Role-gated listing (get_filenames_details)
  // ---------------------------------------------------------------------

  /** `a` can be obtained from `b` by deleting entries, keeping the order. */
  ghost predicate IsSubsequence<T>(a: seq<T>, b: seq<T>)
    decreases |b|
  {
    if a == [] then true
    else if b == [] then false
    else (a[0] == b[0] && IsSubsequence(a[1..], b[1..])) || IsSubsequence(a, b[1..])
  }

  /** The comprehension `[file for file in details if file["role"] == role]`:
      the entries of `role`, every one of them and nothing else, in their
      original order. */
  function OnlyRole(details: seq<FileDetail>, role: string): (r: seq<FileDetail>)
    ensures IsSubsequence(r, details)
    ensures forall x :: multiset(r)[x] == if x.role == role then multiset(details)[x] else 0
    ensures forall x :: x in r <==> x in details && x.role == role
  {
    if details == [] then []
    else
      assert details == [details[0]] + details[1..];
      if details[0].role == role then [details[0]] + OnlyRole(details[1..], role)
      else OnlyRole(details[1..], role)
  }

  /** The listing for a caller of role `role`, given the metadata record
      (None when the record file does not exist). */
  function FilenamesDetails(record: Option<seq<FileDetail>>, role: string): (r: Result<seq<FileDetail>, Failure>)
    ensures record.None? ==> r == Err(Http(404, "File not found, check the json path"))
    ensures record.Some? && role == "admin" ==> r == Ok(record.value)
    ensures record.Some? && (role == "A" || role == "B") ==>
      r.Ok? && IsSubsequence(r.value, record.value)
      && forall x :: multiset(r.value)[x] == if x.role == role then multiset(record.value)[x] else 0
    ensures record.Some? && role != "admin" && role != "A" && role != "B" ==>
      r == Err(Http(401, "Unauthorized user"))
  {
    if record.None? then Err(Http(404, "File not found, check the json path"))
    else if role == "admin" then Ok(record.value)
    else if role == "A" then Ok(OnlyRole(record.value, "A"))
    else if role == "B" then Ok(OnlyRole(record.value, "B"))
    else Err(Http(401, "Unauthorized user"))
  }

  // ---------------------------------------------------------------------
  // Refresh bookkeeping (update_file)
  // ---------------------------------------------------------------------

  /** Entry `i` is the first whose file name contains `filename`. */
  ghost predicate IsFirstMatch(details: seq<FileDetail>, filename: string, i: int) {
    0 <= i < |details| && Contains(filename, details[i].fileName)
    && forall j :: 0 <= j < i ==> !Contains(filename, details[j].fileName)
  }

  /** The record after the refresh bookkeeping: the first entry whose file
      name contains `filename` gets `updatedAt := now`. */
  function Stamped(details: seq<FileDetail>, filename: string, now: Stamp): (r: seq<FileDetail>)
    ensures |r| == |details|
    ensures forall i :: 0 <= i < |details| ==>
      r[i].fileName == details[i].fileName && r[i].role == details[i].role
    ensures forall i :: 0 <= i < |details| ==>
      r[i].updatedAt == if IsFirstMatch(details, filename, i) then Some(now) else details[i].updatedAt
    ensures (forall i :: 0 <= i < |details| ==> !Contains(filename, details[i].fileName)) ==> r == details
  {
    if details == [] then []
    else if Contains(filename, details[0].fileName) then
      [details[0].(updatedAt := Some(now))] + details[1..]
    else
      var rest := Stamped(details[1..], filename, now);
      assert forall i :: 1 <= i < |details| ==>
        (IsFirstMatch(details, filename, i) <==> IsFirstMatch(details[1..], filename, i - 1));
      [details[0]] + rest
  }

  /** With a first match at `k`, the record changes at `k` only, and only its
      `updatedAt`. */
  lemma StampedAt(details: seq<FileDetail>, filename: string, now: Stamp, k: int)
    requires IsFirstMatch(details, filename, k)
    ensures Stamped(details, filename, now) == details[k := details[k].(updatedAt := Some(now))]
  {
  }

  /** At most one entry differs between the record and its stamped form. */
  lemma StampedChangesAtMostOne(details: seq<FileDetail>, filename: string, now: Stamp, i: int, j: int)
    requires 0 <= i < |details| && 0 <= j < |details|
    ensures Stamped(details, filename, now)[i] != details[i] && Stamped(details, filename, now)[j] != details[j]
            ==> i == j
  {
  }

  /** Stamping twice with the same time is the same as stamping once: the
      file names do not change, so the first match stays the same entry. */
  lemma StampedIdempotent(details: seq<FileDetail>, filename: string, now: Stamp)
    ensures Stamped(Stamped(details, filename, now), filename, now) == Stamped(details, filename, now)
  {
  }

  /** The two database backends `update_file` can dispatch to. */
  datatype Backend = MySql | Postgres

  /** What the backend's `execute_query_path` did: completed, or raised an
      exception with the given message. */
  datatype StepResult = Succeeded | Raised(error: string)

  /** Observable steps of the refresh bookkeeping, in the order they run. */
  datatype Event = BackendRan(backend: Backend, filename: string) | RecordRead | RecordWritten

  datatype Outcome = Done | Failed(failure: Failure)

  /** The backend tag `update_file` dispatches on: "MY" or "PG"; any other
      tag runs no query. */
  function BackendFor(database: string): (b: Option<Backend>)
    ensures b == Some(MySql) <==> database == "MY"
    ensures b == Some(Postgres) <==> database == "PG"
    ensures b == None <==> database != "MY" && database != "PG"
  {
    if database == "MY" then Some(MySql)
    else if database == "PG" then Some(Postgres)
    else None
  }

  /** The backend events a call with tag `database` logs. */
  ghost function Ran(database: string, filename: string): seq<Event> {
    if BackendFor(database).Some? then [BackendRan(BackendFor(database).value, filename)] else []
  }

  /** The service object holding the metadata record file
      (`data/file_metadata.json`); `record` is None while that file does
      not exist. */
  class ApiLogic {
    var record: Option<seq<FileDetail>>
    ghost var log: seq<Event>

    constructor (initial: Option<seq<FileDetail>>)
      ensures record == initial && log == []
    {
      record := initial;
      log := [];
    }

    /** A backend's `execute_query_path(filename)`: runs the export's query and
        saves its result; the outcome comes from outside the model. */
    method ExecuteQueryPath(backend: Backend, filename: string, step: StepResult) returns (raised: Option<string>)
      modifies this`log
      ensures log == old(log) + [BackendRan(backend, filename)]
      ensures raised == if step.Raised? then Some(step.error) else None
    {
      log := log + [BackendRan(backend, filename)];
      raised := if step.Raised? then Some(step.error) else None;
    }

    /** Run the export's query on the backend named by `database`, then stamp
        the first descriptor whose file name contains `filename` with `now`
        and write the whole record back. */
    method UpdateFile(database: string, filename: string, now: Stamp, step: StepResult) returns (r: Outcome)
      modifies this
      ensures BackendFor(database).Some? && step.Raised? ==>
        r == Failed(BackendRaised(step.error)) && record == old(record)
        && log == old(log) + Ran(database, filename)
      ensures !(BackendFor(database).Some? && step.Raised?) && old(record).None? ==>
        r == Failed(FileNotFound) && record == old(record)
        && log == old(log) + Ran(database, filename)
      ensures !(BackendFor(database).Some? && step.Raised?) && old(record).Some? ==>
        r == Done && record == Some(Stamped(old(record).value, filename, now))
        && log == old(log) + Ran(database, filename) + [RecordRead, RecordWritten]
    {
      var raised: Option<string> := None;
      if database == "MY" {
        raised := ExecuteQueryPath(MySql, filename, step);
      } else if database == "PG" {
        raised := ExecuteQueryPath(Postgres, filename, step);
      }
      if raised.Some? {
        return Failed(BackendRaised(raised.value));
      }

      if record.None? {
        return Failed(FileNotFound);
      }
      var details := record.value;
      log := log + [RecordRead];

      ghost var loaded := details;
      var i := 0;
      while i < |details|
        invariant 0 <= i <= |details| && details == loaded
        invariant forall j :: 0 <= j < i ==> !Contains(filename, loaded[j].fileName)
      {
        if Contains(filename, details[i].fileName) {
          details := details[i := details[i].(updatedAt := Some(now))];
          StampedAt(loaded, filename, now, i);
          break;
        }
        i := i + 1;
      }

      record := Some(details);
      log := log + [RecordWritten];
      r := Done;
    }

    /** `update_mysql`: run the export's MySQL query, turning any exception
        into an HTTP 500 error that carries the exception's message. */
    method UpdateMysql(filename: string, step: StepResult) returns (r: Outcome)
      modifies this`log
      ensures log == old(log) + [BackendRan(MySql, filename)]
      ensures r == if step.Raised? then Failed(Http(500, "Error executing query: " + step.error)) else Done
    {
      var raised := ExecuteQueryPath(MySql, filename, step);
      if raised.Some? {
        r := Failed(Http(500, "Error executing query: " + raised.value));
      } else {
        r := Done;
      }
    }
  }
}
