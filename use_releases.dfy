/**
 * The `useReleases` hook: the release list loaded from `releases.json` (newest first, as
 * the release script writes it) and the queries the release-notes page makes of it.
 *
 * The fetch itself is outside the model; what it came back with is a parameter.
 */
module Releases {
  import opened Wrappers
  import opened ReleaseScript

  // ---------------------------------------------------------------- queries

  /** `getLatestRelease`: the first entry, or `null` for an empty list. */
  function LatestRelease(rs: seq<Release>): (r: Option<Release>)
    ensures r.None? <==> rs == []
    ensures r.Some? ==> r.value == rs[0]
  {
    if rs == [] then None else Some(rs[0])
  }

  /** The index of the first release with the given version, or `|rs|` when there is none. */
  function FindVersion(rs: seq<Release>, version: string): (i: nat)
    ensures i <= |rs|
    ensures i < |rs| ==> rs[i].version == version
    ensures forall j :: 0 <= j < i ==> rs[j].version != version
  {
    if rs == [] then 0
    else if rs[0].version == version then 0
    else 1 + FindVersion(rs[1..], version)
  }

  /** `getReleaseByVersion`: the first release with that version, or `null` when none has it. */
  function ReleaseByVersion(rs: seq<Release>, version: string): (r: Option<Release>)
    ensures r.None? <==> forall j :: 0 <= j < |rs| ==> rs[j].version != version
    ensures r.Some? ==> r.value.version == version
    ensures r.Some? ==> exists i :: 0 <= i < |rs| && rs[i] == r.value
                                    && forall j :: 0 <= j < i ==> rs[j].version != version
  {
    var i := FindVersion(rs, version);
    if i < |rs| then Some(rs[i]) else None
  }

  /** `getReleasesCount`. */
  function ReleasesCount(rs: seq<Release>): nat {
    |rs|
  }

  /** `release.summary?.total || 0`: a missing summary or a missing total counts nothing. */
  function ReleaseChanges(r: Release): nat {
    if r.summary.Some? && "total" in r.summary.value then r.summary.value["total"] else 0
  }

  /**
   * `getTotalChanges`: the `reduce` that adds up the totals, starting from 0. No release
   * counts more than the whole, and the whole is 0 exactly when every release counts 0.
   */
  function TotalChanges(rs: seq<Release>): (t: nat)
    ensures forall i :: 0 <= i < |rs| ==> ReleaseChanges(rs[i]) <= t
    ensures t == 0 <==> forall i :: 0 <= i < |rs| ==> ReleaseChanges(rs[i]) == 0
  {
    if rs == [] then 0
    else
      assert forall i :: 0 < i < |rs| ==> rs[i] == rs[1..][i - 1];
      ReleaseChanges(rs[0]) + TotalChanges(rs[1..])
  }

  // ---------------------------------------------------------------- properties

  /** A single release's total is its own count; with TotalChangesAppend, the total is the sum of the counts. */
  lemma TotalChangesOne(r: Release)
    ensures TotalChanges([r]) == ReleaseChanges(r)
  {
    assert [r][1..] == [];
  }

  /** The total of two lists one after the other is the sum of their totals. */
  lemma {:induction false} TotalChangesAppend(a: seq<Release>, b: seq<Release>)
    ensures TotalChanges(a + b) == TotalChanges(a) + TotalChanges(b)
  {
    if a != [] {
      assert (a + b)[0] == a[0];
      assert (a + b)[1..] == a[1..] + b;
      TotalChangesAppend(a[1..], b);
    } else {
      assert a + b == b;
    }
  }

  /** Dropping the oldest releases can only lower the total. */
  lemma {:induction false} TotalChangesPrefix(a: seq<Release>, b: seq<Release>)
    requires a <= b
    ensures TotalChanges(a) <= TotalChanges(b)
  {
    assert b == a + b[|a|..];
    TotalChangesAppend(a, b[|a|..]);
  }

  /** After the release script has run, the newest release is the one it made. */
  lemma LatestAfterUpdate(rs: seq<Release>, r: Release)
    ensures LatestRelease(UpdateReleases(rs, r)) == Some(r)
  {
  }

  /** After the release script has run, looking up its version finds the release it made. */
  lemma FoundAfterUpdate(rs: seq<Release>, r: Release)
    ensures ReleaseByVersion(UpdateReleases(rs, r), r.version) == Some(r)
  {
    var us := UpdateReleases(rs, r);
    assert FindVersion(us, r.version) == 0;
  }

  /** The count grows by one until the list is full at fifty. */
  lemma CountAfterUpdate(rs: seq<Release>, r: Release)
    ensures ReleasesCount(UpdateReleases(rs, r)) == if |rs| < MaxReleases then |rs| + 1 else MaxReleases
  {
  }

  /**
   * The new release adds its commit count to the total; once fifty releases are kept,
   * the dropped oldest one no longer counts, so the total grows by at most that much.
   */
  lemma TotalAfterUpdate(rs: seq<Release>, r: Release)
    ensures |rs| < MaxReleases ==> TotalChanges(UpdateReleases(rs, r)) == ReleaseChanges(r) + TotalChanges(rs)
    ensures TotalChanges(UpdateReleases(rs, r)) <= ReleaseChanges(r) + TotalChanges(rs)
  {
    var us := UpdateReleases(rs, r);
    assert TotalChanges(us) == ReleaseChanges(r) + TotalChanges(us[1..]);
    TotalChangesPrefix(us[1..], rs);
  }

  /** A release built by the script counts every categorised commit. */
  lemma NewReleaseChanges(version: string, now: string, notes: string, cats: Categories)
    ensures ReleaseChanges(NewRelease(version, now, notes, cats)) == |cats.Flat()|
  {
  }

  // ---------------------------------------------------------------- loading

  /** What the fetch of `/releases.json` came back with. */
  datatype FetchResult =
    | Rejected(message: string)              // the request itself failed
    | NotOk                                  // a response whose status is not ok
    | BadJson(message: string)               // the body is not JSON
    | Payload(data: Option<seq<Release>>)    // the parsed body; `None` for `null`

  /** The message `setError` receives for a failed fetch. */
  function FailureMessage(result: FetchResult): string
    requires !result.Payload?
  {
    match result
    case Rejected(m) => m
    case NotOk => "Failed to fetch releases"
    case BadJson(m) => m
  }

  /** The state of the hook. */
  class ReleasesHook {
    var releases: seq<Release>
    var loading: bool
    var error: Option<string>

    /** The initial state: no releases, loading, no error. */
    constructor ()
      ensures releases == [] && loading && error == None
    {
      releases := [];
      loading := true;
      error := None;
    }

    /**
     * The end of `fetchReleases`: a parsed list is kept (`null` gives the empty list),
     * any failure records its message and empties the list, and loading stops either way.
     */
    method FetchCompleted(result: FetchResult)
      modifies this
      ensures !loading
      ensures result.Payload? ==> releases == result.data.GetOr([]) && error == old(error)
      ensures !result.Payload? ==> releases == [] && error == Some(FailureMessage(result))
    {
      match result {
        case Payload(data) =>
          releases := data.GetOr([]);
        case _ =>
          error := Some(FailureMessage(result));
          releases := [];
      }
      loading := false;
    }
  }
}
