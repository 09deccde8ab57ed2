/**
 * The release-notes page: which releases are expanded, how the category of a section is
 * labelled, which commits an expanded release shows under each category, and the
 * contributor lists.
 *
 * The markup, the icons and the date formatting are outside the model.
 */
module ReleaseNotesView {
  import opened Wrappers
  import opened Seqs
  import opened Text
  import opened ReleaseScript

  // ---------------------------------------------------------------- expanded releases

  /** The set `toggleRelease` stores: `version` removed when it was there, added otherwise. */
  function Toggled(expanded: set<string>, version: string): (r: set<string>)
    ensures version in r <==> version !in expanded
    ensures forall v :: v != version ==> (v in r <==> v in expanded)
  {
    if version in expanded then expanded - {version} else expanded + {version}
  }

  /** Clicking the same heading twice restores the page as it was. */
  lemma ToggleTwice(expanded: set<string>, version: string)
    ensures Toggled(Toggled(expanded, version), version) == expanded
  {
  }

  /** Toggles of different releases do not interfere: their order does not matter. */
  lemma TogglesCommute(expanded: set<string>, v: string, w: string)
    ensures Toggled(Toggled(expanded, v), w) == Toggled(Toggled(expanded, w), v)
  {
  }

  /** The `expandedReleases` state of the page; it starts with every release collapsed. */
  class ExpandedReleases {
    var expanded: set<string>

    constructor ()
      ensures expanded == {}
    {
      expanded := {};
    }

    /** `toggleRelease(version)`: a new set with `version` flipped replaces the old one. */
    method Toggle(version: string)
      modifies this
      ensures expanded == Toggled(old(expanded), version)
    {
      var next := expanded;
      if version in next {
        next := next - {version};
      } else {
        next := next + {version};
      }
      expanded := next;
    }
  }

  // ---------------------------------------------------------------- sections

  /** The categories `getCategoryLabel` knows. */
  const Labelled: set<string> := {"features", "fixes", "improvements", "breaking", "chores"}

  /** `getCategoryLabel`: the display name of a known category, the category itself otherwise. */
  function CategoryLabel(category: string): (name: string)
    ensures category == "features" ==> name == "Features"
    ensures category == "fixes" ==> name == "Bug Fixes"
    ensures category == "improvements" ==> name == "Improvements"
    ensures category == "breaking" ==> name == "Breaking Changes"
    ensures category == "chores" ==> name == "Other Changes"
    ensures category !in Labelled ==> name == category
  {
    match category
    case "features" => "Features"
    case "fixes" => "Bug Fixes"
    case "improvements" => "Improvements"
    case "breaking" => "Breaking Changes"
    case "chores" => "Other Changes"
    case _ => category
  }

  /** The property name under which the release summary counts commits of kind `k`. */
  function KindKey(k: Kind): string {
    match k
    case Breaking => "breaking"
    case Feature => "features"
    case Fix => "fixes"
    case Improvement => "improvements"
    case Chore => "chores"
  }

  /**
   * The filter of one section, on the lower-cased subject. Each section tests on its own,
   * so one commit can be listed under several; `"chores"` and any other category take the
   * `default` branch.
   */
  predicate SectionAccepts(category: string, subject: string) {
    var s := ToLower(subject);
    if category == "breaking" then Includes(s, "breaking")
    else if category == "features" then StartsWith(s, "feat") || Includes(s, "feature") || Includes(s, "add ")
    else if category == "fixes" then StartsWith(s, "fix") || Includes(s, "bug") || Includes(s, "resolve")
    else if category == "improvements" then
      StartsWith(s, "improve") || Includes(s, "enhance") || Includes(s, "update")
    else !Includes(s, "version bump") && !Includes(s, "chore: version")
  }

  /** Every commit the release script put in bucket `k` passes the filter of that section. */
  lemma ClassifiedIsAccepted(subject: string, k: Kind)
    requires Classify(subject) == Some(k)
    ensures SectionAccepts(KindKey(k), subject)
  {
  }

  /** The filters overlap: one commit can be listed under both fixes and features. */
  lemma SectionsOverlap()
    ensures SectionAccepts("fixes", "fix: add retry") && SectionAccepts("features", "fix: add retry")
  {
    var s := ToLower("fix: add retry");
    assert s == "fix: add retry";
    assert s[..3] == "fix";
    assert s[5..9] == "add ";
    IncludesAt(s, "add ", 5);
  }

  /** The display order of the sections. */
  const SectionOrder: seq<string> := ["breaking", "features", "fixes", "improvements", "chores"]

  /** At most this many commits are listed under one section. */
  const MaxShown: nat := 10

  /** `summary[category] || 0`. */
  function SummaryCount(summary: map<string, nat>, category: string): nat {
    if category in summary then summary[category] else 0
  }

  /** The categories whose count is not zero. */
  function Counted(summary: map<string, nat>): string -> bool {
    (k: string) => SummaryCount(summary, k) > 0
  }

  /** The commits that pass the filter of `category`. */
  function Accepts(category: string): Commit -> bool {
    (c: Commit) => SectionAccepts(category, c.subject)
  }

  /** One rendered section: its label, shown as `label (count)`, and the commits listed under it. */
  datatype SectionView = SectionView(category: string, heading: string, count: nat, shown: seq<Commit>)

  /**
   * What one section shows: `label (count)` for its category and the first ten commits
   * that pass its filter, `categoryCommits.slice(0, 10)`.
   */
  predicate Renders(v: SectionView, commits: seq<Commit>, summary: map<string, nat>) {
    && v.count == SummaryCount(summary, v.category)
    && v.heading == CategoryLabel(v.category)
    && v.shown == Take(Filter(commits, Accepts(v.category)), MaxShown)
  }

  /** The categories of the rendered sections, in order. */
  function SectionKeys(vs: seq<SectionView>): seq<string> {
    if vs == [] then [] else [vs[0].category] + SectionKeys(vs[1..])
  }

  /**
   * The `map` over the categories followed by `filter(Boolean)`: a section for each
   * category whose summary count is not zero, in the given order, headed by its label and
   * count and listing the first ten commits that pass its filter.
   */
  function SectionsOf(cats: seq<string>, commits: seq<Commit>, summary: map<string, nat>): (r: seq<SectionView>)
    ensures SectionKeys(r) == Filter(cats, Counted(summary))
    ensures forall i :: 0 <= i < |r| ==> Renders(r[i], commits, summary)
  {
    if cats == [] then []
    else
      var k := cats[0];
      var rest := SectionsOf(cats[1..], commits, summary);
      if SummaryCount(summary, k) == 0 then rest
      else
        var v := SectionView(k, CategoryLabel(k), SummaryCount(summary, k), Take(Filter(commits, Accepts(k)), MaxShown));
        assert ([v] + rest)[1..] == rest;
        [v] + rest
  }

  /** `renderCommitsByCategory(commits, summary)`. */
  function CommitSections(commits: seq<Commit>, summary: map<string, nat>): (r: seq<SectionView>)
    ensures SectionKeys(r) == Filter(SectionOrder, Counted(summary))
    ensures forall i :: 0 <= i < |r| ==> Renders(r[i], commits, summary)
  {
    SectionsOf(SectionOrder, commits, summary)
  }

  /**
   * The body of an expanded release: the sections, computed from `release.summary || {}`,
   * when the release has commits, and `None` for "No detailed changes recorded".
   */
  function ReleaseSections(r: Release): (s: Option<seq<SectionView>>)
    ensures s.Some? <==> r.commits.Some? && |r.commits.value| > 0
    ensures s.Some? ==> SectionKeys(s.value) == Filter(SectionOrder, Counted(r.summary.GetOr(map[])))
    ensures s.Some? ==> forall i :: 0 <= i < |s.value| ==> Renders(s.value[i], r.commits.value, r.summary.GetOr(map[]))
  {
    if r.commits.Some? && |r.commits.value| > 0 then
      Some(CommitSections(r.commits.value, r.summary.GetOr(map[])))
    else
      None
  }

  /** An expanded release with commits shows a section for exactly the categories it counts. */
  lemma SectionPresent(r: Release, k: string)
    requires r.commits.Some? && |r.commits.value| > 0
    ensures k in SectionKeys(ReleaseSections(r).value) <==> k in SectionOrder && SummaryCount(r.summary.GetOr(map[]), k) > 0
  {
  }

  /** The counts of the summary the script writes; it has none for chores. */
  lemma ScriptSummaryCounts(version: string, now: string, notes: string, cats: Categories)
    ensures var summary := NewRelease(version, now, notes, cats).summary.value;
            && SummaryCount(summary, "chores") == 0
            && SummaryCount(summary, "breaking") == |cats.breaking|
            && SummaryCount(summary, "features") == |cats.features|
            && SummaryCount(summary, "fixes") == |cats.fixes|
            && SummaryCount(summary, "improvements") == |cats.improvements|
  {
  }

  /** The sections of a release with commits, given its five counts. */
  lemma SectionsByCount(r: Release, breaking: nat, features: nat, fixes: nat, improvements: nat)
    requires r.commits.Some? && |r.commits.value| > 0
    requires var summary := r.summary.GetOr(map[]);
             && SummaryCount(summary, "chores") == 0
             && SummaryCount(summary, "breaking") == breaking
             && SummaryCount(summary, "features") == features
             && SummaryCount(summary, "fixes") == fixes
             && SummaryCount(summary, "improvements") == improvements
    ensures var keys := SectionKeys(ReleaseSections(r).value);
            && "chores" !in keys
            && ("breaking" in keys <==> breaking > 0)
            && ("features" in keys <==> features > 0)
            && ("fixes" in keys <==> fixes > 0)
            && ("improvements" in keys <==> improvements > 0)
  {
    SectionPresent(r, "chores");
    SectionPresent(r, "breaking");
    SectionPresent(r, "features");
    SectionPresent(r, "fixes");
    SectionPresent(r, "improvements");
  }

  /**
   * On a release the script wrote, a section appears exactly for the non-empty buckets
   * other than chores: the script's summary has no `chores` count, so the "Other Changes"
   * section never appears even when the release has such commits.
   */
  lemma ScriptReleaseSections(version: string, now: string, notes: string, cats: Categories)
    requires cats.Flat() != []
    ensures var s := ReleaseSections(NewRelease(version, now, notes, cats));
            && s.Some?
            && "chores" !in SectionKeys(s.value)
            && ("breaking" in SectionKeys(s.value) <==> cats.breaking != [])
            && ("features" in SectionKeys(s.value) <==> cats.features != [])
            && ("fixes" in SectionKeys(s.value) <==> cats.fixes != [])
            && ("improvements" in SectionKeys(s.value) <==> cats.improvements != [])
  {
    var r := NewRelease(version, now, notes, cats);
    ScriptSummaryCounts(version, now, notes, cats);
    SectionsByCount(r, |cats.breaking|, |cats.features|, |cats.fixes|, |cats.improvements|);
  }

  /** A commit the script put in bucket `k` passes the filter of that section of the release it wrote. */
  lemma BucketCommitAccepted(cs: seq<Commit>, k: Kind, c: Commit)
    requires c in Categorize(cs).Get(k)
    ensures c in Filter(Categorize(cs).Flat(), Accepts(KindKey(k)))
  {
    CategorizeBuckets(cs, k);
    assert c in Bucket(cs, k);
    ClassifiedIsAccepted(c.subject, k);
    var cats := Categorize(cs);
    assert c in cats.Flat();
  }

  // ---------------------------------------------------------------- contributors

  /** `r.commits?.map(c => c.author) || []`. */
  function ReleaseAuthors(r: Release): seq<Option<string>> {
    if r.commits.Some? then Authors(r.commits.value) else []
  }

  /** `releases.flatMap(...)`: the authors of every release, newest release first. */
  function AllAuthors(rs: seq<Release>): seq<Option<string>> {
    if rs == [] then [] else ReleaseAuthors(rs[0]) + AllAuthors(rs[1..])
  }

  /** An author occurs in the flattened list exactly when some release has a commit by them. */
  lemma {:induction false} AllAuthorsMembers(rs: seq<Release>, a: Option<string>)
    ensures a in AllAuthors(rs) <==> exists i :: 0 <= i < |rs| && a in ReleaseAuthors(rs[i])
  {
    if rs != [] {
      AllAuthorsMembers(rs[1..], a);
      if a in AllAuthors(rs[1..]) {
        var i :| 0 <= i < |rs[1..]| && a in ReleaseAuthors(rs[1..][i]);
        assert rs[i + 1] == rs[1..][i];
      }
      if exists i :: 0 <= i < |rs| && a in ReleaseAuthors(rs[i]) {
        var i :| 0 <= i < |rs| && a in ReleaseAuthors(rs[i]);
        if i > 0 {
          assert rs[1..][i - 1] == rs[i];
        }
      }
    }
  }

  /** The Contributors tile: every author of every release once. */
  function Contributors(rs: seq<Release>): (r: seq<Option<string>>)
    ensures NoDuplicates(r)
    ensures forall a :: a in r <==> exists i :: 0 <= i < |rs| && a in ReleaseAuthors(rs[i])
  {
    forall a ensures a in AllAuthors(rs) <==> exists i :: 0 <= i < |rs| && a in ReleaseAuthors(rs[i]) {
      AllAuthorsMembers(rs, a);
    }
    Distinct(AllAuthors(rs))
  }

  /** The contributor badges of one release with commits: its authors once each, in commit order. */
  function ReleaseContributors(r: Release): (a: seq<Option<string>>)
    requires r.commits.Some?
    ensures NoDuplicates(a)
    ensures forall x :: x in a <==> exists c :: c in r.commits.value && c.author == x
    ensures forall x :: x in a ==> x in Authors(r.commits.value)
    ensures forall i, j :: 0 <= i < j < |a| ==>
      FirstIndex(Authors(r.commits.value), a[i]) < FirstIndex(Authors(r.commits.value), a[j])
  {
    var cs := r.commits.value;
    assert forall c :: c in cs ==> c.author in Authors(cs) by {
      forall c | c in cs ensures c.author in Authors(cs) {
        var i :| 0 <= i < |cs| && cs[i] == c;
        assert Authors(cs)[i] == c.author;
      }
    }
    Distinct(Authors(cs))
  }

  /** Every badge of a release is counted on the Contributors tile. */
  lemma ReleaseContributorsCounted(rs: seq<Release>, i: nat)
    requires i < |rs| && rs[i].commits.Some?
    ensures forall a :: a in ReleaseContributors(rs[i]) ==> a in Contributors(rs)
  {
    forall a | a in ReleaseContributors(rs[i]) ensures a in Contributors(rs) {
      var c :| c in rs[i].commits.value && c.author == a;
      var cs := rs[i].commits.value;
      var j :| 0 <= j < |cs| && cs[j] == c;
      assert Authors(cs)[j] == a;
    }
  }

  /**
   * On a release the script wrote from `cs`, the badges are authors the generated notes
   * also list; an author whose only commits are version bumps is in the notes but has no badge.
   */
  lemma ScriptReleaseContributors(version: string, now: string, notes: string, cs: seq<Commit>)
    ensures var r := NewRelease(version, now, notes, Categorize(cs));
            forall a :: a in ReleaseContributors(r) ==> a in ComputeStats(cs).uniqueAuthors
  {
    var r := NewRelease(version, now, notes, Categorize(cs));
    FlatIsKept(cs);
    forall a | a in ReleaseContributors(r) ensures a in ComputeStats(cs).uniqueAuthors {
      var c :| c in Categorize(cs).Flat() && c.author == a;
      assert c in multiset(Categorize(cs).Flat());
      assert c in Filter(cs, Kept());
      var i :| 0 <= i < |cs| && cs[i] == c;
      assert Authors(cs)[i] == a;
    }
  }
}
