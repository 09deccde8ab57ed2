/**
 * The release-notes script: it parses `git log --pretty=format:"%h|%s|%an|%ad"` output
 * into commits, sorts them into categories by their subject, renders Markdown notes,
 * and prepends a release record to the (newest-first, at most fifty) release list.
 *
 * Git, the file system and the clock are outside the model: the log text and the
 * ISO timestamp are parameters.
 */
module ReleaseScript {
  import opened Wrappers
  import opened Seqs
  import opened Text

  /** A commit; author and date are absent when the log line has too few fields. */
  datatype Commit = Commit(hash: string, subject: string, author: Option<string>, date: Option<string>)

  // ---------------------------------------------------------------- parsing

  /** `field?.trim()` for the field at index `i` of a split line. */
  function Field(fields: seq<string>, i: nat): (r: Option<string>)
    ensures r.Some? <==> i < |fields|
    ensures r.Some? ==> r.value == Trim(fields[i])
  {
    if i < |fields| then Some(Trim(fields[i])) else None
  }

  /**
   * One log line, split at `|`: dropped exactly when its trimmed hash or subject is empty
   * or missing, otherwise the commit of its first four trimmed fields.
   */
  function ParseLine(line: string): (r: Option<Commit>)
    ensures var fields := Split(line, '|');
      && (r.None? <==> Trim(fields[0]) == "" || |fields| < 2 || Trim(fields[1]) == "")
      && (r.Some? ==> r.value == Commit(Trim(fields[0]), Trim(fields[1]), Field(fields, 2), Field(fields, 3)))
    ensures r.Some? ==> WellFormed(r.value)
  {
    ParseSplit(Split(line, '|'))
  }

  /** The commit made of the fields of a split line. */
  function ParseSplit(fields: seq<string>): (r: Option<Commit>)
    requires |fields| >= 1
    ensures r.None? <==> Trim(fields[0]) == "" || |fields| < 2 || Trim(fields[1]) == ""
    ensures r.Some? ==> r.value == Commit(Trim(fields[0]), Trim(fields[1]), Field(fields, 2), Field(fields, 3))
    ensures r.Some? ==> WellFormed(r.value)
  {
    var hash := Trim(fields[0]);
    var subject := Field(fields, 1);
    if hash == "" || subject.None? || subject.value == "" then None
    else Some(Commit(hash, subject.value, Field(fields, 2), Field(fields, 3)))
  }

  /** A commit all of whose fields are trimmed and whose hash and subject are non-empty. */
  predicate WellFormed(c: Commit) {
    && c.hash != "" && Trimmed(c.hash)
    && c.subject != "" && Trimmed(c.subject)
    && (c.author.Some? ==> Trimmed(c.author.value))
    && (c.date.Some? ==> Trimmed(c.date.value))
  }

  /**
   * The lines in order, each parsed, the dropped ones left out: a commit is listed exactly
   * when some line parses to it. With `ParseLinesOne` and `ParseLinesAppend` this fixes
   * the list, order included.
   */
  function ParseLines(lines: seq<string>): (r: seq<Commit>)
    ensures |r| <= |lines|
    ensures lines == [] ==> r == []
    ensures forall c :: c in r <==> exists l :: l in lines && ParseLine(l) == Some(c)
    ensures forall c :: c in r ==> WellFormed(c)
  {
    FilterMapMembers(lines, ParseLine);
    FilterMap(lines, ParseLine)
  }

  /**
   * `parseCommits`: nothing for the empty log; otherwise a commit is listed exactly when
   * some line of the log parses to it.
   */
  function ParseCommits(log: string): (r: seq<Commit>)
    ensures log == "" ==> r == []
    ensures |r| <= |Split(log, '\n')|
    ensures log != "" ==> forall c :: c in r <==> exists l :: l in Split(log, '\n') && ParseLine(l) == Some(c)
    ensures forall c :: c in r ==> WellFormed(c)
  {
    if log == "" then [] else ParseLines(Split(log, '\n'))
  }

  /** One line gives its commit, or nothing when it is dropped. */
  lemma ParseLinesOne(line: string)
    ensures ParseLines([line]) == if ParseLine(line).Some? then [ParseLine(line).value] else []
  {
    assert [line][1..] == [];
  }

  /** The parser keeps the input order: the commits of a longer log are those of its parts. */
  lemma ParseLinesAppend(a: seq<string>, b: seq<string>)
    ensures ParseLines(a + b) == ParseLines(a) + ParseLines(b)
  {
    FilterMapAppend(a, b, ParseLine);
  }

  /** The fields git prints for a commit with `%h|%s|%an|%ad`, in order. */
  function Fields(c: Commit): (r: seq<string>)
    ensures |r| == 4
  {
    [c.hash, c.subject, c.author.GetOr(""), c.date.GetOr("")]
  }

  /** No printed field contains a character the log format uses to separate. */
  predicate Printable(c: Commit) {
    forall k :: 0 <= k < 4 ==> '|' !in Fields(c)[k] && '\n' !in Fields(c)[k]
  }

  /** A commit git prints in full that the parser reads back: well formed and printable. */
  predicate Loggable(c: Commit) {
    c.author.Some? && c.date.Some? && WellFormed(c) && Printable(c)
  }

  /** A commit as git prints it. */
  function FormatLine(c: Commit): string {
    Join(Fields(c), '|')
  }

  /** The log lines of the commits, one per commit, in order. */
  function FormatLines(cs: seq<Commit>): (r: seq<string>)
    ensures |r| == |cs| && forall i :: 0 <= i < |cs| ==> r[i] == FormatLine(cs[i])
  {
    seq(|cs|, i requires 0 <= i < |cs| => FormatLine(cs[i]))
  }

  /** A line whose fields are those of a well-formed commit parses to that commit. */
  lemma ParseFields(c: Commit)
    requires c.author.Some? && c.date.Some? && WellFormed(c)
    ensures ParseSplit(Fields(c)) == Some(c)
  {
    var fields := Fields(c);
    assert fields[0] == c.hash && fields[1] == c.subject;
    assert fields[2] == c.author.GetOr("") == c.author.value && fields[3] == c.date.GetOr("") == c.date.value;
    ParseTrimmedFields(fields, c);
  }

  /** The four fields of a well-formed commit parse to it. */
  lemma ParseTrimmedFields(fields: seq<string>, c: Commit)
    requires |fields| == 4 && c.author.Some? && c.date.Some? && WellFormed(c)
    requires fields[0] == c.hash && fields[1] == c.subject
    requires fields[2] == c.author.value && fields[3] == c.date.value
    ensures ParseSplit(fields) == Some(c)
  {
    TrimmedField(fields, 0, c.hash);
    TrimmedField(fields, 1, c.subject);
    TrimmedField(fields, 2, c.author.value);
    TrimmedField(fields, 3, c.date.value);
    ParseSplitOf(fields, c);
  }

  /** A field that is already trimmed is read as it is. */
  lemma TrimmedField(fields: seq<string>, i: nat, x: string)
    requires i < |fields| && fields[i] == x && Trimmed(x)
    ensures Field(fields, i) == Some(x)
  {
    TrimOfTrimmed(x);
  }

  /** Four fields that read as the fields of a commit with a hash and a subject parse to it. */
  lemma ParseSplitOf(fields: seq<string>, c: Commit)
    requires |fields| == 4 && c.hash != "" && c.subject != ""
    requires Field(fields, 0) == Some(c.hash) && Field(fields, 1) == Some(c.subject)
    requires Field(fields, 2) == c.author && Field(fields, 3) == c.date
    ensures ParseSplit(fields) == Some(c)
  {
  }

  /** Splitting a printed log line gives back the commit's fields. */
  lemma SplitFormatLine(c: Commit)
    requires Printable(c)
    ensures Split(FormatLine(c), '|') == Fields(c)
  {
    SplitJoin(Fields(c), '|');
  }

  /** A log line of a well-formed commit parses back to that commit. */
  lemma ParseFormatLine(c: Commit)
    requires Loggable(c)
    ensures ParseLine(FormatLine(c)) == Some(c)
  {
    SplitFormatLine(c);
    ParseFields(c);
  }

  /** A log of well-formed commits, as git prints it, parses back to those commits. */
  lemma ParseFormat(cs: seq<Commit>)
    requires forall c :: c in cs ==> Loggable(c)
    ensures ParseCommits(Join(FormatLines(cs), '\n')) == cs
  {
    if cs != [] {
      var lines := FormatLines(cs);
      FormatLinesPrintable(cs);
      SplitJoin(lines, '\n');
      assert Join(lines, '\n') != "" by {
        assert lines[0] == FormatLine(cs[0]);
        JoinNonEmpty(lines, '\n');
      }
      ParseFormatLines(cs);
    }
  }

  lemma ParseFormatLines(cs: seq<Commit>)
    requires forall c :: c in cs ==> Loggable(c)
    ensures ParseLines(FormatLines(cs)) == cs
  {
    var lines := FormatLines(cs);
    forall i | 0 <= i < |cs| ensures ParseLine(lines[i]) == Some(cs[i]) {
      assert cs[i] in cs;
      ParseFormatLine(cs[i]);
    }
    FilterMapEach(lines, ParseLine, cs);
  }

  /** The formatted lines of printable commits contain no newline. */
  lemma FormatLinesPrintable(cs: seq<Commit>)
    requires forall c :: c in cs ==> Printable(c)
    ensures forall k :: 0 <= k < |FormatLines(cs)| ==> '\n' !in FormatLines(cs)[k]
  {
    forall k | 0 <= k < |cs| ensures '\n' !in FormatLines(cs)[k] {
      assert cs[k] in cs;
      JoinExcludes(Fields(cs[k]), '|', '\n');
    }
  }

  /** Joining lines that start with a non-empty one gives a non-empty text. */
  lemma JoinNonEmpty(lines: seq<string>, sep: char)
    requires lines != [] && lines[0] != ""
    ensures Join(lines, sep) != ""
  {
    if |lines| > 1 {
      assert |Join(lines, sep)| >= |lines[0]|;
    }
  }

  // ---------------------------------------------------------------- categories

  datatype Kind = Breaking | Feature | Fix | Improvement | Chore

  /**
   * The bucket `categorizeCommits` puts a commit in, decided on the lower-cased subject
   * by the first rule that matches, in the order breaking, features, fixes, improvements,
   * chores; `None` for a version-bump commit that no earlier rule takes, which is dropped.
   */
  function Classify(subject: string): (r: Option<Kind>)
    ensures var s := ToLower(subject);
      r == Some(Breaking) <==> Includes(s, "breaking")
    ensures var s := ToLower(subject);
      r == Some(Feature) <==>
        && !Includes(s, "breaking")
        && (StartsWith(s, "feat") || Includes(s, "feature") || Includes(s, "add "))
    ensures var s := ToLower(subject);
      r == Some(Fix) <==>
        && !Includes(s, "breaking")
        && !(StartsWith(s, "feat") || Includes(s, "feature") || Includes(s, "add "))
        && (StartsWith(s, "fix") || Includes(s, "bug") || Includes(s, "resolve"))
    ensures var s := ToLower(subject);
      r == Some(Improvement) <==>
        && !Includes(s, "breaking")
        && !(StartsWith(s, "feat") || Includes(s, "feature") || Includes(s, "add "))
        && !(StartsWith(s, "fix") || Includes(s, "bug") || Includes(s, "resolve"))
        && (StartsWith(s, "improve") || Includes(s, "enhance") || Includes(s, "update"))
    ensures var s := ToLower(subject);
      r == Some(Chore) <==>
        && !Includes(s, "breaking")
        && !(StartsWith(s, "feat") || Includes(s, "feature") || Includes(s, "add "))
        && !(StartsWith(s, "fix") || Includes(s, "bug") || Includes(s, "resolve"))
        && !(StartsWith(s, "improve") || Includes(s, "enhance") || Includes(s, "update"))
        && !Includes(s, "version bump") && !Includes(s, "chore: version")
    ensures var s := ToLower(subject);
      r.None? <==>
        && !Includes(s, "breaking")
        && !(StartsWith(s, "feat") || Includes(s, "feature") || Includes(s, "add "))
        && !(StartsWith(s, "fix") || Includes(s, "bug") || Includes(s, "resolve"))
        && !(StartsWith(s, "improve") || Includes(s, "enhance") || Includes(s, "update"))
        && (Includes(s, "version bump") || Includes(s, "chore: version"))
  {
    var s := ToLower(subject);
    // "breaking change" contains "breaking", so the second test never decides anything
    assert Includes(s, "breaking change") ==> Includes(s, "breaking") by {
      if Includes(s, "breaking change") {
        assert "breaking" + " change" == "breaking change";
        IncludesShorter(s, "breaking", " change");
      }
    }
    if Includes(s, "breaking") || Includes(s, "breaking change") then
      Some(Breaking)
    else if StartsWith(s, "feat") || Includes(s, "feature") || Includes(s, "add ") then
      Some(Feature)
    else if StartsWith(s, "fix") || Includes(s, "bug") || Includes(s, "resolve") then
      Some(Fix)
    else if StartsWith(s, "improve") || Includes(s, "enhance") || Includes(s, "update") then
      Some(Improvement)
    else if !Includes(s, "version bump") && !Includes(s, "chore: version") then
      Some(Chore)
    else
      None
  }

  /** The commit belongs in bucket `k`. */
  function InKind(k: Kind): Commit -> bool {
    (c: Commit) => Classify(c.subject) == Some(k)
  }

  /** The commit is a version bump that no bucket takes. */
  function Unclassified(): Commit -> bool {
    (c: Commit) => Classify(c.subject).None?
  }

  /** The commits of bucket `k`, in input order. */
  function Bucket(cs: seq<Commit>, k: Kind): seq<Commit> {
    Filter(cs, InKind(k))
  }

  /** The five arrays of `categorizeCommits`, in the key order of the source object. */
  datatype Categories = Categories(features: seq<Commit>, fixes: seq<Commit>, improvements: seq<Commit>,
                                   chores: seq<Commit>, breaking: seq<Commit>)
  {
    function Get(k: Kind): seq<Commit> {
      match k
      case Breaking => breaking
      case Feature => features
      case Fix => fixes
      case Improvement => improvements
      case Chore => chores
    }

    /** `Object.values(categories).flat()`. */
    function Flat(): seq<Commit> {
      features + fixes + improvements + chores + breaking
    }

    /** `Object.values(categories).reduce((sum, arr) => sum + arr.length, 0)`. */
    function Total(): (n: nat)
      ensures n == |Flat()|
    {
      |features| + |fixes| + |improvements| + |chores| + |breaking|
    }
  }

  const NoCategories: Categories := Categories([], [], [], [], [])

  /** Pushes the commit onto the array of bucket `k`; a dropped commit changes nothing. */
  function Put(r: Categories, k: Option<Kind>, c: Commit): Categories {
    match k
    case None => r
    case Some(Breaking) => r.(breaking := r.breaking + [c])
    case Some(Feature) => r.(features := r.features + [c])
    case Some(Fix) => r.(fixes := r.fixes + [c])
    case Some(Improvement) => r.(improvements := r.improvements + [c])
    case Some(Chore) => r.(chores := r.chores + [c])
  }

  /** A push adds the commit to its own bucket and to no other. */
  lemma PutGet(r: Categories, k: Option<Kind>, c: Commit, j: Kind)
    ensures Put(r, k, c).Get(j) == r.Get(j) + (if k == Some(j) then [c] else [])
  {
  }

  /** A push adds one commit to the total, a dropped commit none. */
  lemma PutTotal(r: Categories, k: Option<Kind>, c: Commit)
    ensures Put(r, k, c).Total() == r.Total() + (if k.Some? then 1 else 0)
  {
  }

  /** A push adds the commit to the flattened buckets, a dropped commit nothing. */
  lemma PutFlat(r: Categories, k: Option<Kind>, c: Commit)
    ensures multiset(Put(r, k, c).Flat()) == multiset(r.Flat()) + (if k.Some? then multiset{c} else multiset{})
  {
    match k
    case None =>
    case Some(Breaking) => PutFlatBreaking(r, c);
    case Some(Feature) => PutFlatFeature(r, c);
    case Some(Fix) => PutFlatFix(r, c);
    case Some(Improvement) => PutFlatImprovement(r, c);
    case Some(Chore) => PutFlatChore(r, c);
  }

  lemma PutFlatBreaking(r: Categories, c: Commit)
    ensures multiset(Put(r, Some(Breaking), c).Flat()) == multiset(r.Flat()) + multiset{c}
  {
  }

  lemma PutFlatFeature(r: Categories, c: Commit)
    ensures multiset(Put(r, Some(Feature), c).Flat()) == multiset(r.Flat()) + multiset{c}
  {
  }

  lemma PutFlatFix(r: Categories, c: Commit)
    ensures multiset(Put(r, Some(Fix), c).Flat()) == multiset(r.Flat()) + multiset{c}
  {
  }

  lemma PutFlatImprovement(r: Categories, c: Commit)
    ensures multiset(Put(r, Some(Improvement), c).Flat()) == multiset(r.Flat()) + multiset{c}
  {
  }

  lemma PutFlatChore(r: Categories, c: Commit)
    ensures multiset(Put(r, Some(Chore), c).Flat()) == multiset(r.Flat()) + multiset{c}
  {
  }

  /** The buckets after the `forEach` has visited every commit in turn. */
  function Categorize(cs: seq<Commit>): Categories {
    if cs == [] then NoCategories
    else Put(Categorize(cs[..|cs| - 1]), Classify(cs[|cs| - 1].subject), cs[|cs| - 1])
  }

  /** One more commit is one more push. */
  lemma CategorizeSnoc(cs: seq<Commit>, c: Commit)
    ensures Categorize(cs + [c]) == Put(Categorize(cs), Classify(c.subject), c)
  {
    assert (cs + [c])[..|cs + [c]| - 1] == cs;
  }

  /** `categorizeCommits`: one pass that pushes every commit onto the array of its bucket. */
  method CategorizeCommits(cs: seq<Commit>) returns (r: Categories)
    ensures r == Categorize(cs)
  {
    r := NoCategories;
    for i := 0 to |cs|
      invariant r == Categorize(cs[..i])
    {
      var c := cs[i];
      assert cs[..i + 1][..i] == cs[..i];
      var subject := c.subject;
      match Classify(subject)
      case Some(Breaking) => r := r.(breaking := r.breaking + [c]);
      case Some(Feature) => r := r.(features := r.features + [c]);
      case Some(Fix) => r := r.(fixes := r.fixes + [c]);
      case Some(Improvement) => r := r.(improvements := r.improvements + [c]);
      case Some(Chore) => r := r.(chores := r.chores + [c]);
      case None =>
    }
    assert cs[..|cs|] == cs;
  }

  /** Each bucket holds exactly the commits of its kind, in input order. */
  lemma {:induction false} CategorizeBuckets(cs: seq<Commit>, k: Kind)
    ensures Categorize(cs).Get(k) == Bucket(cs, k)
  {
    if cs != [] {
      var init, c := cs[..|cs| - 1], cs[|cs| - 1];
      assert cs == init + [c];
      CategorizeBuckets(init, k);
      CategorizeSnoc(init, c);
      BucketStep(Categorize(init), init, c, k);
    }
  }

  /** A push onto buckets that match the commits so far matches the longer list. */
  lemma BucketStep(prev: Categories, init: seq<Commit>, c: Commit, k: Kind)
    requires prev.Get(k) == Bucket(init, k)
    ensures Put(prev, Classify(c.subject), c).Get(k) == Bucket(init + [c], k)
  {
    PutGet(prev, Classify(c.subject), c, k);
    FilterAppend(init, [c], InKind(k));
  }

  /** Every commit lands in exactly one bucket or is dropped, so the bucket sizes add up to the input. */
  lemma {:induction false} BucketSizes(cs: seq<Commit>)
    ensures Categorize(cs).Total() + |Filter(cs, Unclassified())| == |cs|
  {
    if cs != [] {
      var init, c := cs[..|cs| - 1], cs[|cs| - 1];
      assert cs == init + [c];
      BucketSizes(init);
      CategorizeSnoc(init, c);
      PutTotal(Categorize(init), Classify(c.subject), c);
      FilterAppend(init, [c], Unclassified());
    }
  }

  /** A commit lies in at most one bucket. */
  lemma BucketsExclusive(cs: seq<Commit>, c: Commit, k1: Kind, k2: Kind)
    requires c in Categorize(cs).Get(k1) && c in Categorize(cs).Get(k2)
    ensures k1 == k2
  {
    CategorizeBuckets(cs, k1);
    CategorizeBuckets(cs, k2);
  }

  /** The commits that some bucket takes. */
  function Kept(): Commit -> bool {
    (c: Commit) => Classify(c.subject).Some?
  }

  /** The flattened buckets hold exactly the commits that are not dropped, each as often. */
  lemma {:induction false} FlatIsKept(cs: seq<Commit>)
    ensures multiset(Categorize(cs).Flat()) == multiset(Filter(cs, Kept()))
  {
    if cs != [] {
      var init, c := cs[..|cs| - 1], cs[|cs| - 1];
      assert cs == init + [c];
      FlatIsKept(init);
      CategorizeSnoc(init, c);
      PutFlat(Categorize(init), Classify(c.subject), c);
      FilterAppend(init, [c], Kept());
    }
  }

  // ---------------------------------------------------------------- statistics

  /** The property name `acc[commit.author]` uses: an absent author keys as `"undefined"`. */
  function AuthorKey(a: Option<string>): string {
    match a
    case Some(s) => s
    case None => "undefined"
  }

  function Authors(cs: seq<Commit>): (r: seq<Option<string>>)
    ensures |r| == |cs| && forall i :: 0 <= i < |cs| ==> r[i] == cs[i].author
  {
    seq(|cs|, i requires 0 <= i < |cs| => cs[i].author)
  }

  function AuthorKeys(cs: seq<Commit>): (r: seq<string>)
    ensures |r| == |cs| && forall i :: 0 <= i < |cs| ==> r[i] == AuthorKey(cs[i].author)
  {
    if cs == [] then [] else AuthorKeys(cs[..|cs| - 1]) + [AuthorKey(cs[|cs| - 1].author)]
  }

  /** The commits written by the author with key `k`. */
  function ByAuthor(k: string): Commit -> bool {
    (c: Commit) => AuthorKey(c.author) == k
  }

  /** The `authorCounts` reduction: one more for the key of each commit in turn. */
  function AuthorCounts(cs: seq<Commit>): map<string, nat> {
    if cs == [] then map[]
    else
      var m := AuthorCounts(cs[..|cs| - 1]);
      var k := AuthorKey(cs[|cs| - 1].author);
      m[k := (if k in m then m[k] else 0) + 1]
  }

  /** `authorCounts` has a key for exactly the authors that occur. */
  lemma {:induction false} AuthorCountsKeys(cs: seq<Commit>, k: string)
    ensures k in AuthorCounts(cs) <==> k in AuthorKeys(cs)
  {
    if cs != [] {
      AuthorCountsKeys(cs[..|cs| - 1], k);
    }
  }

  /** The count of each author is the number of commits with that author; an absent key counts 0. */
  lemma {:induction false} AuthorCountsValue(cs: seq<Commit>, k: string)
    ensures (if k in AuthorCounts(cs) then AuthorCounts(cs)[k] else 0) == |Filter(cs, ByAuthor(k))|
  {
    if cs != [] {
      var init, c := cs[..|cs| - 1], cs[|cs| - 1];
      AuthorCountsValue(init, k);
      assert cs == init + [c];
      FilterAppend(init, [c], ByAuthor(k));
    }
  }

  datatype Stats = Stats(totalCommits: nat, uniqueAuthors: seq<Option<string>>, authorCounts: map<string, nat>)

  /** The stats of `main`: commit count, distinct authors in first-appearance order, commits per author. */
  function ComputeStats(cs: seq<Commit>): (s: Stats)
    ensures s.totalCommits == |cs|
    ensures NoDuplicates(s.uniqueAuthors)
    ensures forall a :: a in s.uniqueAuthors <==> exists c :: c in cs && c.author == a
    ensures forall a :: a in s.uniqueAuthors ==> a in Authors(cs)
    ensures forall i, j :: 0 <= i < j < |s.uniqueAuthors| ==>
      FirstIndex(Authors(cs), s.uniqueAuthors[i]) < FirstIndex(Authors(cs), s.uniqueAuthors[j])
    ensures forall a :: a in s.uniqueAuthors ==> AuthorKey(a) in s.authorCounts
    ensures forall k :: k in s.authorCounts ==> s.authorCounts[k] == |Filter(cs, ByAuthor(k))|
  {
    AuthorsOccur(cs);
    AuthorKeysCounted(cs);
    AuthorCountsValues(cs);
    Stats(|cs|, Distinct(Authors(cs)), AuthorCounts(cs))
  }

  lemma AuthorsOccur(cs: seq<Commit>)
    ensures forall a :: a in Authors(cs) <==> exists c :: c in cs && c.author == a
  {
    var authors := Authors(cs);
    forall a | a in authors ensures exists c :: c in cs && c.author == a {
      var i :| 0 <= i < |authors| && authors[i] == a;
      assert cs[i] in cs;
    }
    forall a | exists c :: c in cs && c.author == a ensures a in authors {
      var c :| c in cs && c.author == a;
      var i :| 0 <= i < |cs| && cs[i] == c;
      assert authors[i] == a;
    }
  }

  lemma AuthorKeysCounted(cs: seq<Commit>)
    ensures forall a :: a in Authors(cs) ==> AuthorKey(a) in AuthorCounts(cs)
  {
    var authors := Authors(cs);
    forall a | a in authors ensures AuthorKey(a) in AuthorCounts(cs) {
      var i :| 0 <= i < |authors| && authors[i] == a;
      assert AuthorKeys(cs)[i] == AuthorKey(a);
      AuthorCountsKeys(cs, AuthorKey(a));
    }
  }

  lemma AuthorCountsValues(cs: seq<Commit>)
    ensures forall k :: k in AuthorCounts(cs) ==> AuthorCounts(cs)[k] == |Filter(cs, ByAuthor(k))|
  {
    forall k | k in AuthorCounts(cs) ensures AuthorCounts(cs)[k] == |Filter(cs, ByAuthor(k))| {
      AuthorCountsValue(cs, k);
    }
  }

  /** The sum of the counts of the keys `ks` (absent keys count nothing). */
  function SumCounts(m: map<string, nat>, ks: seq<string>): nat {
    if ks == [] then 0
    else SumCounts(m, ks[..|ks| - 1]) + (if ks[|ks| - 1] in m then m[ks[|ks| - 1]] else 0)
  }

  lemma {:induction false} SumCountsOther(m: map<string, nat>, ks: seq<string>, k: string, v: nat)
    requires k !in ks
    ensures SumCounts(m[k := v], ks) == SumCounts(m, ks)
  {
    if ks != [] {
      SumCountsOther(m, ks[..|ks| - 1], k, v);
    }
  }

  lemma {:induction false} SumCountsBump(m: map<string, nat>, ks: seq<string>, k: string)
    requires NoDuplicates(ks) && k in ks && k in m
    ensures SumCounts(m[k := m[k] + 1], ks) == SumCounts(m, ks) + 1
  {
    var init, last := ks[..|ks| - 1], ks[|ks| - 1];
    assert NoDuplicates(init);
    if last == k {
      assert k !in init;
      SumCountsOther(m, init, k, m[k] + 1);
    } else {
      assert k in init by { var i :| 0 <= i < |ks| && ks[i] == k; assert init[i] == k; }
      SumCountsBump(m, init, k);
    }
  }

  /** The values of `authorCounts` sum to the number of commits. */
  lemma {:induction false} AuthorCountsSum(cs: seq<Commit>)
    ensures SumCounts(AuthorCounts(cs), Distinct(AuthorKeys(cs))) == |cs|
  {
    if cs != [] {
      var init := cs[..|cs| - 1];
      var ks, k := AuthorKeys(init), AuthorKey(cs[|cs| - 1].author);
      var m := AuthorCounts(init);
      assert AuthorCounts(cs) == m[k := (if k in m then m[k] else 0) + 1];
      assert AuthorKeys(cs) == ks + [k];
      AuthorCountsSum(init);
      AuthorCountsKeys(init, k);
      SumCountsSnoc(m, ks, k);
    }
  }

  /** Counting one more occurrence of `k` adds one to the sum over the distinct keys. */
  lemma SumCountsSnoc(m: map<string, nat>, ks: seq<string>, k: string)
    requires k in m <==> k in ks
    ensures SumCounts(m[k := (if k in m then m[k] else 0) + 1], Distinct(ks + [k])) == SumCounts(m, Distinct(ks)) + 1
  {
    DistinctSnoc(ks, k);
    SumCountsStep(m, Distinct(ks), Distinct(ks + [k]), k);
  }

  /** The same, over the distinct keys before and after. */
  lemma SumCountsStep(m: map<string, nat>, d: seq<string>, d1: seq<string>, k: string)
    requires NoDuplicates(d) && (k in m <==> k in d)
    requires d1 == if k in d then d else d + [k]
    ensures SumCounts(m[k := (if k in m then m[k] else 0) + 1], d1) == SumCounts(m, d) + 1
  {
    if k in d {
      SumCountsBump(m, d, k);
    } else {
      SumCountsNew(m, d, k);
    }
  }

  /** A key seen for the first time adds its count of one to the sum. */
  lemma SumCountsNew(m: map<string, nat>, d: seq<string>, k: string)
    requires k !in d
    ensures SumCounts(m[k := 1], d + [k]) == SumCounts(m, d) + 1
  {
    assert (d + [k])[..|d + [k]| - 1] == d;
    SumCountsOther(m, d, k, 1);
  }

  // ---------------------------------------------------------------- release notes

  const BreakingHeading: string := "## \U{1F6A8} Breaking Changes\n\n"
  const FeaturesHeading: string := "## \U{2728} New Features\n\n"
  const FixesHeading: string := "## \U{1F41B} Bug Fixes\n\n"
  const ImprovementsHeading: string := "## \U{1F680} Improvements\n\n"
  const OtherHeading: string := "## \U{1F527} Other Changes\n\n"
  const ContributorsHeading: string := "## \U{1F465} Contributors\n\n"

  /** `new Date().toISOString().split('T')[0]` for the timestamp `now`. */
  function IsoDate(now: string): (d: string)
    ensures 'T' !in d && d <= now
    ensures d == now || (|d| < |now| && now[|d|] == 'T')
  {
    var d := Split(now, 'T')[0];
    assert d <= now && (d == now || (|d| < |now| && now[|d|] == 'T')) by {
      var parts := Split(now, 'T');
      if |parts| > 1 {
        assert now == d + ['T'] + Join(parts[1..], 'T');
        assert now[|d|] == 'T';
      }
    }
    d
  }

  /** `- subject (hash)`. */
  function CommitLine(c: Commit): string {
    "- " + c.subject + " (" + c.hash + ")\n"
  }

  function CommitLines(cs: seq<Commit>): string {
    if cs == [] then "" else CommitLines(cs[..|cs| - 1]) + CommitLine(cs[|cs| - 1])
  }

  /** The lines of one more commit are the lines so far and its own. */
  lemma CommitLinesSnoc(cs: seq<Commit>, i: nat)
    requires i < |cs|
    ensures CommitLines(cs[..i + 1]) == CommitLines(cs[..i]) + CommitLine(cs[i])
  {
    assert cs[..i + 1][..i] == cs[..i];
    assert cs[..i + 1][i] == cs[i];
  }

  /** A section: its heading, one line per commit and a blank line; nothing for no commits. */
  function Section(heading: string, cs: seq<Commit>): (r: string)
    ensures r == "" <==> cs == []
    ensures cs != [] ==> StartsWith(r, heading)
  {
    if |cs| > 0 then heading + CommitLines(cs) + "\n" else ""
  }

  /** `'s'` exactly when the count is not one. */
  function Plural(n: nat): (r: string)
    ensures r == "s" <==> n != 1
    ensures r == "" <==> n == 1
  {
    if n != 1 then "s" else ""
  }

  /** The `**Changes:**` line, shown only when there are commits. */
  function ChangesLine(s: Stats): (r: string)
    ensures r == "" <==> s.totalCommits == 0
  {
    if s.totalCommits > 0 then
      "**Changes:** " + NatToString(s.totalCommits) + " commits by " + NatToString(|s.uniqueAuthors|)
      + " contributor" + Plural(|s.uniqueAuthors|) + "\n\n"
    else ""
  }

  /** `- author (n commits)`; a key the counts lack prints as `undefined`, which is not 1. */
  function ContributorLine(a: Option<string>, counts: map<string, nat>): string {
    var k := AuthorKey(a);
    if k in counts then "- " + k + " (" + NatToString(counts[k]) + " commit" + Plural(counts[k]) + ")\n"
    else "- " + k + " (undefined commits)\n"
  }

  function ContributorLines(authors: seq<Option<string>>, counts: map<string, nat>): string {
    if authors == [] then ""
    else ContributorLines(authors[..|authors| - 1], counts) + ContributorLine(authors[|authors| - 1], counts)
  }

  function ContributorsSection(s: Stats): (r: string)
    ensures r == "" <==> s.uniqueAuthors == []
  {
    if |s.uniqueAuthors| > 0 then ContributorsHeading + ContributorLines(s.uniqueAuthors, s.authorCounts) + "\n"
    else ""
  }

  /** The notes `generateReleaseNotes` returns, for the release day `date`. */
  function NotesText(version: string, date: string, cats: Categories, s: Stats): string {
    "# Release " + version + "\n\n" + "**Release Date:** " + date + "\n\n" + ChangesLine(s)
    + Section(BreakingHeading, cats.breaking) + Section(FeaturesHeading, cats.features)
    + Section(FixesHeading, cats.fixes) + Section(ImprovementsHeading, cats.improvements)
    + Section(OtherHeading, cats.chores) + ContributorsSection(s)
  }

  /** The lines of all commits are part of the lines of the section that lists them. */
  lemma {:induction false} CommitLinesInclude(cs: seq<Commit>, c: Commit)
    requires c in cs
    ensures Includes(CommitLines(cs), CommitLine(c))
  {
    var init, last := cs[..|cs| - 1], cs[|cs| - 1];
    if c == last {
      IncludesPiece(CommitLines(init), CommitLine(c), "");
      assert CommitLines(init) + CommitLine(c) + "" == CommitLines(cs);
    } else {
      assert c in init by { var i :| 0 <= i < |cs| && cs[i] == c; assert init[i] == c; }
      CommitLinesInclude(init, c);
      IncludesRight(CommitLines(init), CommitLine(c), CommitLine(last));
    }
  }

  /** The notes open with the version title. */
  lemma NotesTitle(version: string, date: string, cats: Categories, s: Stats)
    ensures StartsWith(NotesText(version, date, cats, s), "# Release " + version + "\n\n")
  {
    var title := "# Release " + version + "\n\n";
    assert title[..|title|] == title;
    var n := title;
    StartsWithExtend(n, title, "**Release Date:** ");
    n := n + "**Release Date:** ";
    StartsWithExtend(n, title, date);
    n := n + date;
    StartsWithExtend(n, title, "\n\n");
    n := n + "\n\n";
    StartsWithExtend(n, title, ChangesLine(s));
    n := n + ChangesLine(s);
    StartsWithExtend(n, title, Section(BreakingHeading, cats.breaking));
    n := n + Section(BreakingHeading, cats.breaking);
    StartsWithExtend(n, title, Section(FeaturesHeading, cats.features));
    n := n + Section(FeaturesHeading, cats.features);
    StartsWithExtend(n, title, Section(FixesHeading, cats.fixes));
    n := n + Section(FixesHeading, cats.fixes);
    StartsWithExtend(n, title, Section(ImprovementsHeading, cats.improvements));
    n := n + Section(ImprovementsHeading, cats.improvements);
    StartsWithExtend(n, title, Section(OtherHeading, cats.chores));
    n := n + Section(OtherHeading, cats.chores);
    StartsWithExtend(n, title, ContributorsSection(s));
    n := n + ContributorsSection(s);
    assert n == NotesText(version, date, cats, s);
  }

  /** Every categorised commit is listed in the notes as `- subject (hash)`. */
  lemma NotesListEveryCommit(version: string, date: string, cats: Categories, s: Stats, c: Commit)
    requires c in cats.Flat()
    ensures Includes(NotesText(version, date, cats, s), CommitLine(c))
  {
    var line := CommitLine(c);
    var head := "# Release " + version + "\n\n" + "**Release Date:** " + date + "\n\n" + ChangesLine(s);
    var b := Section(BreakingHeading, cats.breaking);
    var f := Section(FeaturesHeading, cats.features);
    var x := Section(FixesHeading, cats.fixes);
    var i := Section(ImprovementsHeading, cats.improvements);
    var o := Section(OtherHeading, cats.chores);
    var t := ContributorsSection(s);
    assert NotesText(version, date, cats, s) == head + b + f + x + i + o + t;
    if c in cats.breaking {
      SectionListsCommit(BreakingHeading, cats.breaking, c);
      IncludesLeft(b, line, head);
      IncludesRight(head + b, line, f);
      IncludesRight(head + b + f, line, x);
      IncludesRight(head + b + f + x, line, i);
      IncludesRight(head + b + f + x + i, line, o);
    } else if c in cats.features {
      SectionListsCommit(FeaturesHeading, cats.features, c);
      IncludesLeft(f, line, head + b);
      IncludesRight(head + b + f, line, x);
      IncludesRight(head + b + f + x, line, i);
      IncludesRight(head + b + f + x + i, line, o);
    } else if c in cats.fixes {
      SectionListsCommit(FixesHeading, cats.fixes, c);
      IncludesLeft(x, line, head + b + f);
      IncludesRight(head + b + f + x, line, i);
      IncludesRight(head + b + f + x + i, line, o);
    } else if c in cats.improvements {
      SectionListsCommit(ImprovementsHeading, cats.improvements, c);
      IncludesLeft(i, line, head + b + f + x);
      IncludesRight(head + b + f + x + i, line, o);
    } else {
      assert c in cats.chores;
      SectionListsCommit(OtherHeading, cats.chores, c);
      IncludesLeft(o, line, head + b + f + x + i);
    }
    IncludesRight(head + b + f + x + i + o, line, t);
  }

  /** A section lists each of its commits. */
  lemma SectionListsCommit(heading: string, cs: seq<Commit>, c: Commit)
    requires c in cs
    ensures Includes(Section(heading, cs), CommitLine(c))
  {
    CommitLinesInclude(cs, c);
    IncludesLeft(CommitLines(cs), CommitLine(c), heading);
    IncludesRight(heading + CommitLines(cs), CommitLine(c), "\n");
  }

  /** Appends a section line by line, as the `forEach` loops over one category do. */
  method AppendSection(notes: string, heading: string, cs: seq<Commit>) returns (r: string)
    ensures r == notes + Section(heading, cs)
  {
    r := notes;
    if |cs| > 0 {
      r := r + heading;
      ghost var start := r;
      assert r == start + CommitLines(cs[..0]);
      for i := 0 to |cs|
        invariant r == start + CommitLines(cs[..i])
      {
        CommitLinesSnoc(cs, i);
        AppendAssoc(start, CommitLines(cs[..i]), CommitLine(cs[i]));
        r := r + CommitLine(cs[i]);
      }
      assert cs[..|cs|] == cs;
      AppendAssoc(notes, heading, CommitLines(cs));
      AppendAssoc(notes, heading + CommitLines(cs), "\n");
      r := r + "\n";
    }
  }

  /** Appends the contributors section, as the `forEach` over the authors does. */
  method AppendContributors(notes: string, s: Stats) returns (r: string)
    ensures r == notes + ContributorsSection(s)
  {
    r := notes;
    if |s.uniqueAuthors| > 0 {
      var lines := ContributorLines(s.uniqueAuthors, s.authorCounts);
      r := r + ContributorsHeading;
      r := AppendContributorLines(r, s.uniqueAuthors, s.authorCounts);
      r := r + "\n";
      AppendAssoc(notes, ContributorsHeading + lines, "\n");
      AppendAssoc(notes, ContributorsHeading, lines);
    }
  }

  /** Appends one line per author. */
  method AppendContributorLines(notes: string, authors: seq<Option<string>>, counts: map<string, nat>) returns (r: string)
    ensures r == notes + ContributorLines(authors, counts)
  {
    r := notes;
    for i := 0 to |authors|
      invariant r == notes + ContributorLines(authors[..i], counts)
    {
      assert authors[..i + 1][..i] == authors[..i];
      AppendAssoc(notes, ContributorLines(authors[..i], counts), ContributorLine(authors[i], counts));
      r := r + ContributorLine(authors[i], counts);
    }
    assert authors[..|authors|] == authors;
  }

  /** `generateReleaseNotes`, with the clock's ISO timestamp as `now`. */
  method GenerateReleaseNotes(version: string, now: string, cats: Categories, s: Stats) returns (notes: string)
    ensures notes == NotesText(version, IsoDate(now), cats, s)
  {
    var date := Split(now, 'T')[0];
    notes := "# Release " + version + "\n\n";
    notes := notes + "**Release Date:** " + date + "\n\n";
    if s.totalCommits > 0 {
      var changes := "**Changes:** " + NatToString(s.totalCommits) + " commits by " + NatToString(|s.uniqueAuthors|)
        + " contributor" + (if |s.uniqueAuthors| != 1 then "s" else "") + "\n\n";
      notes := notes + changes;
    } else {
      assert notes + ChangesLine(s) == notes;
    }
    notes := AppendSection(notes, BreakingHeading, cats.breaking);
    notes := AppendSection(notes, FeaturesHeading, cats.features);
    notes := AppendSection(notes, FixesHeading, cats.fixes);
    notes := AppendSection(notes, ImprovementsHeading, cats.improvements);
    notes := AppendSection(notes, OtherHeading, cats.chores);
    notes := AppendContributors(notes, s);
  }

  // ---------------------------------------------------------------- the release list

  /** An entry of `releases.json`; `summary` and `commits` may be absent in a file written by hand. */
  datatype Release = Release(version: string, date: string, notes: string,
                             summary: Option<map<string, nat>>, commits: Option<seq<Commit>>)

  /** The release record `updateReleasesJson` builds, with the clock's ISO timestamp as `now`. */
  function NewRelease(version: string, now: string, notes: string, cats: Categories): (r: Release)
    ensures r.version == version && r.date == now && r.notes == notes
    ensures r.summary.Some? && r.summary.value.Keys == {"features", "fixes", "improvements", "breaking", "total"}
    ensures r.summary.value["total"] == |cats.Flat()|
    ensures r.summary.value["features"] == |cats.features| && r.summary.value["fixes"] == |cats.fixes|
    ensures r.summary.value["improvements"] == |cats.improvements| && r.summary.value["breaking"] == |cats.breaking|
    ensures r.commits == Some(cats.Flat())
  {
    var summary := map["features" := |cats.features|, "fixes" := |cats.fixes|,
                       "improvements" := |cats.improvements|, "breaking" := |cats.breaking|,
                       "total" := cats.Total()];
    Release(version, now, notes, Some(summary), Some(cats.Flat()))
  }

  const MaxReleases: nat := 50

  /** `unshift` the new release, then keep the first fifty. */
  function UpdateReleases(releases: seq<Release>, r: Release): (rs: seq<Release>)
    ensures |rs| == if |releases| < MaxReleases then |releases| + 1 else MaxReleases
    ensures rs[0] == r
    ensures rs[1..] <= releases
  {
    Take([r] + releases, MaxReleases)
  }

  /** The summary total of a release built from a log counts every commit except the dropped ones. */
  lemma SummaryTotalOfLog(version: string, now: string, notes: string, cs: seq<Commit>)
    ensures NewRelease(version, now, notes, Categorize(cs)).summary.value["total"]
          + |Filter(cs, Unclassified())| == |cs|
  {
    BucketSizes(cs);
  }
}
