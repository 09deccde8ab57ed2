/**
 * The ice-breaker backend: four collections (questions, teams, the usage ledger and
 * the skip ledger) and the REST handlers that read and change them.
 *
 * The collections are sequences in insertion order; document ids are opaque naturals.
 * Each handler becomes a method of `Database` (or a read-only method for the GET
 * routes), and what it decides is a function of the collections stated beside it.
 */
module Server {
  import opened Wrappers
  import opened Seqs
  import opened Text

  /** A document id (a Mongo ObjectId). */
  type Id = nat

  // ---------------------------------------------------------------- documents

  datatype Category = Personal | Work | Hypothetical | Creative | Thoughtful | General
  datatype Difficulty = Easy | Medium | Hard

  /** The `enum` validator of the question schema's `category` field. */
  function ParseCategory(s: string): (r: Option<Category>)
    ensures r.Some? <==> s in ["personal", "work", "hypothetical", "creative", "thoughtful", "general"]
  {
    match s
    case "personal" => Some(Personal)
    case "work" => Some(Work)
    case "hypothetical" => Some(Hypothetical)
    case "creative" => Some(Creative)
    case "thoughtful" => Some(Thoughtful)
    case "general" => Some(General)
    case _ => None
  }

  /** The `enum` validator of the question schema's `difficulty` field. */
  function ParseDifficulty(s: string): (r: Option<Difficulty>)
    ensures r.Some? <==> s in ["easy", "medium", "hard"]
  {
    match s
    case "easy" => Some(Easy)
    case "medium" => Some(Medium)
    case "hard" => Some(Hard)
    case _ => None
  }

  datatype Question = Question(id: Id, text: string, category: Category, difficulty: Difficulty)
  datatype Team = Team(id: Id, name: string, color: string)

  /** A usage-history or skipped-question document: who disposed of which question for which team. */
  datatype Entry = Entry(teamId: Id, questionId: Id, userName: string)

  /** The two ledgers, which the use and skip handlers treat alike. */
  datatype Ledger = Usage | Skips

  const DefaultColor: string := "#3B82F6"

  // ---------------------------------------------------------------- errors

  datatype Error =
    | QuestionIdRequired | UserNameRequired | TeamNotFound | QuestionNotFound
    | AlreadyUsed | AlreadySkipped | NoMoreQuestions
    | TeamNameRequired | TeamNameExists | TeamCreateFailed
    | QuestionTextRequired | QuestionAddFailed

  /** The HTTP status each route answers with. */
  function Status(e: Error): (code: nat)
    ensures code in {400, 404, 500}
    ensures code == 404 <==> e in {TeamNotFound, QuestionNotFound, NoMoreQuestions}
    ensures code == 500 <==> e in {TeamCreateFailed, QuestionAddFailed}
  {
    match e
    case TeamNotFound | QuestionNotFound | NoMoreQuestions => 404
    case TeamCreateFailed | QuestionAddFailed => 500
    case _ => 400
  }

  /** The `error` text of the JSON body. */
  function Message(e: Error): string {
    match e
    case QuestionIdRequired => "Question ID is required"
    case UserNameRequired => "User name is required"
    case TeamNotFound => "Team not found"
    case QuestionNotFound => "Question not found"
    case AlreadyUsed => "Question already marked as used"
    case AlreadySkipped => "Question already marked as skipped"
    case NoMoreQuestions => "No more questions available for this team"
    case TeamNameRequired => "Team name is required"
    case TeamNameExists => "Team name already exists"
    case TeamCreateFailed => "Failed to create team"
    case QuestionTextRequired => "Question text is required"
    case QuestionAddFailed => "Failed to add question"
  }

  /** Different errors carry different texts, so the `error` field tells a client which check failed. */
  lemma MessagesDistinct(a: Error, b: Error)
    ensures Message(a) == Message(b) ==> a == b
  {
  }

  /** The status and text pairs each route answers with when it refuses a request. */
  const SelectReplies: set<(nat, string)> :=
    {(404, "Team not found"), (404, "No more questions available for this team")}
  const UseReplies: set<(nat, string)> :=
    {(400, "Question ID is required"), (400, "User name is required"), (404, "Team not found"),
     (404, "Question not found"), (400, "Question already marked as used")}
  const SkipReplies: set<(nat, string)> :=
    {(400, "Question ID is required"), (400, "User name is required"), (404, "Team not found"),
     (404, "Question not found"), (400, "Question already marked as skipped")}
  const TeamReplies: set<(nat, string)> :=
    {(400, "Team name is required"), (400, "Team name already exists"), (500, "Failed to create team")}
  const QuestionReplies: set<(nat, string)> :=
    {(400, "Question text is required"), (500, "Failed to add question")}

  /** The reply of a refused request: its status and its `error` text. */
  function Reply(e: Error): (nat, string) {
    (Status(e), Message(e))
  }

  /** The reply of a route that answers `{ success: true }` or an error. */
  datatype Outcome = Pass | Fail(error: Error)

  // ---------------------------------------------------------------- lookups

  predicate HasTeam(teams: seq<Team>, id: Id) {
    exists t :: t in teams && t.id == id
  }

  predicate HasQuestion(questions: seq<Question>, id: Id) {
    exists q :: q in questions && q.id == id
  }

  predicate NameTaken(teams: seq<Team>, name: string) {
    exists t :: t in teams && t.name == name
  }

  /** `Ledger.findOne({ teamId, questionId })` finds a record. */
  predicate HasEntry(ledger: seq<Entry>, teamId: Id, questionId: Id) {
    exists e :: e in ledger && e.teamId == teamId && e.questionId == questionId
  }

  /** The records of one team. */
  function OwnEntries(ledger: seq<Entry>, teamId: Id): seq<Entry> {
    Filter(ledger, (e: Entry) => e.teamId == teamId)
  }

  // ---------------------------------------------------------------- availability

  /** The test `getAvailableQuestions` applies: neither used nor skipped by the team. */
  function Open(usage: seq<Entry>, skipped: seq<Entry>, teamId: Id): Question -> bool {
    (q: Question) => !HasEntry(usage, teamId, q.id) && !HasEntry(skipped, teamId, q.id)
  }

  /**
   * `getAvailableQuestions(teamId)`: the questions whose id is in neither of the team's
   * ledgers, in collection order.
   */
  function Available(questions: seq<Question>, usage: seq<Entry>, skipped: seq<Entry>, teamId: Id): (r: seq<Question>)
    ensures |r| <= |questions|
    ensures forall q :: q in r <==>
      q in questions && !HasEntry(usage, teamId, q.id) && !HasEntry(skipped, teamId, q.id)
  {
    Filter(questions, Open(usage, skipped, teamId))
  }

  /** A team's records determine its availability; the records of other teams play no part. */
  lemma AvailableIgnoresOtherTeams(questions: seq<Question>, u1: seq<Entry>, s1: seq<Entry>,
                                   u2: seq<Entry>, s2: seq<Entry>, teamId: Id)
    requires OwnEntries(u1, teamId) == OwnEntries(u2, teamId)
    requires OwnEntries(s1, teamId) == OwnEntries(s2, teamId)
    ensures Available(questions, u1, s1, teamId) == Available(questions, u2, s2, teamId)
  {
    forall l: seq<Entry>, q: Id
      ensures HasEntry(l, teamId, q) == HasEntry(OwnEntries(l, teamId), teamId, q)
    {
      if HasEntry(l, teamId, q) {
        var e :| e in l && e.teamId == teamId && e.questionId == q;
        assert e in OwnEntries(l, teamId);
      }
    }
    FilterExt(questions, Open(u1, s1, teamId), Open(u2, s2, teamId));
  }

  /** `Math.floor(draw * n)` for a draw of `Math.random()`, which lies in [0, 1). */
  function RandomIndex(draw: real, n: nat): (i: nat)
    requires 0.0 <= draw < 1.0 && n > 0
    ensures i < n
  {
    var x := draw * n as real;
    assert 0.0 <= x < n as real;
    x.Floor
  }

  /** Every index can be drawn: `draw = i / n` picks index `i`. */
  lemma EveryIndexDrawable(i: nat, n: nat)
    requires i < n
    ensures 0.0 <= i as real / n as real < 1.0
    ensures RandomIndex(i as real / n as real, n) == i
  {
    var d := i as real / n as real;
    assert d * n as real == i as real;
  }

  /** GET /api/teams/:teamId/question. */
  function SelectQuestion(teams: seq<Team>, questions: seq<Question>, usage: seq<Entry>,
                          skipped: seq<Entry>, teamId: Id, draw: real): (r: Result<Question, Error>)
    requires 0.0 <= draw < 1.0
    ensures !HasTeam(teams, teamId) ==> r == Failure(TeamNotFound)
    ensures HasTeam(teams, teamId) && Available(questions, usage, skipped, teamId) == [] ==>
      r == Failure(NoMoreQuestions)
    ensures r.Success? <==> HasTeam(teams, teamId) && Available(questions, usage, skipped, teamId) != []
    ensures r.Success? ==>
      r.value in questions && !HasEntry(usage, teamId, r.value.id) && !HasEntry(skipped, teamId, r.value.id)
  {
    if !HasTeam(teams, teamId) then Failure(TeamNotFound)
    else
      var available := Available(questions, usage, skipped, teamId);
      if |available| == 0 then Failure(NoMoreQuestions)
      else
        var q := available[RandomIndex(draw, |available|)];
        assert q in available;
        Success(q)
  }

  /** Every available question is the answer for some draw, so selection can reach each of them. */
  lemma EveryAvailableQuestionSelectable(teams: seq<Team>, questions: seq<Question>,
                                         usage: seq<Entry>, skipped: seq<Entry>, teamId: Id, q: Question)
    requires HasTeam(teams, teamId)
    requires q in Available(questions, usage, skipped, teamId)
    ensures exists draw ::
      0.0 <= draw < 1.0 && SelectQuestion(teams, questions, usage, skipped, teamId, draw) == Success(q)
  {
    var available := Available(questions, usage, skipped, teamId);
    var i :| 0 <= i < |available| && available[i] == q;
    EveryIndexDrawable(i, |available|);
    var draw := i as real / |available| as real;
    assert SelectQuestion(teams, questions, usage, skipped, teamId, draw) == Success(q);
  }

  /**
   * The worked example of three questions: after one is used and one skipped, every draw
   * yields the third.
   */
  lemma OnlyRemainingQuestionIsSelected(t: Team, q1: Question, q2: Question, q3: Question, draw: real)
    requires q1.id != q2.id && q2.id != q3.id && q1.id != q3.id
    requires 0.0 <= draw < 1.0
    ensures SelectQuestion([t], [q1, q2, q3], [Entry(t.id, q1.id, "Ann")], [Entry(t.id, q2.id, "Bo")],
                           t.id, draw) == Success(q3)
  {
    var usage, skipped := [Entry(t.id, q1.id, "Ann")], [Entry(t.id, q2.id, "Bo")];
    assert HasTeam([t], t.id) by { assert t in [t]; }
    assert HasEntry(usage, t.id, q1.id) by { assert usage[0] in usage; }
    assert HasEntry(skipped, t.id, q2.id) by { assert skipped[0] in skipped; }
    var open := Open(usage, skipped, t.id);
    assert !open(q1) && !open(q2) && open(q3);
    assert [q1, q2, q3][1..] == [q2, q3] && [q2, q3][1..] == [q3] && [q3][1..] == [];
    calc {
      Available([q1, q2, q3], usage, skipped, t.id);
      Filter([q2, q3], open);
      Filter([q3], open);
      [q3] + Filter([], open);
      [q3];
    }
  }

  // ---------------------------------------------------------------- use and skip

  /**
   * What POST /use-question (`Usage`) and POST /skip-question (`Skips`) decide, given the
   * ledger of that kind: the checks in the handler's order, and the record stored when
   * all of them pass.
   */
  function CheckRecord(kind: Ledger, teams: seq<Team>, questions: seq<Question>, ledger: seq<Entry>,
                       teamId: Id, questionId: Option<Id>, userName: Option<string>): (r: Result<Entry, Error>)
    ensures questionId.None? ==> r == Failure(QuestionIdRequired)
    ensures questionId.Some? && (userName.None? || Blank(userName.value)) ==> r == Failure(UserNameRequired)
    ensures questionId.Some? && userName.Some? && !Blank(userName.value) && !HasTeam(teams, teamId) ==>
      r == Failure(TeamNotFound)
    ensures (questionId.Some? && userName.Some? && !Blank(userName.value) && HasTeam(teams, teamId)
      && !HasQuestion(questions, questionId.value)) ==> r == Failure(QuestionNotFound)
    ensures (questionId.Some? && userName.Some? && !Blank(userName.value) && HasTeam(teams, teamId)
      && HasQuestion(questions, questionId.value) && HasEntry(ledger, teamId, questionId.value))
      ==> r == Failure(if kind == Usage then AlreadyUsed else AlreadySkipped)
    ensures r.Success? <==>
      && questionId.Some? && userName.Some? && !Blank(userName.value)
      && HasTeam(teams, teamId) && HasQuestion(questions, questionId.value)
      && !HasEntry(ledger, teamId, questionId.value)
    ensures r.Success? ==> r.value == Entry(teamId, questionId.value, Trim(userName.value))
  {
    if questionId.None? then Failure(QuestionIdRequired)
    else if userName.None? || Trim(userName.value) == "" then Failure(UserNameRequired)
    else if !HasTeam(teams, teamId) then Failure(TeamNotFound)
    else if !HasQuestion(questions, questionId.value) then Failure(QuestionNotFound)
    else if HasEntry(ledger, teamId, questionId.value) then
      Failure(if kind == Usage then AlreadyUsed else AlreadySkipped)
    else Success(Entry(teamId, questionId.value, Trim(userName.value)))
  }

  /** A request carrying a question and a non-empty trimmed name passes both field checks and keeps the name. */
  lemma CheckRecordKeepsTrimmedName(kind: Ledger, teams: seq<Team>, questions: seq<Question>, ledger: seq<Entry>,
                                    teamId: Id, questionId: Id, userName: string)
    requires userName != "" && Trimmed(userName)
    ensures var c := CheckRecord(kind, teams, questions, ledger, teamId, Some(questionId), Some(userName));
            && c != Failure(QuestionIdRequired) && c != Failure(UserNameRequired)
            && (c.Success? ==> c.value.userName == userName)
  {
    assert !IsSpace(userName[0]);
    TrimOfTrimmed(userName);
  }

  /** Appending a record adds exactly its own pair to the ledger's lookups. */
  lemma HasEntrySnoc(ledger: seq<Entry>, e: Entry, teamId: Id, questionId: Id)
    ensures HasEntry(ledger + [e], teamId, questionId) <==>
      HasEntry(ledger, teamId, questionId) || (e.teamId == teamId && e.questionId == questionId)
  {
    assert e in ledger + [e];
    if HasEntry(ledger + [e], teamId, questionId) && !(e.teamId == teamId && e.questionId == questionId) {
      var x :| x in ledger + [e] && x.teamId == teamId && x.questionId == questionId;
      assert x in ledger;
    }
    if HasEntry(ledger, teamId, questionId) {
      var x :| x in ledger && x.teamId == teamId && x.questionId == questionId;
      assert x in ledger + [e];
    }
  }

  /** A recorded question leaves its team's available set; no other team's set changes. */
  lemma RecordedQuestionUnavailable(questions: seq<Question>, usage: seq<Entry>, skipped: seq<Entry>,
                                    e: Entry, teamId: Id)
    ensures Available(questions, usage + [e], skipped, teamId) ==
      if teamId == e.teamId then Filter(Available(questions, usage, skipped, teamId), (q: Question) => q.id != e.questionId)
      else Available(questions, usage, skipped, teamId)
    ensures Available(questions, usage, skipped + [e], teamId) ==
      if teamId == e.teamId then Filter(Available(questions, usage, skipped, teamId), (q: Question) => q.id != e.questionId)
      else Available(questions, usage, skipped, teamId)
  {
    var before := Open(usage, skipped, teamId);
    var used := Open(usage + [e], skipped, teamId);
    var skip := Open(usage, skipped + [e], teamId);
    var notE := (q: Question) => q.id != e.questionId;
    if teamId == e.teamId {
      forall q | q in questions
        ensures used(q) == (before(q) && notE(q)) && skip(q) == (before(q) && notE(q))
      {
        HasEntrySnoc(usage, e, teamId, q.id);
        HasEntrySnoc(skipped, e, teamId, q.id);
      }
      FilterFilter(questions, before, notE, used);
      FilterFilter(questions, before, notE, skip);
    } else {
      forall q | q in questions
        ensures used(q) == before(q) && skip(q) == before(q)
      {
        HasEntrySnoc(usage, e, teamId, q.id);
        HasEntrySnoc(skipped, e, teamId, q.id);
      }
      FilterExt(questions, used, before);
      FilterExt(questions, skip, before);
    }
  }

  // ---------------------------------------------------------------- reset and delete

  /** `deleteMany({ teamId })` on a ledger. */
  function WithoutTeam(ledger: seq<Entry>, teamId: Id): (r: seq<Entry>)
    ensures forall e :: e in r <==> e in ledger && e.teamId != teamId
  {
    Filter(ledger, (e: Entry) => e.teamId != teamId)
  }

  /** `deleteMany({ questionId })` on a ledger: the records of every team for that question. */
  function WithoutQuestionEntries(ledger: seq<Entry>, questionId: Id): (r: seq<Entry>)
    ensures forall e :: e in r <==> e in ledger && e.questionId != questionId
  {
    Filter(ledger, (e: Entry) => e.questionId != questionId)
  }

  /** `findByIdAndDelete(id)` on the question collection. */
  function WithoutQuestion(questions: seq<Question>, id: Id): (r: seq<Question>)
    ensures forall q :: q in r <==> q in questions && q.id != id
  {
    Filter(questions, (q: Question) => q.id != id)
  }

  /** Resetting a team twice is resetting it once. */
  lemma ResetIdempotent(ledger: seq<Entry>, teamId: Id)
    ensures WithoutTeam(WithoutTeam(ledger, teamId), teamId) == WithoutTeam(ledger, teamId)
  {
    FilterIdempotent(ledger, (e: Entry) => e.teamId != teamId);
  }

  /** Resetting a team keeps every record of every other team, in order. */
  lemma {:induction false} ResetKeepsOtherTeams(ledger: seq<Entry>, teamId: Id, other: Id)
    requires other != teamId
    ensures OwnEntries(WithoutTeam(ledger, teamId), other) == OwnEntries(ledger, other)
  {
    if ledger != [] {
      ResetKeepsOtherTeams(ledger[1..], teamId, other);
    }
  }

  /** After a reset every question is available to the team again. */
  lemma ResetRestoresAllQuestions(questions: seq<Question>, usage: seq<Entry>, skipped: seq<Entry>, teamId: Id)
    ensures Available(questions, WithoutTeam(usage, teamId), WithoutTeam(skipped, teamId), teamId) == questions
  {
    var r := Available(questions, WithoutTeam(usage, teamId), WithoutTeam(skipped, teamId), teamId);
    forall i | 0 <= i < |questions|
      ensures Open(WithoutTeam(usage, teamId), WithoutTeam(skipped, teamId), teamId)(questions[i])
    {
    }
  }

  /** Dropping the records of one question leaves the lookups of every other question alone. */
  lemma HasEntryWithoutQuestion(ledger: seq<Entry>, id: Id, teamId: Id, questionId: Id)
    requires questionId != id
    ensures HasEntry(WithoutQuestionEntries(ledger, id), teamId, questionId) == HasEntry(ledger, teamId, questionId)
  {
    if HasEntry(ledger, teamId, questionId) {
      var x :| x in ledger && x.teamId == teamId && x.questionId == questionId;
      assert x in WithoutQuestionEntries(ledger, id);
    }
  }

  /**
   * Deleting a question removes it from every team's available set and leaves the rest
   * of each set as it was.
   */
  lemma DeleteQuestionAvailability(questions: seq<Question>, usage: seq<Entry>, skipped: seq<Entry>,
                                   id: Id, teamId: Id)
    ensures Available(WithoutQuestion(questions, id), WithoutQuestionEntries(usage, id),
                      WithoutQuestionEntries(skipped, id), teamId)
         == Filter(Available(questions, usage, skipped, teamId), (q: Question) => q.id != id)
  {
    var notId := (q: Question) => q.id != id;
    var before := Open(usage, skipped, teamId);
    var after := Open(WithoutQuestionEntries(usage, id), WithoutQuestionEntries(skipped, id), teamId);
    var both := (q: Question) => before(q) && notId(q);
    forall q | q in questions
      ensures both(q) == (notId(q) && after(q))
    {
      if q.id != id {
        HasEntryWithoutQuestion(usage, id, teamId, q.id);
        HasEntryWithoutQuestion(skipped, id, teamId, q.id);
      }
    }
    FilterFilter(questions, notId, after, both);
    FilterFilter(questions, before, notId, both);
  }

  // ---------------------------------------------------------------- user-name suggestions

  /** Some record of the ledger for the team carries the name. */
  predicate TeamHasName(ledger: seq<Entry>, teamId: Id, name: string) {
    exists e :: e in ledger && e.teamId == teamId && e.userName == name
  }

  /** Some record of the ledger, for any team, carries the name. */
  predicate HasName(ledger: seq<Entry>, name: string) {
    exists e :: e in ledger && e.userName == name
  }

  /** `Ledger.distinct('userName')` before deduplication. */
  function Names(ledger: seq<Entry>): (r: seq<string>)
    ensures forall n :: n in r <==> HasName(ledger, n)
  {
    if ledger == [] then []
    else
      assert forall e :: e in ledger[1..] ==> e in ledger;
      [ledger[0].userName] + Names(ledger[1..])
  }

  /** GET /api/teams/:teamId/users: the team's user names from both ledgers, sorted, each once. */
  function TeamUserNames(usage: seq<Entry>, skipped: seq<Entry>, teamId: Id): (r: seq<string>)
    ensures StrictlySorted(r)
    ensures forall n :: n in r <==> TeamHasName(usage, teamId, n) || TeamHasName(skipped, teamId, n)
  {
    var own := OwnEntries(usage, teamId) + OwnEntries(skipped, teamId);
    assert forall n :: TeamHasName(usage, teamId, n) ==> HasName(OwnEntries(usage, teamId), n) by {
      forall n | TeamHasName(usage, teamId, n) ensures HasName(OwnEntries(usage, teamId), n) {
        var e :| e in usage && e.teamId == teamId && e.userName == n;
        assert e in OwnEntries(usage, teamId);
      }
    }
    assert forall n :: TeamHasName(skipped, teamId, n) ==> HasName(OwnEntries(skipped, teamId), n) by {
      forall n | TeamHasName(skipped, teamId, n) ensures HasName(OwnEntries(skipped, teamId), n) {
        var e :| e in skipped && e.teamId == teamId && e.userName == n;
        assert e in OwnEntries(skipped, teamId);
      }
    }
    SortedSet(Names(OwnEntries(usage, teamId)) + Names(OwnEntries(skipped, teamId)))
  }

  /** GET /api/users: the user names of both ledgers across all teams, sorted, each once. */
  function AllUserNames(usage: seq<Entry>, skipped: seq<Entry>): (r: seq<string>)
    ensures StrictlySorted(r)
    ensures forall n :: n in r <==> HasName(usage, n) || HasName(skipped, n)
  {
    SortedSet(Names(usage) + Names(skipped))
  }

  /** Every team-specific suggestion is also a global one. */
  lemma TeamNamesAreGlobal(usage: seq<Entry>, skipped: seq<Entry>, teamId: Id, n: string)
    requires n in TeamUserNames(usage, skipped, teamId)
    ensures n in AllUserNames(usage, skipped)
  {
  }

  // ---------------------------------------------------------------- creation

  /**
   * POST /api/teams: a missing or empty name is refused; the schema trims the name, so a
   * name of white space fails validation; a trimmed name already in use breaks the unique
   * index; the colour defaults to blue.
   */
  function NewTeam(teams: seq<Team>, name: Option<string>, color: Option<string>, id: Id): (r: Result<Team, Error>)
    ensures name.None? || name.value == "" ==> r == Failure(TeamNameRequired)
    ensures name.Some? && name.value != "" && Blank(name.value) ==> r == Failure(TeamCreateFailed)
    ensures r == Failure(TeamNameExists) <==>
      name.Some? && !Blank(name.value) && NameTaken(teams, Trim(name.value))
    ensures r.Success? <==> name.Some? && !Blank(name.value) && !NameTaken(teams, Trim(name.value))
    ensures r.Success? ==> r.value.id == id && r.value.name == Trim(name.value)
    ensures r.Success? ==> r.value.color == (if color.None? || color.value == "" then DefaultColor else color.value)
  {
    if name.None? || name.value == "" then Failure(TeamNameRequired)
    else
      var stored := Trim(name.value);
      if stored == "" then Failure(TeamCreateFailed)
      else if NameTaken(teams, stored) then Failure(TeamNameExists)
      else Success(Team(id, stored, if color.None? || color.value == "" then DefaultColor else color.value))
  }

  /**
   * POST /api/admin/questions: a missing or empty text is refused; category and difficulty
   * default to `general` and `medium`; a text of white space (trimmed by the schema) or a
   * value outside an enum fails validation.
   */
  function NewQuestion(text: Option<string>, category: Option<string>, difficulty: Option<string>, id: Id)
    : (r: Result<Question, Error>)
    ensures text.None? || text.value == "" ==> r == Failure(QuestionTextRequired)
    ensures r.Success? <==>
      && text.Some? && !Blank(text.value)
      && (category.None? || category.value == "" || ParseCategory(category.value).Some?)
      && (difficulty.None? || difficulty.value == "" || ParseDifficulty(difficulty.value).Some?)
    ensures r.Failure? && text.Some? && text.value != "" ==> r.error == QuestionAddFailed
    ensures r.Success? ==> r.value.id == id && r.value.text == Trim(text.value)
    ensures r.Success? && (category.None? || category.value == "") ==> r.value.category == General
    ensures r.Success? && (difficulty.None? || difficulty.value == "") ==> r.value.difficulty == Medium
    ensures r.Success? && category.Some? && category.value != "" ==> Some(r.value.category) == ParseCategory(category.value)
    ensures r.Success? && difficulty.Some? && difficulty.value != "" ==>
      Some(r.value.difficulty) == ParseDifficulty(difficulty.value)
  {
    if text.None? || text.value == "" then Failure(QuestionTextRequired)
    else
      // the schema defaults `general` and `medium`
      var c := if category.None? || category.value == "" then Some(General) else ParseCategory(category.value);
      var d := if difficulty.None? || difficulty.value == "" then Some(Medium) else ParseDifficulty(difficulty.value);
      var stored := Trim(text.value);
      if stored == "" || c.None? || d.None? then Failure(QuestionAddFailed)
      else Success(Question(id, stored, c.value, d.value))
  }

  /** GET /api/teams/:teamId/question refuses with one of its own two replies. */
  lemma SelectRepliesOf(teams: seq<Team>, questions: seq<Question>, usage: seq<Entry>,
                        skipped: seq<Entry>, teamId: Id, draw: real)
    requires 0.0 <= draw < 1.0
    ensures var r := SelectQuestion(teams, questions, usage, skipped, teamId, draw);
            r.Failure? ==> Reply(r.error) in SelectReplies
  {
  }

  /** The use and skip routes refuse with their own replies, each naming its own ledger. */
  lemma RecordRepliesOf(kind: Ledger, teams: seq<Team>, questions: seq<Question>, ledger: seq<Entry>,
                        teamId: Id, questionId: Option<Id>, userName: Option<string>)
    ensures var r := CheckRecord(kind, teams, questions, ledger, teamId, questionId, userName);
            r.Failure? ==> Reply(r.error) in (if kind == Usage then UseReplies else SkipReplies)
  {
  }

  /** POST /api/teams refuses with one of its three replies. */
  lemma TeamRepliesOf(teams: seq<Team>, name: Option<string>, color: Option<string>, id: Id)
    ensures var r := NewTeam(teams, name, color, id);
            r.Failure? ==> Reply(r.error) in TeamReplies
  {
  }

  /** POST /api/admin/questions refuses with one of its two replies. */
  lemma QuestionRepliesOf(text: Option<string>, category: Option<string>, difficulty: Option<string>, id: Id)
    ensures var r := NewQuestion(text, category, difficulty, id);
            r.Failure? ==> Reply(r.error) in QuestionReplies
  {
  }
  // ---------------------------------------------------------------- collection invariants

  predicate UniqueQuestionIds(questions: seq<Question>) {
    forall i, j :: 0 <= i < j < |questions| ==> questions[i].id != questions[j].id
  }

  predicate UniqueTeams(teams: seq<Team>) {
    forall i, j :: 0 <= i < j < |teams| ==> teams[i].id != teams[j].id && teams[i].name != teams[j].name
  }

  /** The unique index on (teamId, questionId): at most one record per pair. */
  predicate OnePerPair(ledger: seq<Entry>) {
    && NoDuplicates(ledger)
    && forall a, b :: a in ledger && b in ledger && a.teamId == b.teamId && a.questionId == b.questionId ==> a == b
  }

  /** Every record names an existing team and question, and a trimmed, non-blank user. */
  predicate WellFormedLedger(ledger: seq<Entry>, teams: seq<Team>, questions: seq<Question>) {
    forall e :: e in ledger ==>
      HasTeam(teams, e.teamId) && HasQuestion(questions, e.questionId)
      && e.userName != "" && Trimmed(e.userName)
  }

  /** A successful check yields a record that keeps the ledger one-per-pair and well formed. */
  lemma CheckedRecordKeepsLedger(kind: Ledger, teams: seq<Team>, questions: seq<Question>, ledger: seq<Entry>,
                                 teamId: Id, questionId: Option<Id>, userName: Option<string>)
    requires OnePerPair(ledger) && WellFormedLedger(ledger, teams, questions)
    requires CheckRecord(kind, teams, questions, ledger, teamId, questionId, userName).Success?
    ensures var e := CheckRecord(kind, teams, questions, ledger, teamId, questionId, userName).value;
      OnePerPair(ledger + [e]) && WellFormedLedger(ledger + [e], teams, questions)
  {
    var e := CheckRecord(kind, teams, questions, ledger, teamId, questionId, userName).value;
    assert e.teamId == teamId && e.questionId == questionId.value && e.userName == Trim(userName.value);
    NewRecordKeepsLedger(teams, questions, ledger, e);
  }

  /** A record for a new pair, naming an existing team and question and a trimmed user, keeps the invariants. */
  lemma NewRecordKeepsLedger(teams: seq<Team>, questions: seq<Question>, ledger: seq<Entry>, e: Entry)
    requires OnePerPair(ledger) && WellFormedLedger(ledger, teams, questions)
    requires !HasEntry(ledger, e.teamId, e.questionId)
    requires HasTeam(teams, e.teamId) && HasQuestion(questions, e.questionId)
    requires e.userName != "" && Trimmed(e.userName)
    ensures OnePerPair(ledger + [e]) && WellFormedLedger(ledger + [e], teams, questions)
  {
    assert e !in ledger;
    NoDuplicatesSnoc(ledger, e);
    forall a, b | a in ledger + [e] && b in ledger + [e] && a.teamId == b.teamId && a.questionId == b.questionId
      ensures a == b
    {
      assert a in ledger || a == e;
      assert b in ledger || b == e;
    }
    forall x | x in ledger + [e]
      ensures HasTeam(teams, x.teamId) && HasQuestion(questions, x.questionId)
      ensures x.userName != "" && Trimmed(x.userName)
    {
      assert x in ledger || x == e;
    }
  }

  // ---------------------------------------------------------------- the database

  /** The four collections, changed in place by the handlers. */
  class Database {
    var questions: seq<Question>
    var teams: seq<Team>
    var usage: seq<Entry>
    var skipped: seq<Entry>

    ghost predicate Valid()
      reads this
    {
      Consistent(questions, teams, usage, skipped)
    }

    constructor ()
      ensures Valid()
      ensures questions == [] && teams == [] && usage == [] && skipped == []
    {
      questions, teams, usage, skipped := [], [], [], [];
    }

    /** GET /api/teams/:teamId/question, with the value of `Math.random()` as `draw`. */
    method GetQuestion(teamId: Id, draw: real) returns (r: Result<Question, Error>)
      requires 0.0 <= draw < 1.0
      ensures r == SelectQuestion(teams, questions, usage, skipped, teamId, draw)
    {
      r := SelectQuestion(teams, questions, usage, skipped, teamId, draw);
    }

    /** POST /api/teams/:teamId/use-question. */
    method UseQuestion(teamId: Id, questionId: Option<Id>, userName: Option<string>) returns (r: Outcome)
      requires Valid()
      modifies this
      ensures Valid()
      ensures var c := CheckRecord(Usage, old(teams), old(questions), old(usage), teamId, questionId, userName);
        && (r == if c.Success? then Pass else Fail(c.error))
        && usage == (if c.Success? then old(usage) + [c.value] else old(usage))
      ensures skipped == old(skipped) && questions == old(questions) && teams == old(teams)
    {
      var c := CheckRecord(Usage, teams, questions, usage, teamId, questionId, userName);
      UseKeepsConsistent(questions, teams, usage, skipped, teamId, questionId, userName);
      if c.Success? {
        usage := usage + [c.value];
        r := Pass;
      } else {
        r := Fail(c.error);
      }
    }

    /** POST /api/teams/:teamId/skip-question: the mirror of `UseQuestion` on the skip ledger. */
    method SkipQuestion(teamId: Id, questionId: Option<Id>, userName: Option<string>) returns (r: Outcome)
      requires Valid()
      modifies this
      ensures Valid()
      ensures var c := CheckRecord(Skips, old(teams), old(questions), old(skipped), teamId, questionId, userName);
        && (r == if c.Success? then Pass else Fail(c.error))
        && skipped == (if c.Success? then old(skipped) + [c.value] else old(skipped))
      ensures usage == old(usage) && questions == old(questions) && teams == old(teams)
    {
      var c := CheckRecord(Skips, teams, questions, skipped, teamId, questionId, userName);
      SkipKeepsConsistent(questions, teams, usage, skipped, teamId, questionId, userName);
      if c.Success? {
        skipped := skipped + [c.value];
        r := Pass;
      } else {
        r := Fail(c.error);
      }
    }

    /** GET /api/teams/:teamId/users. */
    method TeamUsers(teamId: Id) returns (names: seq<string>)
      ensures names == TeamUserNames(usage, skipped, teamId)
    {
      names := TeamUserNames(usage, skipped, teamId);
    }

    /** GET /api/users. */
    method AllUsers() returns (names: seq<string>)
      ensures names == AllUserNames(usage, skipped)
    {
      names := AllUserNames(usage, skipped);
    }

    /** POST /api/admin/teams/:teamId/reset. */
    method ResetTeam(teamId: Id) returns (r: Outcome)
      requires Valid()
      modifies this
      ensures Valid()
      ensures r == if HasTeam(old(teams), teamId) then Pass else Fail(TeamNotFound)
      ensures r.Fail? ==> Reply(r.error) == (404, "Team not found")
      ensures usage == if r.Pass? then WithoutTeam(old(usage), teamId) else old(usage)
      ensures skipped == if r.Pass? then WithoutTeam(old(skipped), teamId) else old(skipped)
      ensures questions == old(questions) && teams == old(teams)
    {
      if !HasTeam(teams, teamId) {
        r := Fail(TeamNotFound);
        return;
      }
      ResetKeepsConsistent(questions, teams, usage, skipped, teamId);
      usage := WithoutTeam(usage, teamId);
      skipped := WithoutTeam(skipped, teamId);
      r := Pass;
    }

    /** DELETE /api/admin/questions/:id, with the cascade over both ledgers. */
    method DeleteQuestion(id: Id) returns (r: Outcome)
      requires Valid()
      modifies this
      ensures Valid()
      ensures r == if HasQuestion(old(questions), id) then Pass else Fail(QuestionNotFound)
      ensures r.Fail? ==> Reply(r.error) == (404, "Question not found")
      ensures questions == if r.Pass? then WithoutQuestion(old(questions), id) else old(questions)
      ensures usage == if r.Pass? then WithoutQuestionEntries(old(usage), id) else old(usage)
      ensures skipped == if r.Pass? then WithoutQuestionEntries(old(skipped), id) else old(skipped)
      ensures teams == old(teams)
    {
      if !HasQuestion(questions, id) {
        r := Fail(QuestionNotFound);
        return;
      }
      DeleteKeepsConsistent(questions, teams, usage, skipped, id);
      var remaining, u, s := WithoutQuestion(questions, id), WithoutQuestionEntries(usage, id),
                             WithoutQuestionEntries(skipped, id);
      questions, usage, skipped := remaining, u, s;
      r := Pass;
    }

    /** POST /api/teams; `id` is the fresh ObjectId the driver assigns. */
    method CreateTeam(name: Option<string>, color: Option<string>, id: Id) returns (r: Result<Team, Error>)
      requires Valid()
      requires !HasTeam(teams, id)
      modifies this
      ensures Valid()
      ensures r == NewTeam(old(teams), name, color, id)
      ensures teams == if r.Success? then old(teams) + [r.value] else old(teams)
      ensures questions == old(questions) && usage == old(usage) && skipped == old(skipped)
    {
      r := NewTeam(teams, name, color, id);
      NewTeamKeepsConsistent(questions, teams, usage, skipped, name, color, id);
      if r.Success? {
        teams := teams + [r.value];
      }
    }

    /** POST /api/admin/questions; `id` is the fresh ObjectId the driver assigns. */
    method CreateQuestion(text: Option<string>, category: Option<string>, difficulty: Option<string>, id: Id)
      returns (r: Result<Question, Error>)
      requires Valid()
      requires !HasQuestion(questions, id)
      modifies this
      ensures Valid()
      ensures r == NewQuestion(text, category, difficulty, id)
      ensures questions == if r.Success? then old(questions) + [r.value] else old(questions)
      ensures teams == old(teams) && usage == old(usage) && skipped == old(skipped)
    {
      r := NewQuestion(text, category, difficulty, id);
      NewQuestionKeepsConsistent(questions, teams, usage, skipped, text, category, difficulty, id);
      if r.Success? {
        questions := questions + [r.value];
      }
    }
  }

  // ---------------------------------------------------------------- the invariant kept by every route

  /** The database invariant over the four collections. */
  ghost predicate Consistent(questions: seq<Question>, teams: seq<Team>, usage: seq<Entry>, skipped: seq<Entry>) {
    && UniqueQuestionIds(questions) && UniqueTeams(teams)
    && OnePerPair(usage) && OnePerPair(skipped)
    && WellFormedLedger(usage, teams, questions) && WellFormedLedger(skipped, teams, questions)
  }

  /** Recording a use the route accepts keeps the invariant. */
  lemma UseKeepsConsistent(questions: seq<Question>, teams: seq<Team>, usage: seq<Entry>, skipped: seq<Entry>,
                           teamId: Id, questionId: Option<Id>, userName: Option<string>)
    requires Consistent(questions, teams, usage, skipped)
    ensures var c := CheckRecord(Usage, teams, questions, usage, teamId, questionId, userName);
      Consistent(questions, teams, if c.Success? then usage + [c.value] else usage, skipped)
  {
    var c := CheckRecord(Usage, teams, questions, usage, teamId, questionId, userName);
    if c.Success? {
      CheckedRecordKeepsLedger(Usage, teams, questions, usage, teamId, questionId, userName);
    }
  }

  /** Recording a skip the route accepts keeps the invariant. */
  lemma SkipKeepsConsistent(questions: seq<Question>, teams: seq<Team>, usage: seq<Entry>, skipped: seq<Entry>,
                            teamId: Id, questionId: Option<Id>, userName: Option<string>)
    requires Consistent(questions, teams, usage, skipped)
    ensures var c := CheckRecord(Skips, teams, questions, skipped, teamId, questionId, userName);
      Consistent(questions, teams, usage, if c.Success? then skipped + [c.value] else skipped)
  {
    var c := CheckRecord(Skips, teams, questions, skipped, teamId, questionId, userName);
    if c.Success? {
      CheckedRecordKeepsLedger(Skips, teams, questions, skipped, teamId, questionId, userName);
    }
  }

  /** Removing a team's records keeps the invariant. */
  lemma ResetKeepsConsistent(questions: seq<Question>, teams: seq<Team>, usage: seq<Entry>, skipped: seq<Entry>,
                             teamId: Id)
    requires Consistent(questions, teams, usage, skipped)
    ensures Consistent(questions, teams, WithoutTeam(usage, teamId), WithoutTeam(skipped, teamId))
  {
    FilterNoDuplicates(usage, (e: Entry) => e.teamId != teamId);
    FilterNoDuplicates(skipped, (e: Entry) => e.teamId != teamId);
  }

  /** Removing a question together with its records keeps the invariant. */
  lemma DeleteKeepsConsistent(questions: seq<Question>, teams: seq<Team>, usage: seq<Entry>, skipped: seq<Entry>,
                              id: Id)
    requires Consistent(questions, teams, usage, skipped)
    ensures Consistent(WithoutQuestion(questions, id), teams, WithoutQuestionEntries(usage, id),
                       WithoutQuestionEntries(skipped, id))
  {
    var keep := (q: Question) => q.id != id;
    var remaining := WithoutQuestion(questions, id);
    assert UniqueQuestionIds(remaining) by {
      FilterKeepsUniqueIds(questions, keep);
    }
    FilterNoDuplicates(usage, (e: Entry) => e.questionId != id);
    FilterNoDuplicates(skipped, (e: Entry) => e.questionId != id);
    var u, s := WithoutQuestionEntries(usage, id), WithoutQuestionEntries(skipped, id);
    forall e | e in u ensures HasQuestion(remaining, e.questionId) {
      var q :| q in questions && q.id == e.questionId;
      assert q in remaining;
    }
    forall e | e in s ensures HasQuestion(remaining, e.questionId) {
      var q :| q in questions && q.id == e.questionId;
      assert q in remaining;
    }
  }

  /** Adding the team the route accepts keeps the invariant. */
  lemma NewTeamKeepsConsistent(questions: seq<Question>, teams: seq<Team>, usage: seq<Entry>, skipped: seq<Entry>,
                               name: Option<string>, color: Option<string>, id: Id)
    requires Consistent(questions, teams, usage, skipped) && !HasTeam(teams, id)
    ensures var r := NewTeam(teams, name, color, id);
      Consistent(questions, if r.Success? then teams + [r.value] else teams, usage, skipped)
  {
    var r := NewTeam(teams, name, color, id);
    if r.Success? {
      AddTeamKeepsInvariants(teams, questions, usage, skipped, r.value);
    }
  }

  /** Adding the question the route accepts keeps the invariant. */
  lemma NewQuestionKeepsConsistent(questions: seq<Question>, teams: seq<Team>, usage: seq<Entry>,
                                   skipped: seq<Entry>, text: Option<string>, category: Option<string>,
                                   difficulty: Option<string>, id: Id)
    requires Consistent(questions, teams, usage, skipped) && !HasQuestion(questions, id)
    ensures var r := NewQuestion(text, category, difficulty, id);
      Consistent(if r.Success? then questions + [r.value] else questions, teams, usage, skipped)
  {
    var r := NewQuestion(text, category, difficulty, id);
    if r.Success? {
      AddQuestionKeepsInvariants(teams, questions, usage, skipped, r.value);
    }
  }

  /** A team with a new id and a new name keeps the teams unique and every record valid. */
  lemma AddTeamKeepsInvariants(teams: seq<Team>, questions: seq<Question>, usage: seq<Entry>, skipped: seq<Entry>,
                               t: Team)
    requires UniqueTeams(teams) && !HasTeam(teams, t.id) && !NameTaken(teams, t.name)
    requires WellFormedLedger(usage, teams, questions) && WellFormedLedger(skipped, teams, questions)
    ensures UniqueTeams(teams + [t])
    ensures WellFormedLedger(usage, teams + [t], questions) && WellFormedLedger(skipped, teams + [t], questions)
  {
    forall i | 0 <= i < |teams| ensures teams[i].id != t.id && teams[i].name != t.name {
      assert teams[i] in teams;
    }
    WellFormedGrows(usage, teams, questions, teams + [t], questions);
    WellFormedGrows(skipped, teams, questions, teams + [t], questions);
  }

  /** A question with a new id keeps the ids unique and every record valid. */
  lemma AddQuestionKeepsInvariants(teams: seq<Team>, questions: seq<Question>, usage: seq<Entry>,
                                   skipped: seq<Entry>, q: Question)
    requires UniqueQuestionIds(questions) && !HasQuestion(questions, q.id)
    requires WellFormedLedger(usage, teams, questions) && WellFormedLedger(skipped, teams, questions)
    ensures UniqueQuestionIds(questions + [q])
    ensures WellFormedLedger(usage, teams, questions + [q]) && WellFormedLedger(skipped, teams, questions + [q])
  {
    forall i | 0 <= i < |questions| ensures questions[i].id != q.id {
      assert questions[i] in questions;
    }
    WellFormedGrows(usage, teams, questions, teams, questions + [q]);
    WellFormedGrows(skipped, teams, questions, teams, questions + [q]);
  }

  /** Adding teams or questions keeps every record's references valid. */
  lemma WellFormedGrows(ledger: seq<Entry>, teams: seq<Team>, questions: seq<Question>,
                        teams': seq<Team>, questions': seq<Question>)
    requires WellFormedLedger(ledger, teams, questions)
    requires forall t :: t in teams ==> t in teams'
    requires forall q :: q in questions ==> q in questions'
    ensures WellFormedLedger(ledger, teams', questions')
  {
    forall e | e in ledger ensures HasTeam(teams', e.teamId) && HasQuestion(questions', e.questionId) {
      var t :| t in teams && t.id == e.teamId;
      var q :| q in questions && q.id == e.questionId;
      assert t in teams' && q in questions';
    }
  }

  /** Removing questions keeps their ids unique. */
  lemma {:induction false} FilterKeepsUniqueIds(questions: seq<Question>, p: Question -> bool)
    requires UniqueQuestionIds(questions)
    ensures UniqueQuestionIds(Filter(questions, p))
  {
    if questions != [] {
      var rest := questions[1..];
      assert UniqueQuestionIds(rest);
      FilterKeepsUniqueIds(rest, p);
      forall q | q in Filter(rest, p) ensures q.id != questions[0].id {
        var k :| 0 <= k < |rest| && rest[k] == q;
        assert questions[k + 1] == q;
      }
    }
  }
}
