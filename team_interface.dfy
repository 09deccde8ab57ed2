/**
 * The team screen: the eight pieces of component state and the handlers that change
 * them. Each request to the backend is answered by a parameter saying how it ended, and
 * a handler that awaits a request continues with that answer.
 */
module TeamScreen {
  import opened Wrappers
  import opened Seqs
  import opened Text
  import opened Server

  /** How an axios request ended: with the response body, with an error status, or without a response. */
  datatype Reply<T> = Ok(data: T) | HttpError(status: nat) | NoResponse

  // ---------------------------------------------------------------- suggestions

  /**
   * `[...new Set([...teamUsers, ...allUsers])]`: the team's own names first, in their
   * order, then the global names the team does not have, each name once.
   */
  function MergeSuggestions(team: seq<string>, global: seq<string>): (r: seq<string>)
    ensures NoDuplicates(r)
    ensures forall n :: n in r <==> n in team || n in global
    ensures r == Distinct(team) + Filter(Distinct(global), NotIn(team))
  {
    DistinctAppend(team, global);
    Distinct(team + global)
  }

  /**
   * The server lists each name once and every team name is also a global one, so the
   * merged list is the team's names as sent followed by the other global names in order.
   */
  lemma MergedServerSuggestions(usage: seq<Entry>, skipped: seq<Entry>, teamId: Id)
    ensures var team := TeamUserNames(usage, skipped, teamId);
            var global := AllUserNames(usage, skipped);
            && MergeSuggestions(team, global) == team + Filter(global, NotIn(team))
            && forall n :: n in MergeSuggestions(team, global) <==> n in global
  {
    var team := TeamUserNames(usage, skipped, teamId);
    var global := AllUserNames(usage, skipped);
    StrictlySortedNoDuplicates(team);
    StrictlySortedNoDuplicates(global);
    forall n | n in team ensures n in global {
      TeamNamesAreGlobal(usage, skipped, teamId, n);
    }
    MergeSubset(team, global);
  }

  /** Merging a duplicate-free list into a duplicate-free list that already holds all of it. */
  lemma MergeSubset(team: seq<string>, global: seq<string>)
    requires NoDuplicates(team) && NoDuplicates(global)
    requires forall n :: n in team ==> n in global
    ensures MergeSuggestions(team, global) == team + Filter(global, NotIn(team))
    ensures forall n :: n in MergeSuggestions(team, global) <==> n in global
  {
    DistinctOfNoDuplicates(team);
    DistinctOfNoDuplicates(global);
  }

  /** A strictly sorted list has no name twice. */
  lemma StrictlySortedNoDuplicates(s: seq<string>)
    requires StrictlySorted(s)
    ensures NoDuplicates(s)
  {
    forall i, j | 0 <= i < j < |s| ensures s[i] != s[j] {
      StrictlySortedLess(s, i, j);
      StrLessIrreflexive(s[i]);
    }
  }

  /** In a strictly sorted list every earlier name is below every later one. */
  lemma {:induction false} StrictlySortedLess(s: seq<string>, i: nat, j: nat)
    requires StrictlySorted(s) && i < j < |s|
    ensures StrLess(s[i], s[j])
    decreases j - i
  {
    if i + 1 < j {
      StrictlySortedLess(s, i + 1, j);
      StrLessTransitive(s[i], s[i + 1], s[j]);
    }
  }

  /** At most this many suggestions are listed. */
  const MaxSuggestions: nat := 5

  /** The suggestions that contain the typed name, both lower-cased. */
  function Matches(userName: string): string -> bool {
    (n: string) => Includes(ToLower(n), ToLower(userName))
  }

  /**
   * The dropdown under the name field. It belongs to the name-entry card, so it is drawn
   * only while a team is selected and the name is blank, and then only when
   * `showSuggestions` is set and there are suggestions at all (so it can be drawn with no
   * entry). It lists the first five suggestions that match, in merged order.
   */
  function Dropdown(selectedTeam: Option<Team>, suggestions: seq<string>, userName: string, show: bool): (r: Option<seq<string>>)
    ensures r.Some? <==> ViewOf(selectedTeam, userName) == NameEntry && show && |suggestions| > 0
    ensures r.Some? ==> r.value == Take(Filter(suggestions, Matches(userName)), MaxSuggestions)
    ensures r.Some? ==> forall n :: n in r.value ==> n in suggestions && Includes(ToLower(n), ToLower(userName))
  {
    if ViewOf(selectedTeam, userName) == NameEntry && show && |suggestions| > 0 then
      Some(Take(Filter(suggestions, Matches(userName)), MaxSuggestions))
    else
      None
  }

  /**
   * A drawn dropdown means the name is blank, so the case-insensitive filter only ever
   * sees an empty or white-space name; once the name is not blank the question panel
   * replaces the card and no dropdown is drawn.
   */
  lemma DropdownOnlyForBlankName(selectedTeam: Option<Team>, suggestions: seq<string>, userName: string, show: bool)
    ensures Dropdown(selectedTeam, suggestions, userName, show).Some? ==> selectedTeam.Some? && Blank(userName)
    ensures !Blank(userName) ==> Dropdown(selectedTeam, suggestions, userName, show).None?
  {
  }

  /** An empty name is contained in every suggestion. */
  lemma EmptyNameMatches(n: string)
    ensures Matches("")(n)
  {
    assert ToLower("") == "";
    assert StartsWith(ToLower(n), "");
  }

  /** An empty name is contained in every suggestion, so it lists the first five of them. */
  lemma EmptyNameListsFirstSuggestions(team: Team, suggestions: seq<string>)
    requires |suggestions| > 0
    ensures Dropdown(Some(team), suggestions, "", true) == Some(Take(suggestions, MaxSuggestions))
  {
    assert ViewOf(Some(team), "") == NameEntry by {
      assert Blank("");
    }
    assert Filter(suggestions, Matches("")) == suggestions by {
      forall i | 0 <= i < |suggestions| ensures Matches("")(suggestions[i]) {
        EmptyNameMatches(suggestions[i]);
      }
    }
  }

  // ---------------------------------------------------------------- use and skip

  /** The body of POST /use-question and /skip-question, for the team in the URL. */
  datatype RecordRequest = RecordRequest(teamId: Id, questionId: Id, userName: string)

  /**
   * The guard of `handleUseQuestion` and `handleSkipQuestion`: a request is sent only with
   * a current question, a selected team and a name that is not blank, and it carries the
   * trimmed name.
   */
  function RecordFor(team: Option<Team>, question: Option<Question>, userName: string): (r: Option<RecordRequest>)
    ensures r.Some? <==> team.Some? && question.Some? && !Blank(userName)
    ensures r.Some? ==> r.value.teamId == team.value.id && r.value.questionId == question.value.id
    ensures r.Some? ==> r.value.userName == Trim(userName)
    ensures r.Some? ==> r.value.userName != "" && Trimmed(r.value.userName)
  {
    if team.Some? && question.Some? && Trim(userName) != "" then
      Some(RecordRequest(team.value.id, question.value.id, Trim(userName)))
    else
      None
  }

  /**
   * A request the screen sends always passes the server's two field checks, and when the
   * server stores it, the stored name is the one sent.
   */
  lemma ServerKeepsSentName(kind: Ledger, teams: seq<Team>, questions: seq<Question>, ledger: seq<Entry>,
                            team: Option<Team>, question: Option<Question>, userName: string)
    requires RecordFor(team, question, userName).Some?
    ensures var q := RecordFor(team, question, userName).value;
            var c := CheckRecord(kind, teams, questions, ledger, q.teamId, Some(q.questionId), Some(q.userName));
            && c != Failure(QuestionIdRequired) && c != Failure(UserNameRequired)
            && (c.Success? ==> c.value.userName == q.userName)
  {
    var q := RecordFor(team, question, userName).value;
    CheckRecordKeepsTrimmedName(kind, teams, questions, ledger, q.teamId, q.questionId, q.userName);
  }

  // ---------------------------------------------------------------- views

  /** The three panels of the screen. */
  datatype View = TeamPicker | NameEntry | QuestionPanel

  /**
   * The conditions on the three panels: the picker without a team, name entry while
   * the name is blank, the question panel once it is not; the three exclude each other.
   */
  function ViewOf(selectedTeam: Option<Team>, userName: string): (v: View)
    ensures v == TeamPicker <==> selectedTeam.None?
    ensures v == NameEntry <==> selectedTeam.Some? && Blank(userName)
    ensures v == QuestionPanel <==> selectedTeam.Some? && !Blank(userName)
  {
    if selectedTeam.None? then TeamPicker
    else if Trim(userName) == "" then NameEntry
    else QuestionPanel
  }

  /** Use and skip send a request only from the question panel. */
  lemma RecordOnlyFromPanel(team: Option<Team>, question: Option<Question>, userName: string)
    requires RecordFor(team, question, userName).Some?
    ensures ViewOf(team, userName) == QuestionPanel
  {
  }

  // ---------------------------------------------------------------- fetching a question

  /** The message for a question request that failed. */
  const NoMoreQuestions: string :=
    "No more questions available for this team! All questions have been used or skipped."

  /** The message a failed question request leaves: a 404 means the team has run out. */
  function QuestionError(reply: Reply<Question>): (m: string)
    requires !reply.Ok?
    ensures m == NoMoreQuestions <==> reply.HttpError? && reply.status == 404
  {
    if reply.HttpError? && reply.status == 404 then NoMoreQuestions
    else "Failed to get a new question"
  }

  /**
   * The server refuses a question exactly when the team is unknown or has no question
   * left, both times with 404, so the screen shows the exhaustion message either way.
   */
  lemma ExhaustedTeamMessage(teams: seq<Team>, questions: seq<Question>, usage: seq<Entry>,
                             skipped: seq<Entry>, teamId: Id, draw: real)
    requires 0.0 <= draw < 1.0
    ensures var r := SelectQuestion(teams, questions, usage, skipped, teamId, draw);
            r.Failure? <==> !HasTeam(teams, teamId) || Available(questions, usage, skipped, teamId) == []
    ensures var r := SelectQuestion(teams, questions, usage, skipped, teamId, draw);
            r.Failure? ==> QuestionError(HttpError(Status(r.error))) == NoMoreQuestions
  {
  }

  // ---------------------------------------------------------------- the component

  /** The eight state values, read together. */
  datatype ScreenState = ScreenState(teams: seq<Team>, selectedTeam: Option<Team>, userName: string,
                                     userSuggestions: seq<string>, showSuggestions: bool,
                                     currentQuestion: Option<Question>, loading: bool, error: string)

  /** The `TeamInterface` component. */
  class TeamInterface {
    var teams: seq<Team>
    var selectedTeam: Option<Team>
    var userName: string
    var userSuggestions: seq<string>
    var showSuggestions: bool
    var currentQuestion: Option<Question>
    var loading: bool
    var error: string

    /** All eight values. */
    function State(): ScreenState
      reads this
    {
      ScreenState(teams, selectedTeam, userName, userSuggestions, showSuggestions, currentQuestion, loading, error)
    }

    /** The panel being drawn. */
    function Screen(): View
      reads this
    {
      ViewOf(selectedTeam, userName)
    }

    /** The initial values of the eight `useState` calls: the team picker with nothing loaded. */
    constructor ()
      ensures State() == ScreenState([], None, "", [], false, None, false, "")
      ensures Screen() == TeamPicker
    {
      teams, selectedTeam, userName, userSuggestions := [], None, "", [];
      showSuggestions, currentQuestion, loading, error := false, None, false, "";
    }

    /** `fetchTeams`: the list replaces the old one; a failure only sets the error. */
    method TeamsFetched(reply: Reply<seq<Team>>)
      modifies this
      ensures reply.Ok? ==> State() == old(State()).(teams := reply.data)
      ensures !reply.Ok? ==> State() == old(State()).(error := "Failed to load teams")
    {
      if reply.Ok? {
        teams := reply.data;
      } else {
        error := "Failed to load teams";
      }
    }

    /**
     * `selectTeam`: the team is set and the name, the question and the error are cleared,
     * which shows name entry; the suggestions are then the merged lists, or none when
     * either request fails. `showSuggestions` keeps its value.
     */
    method SelectTeam(team: Team, suggestions: Option<(seq<string>, seq<string>)>)
      modifies this
      ensures State() == old(State()).(selectedTeam := Some(team), userName := "", currentQuestion := None,
                                       error := "", userSuggestions := SuggestionsOf(suggestions))
      ensures Screen() == NameEntry
    {
      selectedTeam := Some(team);
      userName := "";
      currentQuestion := None;
      error := "";
      SuggestionsFetched(suggestions);
    }

    /** `fetchUserSuggestions`: the merged lists when both requests succeed, else none. */
    method SuggestionsFetched(suggestions: Option<(seq<string>, seq<string>)>)
      modifies this
      ensures State() == old(State()).(userSuggestions := SuggestionsOf(suggestions))
    {
      match suggestions {
        case Some((team, global)) =>
          userSuggestions := MergeSuggestions(team, global);
        case None =>
          userSuggestions := [];
      }
    }

    /** `handleUserNameChange`: the field text, with the dropdown open exactly when it is not empty. */
    method HandleUserNameChange(value: string)
      modifies this
      ensures State() == old(State()).(userName := value, showSuggestions := |value| > 0)
      ensures !Blank(value) ==> Screen() == QuestionPanel || Screen() == TeamPicker
      ensures !Blank(value) ==> Dropdown(selectedTeam, userSuggestions, userName, showSuggestions).None?
    {
      userName := value;
      showSuggestions := |value| > 0;
    }

    /** `selectUserSuggestion`: the name becomes the suggestion and the dropdown closes. */
    method SelectUserSuggestion(suggestion: string)
      modifies this
      ensures State() == old(State()).(userName := suggestion, showSuggestions := false)
      ensures Dropdown(selectedTeam, userSuggestions, userName, showSuggestions).None?
    {
      userName := suggestion;
      showSuggestions := false;
    }

    /** `handleUserNameSubmit`: closes the dropdown when the name is not blank. */
    method HandleUserNameSubmit()
      modifies this
      ensures !Blank(old(userName)) ==> State() == old(State()).(showSuggestions := false)
      ensures Blank(old(userName)) ==> State() == old(State())
    {
      if Trim(userName) != "" {
        showSuggestions := false;
      }
    }

    /** "Change User": back to name entry. */
    method ChangeUser()
      modifies this
      ensures State() == old(State()).(userName := "")
      ensures old(selectedTeam).Some? ==> Screen() == NameEntry
      ensures old(selectedTeam).Some? && showSuggestions && |userSuggestions| > 0 ==>
        Dropdown(selectedTeam, userSuggestions, userName, showSuggestions) == Some(Take(userSuggestions, MaxSuggestions))
    {
      userName := "";
      if selectedTeam.Some? && |userSuggestions| > 0 {
        EmptyNameListsFirstSuggestions(selectedTeam.value, userSuggestions);
      }
    }

    /** "Change Team": back to the team picker; the rest of the state stays as it was. */
    method ChangeTeam()
      modifies this
      ensures State() == old(State()).(selectedTeam := None)
      ensures Screen() == TeamPicker
    {
      selectedTeam := None;
    }

    /**
     * The part of `fetchNewQuestion` before the request: nothing without a team;
     * otherwise loading starts and the error is cleared.
     */
    method BeginQuestionFetch() returns (started: bool)
      modifies this
      ensures started <==> old(selectedTeam).Some?
      ensures started ==> State() == old(State()).(loading := true, error := "")
      ensures !started ==> State() == old(State())
    {
      if selectedTeam.None? {
        return false;
      }
      loading := true;
      error := "";
      started := true;
    }

    /**
     * The part of `fetchNewQuestion` after the request: the question is shown, or it is
     * cleared and the error says why; loading stops either way.
     */
    method QuestionFetched(reply: Reply<Question>)
      modifies this
      ensures reply.Ok? ==> State() == old(State()).(currentQuestion := Some(reply.data), loading := false)
      ensures !reply.Ok? ==>
                State() == old(State()).(currentQuestion := None, error := QuestionError(reply), loading := false)
    {
      if reply.Ok? {
        currentQuestion := Some(reply.data);
      } else {
        error := QuestionError(reply);
        currentQuestion := None;
      }
      loading := false;
    }

    /** `fetchNewQuestion`, answered by `reply`. */
    method FetchNewQuestion(reply: Reply<Question>)
      modifies this
      ensures old(selectedTeam).None? ==> State() == old(State())
      ensures old(selectedTeam).Some? ==> State() == FetchedState(old(State()), reply)
    {
      var started := BeginQuestionFetch();
      if started {
        QuestionFetched(reply);
      }
    }

    /**
     * `handleUseQuestion` and `handleSkipQuestion`: without the guard nothing happens;
     * otherwise the request is sent, and when the server accepts it the next question is
     * fetched, while a refusal only sets `failure` as the error.
     */
    method Record(failure: string, post: Reply<()>, next: Reply<Question>) returns (sent: Option<RecordRequest>)
      modifies this
      ensures sent == RecordFor(old(selectedTeam), old(currentQuestion), old(userName))
      ensures sent.None? ==> State() == old(State())
      ensures sent.Some? && post.Ok? ==> State() == FetchedState(old(State()), next)
      ensures sent.Some? && !post.Ok? ==> State() == old(State()).(error := failure)
    {
      sent := RecordFor(selectedTeam, currentQuestion, userName);
      if sent.Some? {
        assert selectedTeam.Some?;
        if post.Ok? {
          FetchNewQuestion(next);
        } else {
          error := failure;
        }
      }
    }

    /** `handleUseQuestion`. */
    method HandleUseQuestion(post: Reply<()>, next: Reply<Question>) returns (sent: Option<RecordRequest>)
      modifies this
      ensures sent == RecordFor(old(selectedTeam), old(currentQuestion), old(userName))
      ensures sent.None? ==> State() == old(State())
      ensures sent.Some? && post.Ok? ==> State() == FetchedState(old(State()), next)
      ensures sent.Some? && !post.Ok? ==> State() == old(State()).(error := "Failed to mark question as used")
    {
      sent := Record("Failed to mark question as used", post, next);
    }

    /** `handleSkipQuestion`. */
    method HandleSkipQuestion(post: Reply<()>, next: Reply<Question>) returns (sent: Option<RecordRequest>)
      modifies this
      ensures sent == RecordFor(old(selectedTeam), old(currentQuestion), old(userName))
      ensures sent.None? ==> State() == old(State())
      ensures sent.Some? && post.Ok? ==> State() == FetchedState(old(State()), next)
      ensures sent.Some? && !post.Ok? ==> State() == old(State()).(error := "Failed to skip question")
    {
      sent := Record("Failed to skip question", post, next);
    }
  }

  /**
   * The user suggestions a `fetchUserSuggestions` answer leaves: none after a failure,
   * otherwise each name of either list once.
   */
  function SuggestionsOf(suggestions: Option<(seq<string>, seq<string>)>): (r: seq<string>)
    ensures suggestions.None? ==> r == []
    ensures suggestions.Some? ==> NoDuplicates(r)
    ensures suggestions.Some? ==> forall n :: n in r <==> n in suggestions.value.0 || n in suggestions.value.1
  {
    match suggestions
    case Some((team, global)) => MergeSuggestions(team, global)
    case None => []
  }

  /** The state a completed `fetchNewQuestion` leaves when a team is selected. */
  function FetchedState(s: ScreenState, reply: Reply<Question>): (t: ScreenState)
    ensures !t.loading
    ensures t.currentQuestion.Some? <==> reply.Ok?
    ensures reply.Ok? ==> t.currentQuestion == Some(reply.data) && t.error == ""
    ensures !reply.Ok? ==> t.error == QuestionError(reply)
    ensures t.teams == s.teams && t.selectedTeam == s.selectedTeam && t.userName == s.userName
    ensures t.userSuggestions == s.userSuggestions && t.showSuggestions == s.showSuggestions
  {
    match reply
    case Ok(q) => s.(currentQuestion := Some(q), loading := false, error := "")
    case _ => s.(currentQuestion := None, loading := false, error := QuestionError(reply))
  }

  /** After a fetch the panel shows either the question or an error, never the first prompt. */
  lemma FetchLeavesNoPrompt(s: ScreenState, reply: Reply<Question>)
    ensures var t := FetchedState(s, reply);
            t.currentQuestion.Some? || t.error != ""
  {
  }
}
