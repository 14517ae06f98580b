/**
 * The employee's profile page (src/components/Profile.tsx): the history of answers it
 * lists, and the dark-mode switch kept in the page, on the document root and in storage.
 */
module Profile {
  import opened Js
  import opened Types
  import AuthContext
  import EvaluationForm

  /** `record.filter(item => item.author === name)`. A missing name is `undefined`, which
      equals no author, since every stored author is a string. */
  function History(records: seq<EvaluationResponse>, name: Option<string>): (r: seq<EvaluationResponse>)
    ensures forall x :: x in r ==> x in records && name == Some(x.author)
  {
    Filter(records, (x: EvaluationResponse) => name == Some(x.author))
  }

  /** The history keeps each record by that author as often as it occurs, in order, and
      nothing else. */
  lemma HistoryExact(records: seq<EvaluationResponse>, more: seq<EvaluationResponse>, name: Option<string>, x: EvaluationResponse)
    ensures multiset(History(records, name))[x] == if name == Some(x.author) then multiset(records)[x] else 0
    ensures History(records + more, name) == History(records, name) + History(more, name)
  {
    FilterCount(records, (x: EvaluationResponse) => name == Some(x.author), x);
    FilterAppend(records, more, (x: EvaluationResponse) => name == Some(x.author));
  }

  /** Without a name the history is empty. */
  lemma HistoryWithoutName(records: seq<EvaluationResponse>)
    ensures History(records, None) == []
  {
    FilterEmptyIffNone(records, (x: EvaluationResponse) => None == Some(x.author));
  }

  /** The name the page filters by as written: `user?.name`, and `user` is not a member of
      the context value. */
  function NameAsWritten(session: AuthContext.AuthValue): (r: Option<string>)
    ensures AuthContext.UserMember(session).None? ==> r.None?
  {
    match AuthContext.UserMember(session)
    case None => None
    case Some(user) => user.name
  }

  /** As written the history is empty for every session and every store. */
  lemma HistoryAsWrittenIsEmpty(records: seq<EvaluationResponse>, session: AuthContext.AuthValue)
    ensures History(records, NameAsWritten(session)) == []
  {
    assert !AuthContext.HasMember("user");
    HistoryWithoutName(records);
  }

  /** The name the page evidently means: the session's `name`. */
  function SessionName(session: AuthContext.AuthValue): (r: Option<string>)
    ensures r == session.name
  {
    session.name
  }

  /** With the session's name, an answer sent from the response form by the signed-in user
      (the form signs with the stored name, which login sets to the session's name) is
      listed in that user's history. */
  lemma SubmittedAnswerListed(records: seq<EvaluationResponse>, payload: EvaluationForm.AnswerPayload, session: AuthContext.AuthValue)
    requires session.name == Some(payload.author)
    ensures EvaluationForm.AsStored(payload) in History(records + [EvaluationForm.AsStored(payload)], SessionName(session))
  {
    var stored := EvaluationForm.AsStored(payload);
    FilterMember(records + [stored], (x: EvaluationResponse) => session.name == Some(x.author), stored);
  }

  /** The dark-mode state: the page's flag, the `dark` class on the document root, and the
      `theme` key in storage. */
  datatype ThemeState = ThemeState(isDarkMode: bool, rootDark: bool, stored: Option<string>)

  /** All three agree. */
  predicate Synced(t: ThemeState) {
    t.rootDark == t.isDarkMode && t.stored == Some(if t.isDarkMode then "dark" else "light")
  }

  /** On mount, a stored 'dark' turns dark mode on and adds the class; anything else leaves
      the flag off and the class as it was. */
  function Mounted(stored: Option<string>, rootDark: bool): (t: ThemeState)
    ensures t.stored == stored
    ensures t.isDarkMode <==> stored == Some("dark")
    ensures t.rootDark == (rootDark || stored == Some("dark"))
  {
    if stored == Some("dark") then ThemeState(true, true, stored) else ThemeState(false, rootDark, stored)
  }

  /** `toggleDarkMode`: the flag flips and the class and storage follow it. */
  function Toggled(t: ThemeState): (r: ThemeState)
    ensures r.isDarkMode == !t.isDarkMode && Synced(r)
  {
    if t.isDarkMode then ThemeState(false, false, Some("light")) else ThemeState(true, true, Some("dark"))
  }

  /** On a synced state, toggling twice restores it. */
  lemma ToggleTwice(t: ThemeState)
    requires Synced(t)
    ensures Toggled(Toggled(t)) == t
  {
  }

  /** A page mounted from a stored 'dark' theme is synced at once. */
  lemma MountedDarkIsSynced(rootDark: bool)
    ensures Synced(Mounted(Some("dark"), rootDark))
  {
  }

  /** The state of the profile page. */
  class ProfileView {
    var responses: seq<EvaluationResponse>
    var isDarkMode: bool
    var rootDark: bool
    var storedTheme: Option<string>

    function Theme(): (t: ThemeState)
      reads this
      ensures t.isDarkMode == isDarkMode && t.rootDark == rootDark && t.stored == storedTheme
    {
      ThemeState(isDarkMode, rootDark, storedTheme)
    }

    /** The mount effect's theme step, from the stored theme and the root's current class. */
    constructor (storedTheme: Option<string>, rootDark: bool)
      ensures Theme() == Mounted(storedTheme, rootDark) && responses == []
    {
      responses := [];
      this.storedTheme := storedTheme;
      if storedTheme == Some("dark") {
        isDarkMode := true;
        this.rootDark := true;
      } else {
        isDarkMode := false;
        this.rootDark := rootDark;
      }
    }

    /** The history fetch, filtering by `name`: `NameAsWritten(session)` in the page as it
        stands, `SessionName(session)` as intended. The `ok` flag is not checked: an ok body
        is filtered; a body without `record` and a rejected fetch end in the catch. */
    method LoadResponses(response: Response<seq<EvaluationResponse>>, name: Option<string>)
      modifies this`responses
      ensures responses == if response.Ok? then History(response.record, name) else old(responses)
    {
      if response.Ok? {
        responses := History(response.record, name);
      }
    }

    method ToggleDarkMode()
      modifies this`isDarkMode, this`rootDark, this`storedTheme
      ensures Theme() == Toggled(old(Theme()))
    {
      if isDarkMode {
        rootDark := false;
        storedTheme := Some("light");
      } else {
        rootDark := true;
        storedTheme := Some("dark");
      }
      isDarkMode := !isDarkMode;
    }
  }
}
