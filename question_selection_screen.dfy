/** The question-selection screen: the step titles, the once-a-second
    countdown, the list of files to upload, loading the session when the screen
    opens, and the submit handler with its guards. Each handler is a pure step
    on a `Screen` value (what React keeps in state), and a class holds that
    state and updates it in place. Every server response is an input. */
module QuestionSelectionScreen {
  import opened Common
  import opened ClientCommon

  /** The component's props: the team code (`""` when it is not given), the
      selected question type as JSON would send it, and whether the parent
      passed `setSession`. */
  datatype Props = Props(teamCode: string, selectedQuestionType: Field<int>, canSetSession: bool)

  /** The state the component keeps; `reported` is the last session handed to
      the parent's `setSession`. */
  datatype Screen = Screen(
    remainingTimeMs: int,
    timeRemaining: string,
    currentStep: int,
    uploadedFiles: seq<BrowserFile>,
    explanation: string,
    loading: bool,
    isSubmitted: bool,
    showCompletionDialog: bool,
    redirectTime: int,
    redirectButtonEnabled: bool,
    sessionData: Option<ClientSession>,
    reported: Option<ClientSession>)

  /** The state after a handler, with the requests it sent in order and the
      alert it raised, if any. */
  datatype Effect = Effect(st: Screen, sent: seq<Request>, alert: Option<Alert>)

  /** `success && hasSubmission` and `sessionCompleted` of the submission probe;
      `None` when the probe failed. */
  datatype Probe = Probe(hasSubmission: bool, sessionCompleted: bool)

  /** How the upload POST ended: accepted, refused with the reply's error, or
      with a thrown exception. */
  datatype UploadOutcome = UploadOk | UploadRefused(error: Option<string>) | UploadThrew

  /** How the completion PUT ended: a reply carrying a session, one without,
      or a thrown exception. */
  datatype PutOutcome = PutSession(session: ClientSession) | PutNoSession | PutThrew

  /** The message of the upload route's 409 reply. */
  const DuplicateSubmission: string := "A submission already exists for this team"

  /** The alerts the screen raises: the fixed message after an upload or a
      PUT that threw with no submission found, and `Error: ` followed by the
      message of a refused upload. */
  datatype Alert = SubmitFailed | SaveFailed(message: string)

  /** The text `alert` shows. */
  function AlertText(a: Alert): string
  {
    match a
    case SubmitFailed => "Error submitting your solution. Please try again or contact support."
    case SaveFailed(message) => "Error: " + message
  }

  /** The headings of the three questions. */
  function QuestionTitle(k: int): string
    requires 0 <= k <= 2
  {
    if k == 0 then "Basic Quantum Computing"
    else if k == 1 then "Machine Learning Challenge"
    else "Lorenz Attractor Simulation"
  }

  /** `steps.length`: `getSteps` always returns two steps. */
  const StepCount: nat := 2

  /** `getSteps`: the chosen question's title, then the registration step. */
  function Steps(qt: Field<int>): (r: seq<string>)
    ensures |r| == StepCount && r[1] == "Team Registration"
    ensures qt.Present? && 0 <= qt.value <= 2 ==> r[0] == QuestionTitle(qt.value)
    ensures !(qt.Present? && 0 <= qt.value <= 2) ==> r[0] == "Unknown"
  {
    [if qt.Present? && 0 <= qt.value <= 2 then QuestionTitle(qt.value) else "Unknown", "Team Registration"]
  }

  /** The first step names a question exactly when one of the three is
      selected, and different questions give different steps. */
  lemma StepsDistinguishQuestions(a: Field<int>, b: Field<int>)
    ensures Steps(a)[0] != "Unknown" <==> a.Present? && 0 <= a.value <= 2
    ensures a.Present? && b.Present? && 0 <= a.value <= 2 && 0 <= b.value <= 2 && a != b ==>
      Steps(a) != Steps(b)
  {
  }

  /** `selectedQuestionType?.toString() || ''`. */
  function QuestionTypeText(qt: Field<int>): (r: string)
    ensures r == "" <==> !qt.Present?
  {
    if qt.Present? then IntToString(qt.value) else ""
  }

  /** `Math.max(0, prev - 1000)`. */
  function NextTime(prev: int): (r: int)
    ensures r >= 0
    ensures prev >= 0 ==> r <= prev
    ensures prev >= 1000 ==> r == prev - 1000
    ensures prev < 1000 ==> r == 0
  {
    Max(0, prev - 1000)
  }

  predicate Completed(s: Option<ClientSession>)
  {
    s.Some? && s.value.isCompleted
  }

  /** One firing of the interval, which exists only while the session is not
      completed. The timeout branch is kept as written. */
  function Tick(p: Props, st: Screen): (e: Effect)
  {
    if Completed(st.sessionData) then Effect(st, [], None)
    else
      var newTime := NextTime(st.remainingTimeMs);
      var sent := if newTime <= -3 && p.teamCode != "" && !Completed(st.sessionData)
        then [UpdateSession(p.teamCode, Absent, true)] else [];
      Effect(st.(remainingTimeMs := newTime, timeRemaining := FormatTime(newTime)), sent, None)
  }

  /** The timeout completion is never sent, and while the session is open the
      countdown moves to `max(0, prev - 1000)`: never negative and, from a
      non-negative count, never up. Nothing else changes. */
  lemma TickFacts(p: Props, st: Screen)
    ensures Tick(p, st).sent == [] && Tick(p, st).alert.None?
    ensures Completed(st.sessionData) ==> Tick(p, st).st == st
    ensures !Completed(st.sessionData) ==>
      var t := Tick(p, st).st;
      && t.remainingTimeMs >= 0
      && (st.remainingTimeMs >= 0 ==> t.remainingTimeMs <= st.remainingTimeMs)
      && t.timeRemaining == FormatTime(t.remainingTimeMs)
      && t == st.(remainingTimeMs := t.remainingTimeMs, timeRemaining := t.timeRemaining)
  {
  }

  /** `n` firings in a row. */
  function Ticks(p: Props, st: Screen, n: nat): Screen
    decreases n
  {
    if n == 0 then st else Ticks(p, Tick(p, st).st, n - 1)
  }

  /** While the session stays open, `n` seconds take a non-negative count to
      `max(0, start - 1000 n)`. */
  lemma {:induction false} TicksRunDown(p: Props, st: Screen, n: nat)
    requires !Completed(st.sessionData) && st.remainingTimeMs >= 0
    ensures Ticks(p, st, n).remainingTimeMs == Max(0, st.remainingTimeMs - 1000 * n)
    ensures Ticks(p, st, n).sessionData == st.sessionData
    ensures Ticks(p, st, n).uploadedFiles == st.uploadedFiles
    decreases n
  {
    if n > 0 {
      var next := Tick(p, st).st;
      TicksRunDown(p, next, n - 1);
    }
  }

  /** `handleFileUpload` and `handleFileDrop`: the picked files, if any, go
      after the ones already listed. */
  function AddFiles(st: Screen, picked: Option<seq<BrowserFile>>): (r: Screen)
    ensures picked.None? ==> r == st
    ensures picked.Some? ==>
      && |r.uploadedFiles| == |st.uploadedFiles| + |picked.value|
      && r.uploadedFiles[..|st.uploadedFiles|] == st.uploadedFiles
      && r.uploadedFiles[|st.uploadedFiles|..] == picked.value
      && r == st.(uploadedFiles := r.uploadedFiles)
  {
    if picked.Some? then st.(uploadedFiles := st.uploadedFiles + picked.value) else st
  }

  /** `splice(index, 1)` on a copy: a negative index counts from the end, and
      an index past the end removes nothing. */
  function SpliceOne<T>(s: seq<T>, index: int): seq<T>
  {
    var start := if index < 0 then Max(|s| + index, 0) else if index > |s| then |s| else index;
    if start < |s| then s[..start] + s[start + 1..] else s
  }

  /** Removing position `i` of the list drops exactly that file and keeps the
      others in their order. */
  lemma SpliceOneInRange<T>(s: seq<T>, i: int)
    requires 0 <= i < |s|
    ensures |SpliceOne(s, i)| == |s| - 1
    ensures forall j :: 0 <= j < i ==> SpliceOne(s, i)[j] == s[j]
    ensures forall j :: i <= j < |s| - 1 ==> SpliceOne(s, i)[j] == s[j + 1]
    ensures multiset(SpliceOne(s, i)) + multiset{s[i]} == multiset(s)
  {
    assert s == s[..i] + [s[i]] + s[i + 1..];
  }

  /** An index past the end changes nothing, and a negative one removes the
      file that far from the end, or the first file when that is before the
      start. */
  lemma SpliceOneOutOfRange<T>(s: seq<T>, i: int)
    ensures i >= |s| ==> SpliceOne(s, i) == s
    ensures i < 0 && |s| + i >= 0 ==> SpliceOne(s, i) == SpliceOne(s, |s| + i)
    ensures i < 0 && |s| + i < 0 && |s| > 0 ==> SpliceOne(s, i) == s[1..]
  {
    if i < 0 && |s| + i < 0 && |s| > 0 {
      assert s[..0] + s[1..] == s[1..];
    }
  }

  /** `removeFile`. */
  function RemoveFile(st: Screen, index: int): (r: Screen)
    ensures r == st.(uploadedFiles := r.uploadedFiles)
    ensures 0 <= index < |st.uploadedFiles| ==> multiset(r.uploadedFiles) + multiset{st.uploadedFiles[index]} == multiset(st.uploadedFiles)
  {
    var r := st.(uploadedFiles := SpliceOne(st.uploadedFiles, index));
    if 0 <= index < |st.uploadedFiles| then SpliceOneInRange(st.uploadedFiles, index); r else r
  }

  /** Adding files and then removing each of them from the end gives the list
      back. */
  lemma {:induction false} AddThenRemoveLast(st: Screen, picked: seq<BrowserFile>)
    ensures RemoveLast(AddFiles(st, Some(picked)), |picked|) == st
    decreases |picked|
  {
    if picked != [] {
      var added := AddFiles(st, Some(picked));
      var shorter := picked[..|picked| - 1];
      assert RemoveFile(added, -1).uploadedFiles == st.uploadedFiles + shorter;
      assert RemoveFile(added, -1) == AddFiles(st, Some(shorter));
      AddThenRemoveLast(st, shorter);
    } else {
      assert st.uploadedFiles + [] == st.uploadedFiles;
    }
  }

  /** `removeFile(-1)` applied `n` times. */
  function RemoveLast(st: Screen, n: nat): Screen
    decreases n
  {
    if n == 0 then st else RemoveLast(RemoveFile(st, -1), n - 1)
  }

  /** `isSubmitted` set and the session, here and at the parent, marked
      completed when it is loaded: what the screen does once it learns that the
      team already has a submission. */
  function MarkSubmitted(p: Props, st: Screen): (r: Screen)
    ensures r.isSubmitted && (st.sessionData.Some? ==> Completed(r.sessionData))
    ensures st.sessionData.Some? ==> r.sessionData == Some(st.sessionData.value.(isCompleted := true))
    ensures st.sessionData.None? ==> r.sessionData.None?
    ensures r.reported == (if p.canSetSession && st.sessionData.Some? then r.sessionData else st.reported)
    ensures r == st.(isSubmitted := true, sessionData := r.sessionData, reported := r.reported)
  {
    var reported := if p.canSetSession && st.sessionData.Some?
      then Some(st.sessionData.value.(isCompleted := true)) else st.reported;
    var data := if st.sessionData.Some? then Some(st.sessionData.value.(isCompleted := true)) else st.sessionData;
    st.(isSubmitted := true, reported := reported, sessionData := data)
  }

  /** `fetchSessionTime` when the screen opens: get the session, then probe for
      a submission and close a session that has one. */
  function LoadSession(p: Props, st: Screen, session: Option<ClientSession>, probe: Option<Probe>, put: PutOutcome): Effect
  {
    if p.teamCode == "" then Effect(st, [], None)
    else if session.None? then Effect(st, [StartSession(p.teamCode, None, false)], None)
    else
      var s := session.value;
      var loaded := st.(remainingTimeMs := s.remainingTimeMs, timeRemaining := FormatTime(s.remainingTimeMs),
        sessionData := session, isSubmitted := st.isSubmitted || s.isCompleted);
      var sent := [StartSession(p.teamCode, None, false), CheckSubmission(p.teamCode)];
      if probe.None? || !(probe.value.hasSubmission || probe.value.sessionCompleted) then Effect(loaded, sent, None)
      else if !(probe.value.hasSubmission && !s.isCompleted) then Effect(loaded.(isSubmitted := true), sent, None)
      else
        var closed := loaded.(isSubmitted := true);
        var sent' := sent + [UpdateSession(p.teamCode, Absent, true)];
        if put.PutSession? then
          Effect(closed.(sessionData := Some(put.session),
            reported := if p.canSetSession then Some(put.session) else closed.reported), sent', None)
        else Effect(closed, sent', None)
  }

  /** Opening the screen sends the completion PUT exactly when the team has a
      submission and the fetched session is still open, and it ends submitted
      whenever the session or the probe says it is completed. */
  lemma LoadSessionFacts(p: Props, st: Screen, session: Option<ClientSession>, probe: Option<Probe>, put: PutOutcome)
    ensures var e := LoadSession(p, st, session, probe, put);
      && e.alert.None?
      && (UpdateSession(p.teamCode, Absent, true) in e.sent <==>
           p.teamCode != "" && session.Some? && probe.Some? && probe.value.hasSubmission && !session.value.isCompleted)
      && (p.teamCode != "" && session.Some? ==> e.st.remainingTimeMs == session.value.remainingTimeMs)
      && (var closedBySomeone := session.Some? && (session.value.isCompleted ||
           (probe.Some? && (probe.value.hasSubmission || probe.value.sessionCompleted)));
          p.teamCode != "" && closedBySomeone ==> e.st.isSubmitted)
      && e.st.uploadedFiles == st.uploadedFiles
  {
  }

  /** Whether `handleSubmit` stops before sending anything. */
  predicate SubmitBlocked(p: Props, st: Screen)
  {
    st.isSubmitted || Completed(st.sessionData) || p.teamCode == "" || |st.uploadedFiles| == 0
  }

  /** The `catch` branch of `handleSubmit`: probe whether the submission got
      through after all. */
  function Recover(p: Props, st: Screen, sent: seq<Request>, probe: Option<Probe>): Effect
  {
    var st' := st.(loading := false);
    var sent' := sent + [CheckSubmission(p.teamCode)];
    if probe.Some? && probe.value.hasSubmission then Effect(MarkSubmitted(p, st'), sent', None)
    else Effect(st', sent', Some(SubmitFailed))
  }

  /** The upload was refused: a duplicate counts as submitted, any other
      error is shown in an alert. */
  function Refused(p: Props, st: Screen, sent: seq<Request>, error: Option<string>): Effect
  {
    var st' := st.(loading := false);
    if error == Some(DuplicateSubmission) then Effect(MarkSubmitted(p, st'), sent, None)
    else Effect(st', sent, Some(SaveFailed(OrDefault(error, "Failed to save submission"))))
  }

  /** The upload was accepted: close the session through the parent, if there
      is one, then show the completion dialog and move to the next step. */
  function Accepted(p: Props, st: Screen, sent: seq<Request>, put: PutOutcome, probe: Option<Probe>): Effect
  {
    var sent' := if p.canSetSession then sent + [UpdateSession(p.teamCode, p.selectedQuestionType, true)] else sent;
    if p.canSetSession && put.PutThrew? then Recover(p, st, sent', probe)
    else
      var reported := if p.canSetSession && put.PutSession? then Some(put.session) else st.reported;
      var step := if st.currentStep < StepCount - 1 then st.currentStep + 1 else st.currentStep;
      Effect(st.(reported := reported, loading := false, isSubmitted := true, showCompletionDialog := true,
          redirectTime := 5, redirectButtonEnabled := false, currentStep := step),
        sent', None)
  }

  /** `handleSubmit`: upload the files, then close the session. */
  function Submit(p: Props, st: Screen, upload: UploadOutcome, put: PutOutcome, probe: Option<Probe>): Effect
  {
    if SubmitBlocked(p, st) then Effect(st.(loading := false), [], None)
    else
      var busy := st.(loading := true);
      var sent := [UploadSolution(p.teamCode, st.explanation, QuestionTypeText(p.selectedQuestionType), st.uploadedFiles)];
      match upload
      case UploadThrew => Recover(p, busy, sent, probe)
      case UploadRefused(error) => Refused(p, busy, sent, error)
      case UploadOk => Accepted(p, busy, sent, put, probe)
  }

  /** The guards: an already submitted team, a completed session, a missing
      team code or an empty file list send nothing and change nothing but the
      loading flag. */
  lemma SubmitGuards(p: Props, st: Screen, upload: UploadOutcome, put: PutOutcome, probe: Option<Probe>)
    ensures SubmitBlocked(p, st) <==> Submit(p, st, upload, put, probe).sent == []
    ensures SubmitBlocked(p, st) ==> Submit(p, st, upload, put, probe) == Effect(st.(loading := false), [], None)
  {
  }

  /** Past the guards, the files are uploaded exactly once, first, with the
      team code, explanation and question type; the screen always stops
      loading; and it ends submitted exactly when it raises no alert. */
  lemma SubmitFacts(p: Props, st: Screen, upload: UploadOutcome, put: PutOutcome, probe: Option<Probe>)
    requires !SubmitBlocked(p, st)
    ensures var e := Submit(p, st, upload, put, probe);
      && 1 <= |e.sent| <= 3
      && e.sent[0] == UploadSolution(p.teamCode, st.explanation, QuestionTypeText(p.selectedQuestionType), st.uploadedFiles)
      && (forall i :: 1 <= i < |e.sent| ==> !e.sent[i].UploadSolution?)
      && !e.st.loading
      && (e.st.isSubmitted <==> e.alert.None?)
      && e.st.uploadedFiles == st.uploadedFiles
      && (e.st.showCompletionDialog <==> st.showCompletionDialog || (upload.UploadOk? && !(p.canSetSession && put.PutThrew?)))
  {
  }

  /** A second submit after a successful or duplicate one sends nothing. */
  lemma SubmitOnce(p: Props, st: Screen, u1: UploadOutcome, t1: PutOutcome, r1: Option<Probe>,
                   u2: UploadOutcome, t2: PutOutcome, r2: Option<Probe>)
    requires Submit(p, st, u1, t1, r1).alert.None?
    ensures Submit(p, Submit(p, st, u1, t1, r1).st, u2, t2, r2).sent == []
  {
  }

  /** The screen's state, updated in place by its handlers. */
  class QuestionSelection {
    const props: Props
    var remainingTimeMs: int
    var timeRemaining: string
    var currentStep: int
    var uploadedFiles: seq<BrowserFile>
    var explanation: string
    var loading: bool
    var isSubmitted: bool
    var showCompletionDialog: bool
    var redirectTime: int
    var redirectButtonEnabled: bool
    var sessionData: Option<ClientSession>
    var reported: Option<ClientSession>

    function State(): Screen
      reads this
    {
      Screen(remainingTimeMs, timeRemaining, currentStep, uploadedFiles, explanation, loading, isSubmitted,
        showCompletionDialog, redirectTime, redirectButtonEnabled, sessionData, reported)
    }

    /** The initial `useState` values. */
    constructor (p: Props)
      ensures props == p
      ensures State() == Screen(0, "", 0, [], "", false, false, false, 5, false, None, None)
    {
      props := p;
      remainingTimeMs, timeRemaining, currentStep := 0, "", 0;
      uploadedFiles, explanation := [], "";
      loading, isSubmitted, showCompletionDialog := false, false, false;
      redirectTime, redirectButtonEnabled := 5, false;
      sessionData, reported := None, None;
    }

    method OnLoad(session: Option<ClientSession>, probe: Option<Probe>, put: PutOutcome) returns (sent: seq<Request>)
      modifies this
      ensures Effect(State(), sent, None) == LoadSession(props, old(State()), session, probe, put)
    {
      sent := [];
      if props.teamCode == "" {
        return;
      }
      sent := [StartSession(props.teamCode, None, false)];
      if session.None? {
        return;
      }
      var s := session.value;
      remainingTimeMs := s.remainingTimeMs;
      timeRemaining := FormatTime(s.remainingTimeMs);
      sessionData := session;
      if s.isCompleted {
        isSubmitted := true;
      }
      sent := [StartSession(props.teamCode, None, false), CheckSubmission(props.teamCode)];
      if probe.Some? && (probe.value.hasSubmission || probe.value.sessionCompleted) {
        isSubmitted := true;
        if probe.value.hasSubmission && !s.isCompleted {
          sent := sent + [UpdateSession(props.teamCode, Absent, true)];
          if put.PutSession? {
            sessionData := Some(put.session);
            if props.canSetSession {
              reported := Some(put.session);
            }
          }
        }
      }
    }

    method OnTick() returns (sent: seq<Request>)
      modifies this
      ensures Effect(State(), sent, None) == Tick(props, old(State()))
    {
      sent := [];
      if sessionData.Some? && sessionData.value.isCompleted {
        return;
      }
      var newTime := Max(0, remainingTimeMs - 1000);
      timeRemaining := FormatTime(newTime);
      if newTime <= -3 && props.teamCode != "" && !Completed(sessionData) {
        sent := [UpdateSession(props.teamCode, Absent, true)];
      }
      remainingTimeMs := newTime;
    }

    /** `handleFileUpload` and `handleFileDrop` do the same to the list. */
    method OnFilesPicked(picked: Option<seq<BrowserFile>>)
      modifies this
      ensures State() == AddFiles(old(State()), picked)
    {
      if picked.Some? {
        uploadedFiles := uploadedFiles + picked.value;
      }
    }

    method OnRemoveFile(index: int)
      modifies this
      ensures State() == RemoveFile(old(State()), index)
    {
      var start := if index < 0 then Max(|uploadedFiles| + index, 0)
        else if index > |uploadedFiles| then |uploadedFiles| else index;
      if start < |uploadedFiles| {
        uploadedFiles := uploadedFiles[..start] + uploadedFiles[start + 1..];
      }
    }

    method SetExplanation(text: string)
      modifies this
      ensures State() == old(State()).(explanation := text)
    {
      explanation := text;
    }

    /** The situation after the screen learns the team already submitted. */
    method MarkDone()
      modifies this
      ensures State() == MarkSubmitted(props, old(State()))
    {
      isSubmitted := true;
      if sessionData.Some? {
        if props.canSetSession {
          reported := Some(sessionData.value.(isCompleted := true));
        }
        sessionData := Some(sessionData.value.(isCompleted := true));
      }
    }

    method Recovered(sent0: seq<Request>, probe: Option<Probe>) returns (sent: seq<Request>, alert: Option<Alert>)
      modifies this
      ensures Effect(State(), sent, alert) == Recover(props, old(State()), sent0, probe)
    {
      loading := false;
      sent := sent0 + [CheckSubmission(props.teamCode)];
      alert := None;
      if probe.Some? && probe.value.hasSubmission {
        MarkDone();
      } else {
        alert := Some(SubmitFailed);
      }
    }

    method OnRefused(sent0: seq<Request>, error: Option<string>) returns (sent: seq<Request>, alert: Option<Alert>)
      modifies this
      ensures Effect(State(), sent, alert) == Refused(props, old(State()), sent0, error)
    {
      loading := false;
      sent, alert := sent0, None;
      if error == Some(DuplicateSubmission) {
        MarkDone();
      } else {
        alert := Some(SaveFailed(OrDefault(error, "Failed to save submission")));
      }
    }

    method OnAccepted(sent0: seq<Request>, put: PutOutcome, probe: Option<Probe>) returns (sent: seq<Request>, alert: Option<Alert>)
      modifies this
      ensures Effect(State(), sent, alert) == Accepted(props, old(State()), sent0, put, probe)
    {
      sent, alert := sent0, None;
      if props.canSetSession {
        sent := sent + [UpdateSession(props.teamCode, props.selectedQuestionType, true)];
        if put.PutThrew? {
          sent, alert := Recovered(sent, probe);
          return;
        }
        if put.PutSession? {
          reported := Some(put.session);
        }
      }
      loading := false;
      isSubmitted := true;
      showCompletionDialog := true;
      redirectTime, redirectButtonEnabled := 5, false;
      if currentStep < StepCount - 1 {
        currentStep := currentStep + 1;
      }
    }

    method OnSubmit(upload: UploadOutcome, put: PutOutcome, probe: Option<Probe>) returns (sent: seq<Request>, alert: Option<Alert>)
      modifies this
      ensures Effect(State(), sent, alert) == Submit(props, old(State()), upload, put, probe)
    {
      loading := true;
      sent, alert := [], None;
      if isSubmitted || Completed(sessionData) || props.teamCode == "" || |uploadedFiles| == 0 {
        loading := false;
        return;
      }
      sent := [UploadSolution(props.teamCode, explanation, QuestionTypeText(props.selectedQuestionType), uploadedFiles)];
      match upload
      case UploadThrew =>
        sent, alert := Recovered(sent, probe);
      case UploadRefused(error) =>
        sent, alert := OnRefused(sent, error);
      case UploadOk =>
        sent, alert := OnAccepted(sent, put, probe);
    }
  }
}
