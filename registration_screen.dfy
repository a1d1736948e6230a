/** The registration form of the browser client: the e-mail check, the list of
    validation errors, the per-field member update, and the gate that sends
    the form to POST /api/register-team-code only when it has no errors. */
module RegistrationScreen {
  import opened Common
  import Store
  import RegisterTeamCode
  import opened ClientCommon

  /** A member row of the form; an unset radio button is the empty string. */
  datatype MemberData = MemberData(fullName: string, email: string, gender: string, foodPreference: string)

  datatype TeamForm = TeamForm(teamName: string, members: seq<MemberData>, phoneNumber: string)

  // --- validateEmail ---

  /** A character of `[^\s@]`. */
  predicate PlainChar(c: char)
  {
    !IsWhitespace(c) && c != '@'
  }

  predicate AllPlain(s: string)
  {
    s == [] || (PlainChar(s[0]) && AllPlain(s[1..]))
  }

  /** The length of the longest prefix of plain characters. */
  function PlainPrefix(s: string): (n: nat)
    ensures n <= |s|
  {
    if s == [] || !PlainChar(s[0]) then 0 else 1 + PlainPrefix(s[1..])
  }

  /** `/^[^\s@]+@[^\s@]+\.[^\s@]+$/.test(e)`, read left to right: a non-empty
      run of plain characters ending at an '@', then only plain characters,
      among which a '.' that has a plain character on each side. */
  predicate ValidEmail(e: string)
  {
    var i := PlainPrefix(e);
    0 < i && i + 2 < |e| && e[i] == '@' && AllPlain(e[i + 1..]) && '.' in e[i + 2..|e| - 1]
  }

  /** The shape of an accepted address in plain words: no white space, exactly
      one '@' with something before it, and after it a '.' that is neither the
      first nor the last character of the domain. */
  predicate WellShapedEmail(e: string)
  {
    && (forall k :: 0 <= k < |e| ==> !IsWhitespace(e[k]))
    && (exists i :: 0 < i < |e| && e[i] == '@'
         && (forall k :: 0 <= k < |e| && k != i ==> e[k] != '@')
         && (exists j :: i + 1 < j < |e| - 1 && e[j] == '.'))
  }

  lemma {:induction false} AllPlainMeaning(s: string)
    ensures AllPlain(s) <==> forall k :: 0 <= k < |s| ==> PlainChar(s[k])
  {
    if s != [] {
      AllPlainMeaning(s[1..]);
      assert forall k :: 1 <= k < |s| ==> s[k] == s[1..][k - 1];
    }
  }

  lemma {:induction false} PlainPrefixMeaning(s: string)
    ensures forall k :: 0 <= k < PlainPrefix(s) ==> PlainChar(s[k])
    ensures PlainPrefix(s) < |s| ==> !PlainChar(s[PlainPrefix(s)])
  {
    if s != [] && PlainChar(s[0]) {
      PlainPrefixMeaning(s[1..]);
      assert forall k :: 1 <= k < |s| ==> s[k] == s[1..][k - 1];
    }
  }

  lemma EmailPatternMeaning(e: string)
    ensures ValidEmail(e) <==> WellShapedEmail(e)
  {
    var i := PlainPrefix(e);
    PlainPrefixMeaning(e);
    if 0 < i && i + 2 < |e| && e[i] == '@' {
      var rest := e[i + 1..];
      AllPlainMeaning(rest);
      assert forall k :: i < k < |e| ==> e[k] == rest[k - i - 1];
      if ValidEmail(e) {
        var mid := e[i + 2..|e| - 1];
        var m :| 0 <= m < |mid| && mid[m] == '.';
        assert e[i + 2 + m] == '.';
        assert forall k :: 0 <= k < |e| && k != i ==> e[k] != '@';
      }
      if WellShapedEmail(e) {
        var j :| i + 1 < j < |e| - 1 && e[j] == '.';
        assert e[i + 2..|e| - 1][j - i - 2] == '.';
        assert forall k :: 0 <= k < |rest| ==> PlainChar(rest[k]);
      }
    }
  }

  // --- validateRegistrationData ---

  /** The client's notion of a complete member. */
  predicate IsCompleteMember(m: MemberData)
  {
    !IsBlank(m.fullName) && !IsBlank(m.email) && m.gender != "" && m.foodPreference != "" && ValidEmail(m.email)
  }

  /** `members.filter(...).length` */
  function CompleteCount(ms: seq<MemberData>): (n: nat)
    ensures n <= |ms|
  {
    if ms == [] then 0 else (if IsCompleteMember(ms[0]) then 1 else 0) + CompleteCount(ms[1..])
  }

  /** A member whose e-mail is filled in but does not match the pattern. */
  predicate HasBadEmail(m: MemberData)
  {
    !IsBlank(m.email) && !ValidEmail(m.email)
  }

  /** The errors the validation pushes; `Message` gives the text the form
      shows for each. */
  datatype Issue = TeamNameRequired | PhoneNumberRequired | TooFewCompleteMembers | InvalidEmail(member: nat)

  function Message(i: Issue): (text: string)
    ensures text != ""
  {
    match i
    case TeamNameRequired => "Team name is required"
    case PhoneNumberRequired => "Phone number is required"
    case TooFewCompleteMembers => "At least 2 members must have complete information"
    case InvalidEmail(k) => "Member " + NatToString(k + 1) + " has an invalid email address"
  }

  function Messages(issues: seq<Issue>): (texts: seq<string>)
    ensures |texts| == |issues|
    ensures forall k :: 0 <= k < |issues| ==> texts[k] == Message(issues[k])
  {
    seq(|issues|, k requires 0 <= k < |issues| => Message(issues[k]))
  }

  /** The errors of the first three checks, in the order they are pushed. */
  function HeaderIssues(f: TeamForm): seq<Issue>
  {
    (if IsBlank(f.teamName) then [TeamNameRequired] else [])
    + (if IsBlank(f.phoneNumber) then [PhoneNumberRequired] else [])
    + (if CompleteCount(f.members) < 2 then [TooFewCompleteMembers] else [])
  }

  /** Which members have a bad e-mail. */
  function BadEmailFlags(ms: seq<MemberData>): (r: seq<bool>)
    ensures |r| == |ms| && forall i :: 0 <= i < |ms| ==> r[i] == HasBadEmail(ms[i])
  {
    seq(|ms|, i requires 0 <= i < |ms| => HasBadEmail(ms[i]))
  }

  /** The e-mail errors the `forEach` pushes for the first `n` members. */
  function EmailIssues(flags: seq<bool>, n: nat): seq<Issue>
    requires n <= |flags|
  {
    if n == 0 then []
    else EmailIssues(flags, n - 1) + (if flags[n - 1] then [InvalidEmail(n - 1)] else [])
  }

  /** One e-mail error for each member whose flag is set, in member order,
      and nothing else. */
  lemma {:induction false} EmailIssuesMeaning(flags: seq<bool>, n: nat)
    requires n <= |flags|
    ensures forall x :: x in EmailIssues(flags, n) ==> x.InvalidEmail? && x.member < n
    ensures forall k: nat :: InvalidEmail(k) in EmailIssues(flags, n) <==> k < n && flags[k]
    ensures forall a, b :: 0 <= a < b < |EmailIssues(flags, n)| ==>
      EmailIssues(flags, n)[a].member < EmailIssues(flags, n)[b].member
  {
    if n > 0 {
      EmailIssuesMeaning(flags, n - 1);
    }
  }

  function RegistrationIssues(f: TeamForm): seq<Issue>
  {
    HeaderIssues(f) + EmailIssues(BadEmailFlags(f.members), |f.members|)
  }

  /** A form the client lets through. */
  predicate Acceptable(f: TeamForm)
  {
    && !IsBlank(f.teamName)
    && !IsBlank(f.phoneNumber)
    && CompleteCount(f.members) >= 2
    && forall i :: 0 <= i < |f.members| ==> !HasBadEmail(f.members[i])
  }

  /** The three checks before the loop. */
  lemma HeaderIssuesMeaning(f: TeamForm)
    ensures forall x :: x in HeaderIssues(f) ==> !x.InvalidEmail?
    ensures HeaderIssues(f) == [] <==> !IsBlank(f.teamName) && !IsBlank(f.phoneNumber) && CompleteCount(f.members) >= 2
    ensures TeamNameRequired in HeaderIssues(f) <==> IsBlank(f.teamName)
    ensures PhoneNumberRequired in HeaderIssues(f) <==> IsBlank(f.phoneNumber)
    ensures TooFewCompleteMembers in HeaderIssues(f) <==> CompleteCount(f.members) < 2
  {
    var nameBlank := IsBlank(f.teamName);
    var phoneBlank := IsBlank(f.phoneNumber);
    var tooFew := CompleteCount(f.members) < 2;
    var h := (if nameBlank then [TeamNameRequired] else []) + (if phoneBlank then [PhoneNumberRequired] else [])
      + (if tooFew then [TooFewCompleteMembers] else []);
    assert HeaderIssues(f) == h;
  }

  lemma {:induction false} NoFlagsNoIssues(flags: seq<bool>, n: nat)
    requires n <= |flags|
    ensures EmailIssues(flags, n) == [] <==> forall i :: 0 <= i < n ==> !flags[i]
  {
    if n > 0 {
      NoFlagsNoIssues(flags, n - 1);
    }
  }

  /** Each failing check contributes its error, and only then. */
  lemma IssuesOfForm(f: TeamForm)
    ensures TeamNameRequired in RegistrationIssues(f) <==> IsBlank(f.teamName)
    ensures PhoneNumberRequired in RegistrationIssues(f) <==> IsBlank(f.phoneNumber)
    ensures TooFewCompleteMembers in RegistrationIssues(f) <==> CompleteCount(f.members) < 2
    ensures forall i: nat :: InvalidEmail(i) in RegistrationIssues(f) <==> i < |f.members| && BadEmailFlags(f.members)[i]
  {
    HeaderIssuesMeaning(f);
    EmailIssuesMeaning(BadEmailFlags(f.members), |f.members|);
  }

  /** Every check is made, so the list is empty exactly when the form is
      acceptable. */
  lemma ErrorsEmptyIffAcceptable(f: TeamForm)
    ensures RegistrationIssues(f) == [] <==> Acceptable(f)
  {
    var ms := f.members;
    HeaderIssuesMeaning(f);
    var flags := BadEmailFlags(ms);
    NoFlagsNoIssues(flags, |ms|);
    FlagsClear(ms);
  }

  /** No flag is set exactly when no member has a bad e-mail. */
  lemma FlagsClear(ms: seq<MemberData>)
    ensures (forall i :: 0 <= i < |ms| ==> !BadEmailFlags(ms)[i]) <==> (forall i :: 0 <= i < |ms| ==> !HasBadEmail(ms[i]))
  {
    var flags := BadEmailFlags(ms);
    assert forall i :: 0 <= i < |ms| ==> flags[i] == HasBadEmail(ms[i]);
  }

  /** The three checks before the `forEach`, each pushing its error. */
  method PushHeaderIssues(f: TeamForm) returns (errors: seq<Issue>)
    ensures errors == HeaderIssues(f)
  {
    var nameBlank := IsBlank(f.teamName);
    var phoneBlank := IsBlank(f.phoneNumber);
    var completeMembersCount := CompleteCount(f.members);
    errors := [];
    if nameBlank {
      errors := errors + [TeamNameRequired];
    }
    if phoneBlank {
      errors := errors + [PhoneNumberRequired];
    }
    if completeMembersCount < 2 {
      errors := errors + [TooFewCompleteMembers];
    }
  }

  /** The validation as the component runs it: errors pushed one by one, then
      the `forEach` over the members. A `!s.trim()` test is `IsBlank(s)`
      (`Common.TrimEmptyIffBlank`). */
  method ValidateRegistrationData(f: TeamForm) returns (errors: seq<Issue>)
    ensures errors == RegistrationIssues(f)
  {
    errors := PushHeaderIssues(f);
    ghost var header := errors;
    ghost var flags := BadEmailFlags(f.members);
    var index := 0;
    while index < |f.members|
      invariant 0 <= index <= |f.members|
      invariant errors == header + EmailIssues(flags, index)
    {
      var member := f.members[index];
      if HasBadEmail(member) {
        errors := errors + [InvalidEmail(index)];
      }
      index := index + 1;
    }
  }

  // --- updateMemberData ---

  datatype MemberField = FullName | Email | Gender | FoodPreference

  function SetField(m: MemberData, field: MemberField, value: string): MemberData
  {
    match field
    case FullName => m.(fullName := value)
    case Email => m.(email := value)
    case Gender => m.(gender := value)
    case FoodPreference => m.(foodPreference := value)
  }

  /** The new form: the named field of member `index` holds `value`; every
      other field of that member, every other member and the team fields are
      as before. */
  function UpdateMemberData(f: TeamForm, index: nat, field: MemberField, value: string): (g: TeamForm)
    requires index < |f.members|
    ensures g.teamName == f.teamName && g.phoneNumber == f.phoneNumber
    ensures |g.members| == |f.members|
    ensures forall i :: 0 <= i < |f.members| && i != index ==> g.members[i] == f.members[i]
    ensures var m, n := f.members[index], g.members[index];
      && (n.fullName == if field == FullName then value else m.fullName)
      && (n.email == if field == Email then value else m.email)
      && (n.gender == if field == Gender then value else m.gender)
      && (n.foodPreference == if field == FoodPreference then value else m.foodPreference)
  {
    var newMembers := f.members;
    f.(members := newMembers[index := SetField(newMembers[index], field, value)])
  }

  // --- handleRegistrationSubmit ---

  /** What submitting the form does before any response arrives: either an
      error message and no request, or the registration request. */
  datatype SubmitOutcome = SubmitOutcome(error: string, sent: seq<Request>)

  function HandleRegistrationSubmit(f: TeamForm): (r: SubmitOutcome)
    ensures r.sent == [] <==> !Acceptable(f)
    ensures r.sent != [] ==> r.sent == [RegisterTeamWithCode] && r.error == ""
    ensures r.sent == [] ==> r.error == Join(Messages(RegistrationIssues(f)), ", ") && r.error != ""
  {
    ErrorsEmptyIffAcceptable(f);
    var errors := RegistrationIssues(f);
    if |errors| > 0 then
      JoinNonEmpty(Messages(errors), ", ");
      SubmitOutcome(Join(Messages(errors), ", "), [])
    else SubmitOutcome("", [RegisterTeamWithCode])
  }

  lemma {:induction false} JoinNonEmpty(parts: seq<string>, sep: string)
    requires |parts| > 0 && (forall k :: 0 <= k < |parts| ==> parts[k] != "")
    ensures Join(parts, sep) != ""
  {
    if |parts| > 1 {
      assert |Join(parts, sep)| >= |parts[0]|;
    }
  }

  // --- the form as the server sees it ---

  /** The `teamData` the form sends: the fields the form does not have are
      missing, which the server reads as empty. */
  function ToServer(f: TeamForm): Store.TeamData
  {
    Store.TeamData(f.teamName, "", f.phoneNumber, "", "",
      Some(seq(|f.members|, i requires 0 <= i < |f.members| =>
        Store.Member(f.members[i].fullName, f.members[i].email, f.members[i].gender, f.members[i].foodPreference, ""))))
  }

  /** A member row as the form first shows it. */
  const BlankRow: MemberData := MemberData("", "", "", "")

  lemma ShortEmailValid(c: char, e: string)
    requires PlainChar(c) && e == [c] + "@u.lk"
    ensures ValidEmail(e)
  {
    assert PlainChar(e[0]) && !PlainChar(e[1]);
    assert PlainPrefix(e[1..]) == 0;
    assert PlainPrefix(e) == 1;
    var rest := e[2..];
    assert rest == "u.lk";
    assert AllPlain(rest[3..]) by { assert rest[3..][1..] == []; }
    assert AllPlain(rest[2..]) by { assert rest[2..][1..] == rest[3..]; }
    assert AllPlain(rest[1..]) by { assert rest[1..][1..] == rest[2..]; }
    assert e[3..5][0] == '.';
  }

  /** Complete members exist: any non-blank name with an address such as
      "a@u.lk", filled gender and food preference. */
  lemma ShortEmailMemberComplete(name: string, c: char)
    requires |name| > 0 && !IsWhitespace(name[0]) && PlainChar(c)
    ensures var m := MemberData(name, [c] + "@u.lk", "female", "veg");
      IsCompleteMember(m) && !HasBadEmail(m)
  {
    var e := [c] + "@u.lk";
    ShortEmailValid(c, e);
    assert !IsWhitespace(e[0]);
  }

  lemma CompleteCountCons(m: MemberData, rest: seq<MemberData>)
    ensures CompleteCount([m] + rest) == (if IsCompleteMember(m) then 1 else 0) + CompleteCount(rest)
  {
    assert ([m] + rest)[1..] == rest;
  }

  /** The default form holds four member rows. A two-person team fills two of
      them and leaves the others blank: the client accepts the form, and the
      route refuses the blank rows as incomplete members. */
  lemma TwoCompleteAndBlankRowsRefused(name: string, phone: string, a: MemberData, b: MemberData)
    requires !IsBlank(name) && !IsBlank(phone) && IsCompleteMember(a) && IsCompleteMember(b)
    ensures var f := TeamForm(name, [a, b, BlankRow, BlankRow], phone);
      && RegistrationIssues(f) == []
      && RegisterTeamCode.FirstError(ToServer(f)) == Some(RegisterTeamCode.MemberIncomplete)
  {
    var f := TeamForm(name, [a, b, BlankRow, BlankRow], phone);
    assert !IsCompleteMember(BlankRow) && !HasBadEmail(BlankRow);
    CompleteCountCons(BlankRow, []);
    CompleteCountCons(BlankRow, [BlankRow]);
    CompleteCountCons(b, [BlankRow, BlankRow]);
    CompleteCountCons(a, [b, BlankRow, BlankRow]);
    assert f.members == [a] + [b, BlankRow, BlankRow];
    assert forall i :: 0 <= i < |f.members| ==> !HasBadEmail(f.members[i]);
    assert Acceptable(f);
    ErrorsEmptyIffAcceptable(f);
    var t := ToServer(f);
    assert !RegisterTeamCode.HasAllDetails(t.members.value[2]);
  }

  /** Every form the client accepts passes the corrected server check. */
  lemma AcceptedFormPassesCorrectedCheck(f: TeamForm)
    requires Acceptable(f)
    ensures RegisterTeamCode.CorrectedFirstError(ToServer(f)).None?
  {
    var t := ToServer(f);
    assert f.teamName != "";
    assert f.phoneNumber != "";
    CompleteCountBound(f.members);
  }

  /** A member the client counts as complete has all four details on the
      server side, so the server's count is at least the client's. */
  lemma {:induction false} CompleteCountBound(ms: seq<MemberData>)
    ensures CompleteCount(ms) <= RegisterTeamCode.DetailedCount(ToServer(TeamForm("", ms, "")).members.value)
  {
    var sm := ToServer(TeamForm("", ms, "")).members.value;
    if ms != [] {
      CompleteCountBound(ms[1..]);
      assert sm[1..] == ToServer(TeamForm("", ms[1..], "")).members.value;
      if IsCompleteMember(ms[0]) {
        assert ms[0].fullName != "";
        assert ms[0].email != "";
        assert RegisterTeamCode.HasAllDetails(sm[0]);
      }
    }
  }
}
