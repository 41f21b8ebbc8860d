// src/components/profile/ProfileContent.tsx: the profile editor. The two zod schemas become
// lists of issues in the order the schema reports them, `validateForm` records them into an
// error map keyed by field path, and the name is split for editing and rejoined for saving.
module ProfileForm {
  import opened Text
  import opened Wrappers

  datatype Notifications = Notifications(email: bool, sms: bool, browser: bool)

  datatype UserProfile = UserProfile(
    firstName: string,
    lastName: string,
    email: string,
    learningStyle: string,
    bio: string,
    currentPassword: string,
    newPassword: string,
    confirmPassword: string,
    profileImage: string,
    notifications: Notifications)

  const InitialProfile: UserProfile :=
    UserProfile("", "", "", "Visual Learner", "", "", "", "", "", Notifications(true, false, true))

  /** The error keys: the schema fields, and `form` for a failed save. */
  datatype Path = FirstName | LastName | Email | Bio | CurrentPassword | NewPassword | ConfirmPassword | Form

  /** The form input whose name is the key, if any. */
  function PathOf(name: string): (r: Option<Path>)
  {
    match name
    case "firstName" => Some(FirstName)
    case "lastName" => Some(LastName)
    case "email" => Some(Email)
    case "bio" => Some(Bio)
    case "currentPassword" => Some(CurrentPassword)
    case "newPassword" => Some(NewPassword)
    case "confirmPassword" => Some(ConfirmPassword)
    case "form" => Some(Form)
    case _ => None
  }

  /** One schema rule: the field it reports on, whether it fails, and its message. */
  datatype Rule = Rule(path: Path, fails: bool, message: string)

  /** The profile schema's rules in field order; `emailAccepted` is the schema's own e-mail check. */
  function ProfileRules(p: UserProfile, emailAccepted: bool): seq<Rule>
  {
    [ Rule(FirstName, JsLength(p.firstName) < 2, ShortFirstName),
      Rule(LastName, JsLength(p.lastName) < 2, ShortLastName),
      Rule(Email, !emailAccepted, InvalidEmail),
      Rule(Bio, JsLength(p.bio) > 500, LongBio) ]
  }

  predicate IsSpecial(c: char) { !IsAsciiAlnum(c) }

  /** The new-password rules: at least eight UTF-16 code units, and an upper-case letter, a lower-case letter, a digit and a symbol. */
  predicate StrongPassword(pw: string)
  {
    JsLength(pw) >= 8 && HasChar(pw, IsAsciiUpper) && HasChar(pw, IsAsciiLower)
    && HasChar(pw, IsAsciiDigit) && HasChar(pw, IsSpecial)
  }

  /** The schemas' messages. */
  const ShortFirstName: string := "First name must be at least 2 characters"
  const ShortLastName: string := "Last name must be at least 2 characters"
  const InvalidEmail: string := "Please enter a valid email address"
  const LongBio: string := "Bio must be less than 500 characters"
  const MissingCurrent: string := "Current password is required"
  const ShortPassword: string := "Password must be at least 8 characters"
  const MissingUpper: string := "Password must contain at least one uppercase letter"
  const MissingLower: string := "Password must contain at least one lowercase letter"
  const MissingDigit: string := "Password must contain at least one number"
  const MissingSymbol: string := "Password must contain at least one special character"
  const Mismatch: string := "Passwords don't match"

  /** The password schema: the chained new-password rules, then the refinement on the confirmation. */
  function PasswordRules(p: UserProfile): seq<Rule>
  {
    var pw := p.newPassword;
    [ Rule(CurrentPassword, p.currentPassword == "", MissingCurrent),
      Rule(NewPassword, JsLength(pw) < 8, ShortPassword),
      Rule(NewPassword, !HasChar(pw, IsAsciiUpper), MissingUpper),
      Rule(NewPassword, !HasChar(pw, IsAsciiLower), MissingLower),
      Rule(NewPassword, !HasChar(pw, IsAsciiDigit), MissingDigit),
      Rule(NewPassword, !HasChar(pw, IsSpecial), MissingSymbol),
      Rule(ConfirmPassword, p.newPassword != p.confirmPassword, Mismatch) ]
  }

  /** The password schema is consulted only when one of the three password fields is filled in. */
  predicate ChangesPassword(p: UserProfile)
  {
    p.currentPassword != "" || p.newPassword != "" || p.confirmPassword != ""
  }

  /** Every rule `validateForm` consults, profile rules first. */
  function FormRules(p: UserProfile, emailAccepted: bool): seq<Rule>
  {
    ProfileRules(p, emailAccepted) + (if ChangesPassword(p) then PasswordRules(p) else [])
  }

  /** The issues a parse reports: every failing rule, in order. */
  function Issues(rules: seq<Rule>): (r: seq<Rule>)
    ensures forall x :: x in r <==> x in rules && x.fails
  {
    if rules == [] then []
    else
      var n := |rules| - 1;
      assert forall x :: x in rules <==> x in rules[..n] || x == rules[n] by {
        assert rules == rules[..n] + [rules[n]];
      }
      Issues(rules[..n]) + (if rules[n].fails then [rules[n]] else [])
  }

  /** `newErrors[path] = message` for each issue in turn: a later issue for a path overwrites. */
  function Record(errors: map<Path, string>, issues: seq<Rule>): map<Path, string>
  {
    if issues == [] then errors
    else
      var n := |issues| - 1;
      Record(errors, issues[..n])[issues[n].path := issues[n].message]
  }

  /** The recorded keys are the ones already present plus the issues' paths. */
  lemma {:induction false} RecordKeys(errors: map<Path, string>, issues: seq<Rule>)
    ensures forall k :: k in Record(errors, issues) <==> k in errors || exists x :: x in issues && x.path == k
  {
    if issues != [] {
      var n := |issues| - 1;
      RecordKeys(errors, issues[..n]);
      assert issues == issues[..n] + [issues[n]];
    }
  }

  lemma {:induction false} RecordAppend(errors: map<Path, string>, a: seq<Rule>, b: seq<Rule>)
    ensures Record(errors, a + b) == Record(Record(errors, a), b)
  {
    if b == [] {
      assert a + b == a;
    } else {
      var n := |b| - 1;
      assert (a + b)[..|a + b| - 1] == a + b[..n];
      RecordAppend(errors, a, b[..n]);
    }
  }

  lemma {:induction false} IssuesAppend(a: seq<Rule>, b: seq<Rule>)
    ensures Issues(a + b) == Issues(a) + Issues(b)
  {
    if b == [] {
      assert a + b == a;
    } else {
      var n := |b| - 1;
      assert (a + b)[..|a + b| - 1] == a + b[..n];
      IssuesAppend(a, b[..n]);
    }
  }

  /** The message kept for a path is that of the last failing rule for it. */
  lemma RecordLastWins(errors: map<Path, string>, a: seq<Rule>, x: Rule, b: seq<Rule>)
    requires x.fails && forall y :: y in b ==> y.path != x.path
    ensures x.path in Record(errors, Issues(a + [x] + b))
    ensures Record(errors, Issues(a + [x] + b))[x.path] == x.message
  {
    IssuesAppend(a + [x], b);
    IssuesAppend(a, [x]);
    assert Issues([x]) == [x];
    RecordAppend(errors, Issues(a) + [x], Issues(b));
    RecordKeys(Record(errors, Issues(a) + [x]), Issues(b));
    RecordUnchanged(Record(errors, Issues(a) + [x]), Issues(b), x.path);
  }

  lemma {:induction false} RecordUnchanged(errors: map<Path, string>, issues: seq<Rule>, k: Path)
    requires k in errors && forall y :: y in issues ==> y.path != k
    ensures k in Record(errors, issues) && Record(errors, issues)[k] == errors[k]
  {
    if issues != [] {
      var n := |issues| - 1;
      assert issues[n] in issues;
      assert forall y :: y in issues[..n] ==> y in issues;
      RecordUnchanged(errors, issues[..n], k);
    }
  }

  /** Drives the parse of one schema: records each of its issues in turn. */
  method RecordIssues(errors: map<Path, string>, rules: seq<Rule>) returns (r: map<Path, string>, failed: bool)
    ensures r == Record(errors, Issues(rules))
    ensures failed <==> Issues(rules) != []
  {
    var issues := Issues(rules);
    r := errors;
    for i := 0 to |issues|
      invariant r == Record(errors, issues[..i])
    {
      assert issues[..i + 1][..i] == issues[..i];
      r := r[issues[i].path := issues[i].message];
    }
    assert issues[..|issues|] == issues;
    failed := issues != [];
  }

  /** `validateForm`: the profile schema always, the password schema only when a password is typed. */
  method ValidateForm(p: UserProfile, emailAccepted: bool) returns (errors: map<Path, string>, isValid: bool)
    ensures errors == Record(map[], Issues(FormRules(p, emailAccepted)))
    ensures isValid <==> Issues(FormRules(p, emailAccepted)) == []
  {
    var profileRules := ProfileRules(p, emailAccepted);
    var failed;
    errors, failed := RecordIssues(map[], profileRules);
    isValid := !failed;
    if ChangesPassword(p) {
      var passwordRules := PasswordRules(p);
      errors, failed := RecordIssues(errors, passwordRules);
      isValid := isValid && !failed;
      IssuesAppend(profileRules, passwordRules);
      RecordAppend(map[], Issues(profileRules), Issues(passwordRules));
    } else {
      assert FormRules(p, emailAccepted) == profileRules;
    }
  }

  /** A key is present after validation exactly when some consulted rule for it fails. */
  lemma FormErrorKeys(p: UserProfile, emailAccepted: bool, k: Path)
    ensures k in Record(map[], Issues(FormRules(p, emailAccepted)))
            <==> exists x :: x in FormRules(p, emailAccepted) && x.fails && x.path == k
  {
    FailingPathRecorded(FormRules(p, emailAccepted), k);
  }

  /** Recording the issues of any rule list keeps exactly the paths of its failing rules. */
  lemma FailingPathRecorded(rules: seq<Rule>, k: Path)
    ensures k in Record(map[], Issues(rules)) <==> exists x :: x in rules && x.fails && x.path == k
  {
    RecordKeys(map[], Issues(rules));
  }

  /** A key is recorded exactly when some rule for it fails. */
  lemma PathPresence(rules: seq<Rule>, k: Path)
    ensures k in Record(map[], Issues(rules)) <==> exists j :: 0 <= j < |rules| && rules[j].path == k && rules[j].fails
  {
    RecordKeys(map[], Issues(rules));
    if k in Record(map[], Issues(rules)) {
      var x :| x in Issues(rules) && x.path == k;
      assert x in rules;
    }
  }

  /** A key reported by exactly the rules at positions `lo` to `hi` is recorded exactly when one of them fails. */
  lemma RulesForPath(rules: seq<Rule>, lo: nat, hi: nat, k: Path)
    requires lo <= hi <= |rules|
    requires forall j :: 0 <= j < |rules| ==> (rules[j].path == k <==> lo <= j < hi)
    ensures k in Record(map[], Issues(rules)) <==> exists j :: lo <= j < hi && rules[j].fails
  {
    PathPresence(rules, k);
  }

  /** A key reported by the rules at positions 5 to 9 only is recorded exactly when one of those five fails. */
  lemma FiveRulesForPath(rules: seq<Rule>, k: Path)
    requires |rules| >= 10
    requires forall j :: 0 <= j < |rules| ==> (rules[j].path == k <==> 5 <= j < 10)
    ensures k in Record(map[], Issues(rules)) <==>
              rules[5].fails || rules[6].fails || rules[7].fails || rules[8].fails || rules[9].fails
  {
    RulesForPath(rules, 5, 10, k);
    if rules[5].fails || rules[6].fails || rules[7].fails || rules[8].fails || rules[9].fails {
      var j := if rules[5].fails then 5 else if rules[6].fails then 6 else if rules[7].fails then 7
               else if rules[8].fails then 8 else 9;
      assert 5 <= j < 10 && rules[j].fails;
    } else {
      forall j | 5 <= j < 10
        ensures !rules[j].fails
      {
        assert j == 5 || j == 6 || j == 7 || j == 8 || j == 9;
      }
    }
  }

  /** A key reported by one rule only is recorded exactly when that rule fails. */
  lemma RuleForPath(rules: seq<Rule>, i: nat, k: Path)
    requires i < |rules|
    requires forall j :: 0 <= j < |rules| ==> (rules[j].path == k <==> j == i)
    ensures k in Record(map[], Issues(rules)) <==> rules[i].fails
  {
    RulesForPath(rules, i, i + 1, k);
  }

  /** The field each consulted rule reports on, by position: four profile rules, then seven password rules. */
  function PathAt(j: nat): Path
  {
    if j == 0 then FirstName
    else if j == 1 then LastName
    else if j == 2 then Email
    else if j == 3 then Bio
    else if j == 4 then CurrentPassword
    else if j < 10 then NewPassword
    else ConfirmPassword
  }

  /** The consulted rules: the four profile rules, then the password rules when a password is typed. */
  lemma FormRulesLayout(p: UserProfile, emailAccepted: bool)
    ensures |FormRules(p, emailAccepted)| == if ChangesPassword(p) then 11 else 4
    ensures forall j :: 0 <= j < |FormRules(p, emailAccepted)| ==> FormRules(p, emailAccepted)[j].path == PathAt(j)
  {
    var profileRules := ProfileRules(p, emailAccepted);
    var rules := FormRules(p, emailAccepted);
    assert forall j :: 0 <= j < 4 ==> rules[j] == profileRules[j];
    if ChangesPassword(p) {
      var passwordRules := PasswordRules(p);
      assert forall j :: 4 <= j < 11 ==> rules[j] == passwordRules[j - 4];
    }
  }

  /** The profile fields carry an error after validation each exactly when their own rule fails. */
  lemma FirstNameError(p: UserProfile, emailAccepted: bool)
    ensures FirstName in Record(map[], Issues(FormRules(p, emailAccepted))) <==> JsLength(p.firstName) < 2
  {
    FormRulesLayout(p, emailAccepted);
    RuleForPath(FormRules(p, emailAccepted), 0, FirstName);
  }

  lemma LastNameError(p: UserProfile, emailAccepted: bool)
    ensures LastName in Record(map[], Issues(FormRules(p, emailAccepted))) <==> JsLength(p.lastName) < 2
  {
    FormRulesLayout(p, emailAccepted);
    RuleForPath(FormRules(p, emailAccepted), 1, LastName);
  }

  lemma EmailError(p: UserProfile, emailAccepted: bool)
    ensures Email in Record(map[], Issues(FormRules(p, emailAccepted))) <==> !emailAccepted
  {
    FormRulesLayout(p, emailAccepted);
    RuleForPath(FormRules(p, emailAccepted), 2, Email);
  }

  lemma BioError(p: UserProfile, emailAccepted: bool)
    ensures Bio in Record(map[], Issues(FormRules(p, emailAccepted))) <==> JsLength(p.bio) > 500
  {
    FormRulesLayout(p, emailAccepted);
    RuleForPath(FormRules(p, emailAccepted), 3, Bio);
  }

  /** Validation never records the `form` key; only a failed save does. */
  lemma NoFormErrorFromValidation(p: UserProfile, emailAccepted: bool)
    ensures Form !in Record(map[], Issues(FormRules(p, emailAccepted)))
  {
    var rules := FormRules(p, emailAccepted);
    FormRulesLayout(p, emailAccepted);
    RulesForPath(rules, 0, 0, Form);
  }

  /** The current password is reported missing only when the password schema is consulted. */
  lemma CurrentPasswordError(p: UserProfile, emailAccepted: bool)
    ensures CurrentPassword in Record(map[], Issues(FormRules(p, emailAccepted)))
            <==> ChangesPassword(p) && p.currentPassword == ""
  {
    var rules := FormRules(p, emailAccepted);
    FormRulesLayout(p, emailAccepted);
    if ChangesPassword(p) {
      RuleForPath(rules, 4, CurrentPassword);
    } else {
      RulesForPath(rules, 0, 0, CurrentPassword);
    }
  }

  /** The five new-password rules, at positions 5 to 9 of the consulted rules, fail exactly when it is not strong. */
  lemma NewPasswordRules(p: UserProfile, emailAccepted: bool)
    requires ChangesPassword(p)
    ensures |FormRules(p, emailAccepted)| == 11
    ensures var rules := FormRules(p, emailAccepted);
            !StrongPassword(p.newPassword) <==>
              rules[5].fails || rules[6].fails || rules[7].fails || rules[8].fails || rules[9].fails
  {
    var rules := FormRules(p, emailAccepted);
    var pw := PasswordRules(p);
    assert forall j :: 5 <= j < 10 ==> rules[j] == pw[j - 4];
  }

  /** The new password is reported exactly when it is consulted and not strong. */
  lemma NewPasswordError(p: UserProfile, emailAccepted: bool)
    ensures NewPassword in Record(map[], Issues(FormRules(p, emailAccepted)))
            <==> ChangesPassword(p) && !StrongPassword(p.newPassword)
  {
    var rules := FormRules(p, emailAccepted);
    FormRulesLayout(p, emailAccepted);
    if ChangesPassword(p) {
      NewPasswordRules(p, emailAccepted);
      FiveRulesForPath(rules, NewPassword);
    } else {
      RulesForPath(rules, 0, 0, NewPassword);
    }
  }

  /** A differing confirmation is reported exactly when the password schema is consulted. */
  lemma ConfirmPasswordError(p: UserProfile, emailAccepted: bool)
    ensures ConfirmPassword in Record(map[], Issues(FormRules(p, emailAccepted)))
            <==> ChangesPassword(p) && p.newPassword != p.confirmPassword
  {
    var rules := FormRules(p, emailAccepted);
    FormRulesLayout(p, emailAccepted);
    if ChangesPassword(p) {
      RuleForPath(rules, 10, ConfirmPassword);
    } else {
      RulesForPath(rules, 0, 0, ConfirmPassword);
    }
  }

  /** The form is valid exactly when no error is recorded. */
  lemma ValidIffNoErrors(p: UserProfile, emailAccepted: bool)
    ensures Record(map[], Issues(FormRules(p, emailAccepted))) == map[] <==> Issues(FormRules(p, emailAccepted)) == []
  {
    var issues := Issues(FormRules(p, emailAccepted));
    RecordKeys(map[], issues);
    if issues != [] {
      assert issues[0] in issues;
      assert issues[0].path in Record(map[], issues);
    }
  }

  /**
   * A new password without a symbol is reported as missing a symbol whatever else is wrong with
   * it, because later issues for the same field overwrite earlier ones.
   */
  lemma MissingSymbolReportedLast(p: UserProfile, emailAccepted: bool)
    requires ChangesPassword(p) && !HasChar(p.newPassword, IsSpecial)
    ensures NewPassword in Record(map[], Issues(FormRules(p, emailAccepted)))
    ensures Record(map[], Issues(FormRules(p, emailAccepted)))[NewPassword] == MissingSymbol
  {
    var rules := FormRules(p, emailAccepted);
    var pw := PasswordRules(p);
    assert rules == (ProfileRules(p, emailAccepted) + pw[..5]) + [pw[5]] + [pw[6]];
    RecordLastWins(map[], ProfileRules(p, emailAccepted) + pw[..5], pw[5], [pw[6]]);
  }

  /** A mismatch is reported under `confirmPassword` with its own message. */
  lemma MismatchReported(p: UserProfile, emailAccepted: bool)
    requires p.newPassword != p.confirmPassword
    ensures ConfirmPassword in Record(map[], Issues(FormRules(p, emailAccepted)))
    ensures Record(map[], Issues(FormRules(p, emailAccepted)))[ConfirmPassword] == Mismatch
  {
    var rules := FormRules(p, emailAccepted);
    var pw := PasswordRules(p);
    assert rules == (ProfileRules(p, emailAccepted) + pw[..6]) + [pw[6]] + [];
    RecordLastWins(map[], ProfileRules(p, emailAccepted) + pw[..6], pw[6], []);
  }

  /** `name.split(' ')`: the first word, and the remaining words joined back with spaces. */
  function SplitName(name: string): (string, string)
  {
    if name == "" then ("", "")
    else
      var parts := Split(name, ' ');
      (parts[0], Join(parts[1..], ' '))
  }

  /** The name sent when saving. */
  function FullName(firstName: string, lastName: string): string
  {
    Trim(firstName + " " + lastName)
  }

  lemma TrimTrailingSpace(s: string)
    requires s != [] && !IsJsSpace(s[0]) && !IsJsSpace(s[|s| - 1])
    ensures Trim(s + " ") == s
  {
    var t := s + " ";
    assert DropLeading(t, IsJsSpace) == t;
    assert t[..|t| - 1] == s;
    assert DropTrailing(t, IsJsSpace) == DropTrailing(s, IsJsSpace);
  }

  /** Rejoining the first word and the rest of any split of `name` gives `name` back. */
  lemma RejoinParts(parts: seq<string>, name: string)
    requires |parts| >= 1 && Join(parts, ' ') == name
    requires name != "" && !IsJsSpace(name[0]) && !IsJsSpace(name[|name| - 1])
    ensures FullName(parts[0], Join(parts[1..], ' ')) == name
  {
    if |parts| == 1 {
      assert parts[0] == name;
      assert Join(parts[1..], ' ') == "";
      assert parts[0] + " " + "" == name + " ";
      TrimTrailingSpace(name);
    } else {
      assert parts[0] + " " + Join(parts[1..], ' ') == name;
      TrimIdentity(name);
    }
  }

  /** Splitting a stored name for editing and rejoining it on save gives the name back. */
  lemma NameRoundTrip(name: string)
    requires name == "" || (!IsJsSpace(name[0]) && !IsJsSpace(name[|name| - 1]))
    ensures FullName(SplitName(name).0, SplitName(name).1) == name
  {
    if name == "" {
      assert FullName("", "") == Trim(" ");
      StripEmpty(" ", IsJsSpace);
    } else {
      JoinSplit(name, ' ');
      RejoinParts(Split(name, ' '), name);
    }
  }

  /** A change event: text inputs carry a value, check boxes their checked state. */
  datatype Change = TextChange(name: string, value: string) | CheckboxChange(name: string, checked: bool)

  function ChangeName(c: Change): string
  {
    match c
    case TextChange(name, _) => name
    case CheckboxChange(name, _) => name
  }

  /** Setting one flag of the notification settings; an unknown flag leaves them as they are. */
  function SetNotification(n: Notifications, flag: string, on: bool): (r: Notifications)
    ensures flag == "email" ==> r == n.(email := on)
    ensures flag == "sms" ==> r == n.(sms := on)
    ensures flag == "browser" ==> r == n.(browser := on)
    ensures flag !in {"email", "sms", "browser"} ==> r == n
  {
    if flag == "email" then n.(email := on)
    else if flag == "sms" then n.(sms := on)
    else if flag == "browser" then n.(browser := on)
    else n
  }

  /** Setting one top-level text field by its name. */
  function SetField(p: UserProfile, name: string, value: string): UserProfile
  {
    match name
    case "firstName" => p.(firstName := value)
    case "lastName" => p.(lastName := value)
    case "email" => p.(email := value)
    case "learningStyle" => p.(learningStyle := value)
    case "bio" => p.(bio := value)
    case "currentPassword" => p.(currentPassword := value)
    case "newPassword" => p.(newPassword := value)
    case "confirmPassword" => p.(confirmPassword := value)
    case "profileImage" => p.(profileImage := value)
    case _ => p
  }

  /** The profile update of `handleChange`. */
  function ApplyChange(p: UserProfile, c: Change): (r: UserProfile)
    ensures c.CheckboxChange? && '.' in c.name && Split(c.name, '.')[0] == "notifications" && |Split(c.name, '.')| >= 2 ==>
              r == p.(notifications := SetNotification(p.notifications, Split(c.name, '.')[1], c.checked))
    ensures '.' in ChangeName(c) && Split(ChangeName(c), '.')[0] != "notifications" ==> r == p
    ensures r.notifications != p.notifications ==> c.CheckboxChange?
  {
    var name := ChangeName(c);
    if '.' in name then
      var parts := Split(name, '.');
      if parts[0] == "notifications" && |parts| >= 2 then
        match c
        case CheckboxChange(_, checked) => p.(notifications := SetNotification(p.notifications, parts[1], checked))
        case TextChange(_, _) => p
      else p
    else
      match c
      case TextChange(_, value) => SetField(p, name, value)
      case CheckboxChange(_, _) => p
  }

  /** Only the error recorded under the changed input's own name is removed. */
  function ClearError(errors: map<Path, string>, name: string): (r: map<Path, string>)
    ensures PathOf(name).Some? && PathOf(name).value in errors && errors[PathOf(name).value] != "" ==>
              PathOf(name).value !in r
    ensures forall k :: Some(k) != PathOf(name) ==> (k in r <==> k in errors) && (k in r ==> r[k] == errors[k])
  {
    match PathOf(name)
    case Some(k) => if k in errors && errors[k] != "" then errors - {k} else errors
    case None => errors
  }

  class ProfileEditor {
    var profile: UserProfile
    var errors: map<Path, string>
    var isEditing: bool
    var successMessage: string

    constructor ()
      ensures profile == InitialProfile && errors == map[] && !isEditing && successMessage == ""
    {
      profile := InitialProfile;
      errors := map[];
      isEditing := false;
      successMessage := "";
    }

    /** The user record arrived: the stored name is split into the two name fields. */
    method Loaded(name: string, email: string, bio: string, image: string, learningStyle: string)
      modifies this
      ensures profile == old(profile).(firstName := SplitName(name).0, lastName := SplitName(name).1,
                                       email := email, learningStyle := learningStyle, bio := bio,
                                       profileImage := image)
      ensures errors == old(errors) && isEditing == old(isEditing) && successMessage == old(successMessage)
    {
      var split := SplitName(name);
      profile := profile.(firstName := split.0, lastName := split.1, email := email,
                          learningStyle := learningStyle, bio := bio, profileImage := image);
    }

    method HandleChange(c: Change)
      modifies this
      ensures profile == ApplyChange(old(profile), c)
      ensures errors == ClearError(old(errors), ChangeName(c))
      ensures isEditing == old(isEditing) && successMessage == old(successMessage)
    {
      profile := ApplyChange(profile, c);
      errors := ClearError(errors, ChangeName(c));
    }

    method Validate(emailAccepted: bool) returns (isValid: bool)
      modifies this
      ensures errors == Record(map[], Issues(FormRules(profile, emailAccepted)))
      ensures isValid <==> errors == map[]
      ensures profile == old(profile) && isEditing == old(isEditing) && successMessage == old(successMessage)
    {
      errors, isValid := ValidateForm(profile, emailAccepted);
      ValidIffNoErrors(profile, emailAccepted);
    }

    /** After both updates succeed the password fields are emptied and editing ends. */
    method SaveSucceeded()
      modifies this
      ensures profile == old(profile).(currentPassword := "", newPassword := "", confirmPassword := "")
      ensures successMessage == "Profile updated successfully!" && !isEditing
      ensures errors == old(errors)
    {
      successMessage := "Profile updated successfully!";
      profile := profile.(currentPassword := "", newPassword := "", confirmPassword := "");
      isEditing := false;
    }

    /** A failed update replaces every field error by one form-level message. */
    method SaveFailed(message: string)
      modifies this
      ensures errors == map[Form := message]
      ensures profile == old(profile) && isEditing == old(isEditing) && successMessage == old(successMessage)
    {
      errors := map[Form := message];
    }
  }
}
