// The client-side form validators: the e-mail pattern shared by sign-up and log-in, the two
// authentication forms, and the profile editor with its schema checks and name handling.

// The e-mail regular expression of src/components/auth/SignupForm.tsx and LoginForm.tsx,
// written as a recogniser over the text: a non-empty local part of the listed characters, one
// '@', then dot-separated domain labels of 1 to 63 letters, digits and inner hyphens. It is
// the pattern of the HTML Living Standard's e-mail input state (section 4.10.5.1.5), so it
// accepts a dot-less domain such as "a@b" and no quoted local parts.
module EmailPattern {
  import opened Text

  predicate IsLocalChar(c: char)
  {
    || IsAsciiAlnum(c) || c == '.' || c == '!' || c == '#' || c == '$' || c == '%' || c == '&'
    || c == '\'' || c == '*' || c == '+' || c == '/' || c == '=' || c == '?' || c == '^' || c == '_'
    || c == '`' || c == '{' || c == '|' || c == '}' || c == '~' || c == '-'
  }

  predicate IsLabelChar(c: char)
  {
    IsAsciiAlnum(c) || c == '-'
  }

  /** `[a-zA-Z0-9](?:[a-zA-Z0-9-]{0,61}[a-zA-Z0-9])?` */
  predicate IsLabel(s: string)
  {
    1 <= |s| <= 63 && IsAsciiAlnum(s[0]) && IsAsciiAlnum(s[|s| - 1]) && AllOf(s, IsLabelChar)
  }

  /** `label(\.label)*`: the domain is dot-separated labels, read left to right. */
  predicate IsDomain(d: string)
    decreases |d|
  {
    if '.' in d then
      var i := IndexOf(d, '.');
      IsLabel(d[..i]) && IsDomain(d[i + 1..])
    else IsLabel(d)
  }

  /** `[a-zA-Z0-9.!#$%&'*+/=?^_`{|}~-]+`, checked one character at a time. */
  predicate IsLocalPart(s: string)
  {
    |s| >= 1 && IsLocalChar(s[0]) && (|s| == 1 || IsLocalPart(s[1..]))
  }

  /** The whole pattern, anchored at both ends; local-part characters exclude '@'. */
  predicate ValidEmail(e: string)
  {
    '@' in e && LocalAndDomain(e[..IndexOf(e, '@')], e[IndexOf(e, '@') + 1..])
  }

  predicate LocalAndDomain(local: string, domain: string)
  {
    IsLocalPart(local) && IsDomain(domain)
  }

  lemma {:induction false} LocalPartChars(s: string)
    requires IsLocalPart(s)
    ensures AllOf(s, IsLocalChar)
  {
    if |s| > 1 {
      LocalPartChars(s[1..]);
      AllOfCons(s, IsLocalChar);
    }
  }

  lemma {:induction false} LocalPartAll(s: string)
    requires |s| >= 1
    ensures IsLocalPart(s) <==> AllOf(s, IsLocalChar)
  {
    if |s| > 1 {
      LocalPartAll(s[1..]);
      AllOfCons(s, IsLocalChar);
    }
  }

  /** Label characters and the dot are local-part characters too. */
  lemma {:induction false} DomainChars(d: string)
    requires IsDomain(d)
    ensures AllOf(d, IsLocalChar)
    decreases |d|
  {
    if '.' in d {
      var i := IndexOf(d, '.');
      DomainChars(d[i + 1..]);
      forall k | 0 <= k < |d|
        ensures IsLocalChar(d[k])
      {
        if k < i {
          assert d[k] == d[..i][k];
        } else if k > i {
          assert d[k] == d[i + 1..][k - i - 1];
        }
      }
    }
  }

  lemma LocalCharShape(c: char)
    requires IsLocalChar(c)
    ensures c != '@' && !IsJsSpace(c)
  {
  }

  /**
   * An accepted address has exactly one '@', after a non-empty local part, and no whitespace
   * anywhere.
   */
  lemma ValidEmailShape(e: string)
    requires ValidEmail(e)
    ensures var at := IndexOf(e, '@'); 1 <= at && '@' !in e[at + 1..]
    ensures forall k :: 0 <= k < |e| ==> !IsJsSpace(e[k])
  {
    AroundAt(e, IndexOf(e, '@'));
  }

  /** Local-part characters on both sides of one '@' bring in no other '@' and no white space. */
  lemma AroundAt(e: string, at: nat)
    requires at < |e| && e[at] == '@'
    requires IsLocalPart(e[..at]) && IsDomain(e[at + 1..])
    ensures 1 <= at && '@' !in e[at + 1..]
    ensures forall k :: 0 <= k < |e| ==> !IsJsSpace(e[k])
  {
    var local, d := e[..at], e[at + 1..];
    LocalPartChars(local);
    DomainChars(d);
    forall k | 0 <= k < |e|
      ensures !IsJsSpace(e[k])
    {
      if k < at {
        assert e[k] == local[k];
        LocalCharShape(local[k]);
      } else if k > at {
        assert e[k] == d[k - at - 1];
        LocalCharShape(d[k - at - 1]);
      }
    }
    forall k | 0 <= k < |d|
      ensures d[k] != '@'
    {
      LocalCharShape(d[k]);
    }
  }

  /** Cutting at the first separator of `l + [c] + rest` when `l` has none. */
  lemma FirstSeparator(l: string, c: char, rest: string)
    requires c !in l
    ensures c in l + [c] + rest
    ensures var s := l + [c] + rest; var i := IndexOf(s, c); i == |l| && s[..i] == l && s[i + 1..] == rest
  {
    var s := l + [c] + rest;
    assert s[|l|] == c;
    var i := IndexOf(s, c);
    assert forall k :: 0 <= k < |l| ==> s[k] == l[k];
    assert forall k :: 0 <= k < i ==> s[k] != c;
  }

  /** A domain written as labels joined by dots is accepted exactly when every piece is a label. */
  lemma {:induction false} DomainOfLabels(labels: seq<string>)
    requires |labels| >= 1 && forall k :: 0 <= k < |labels| ==> '.' !in labels[k]
    ensures IsDomain(Join(labels, '.')) <==> forall k :: 0 <= k < |labels| ==> IsLabel(labels[k])
  {
    if |labels| > 1 {
      var l := labels[0];
      assert Join(labels, '.') == l + ['.'] + Join(labels[1..], '.');
      FirstSeparator(l, '.', Join(labels[1..], '.'));
      DomainOfLabels(labels[1..]);
      assert forall k :: 1 <= k < |labels| ==> labels[k] == labels[1..][k - 1];
    }
  }

  /**
   * With a well-formed local part, the address is accepted exactly when every dot-separated
   * piece of the domain is a label; one label suffices, so no dot is required.
   */
  lemma DomainLabels(local: string, labels: seq<string>)
    requires local != [] && AllOf(local, IsLocalChar)
    requires |labels| >= 1 && forall k :: 0 <= k < |labels| ==> '.' !in labels[k]
    ensures ValidEmail(local + "@" + Join(labels, '.')) <==> forall k :: 0 <= k < |labels| ==> IsLabel(labels[k])
  {
    LocalPartAll(local);
    assert '@' !in local by {
      forall k | 0 <= k < |local| ensures local[k] != '@' {
        LocalCharShape(local[k]);
      }
    }
    assert local + "@" + Join(labels, '.') == local + ['@'] + Join(labels, '.');
    FirstSeparator(local, '@', Join(labels, '.'));
    DomainOfLabels(labels);
  }
}

// src/components/auth/SignupForm.tsx: the sign-up form's field checks and edits.
module SignupForm {
  import opened Text
  import opened EmailPattern

  datatype Field = Name | Email | Password | ConfirmPassword

  datatype SignupData = SignupData(name: string, email: string, password: string, confirmPassword: string)

  function Get(d: SignupData, f: Field): string
  {
    match f
    case Name => d.name
    case Email => d.email
    case Password => d.password
    case ConfirmPassword => d.confirmPassword
  }

  /** Writing one field of the form data. */
  function With(d: SignupData, f: Field, value: string): (r: SignupData)
    ensures Get(r, f) == value
    ensures forall g :: g != f ==> Get(r, g) == Get(d, g)
  {
    match f
    case Name => d.(name := value)
    case Email => d.(email := value)
    case Password => d.(password := value)
    case ConfirmPassword => d.(confirmPassword := value)
  }

  function EmailMessage(email: string): string
  {
    if email == "" then "Email is required" else "Please enter a valid email address"
  }

  function PasswordMessage(password: string): string
  {
    if password == "" then "Password is required" else "Password must be at least 8 characters"
  }

  function ConfirmMessage(confirmPassword: string): string
  {
    if confirmPassword == "" then "Please confirm your password" else "Passwords do not match"
  }

  /** Records `message` under `f` when `fails`; every other entry is kept. */
  function Check(m: map<Field, string>, f: Field, fails: bool, message: string): (r: map<Field, string>)
    ensures forall g :: g != f ==> (g in r <==> g in m) && (g in m ==> r[g] == m[g])
    ensures f in r <==> f in m || fails
    ensures fails ==> r[f] == message
    ensures r == map[] <==> m == map[] && !fails
  {
    if fails then m[f := message] else m
  }

  /**
   * The errors the form records: every field is checked, and a field has an entry exactly when
   * its rule fails.
   */
  function SignupErrors(d: SignupData): (errors: map<Field, string>)
    ensures Name in errors <==> AllOf(d.name, IsJsSpace)
    ensures Email in errors <==> !ValidEmail(d.email)
    ensures Password in errors <==> JsLength(d.password) < 8
    ensures ConfirmPassword in errors <==> d.confirmPassword == "" || d.confirmPassword != d.password
    ensures Name in errors ==> errors[Name] == "Full name is required"
    ensures Email in errors ==> errors[Email] == EmailMessage(d.email)
    ensures Password in errors ==> errors[Password] == PasswordMessage(d.password)
    ensures ConfirmPassword in errors ==> errors[ConfirmPassword] == ConfirmMessage(d.confirmPassword)
  {
    var e1 := Check(map[], Name, AllOf(d.name, IsJsSpace), "Full name is required");
    var e2 := Check(e1, Email, !ValidEmail(d.email), EmailMessage(d.email));
    var e3 := Check(e2, Password, JsLength(d.password) < 8, PasswordMessage(d.password));
    Check(e3, ConfirmPassword, d.confirmPassword == "" || d.confirmPassword != d.password,
          ConfirmMessage(d.confirmPassword))
  }

  /** `validateForm`: the checks in order, without short-circuit, lowering `isValid` on each failure. */
  method ValidateSignup(d: SignupData) returns (errors: map<Field, string>, isValid: bool)
    ensures errors == SignupErrors(d)
    ensures isValid <==> errors == map[]
  {
    errors := map[];
    isValid := true;
    errors, isValid := CheckName(errors, isValid, d.name);
    errors, isValid := CheckEmail(errors, isValid, d.email);
    errors, isValid := CheckPassword(errors, isValid, d.password);
    errors, isValid := CheckConfirm(errors, isValid, d.password, d.confirmPassword);
  }

  /** The full-name block: required once trimmed. */
  method CheckName(errors0: map<Field, string>, isValid0: bool, name: string) returns (errors: map<Field, string>, isValid: bool)
    requires isValid0 <==> errors0 == map[]
    ensures errors == Check(errors0, Name, AllOf(name, IsJsSpace), "Full name is required")
    ensures isValid <==> errors == map[]
  {
    errors, isValid := errors0, isValid0;
    var trimmedName := Trim(name);
    StripEmpty(name, IsJsSpace);
    if trimmedName == "" {
      errors := errors[Name := "Full name is required"];
      isValid := false;
    }
  }

  /** The e-mail block: required, then the pattern. */
  method CheckEmail(errors0: map<Field, string>, isValid0: bool, email: string) returns (errors: map<Field, string>, isValid: bool)
    requires isValid0 <==> errors0 == map[]
    ensures errors == Check(errors0, Email, !ValidEmail(email), EmailMessage(email))
    ensures isValid <==> errors == map[]
  {
    errors, isValid := errors0, isValid0;
    if email == "" {
      errors := errors[Email := "Email is required"];
      isValid := false;
    } else if !ValidEmail(email) {
      errors := errors[Email := "Please enter a valid email address"];
      isValid := false;
    }
  }

  /** The password block: required, then at least eight UTF-16 code units. */
  method CheckPassword(errors0: map<Field, string>, isValid0: bool, password: string) returns (errors: map<Field, string>, isValid: bool)
    requires isValid0 <==> errors0 == map[]
    ensures errors == Check(errors0, Password, JsLength(password) < 8, PasswordMessage(password))
    ensures isValid <==> errors == map[]
  {
    errors, isValid := errors0, isValid0;
    if password == "" {
      errors := errors[Password := "Password is required"];
      isValid := false;
    } else if JsLength(password) < 8 {
      errors := errors[Password := "Password must be at least 8 characters"];
      isValid := false;
    }
  }

  /** The confirmation block: required, then equal to the password. */
  method CheckConfirm(errors0: map<Field, string>, isValid0: bool, password: string, confirmPassword: string)
    returns (errors: map<Field, string>, isValid: bool)
    requires isValid0 <==> errors0 == map[]
    ensures errors == Check(errors0, ConfirmPassword, confirmPassword == "" || confirmPassword != password,
                            ConfirmMessage(confirmPassword))
    ensures isValid <==> errors == map[]
  {
    errors, isValid := errors0, isValid0;
    if confirmPassword == "" {
      errors := errors[ConfirmPassword := "Please confirm your password"];
      isValid := false;
    } else if password != confirmPassword {
      errors := errors[ConfirmPassword := "Passwords do not match"];
      isValid := false;
    }
  }

  class SignupFormState {
    var formData: SignupData
    var fieldErrors: map<Field, string>

    constructor ()
      ensures formData == SignupData("", "", "", "") && fieldErrors == map[]
    {
      formData := SignupData("", "", "", "");
      fieldErrors := map[];
    }

    /** Typing into a field stores the value and blanks that field's error, and no other. */
    method HandleInputChange(f: Field, value: string)
      modifies this
      ensures formData == With(old(formData), f, value)
      ensures f in old(fieldErrors) ==> fieldErrors == old(fieldErrors)[f := ""]
      ensures f !in old(fieldErrors) ==> fieldErrors == old(fieldErrors)
    {
      formData := With(formData, f, value);
      if f in fieldErrors && fieldErrors[f] != "" {
        fieldErrors := fieldErrors[f := ""];
      }
    }

    method ValidateForm() returns (isValid: bool)
      modifies this
      ensures fieldErrors == SignupErrors(formData) && formData == old(formData)
      ensures isValid <==> fieldErrors == map[]
    {
      var errors;
      errors, isValid := ValidateSignup(formData);
      fieldErrors := errors;
    }
  }
}

// src/components/auth/LoginForm.tsx: the log-in form's field checks and edits.
module LoginForm {
  import opened EmailPattern

  datatype Field = Email | Password

  datatype LoginData = LoginData(email: string, password: string)

  function With(d: LoginData, f: Field, value: string): (r: LoginData)
    ensures f == Email ==> r == LoginData(value, d.password)
    ensures f == Password ==> r == LoginData(d.email, value)
  {
    match f
    case Email => d.(email := value)
    case Password => d.(password := value)
  }

  /** An e-mail entry exactly when the pattern fails; a password entry only when it is empty. */
  function LoginErrors(d: LoginData): (errors: map<Field, string>)
    ensures Email in errors <==> !ValidEmail(d.email)
    ensures Password in errors <==> d.password == ""
    ensures Email in errors ==>
              errors[Email] == if d.email == "" then "Email is required" else "Please enter a valid email address"
    ensures Password in errors ==> errors[Password] == "Password is required"
  {
    var e0: map<Field, string> := map[];
    var e1 := if d.email == "" then e0[Email := "Email is required"]
              else if !ValidEmail(d.email) then e0[Email := "Please enter a valid email address"]
              else e0;
    if d.password == "" then e1[Password := "Password is required"] else e1
  }

  /** `validateForm`: both checks always run. */
  method ValidateLogin(d: LoginData) returns (errors: map<Field, string>, isValid: bool)
    ensures errors == LoginErrors(d)
    ensures isValid <==> errors == map[]
  {
    errors := map[];
    isValid := true;
    if d.email == "" {
      errors := errors[Email := "Email is required"];
      isValid := false;
    } else if !ValidEmail(d.email) {
      errors := errors[Email := "Please enter a valid email address"];
      isValid := false;
    }
    if d.password == "" {
      errors := errors[Password := "Password is required"];
      isValid := false;
    }
    assert !isValid ==> Email in errors || Password in errors;
  }

  class LoginFormState {
    var formData: LoginData
    var fieldErrors: map<Field, string>

    constructor ()
      ensures formData == LoginData("", "") && fieldErrors == map[]
    {
      formData := LoginData("", "");
      fieldErrors := map[];
    }

    /** Typing into a field stores the value and blanks that field's error, and no other. */
    method HandleInputChange(f: Field, value: string)
      modifies this
      ensures formData == With(old(formData), f, value)
      ensures f in old(fieldErrors) ==> fieldErrors == old(fieldErrors)[f := ""]
      ensures f !in old(fieldErrors) ==> fieldErrors == old(fieldErrors)
    {
      formData := With(formData, f, value);
      if f in fieldErrors && fieldErrors[f] != "" {
        fieldErrors := fieldErrors[f := ""];
      }
    }

    method ValidateForm() returns (isValid: bool)
      modifies this
      ensures fieldErrors == LoginErrors(formData) && formData == old(formData)
      ensures isValid <==> fieldErrors == map[]
    {
      var errors;
      errors, isValid := ValidateLogin(formData);
      fieldErrors := errors;
    }
  }
}
