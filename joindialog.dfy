/** JoinDialog: the sign-up form. Submitting reads the fields, composes the
    e-mail address and the postal address, runs five checks in a fixed order and
    stops at the first that fails; only when all pass is addUser called, and
    the dialog closes when that call succeeds. */
module JoinDialog {
  import opened Text
  import opened DateTime
  import opened Store

  /** The widgets' contents when the submit button is clicked. */
  datatype JoinForm = JoinForm(
    username: string, password: string, confirmPassword: string, name: string,
    emailLocal: string, emailDomain: string, dateOfBirth: QDate,
    address: string, addressDetail: string)

  /** The sign-up checks, in the order they run. */
  datatype JoinError = UsernameEmpty | PasswordEmpty | PasswordMismatch | NameEmpty | EmailEmpty

  /** The first failing check, if any. Username and name are trimmed; the two
      passwords are compared as typed; the e-mail check looks at the trimmed
      local part only. */
  function FirstError(f: JoinForm): Option<JoinError> {
    if Trim(f.username) == [] then Some(UsernameEmpty)
    else if f.password == [] then Some(PasswordEmpty)
    else if f.password != f.confirmPassword then Some(PasswordMismatch)
    else if Trim(f.name) == [] then Some(NameEmpty)
    else if Trim(f.emailLocal) == [] then Some(EmailEmpty)
    else None
  }

  /** The e-mail address: trimmed local part, '@', and the domain as chosen. */
  function Email(f: JoinForm): string {
    Trim(f.emailLocal) + "@" + f.emailDomain
  }

  /** The postal address: both parts trimmed, joined by a space, trimmed again. */
  function Address(f: JoinForm): string {
    Trim(Trim(f.address) + " " + Trim(f.addressDetail))
  }

  /** The fields handed to addUser. */
  function NewUserOf(f: JoinForm): NewUser {
    NewUser(Trim(f.username), f.password, Trim(f.name), Email(f), FormatDate(f.dateOfBirth), Address(f))
  }

  /** The result of one click on the submit button. */
  datatype Submission =
    | Rejected(error: JoinError, form: JoinForm)          // a warning; the form as it is left
    | Submitted(newUser: NewUser, closes: bool)           // addUser was called; close() iff it succeeded

  /** on_submitButton_clicked; `success` is addUser's answer. */
  function Submit(f: JoinForm, success: bool): Submission {
    match FirstError(f)
    case Some(e) => Rejected(e, if e == PasswordMismatch then f.(confirmPassword := "") else f)
    case None => Submitted(NewUserOf(f), success)
  }

  /** The store calls one submission makes: addUser once, or nothing. */
  function SubmitCalls(f: JoinForm, success: bool): (calls: seq<Call>)
    ensures |calls| <= 1
    ensures calls != [] ==> calls[0].AddUser?
  {
    match Submit(f, success)
    case Rejected(_, _) => []
    case Submitted(u, _) => [AddUser(u)]
  }

  /** Each error is reported exactly when every earlier check passes and its
      own check fails. */
  lemma CheckOrder(f: JoinForm)
    ensures FirstError(f) == Some(UsernameEmpty) <==> Trim(f.username) == []
    ensures FirstError(f) == Some(PasswordEmpty) <==> Trim(f.username) != [] && f.password == []
    ensures FirstError(f) == Some(PasswordMismatch) <==>
      Trim(f.username) != [] && f.password != [] && f.password != f.confirmPassword
    ensures FirstError(f) == Some(NameEmpty) <==>
      Trim(f.username) != [] && f.password != [] && f.password == f.confirmPassword && Trim(f.name) == []
    ensures FirstError(f) == Some(EmailEmpty) <==>
      Trim(f.username) != [] && f.password != [] && f.password == f.confirmPassword
      && Trim(f.name) != [] && Trim(f.emailLocal) == []
    ensures FirstError(f) == None <==>
      Trim(f.username) != [] && f.password != [] && f.password == f.confirmPassword
      && Trim(f.name) != [] && Trim(f.emailLocal) != []
  {
  }

  /** addUser is called exactly once when all five checks pass and never
      otherwise; the dialog closes only after a successful call. */
  lemma AddUserOnlyWhenValid(f: JoinForm, success: bool)
    ensures SubmitCalls(f, success) == (if FirstError(f) == None then [AddUser(NewUserOf(f))] else [])
    ensures Submit(f, success).Submitted? <==> FirstError(f) == None
    ensures Submit(f, success).Submitted? ==> (Submit(f, success).closes <==> success)
  {
    match FirstError(f)
    case Some(e) =>
    case None =>
  }

  /** A password mismatch clears the confirmation field and nothing else; every
      other rejection leaves the form untouched. */
  lemma RejectionLeavesForm(f: JoinForm, success: bool)
    ensures Submit(f, success).Rejected? && Submit(f, success).error == PasswordMismatch ==>
      Submit(f, success).form == f.(confirmPassword := "")
    ensures Submit(f, success).Rejected? && Submit(f, success).error != PasswordMismatch ==>
      Submit(f, success).form == f
  {
  }

  /** The e-mail domain and the address never decide whether the form is accepted. */
  lemma ValidationIgnoresDomainAndAddress(f: JoinForm, domain: string, a: string, b: string)
    ensures FirstError(f.(emailDomain := domain, address := a, addressDetail := b)) == FirstError(f)
  {
  }

  /** The e-mail address is split back into the trimmed local part and the
      domain at its first '@' when the local part holds no '@'. */
  lemma EmailParts(f: JoinForm)
    requires '@' !in f.emailLocal
    ensures IndexOf(Email(f), '@') == |Trim(f.emailLocal)|
    ensures Email(f)[..|Trim(f.emailLocal)|] == Trim(f.emailLocal)
    ensures Email(f)[|Trim(f.emailLocal)| + 1..] == f.emailDomain
  {
    var l := Trim(f.emailLocal);
    TrimAbsent(f.emailLocal, '@');
    var e := Email(f);
    assert e[..|l|] == l;
    assert e[|l|] == '@';
    assert e[|l| + 1..] == f.emailDomain;
  }

  /** The address has no whitespace at either end; it is the first part alone
      when the detail is blank, and the two trimmed parts with one space
      between them when neither is blank. */
  lemma AddressShape(f: JoinForm)
    ensures IsTrimmed(Address(f))
    ensures Trim(f.addressDetail) == [] ==> Address(f) == Trim(f.address)
    ensures Trim(f.address) == [] ==> Address(f) == Trim(f.addressDetail)
    ensures Trim(f.address) != [] && Trim(f.addressDetail) != [] ==>
      Address(f) == Trim(f.address) + " " + Trim(f.addressDetail)
  {
    TrimJoin(f.address, f.addressDetail);
  }

  /** Passwords are compared as typed: a confirmation that is the password
      with a leading space trims to the same text, yet it is a mismatch. */
  lemma UntrimmedPasswordMismatch(f: JoinForm, success: bool)
    requires Trim(f.username) != [] && f.password != []
    requires f.confirmPassword == " " + f.password
    ensures Trim(f.confirmPassword) == Trim(f.password)
    ensures Submit(f, success) == Rejected(PasswordMismatch, f.(confirmPassword := ""))
  {
    assert Trim(f.confirmPassword) == Trim(f.password) by {
      assert AllSpace(" ");
      TrimStartPrefix(" ", f.password);
    }
    assert FirstError(f) == Some(PasswordMismatch) by {
      assert |f.confirmPassword| != |f.password|;
    }
  }
}
