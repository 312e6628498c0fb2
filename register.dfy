/**
 * The registration form: the e-mail and password rules, the order in which
 * the submit handler checks them, and the form's state. Account creation is a
 * call into the authentication service; its outcome (success, or the message
 * of the error it throws) is a parameter of the submit.
 */
module Register {
  import opened Wrappers
  import opened JsText

  const EmailMessage := "Only @satisfeed.org, gmail.com, or ggc.edu email addresses are allowed."
  const PasswordMessage := "Password must be at least 8 characters long and include both letters and numbers."
  const MismatchMessage := "Passwords do not match."

  /** The domains after the `@`, matched exactly (and case-sensitively). */
  const Domains: set<string> := {"satisfeed.org", "gmail.com", "ggc.edu"}

  /** `[a-zA-Z0-9._%+-]`: a character allowed before the `@`. */
  predicate IsLocalChar(c: char) {
    IsLetter(c) || IsDigit(c) || c == '.' || c == '_' || c == '%' || c == '+' || c == '-'
  }

  /** How many characters at the start of `s` may belong to the local part. */
  function LocalLength(s: string): (n: nat)
    ensures n <= |s|
    ensures forall i :: 0 <= i < n ==> IsLocalChar(s[i])
    ensures n < |s| ==> !IsLocalChar(s[n])
  {
    if s != [] && IsLocalChar(s[0]) then 1 + LocalLength(s[1..]) else 0
  }

  /**
   * `^[a-zA-Z0-9._%+-]+@(satisfeed\.org|gmail\.com|ggc\.edu)$`, read left to
   * right: the longest run of local characters, which must be non-empty, then
   * the `@`, then exactly one of the domains.
   */
  predicate ValidEmail(s: string) {
    var n := LocalLength(s);
    0 < n < |s| && s[n] == '@' && s[n + 1..] in Domains
  }

  /** The regular expression's own reading: some split into a local part, `@` and a domain. */
  predicate EmailSplits(s: string, i: int) {
    && 0 < i < |s|
    && s[i] == '@'
    && (forall j :: 0 <= j < i ==> IsLocalChar(s[j]))
    && s[i + 1..] in Domains
  }

  /** The scan accepts exactly the addresses that split as the expression says. */
  lemma ValidEmailIff(s: string)
    ensures ValidEmail(s) <==> exists i :: EmailSplits(s, i)
  {
    var n := LocalLength(s);
    if ValidEmail(s) {
      assert EmailSplits(s, n);
    }
    if i :| EmailSplits(s, i) {
      assert !IsLocalChar('@');
    }
  }

  /** Every non-empty local part joined to an accepted domain is accepted. */
  lemma ValidEmailJoin(local: string, domain: string)
    requires local != [] && forall j :: 0 <= j < |local| ==> IsLocalChar(local[j])
    requires domain in Domains
    ensures ValidEmail(local + "@" + domain)
  {
    var s := local + "@" + domain;
    assert s[|local|] == '@';
    assert s[|local| + 1..] == domain;
    assert EmailSplits(s, |local|);
    ValidEmailIff(s);
  }

  lemma EmailAccepted(s: string)
    requires s == "jane.doe+food@gmail.com"
    ensures ValidEmail(s)
  {
    var local: string := "jane.doe+food";
    JaneLocalChars();
    ValidEmailJoin(local, "gmail.com");
    assert local + "@" + "gmail.com" == s;
  }

  lemma JaneLocalChars()
    ensures var local: string := "jane.doe+food"; forall j :: 0 <= j < |local| ==> IsLocalChar(local[j])
  {
    var local: string := "jane.doe+food";
    forall j | 0 <= j < |local|
      ensures IsLocalChar(local[j])
    {
    }
  }

  /** The domain is compared case-sensitively. */
  lemma EmailUpperCaseDomain()
    ensures !ValidEmail("jane@GMAIL.COM")
  {
    var upper := "jane@GMAIL.COM";
    assert !IsLocalChar(upper[4]);
    assert LocalLength(upper[4..]) == 0;
    assert LocalLength(upper) == 4;
    assert upper[5..][0] == 'G';
  }

  /** A local part needs at least one character, and a space is not one. */
  lemma EmailLocalPart()
    ensures !ValidEmail("@ggc.edu")
    ensures !ValidEmail("jane doe@ggc.edu")
  {
    var space := "jane doe@ggc.edu";
    assert !IsLocalChar(space[4]);
    assert LocalLength(space[4..]) == 0;
    assert LocalLength(space) == 4;
  }

  predicate IsAlnum(c: char) { IsLetter(c) || IsDigit(c) }

  /** `^(?=.*[A-Za-z])(?=.*\d)[A-Za-z\d]{8,}$`: eight or more letters and digits, with a letter and a digit among them. */
  predicate ValidPassword(p: string) {
    && |p| >= 8
    && (forall i :: 0 <= i < |p| ==> IsAlnum(p[i]))
    && (exists i :: 0 <= i < |p| && IsLetter(p[i]))
    && (exists i :: 0 <= i < |p| && IsDigit(p[i]))
  }

  /** Appending letters or digits never makes an accepted password unacceptable. */
  lemma ValidPasswordExtends(p: string, q: string)
    requires ValidPassword(p)
    requires forall i :: 0 <= i < |q| ==> IsAlnum(q[i])
    ensures ValidPassword(p + q)
  {
    var l :| 0 <= l < |p| && IsLetter(p[l]);
    var d :| 0 <= d < |p| && IsDigit(p[d]);
    assert (p + q)[l] == p[l] && (p + q)[d] == p[d];
  }

  lemma PasswordExamples()
    ensures ValidPassword("satisfeed2024")
    ensures !ValidPassword("password")
    ensures !ValidPassword("12345678")
    ensures !ValidPassword("abc1234")
    ensures !ValidPassword("pass word1")
  {
    var good := "satisfeed2024";
    assert IsLetter(good[0]) && IsDigit(good[9]);
    assert !IsAlnum("pass word1"[4]);
  }

  lemma MessagesDistinct()
    ensures EmailMessage != PasswordMessage && EmailMessage != MismatchMessage && PasswordMessage != MismatchMessage
  {
    assert |EmailMessage| == 71 && |PasswordMessage| == 81 && |MismatchMessage| == 23;
  }

  /**
   * The checks of the submit handler, in their order: the first one that
   * fails gives the message shown, and later checks do not run.
   */
  function FirstFailure(email: string, password: string, confirm: string): (r: Option<string>)
    ensures r == Some(EmailMessage) <==> !ValidEmail(email)
    ensures r == Some(PasswordMessage) <==> ValidEmail(email) && !ValidPassword(password)
    ensures r == Some(MismatchMessage) <==> ValidEmail(email) && ValidPassword(password) && password != confirm
    ensures r.None? <==> ValidEmail(email) && ValidPassword(password) && password == confirm
  {
    MessagesDistinct();
    if !ValidEmail(email) then Some(EmailMessage)
    else if !ValidPassword(password) then Some(PasswordMessage)
    else if password != confirm then Some(MismatchMessage)
    else None
  }

  /** The form's inputs, addressed by the `name` of the element that changed. */
  datatype Field = FirstName | LastName | Email | Password | ConfirmPassword | Other(name: string)

  /** One call to create an account: the credentials and the display name set afterwards. */
  datatype Attempt = Attempt(email: string, password: string, displayName: string)

  class RegisterForm {
    var firstName: string
    var lastName: string
    var email: string
    var password: string
    var confirmPassword: string
    /** The message in the alert; None shows none. */
    var error: Option<string>
    /** Every account creation attempted so far, in order. */
    var attempts: seq<Attempt>

    /** No account is ever requested for credentials the rules reject. */
    predicate Valid()
      reads this
    {
      forall k :: 0 <= k < |attempts| ==> ValidEmail(attempts[k].email) && ValidPassword(attempts[k].password)
    }

    constructor()
      ensures firstName == "" && lastName == "" && email == "" && password == "" && confirmPassword == ""
      ensures error.None? && attempts == []
      ensures Valid()
    {
      firstName, lastName, email, password, confirmPassword := "", "", "", "", "";
      error := None;
      attempts := [];
    }

    /** `handleChange`: the named input takes the new value; an unknown name changes no modelled input. */
    method HandleChange(field: Field, value: string)
      requires Valid()
      modifies this
      ensures Valid()
      ensures firstName == (if field == FirstName then value else old(firstName))
      ensures lastName == (if field == LastName then value else old(lastName))
      ensures email == (if field == Email then value else old(email))
      ensures password == (if field == Password then value else old(password))
      ensures confirmPassword == (if field == ConfirmPassword then value else old(confirmPassword))
      ensures error == old(error) && attempts == old(attempts)
    {
      match field
      case FirstName => firstName := value;
      case LastName => lastName := value;
      case Email => email := value;
      case Password => password := value;
      case ConfirmPassword => confirmPassword := value;
      case Other(_) =>
    }

    /**
     * `handleSubmit`: a failed check sets its message and nothing else
     * happens; otherwise one account creation is attempted, and when the
     * service throws (`failure`), its message becomes the error.
     */
    method HandleSubmit(failure: Option<string>)
      requires Valid()
      modifies this
      ensures Valid()
      ensures firstName == old(firstName) && lastName == old(lastName) && email == old(email)
      ensures password == old(password) && confirmPassword == old(confirmPassword)
      ensures var f := FirstFailure(old(email), old(password), old(confirmPassword));
        && (f.Some? ==> error == f && attempts == old(attempts))
        && (f.None? ==>
              && attempts == old(attempts) + [Attempt(email, password, firstName + " " + lastName)]
              && error == (if failure.Some? then failure else old(error)))
    {
      var f := FirstFailure(email, password, confirmPassword);
      if f.Some? {
        error := f;
        return;
      }
      attempts := attempts + [Attempt(email, password, firstName + " " + lastName)];
      if failure.Some? {
        error := failure;
      }
    }
  }
}
