/** The signup form (`src/pages/shared/Signup.jsx`): field validation with one message per
    field, and the classification of the server's answer. */
module SignupPage {
  import opened Wrappers
  import opened Strings
  import opened Http

  /** The form's four fields, as typed. */
  datatype SignupInfo = SignupInfo(username: string, email: string, password: string, mobile: string)

  /** `formErrors`: at most one message per field. */
  datatype Errors = Errors(username: Option<string>, email: Option<string>, password: Option<string>, mobile: Option<string>)

  const UsernameRequired := "Username is required."
  const EmailRequired := "Email is required."
  const PasswordRequired := "Password is required."
  const MobileRequired := "Mobile number is required."
  const EmailInvalid := "Please enter a valid email address."
  const MobileInvalid := "Please enter a valid 10-digit mobile number."

  const SignupPath := "/api/user/signup"
  const ExistsMessage := "User already exists, you can login"
  const AlreadyRegistered := "You are already registered. Please login instead."

  /* ------------------------------------------------------------ the email pattern */

  /** Every character is matched by `[^\s@]`. */
  predicate Plain(s: string) {
    forall i :: 0 <= i < |s| ==> !IsSpace(s[i]) && s[i] != '@'
  }

  /** `/^[^\s@]+@[^\s@]+\.[^\s@]+$/` read directly: three non-empty plain runs joined by `@`
      and a `.` (the runs may themselves contain dots). */
  ghost predicate EmailPattern(s: string) {
    exists a: string, x: string, y: string ::
      && s == a + "@" + x + "." + y
      && a != "" && x != "" && y != ""
      && Plain(a) && Plain(x) && Plain(y)
  }

  /** The domain has a dot that is neither its first nor its last character. */
  predicate DotInside(d: string) {
    exists i :: 0 < i < |d| - 1 && d[i] == '.'
  }

  /** The test the page applies, read as: no white space, exactly one `@`, a non-empty local
      part, and a dot strictly inside the domain. */
  predicate ValidEmail(s: string) {
    var p := Split(s, '@');
    && |p| == 2
    && p[0] != ""
    && (forall i :: 0 <= i < |s| ==> !IsSpace(s[i]))
    && DotInside(p[1])
  }

  /** `/^[0-9]{10}$/`. */
  predicate ValidMobile(m: string) {
    |m| == 10 && forall i :: 0 <= i < |m| ==> IsDigit(m[i])
  }

  lemma PlainConcat(a: string, b: string)
    ensures Plain(a + b) <==> Plain(a) && Plain(b)
  {
    if Plain(a) && Plain(b) {
      forall i | 0 <= i < |a + b|
        ensures !IsSpace((a + b)[i]) && (a + b)[i] != '@'
      {
        if i >= |a| { assert (a + b)[i] == b[i - |a|]; }
      }
    }
    if Plain(a + b) {
      forall i | 0 <= i < |a|
        ensures !IsSpace(a[i]) && a[i] != '@'
      {
        assert a[i] == (a + b)[i];
      }
      forall i | 0 <= i < |b|
        ensures !IsSpace(b[i]) && b[i] != '@'
      {
        assert b[i] == (a + b)[|a| + i];
      }
    }
  }

  /** The readable test accepts exactly the strings the regular expression matches. */
  lemma ValidEmailIffPattern(s: string)
    ensures ValidEmail(s) <==> EmailPattern(s)
  {
    if ValidEmail(s) {
      EmailFromValid(s);
    }
    if EmailPattern(s) {
      var a: string, x: string, y: string :|
        && s == a + "@" + x + "." + y
        && a != "" && x != "" && y != ""
        && Plain(a) && Plain(x) && Plain(y);
      ValidFromPattern(s, a, x, y);
    }
  }

  lemma EmailFromValid(s: string)
    requires ValidEmail(s)
    ensures EmailPattern(s)
  {
    var p := Split(s, '@');
    TwoParts(s);
    PlainHalves(s, p[0], p[1]);
    var d := p[1];
    var i :| 0 < i < |d| - 1 && d[i] == '.';
    var x, y := DotHalves(d, i);
    assert s == p[0] + "@" + x + "." + y by {
      assert s == p[0] + "@" + (x + "." + y);
    }
  }

  /** A string that splits into two parts at `@` is the two parts around one `@`. */
  lemma TwoParts(s: string)
    requires |Split(s, '@')| == 2
    ensures var p := Split(s, '@'); s == p[0] + "@" + p[1] && '@' !in p[0] && '@' !in p[1]
  {
    var p := Split(s, '@');
    JoinSplit(s, '@');
    SplitPartsFree(s, '@');
    assert p[1..] == [p[1]];
    assert Join(p, '@') == p[0] + "@" + Join(p[1..], '@');
  }

  /** Both sides of the only `@` of a string without white space are plain. */
  lemma PlainHalves(s: string, a: string, d: string)
    requires s == a + "@" + d && '@' !in a && '@' !in d
    requires forall j :: 0 <= j < |s| ==> !IsSpace(s[j])
    ensures Plain(a) && Plain(d)
  {
    forall j | 0 <= j < |a| ensures !IsSpace(a[j]) && a[j] != '@' {
      assert a[j] == s[j];
    }
    forall j | 0 <= j < |d| ensures !IsSpace(d[j]) && d[j] != '@' {
      assert d[j] == s[|a| + 1 + j];
    }
  }

  /** Cutting a plain string at an inner dot gives two non-empty plain runs. */
  lemma DotHalves(d: string, i: int) returns (x: string, y: string)
    requires Plain(d) && 0 < i < |d| - 1 && d[i] == '.'
    ensures d == x + "." + y && x != "" && y != "" && Plain(x) && Plain(y)
  {
    x, y := d[..i], d[i + 1..];
    assert d == x + "." + y;
    PlainConcat(x, "." + y);
    PlainConcat(".", y);
    assert x + ("." + y) == x + "." + y;
  }

  lemma ValidFromPattern(s: string, a: string, x: string, y: string)
    requires s == a + "@" + x + "." + y
    requires a != "" && x != "" && y != ""
    requires Plain(a) && Plain(x) && Plain(y)
    ensures ValidEmail(s)
  {
    var d := x + "." + y;
    PlainConcat(x, ".");
    PlainConcat(x + ".", y);
    assert '@' !in a && '@' !in d;
    assert s == a + ("@" + d);
    SplitPrefix(a, "@" + d, '@');
    assert ("@" + d)[1..] == d;
    SplitPrefix(d, "", '@');
    assert d + "" == d;
    assert Split("@" + d, '@') == [""] + [d];
    assert a + "" == a;
    assert Split(s, '@') == [a + ""] + [d];
    assert d[|x|] == '.';
    PlainConcat(a + "@", d);
    forall j | 0 <= j < |s| ensures !IsSpace(s[j]) {
      if j < |a| { assert s[j] == a[j]; }
      else if j > |a| { assert s[j] == d[j - |a| - 1]; }
    }
  }

  /* ------------------------------------------------------------ validation */

  /** `validateForm`: a required message for each empty field, replaced by a format message
      when a non-empty email or mobile fails its pattern. */
  function Validate(info: SignupInfo): (e: Errors)
    ensures e.username.None? <==> info.username != ""
    ensures e.password.None? <==> info.password != ""
    ensures e.email.None? <==> info.email != "" && EmailPattern(info.email)
    ensures e.mobile.None? <==> info.mobile != "" && |info.mobile| == 10 && forall i :: 0 <= i < 10 ==> '0' <= info.mobile[i] <= '9'
  {
    ValidEmailIffPattern(info.email);
    Errors(
      if info.username == "" then Some(UsernameRequired) else None,
      if info.email == "" then Some(EmailRequired) else if !ValidEmail(info.email) then Some(EmailInvalid) else None,
      if info.password == "" then Some(PasswordRequired) else None,
      if info.mobile == "" then Some(MobileRequired) else if !ValidMobile(info.mobile) then Some(MobileInvalid) else None)
  }

  predicate NoErrors(e: Errors) {
    e.username.None? && e.email.None? && e.password.None? && e.mobile.None?
  }

  /** The kinds of ending a submit can have. */
  datatype Kind = Invalid | Registered | AlreadyKnown | SignupFailed

  /** The body of a 2xx signup answer. */
  datatype SignupBody = SignupBody(success: bool, message: string)

  /** What a submit did: the errors it set, its effects, and how it ended. */
  datatype Result = Result(errors: Errors, effects: seq<Effect>, kind: Kind)

  function Fields(info: SignupInfo): seq<Field> {
    [Field("username", info.username), Field("email", info.email),
     Field("password", info.password), Field("mobile", info.mobile)]
  }

  /** `handleSignup`: validation first, then one post and a toast chosen by the answer. */
  function HandleSignup(info: SignupInfo, reply: Reply<SignupBody>): (r: Result)
    ensures r.errors == Validate(info)
    ensures r.kind == Invalid <==> !NoErrors(Validate(info))
    ensures r.kind == Invalid ==> r.effects == []
    ensures r.kind != Invalid ==> |r.effects| > 0 && r.effects[0] == Request(Post, SignupPath, Fields(info))
    ensures r.kind == Registered ==> r.effects[|r.effects| - 1] == Navigate("/login")
  {
    var errors := Validate(info);
    if !NoErrors(errors) then Result(errors, [], Invalid)
    else
      var post := Request(Post, SignupPath, Fields(info));
      match reply
      case Ok(body) =>
        if body.success then Result(errors, [post, Toast(SuccessToast, body.message), Navigate("/login")], Registered)
        else if body.message == ExistsMessage then Result(errors, [post, Toast(InfoToast, AlreadyRegistered)], AlreadyKnown)
        else Result(errors, [post, Toast(ErrorToast, Or(body.message, "An error occurred during signup."))], SignupFailed)
      case Fail(f) =>
        if f.Status? && f.code == 409 then Result(errors, [post, Toast(InfoToast, AlreadyRegistered)], AlreadyKnown)
        else Result(errors, [post, Toast(ErrorToast, "An error occurred. Please try again.")], SignupFailed)
  }

  /* ------------------------------------------------------------ properties */

  /** The form is valid iff all four fields are filled, the email matches the pattern and the
      mobile is exactly ten ASCII digits. */
  lemma ValidIff(info: SignupInfo)
    ensures NoErrors(Validate(info)) <==>
      && info.username != "" && info.email != "" && info.password != "" && info.mobile != ""
      && EmailPattern(info.email) && ValidMobile(info.mobile)
  {
  }

  /** Each empty field carries its own required message, and a non-empty one never does. */
  lemma RequiredMessages(info: SignupInfo)
    ensures Validate(info).username == Some(UsernameRequired) <==> info.username == ""
    ensures Validate(info).email == Some(EmailRequired) <==> info.email == ""
    ensures Validate(info).password == Some(PasswordRequired) <==> info.password == ""
    ensures Validate(info).mobile == Some(MobileRequired) <==> info.mobile == ""
  {
  }

  /** A format message appears exactly for a non-empty field that fails its pattern. */
  lemma FormatMessages(info: SignupInfo)
    ensures Validate(info).email == Some(EmailInvalid) <==> info.email != "" && !EmailPattern(info.email)
    ensures Validate(info).mobile == Some(MobileInvalid) <==> info.mobile != "" && !ValidMobile(info.mobile)
  {
    ValidEmailIffPattern(info.email);
  }

  /** Examples of the email rule: "a.b@c.d.e" is accepted; "a@.b" and "a@b.", whose only
      domain dot sits at an edge, are refused, and so is a second `@`. */
  lemma EmailAccepted()
    ensures ValidEmail("a.b@c.d.e")
  {
    SplitTwo("a.b", "c.d.e");
    assert "a.b" + "@" + "c.d.e" == "a.b@c.d.e";
    assert "c.d.e"[1] == '.';
    ExampleSpaceFree();
  }

  lemma ExampleSpaceFree()
    ensures forall j :: 0 <= j < |"a.b@c.d.e"| ==> !IsSpace("a.b@c.d.e"[j])
  {
  }

  /** Splitting `a@d` with `@`-free halves gives the halves. */
  lemma SplitTwo(a: string, d: string)
    requires '@' !in a && '@' !in d
    ensures Split(a + "@" + d, '@') == [a, d]
  {
    SplitJoin([a, d], '@');
    assert [a, d][1..] == [d];
    assert Join([a, d], '@') == a + "@" + d;
  }

  lemma DotAfterAtRefused()
    ensures !ValidEmail("a@.b")
  {
    SplitJoin(["a", ".b"], '@');
    assert Join(["a", ".b"], '@') == "a@.b";
  }

  lemma TrailingDotRefused()
    ensures !ValidEmail("a@b.")
  {
    SplitJoin(["a", "b."], '@');
    assert Join(["a", "b."], '@') == "a@b.";
  }

  lemma SecondAtRefused()
    ensures !ValidEmail("a@b@c.d")
  {
    SplitJoin(["a", "b", "c.d"], '@');
    assert ["a", "b", "c.d"][1..] == ["b", "c.d"];
    assert Join(["b", "c.d"], '@') == "b@c.d";
    assert Join(["a", "b", "c.d"], '@') == "a@b@c.d";
  }

  /** For an address with a single `@`, the rule reads: a non-empty local part, no white
      space, and a dot in the domain that is neither its first nor its last character. A
      domain whose every dot sits at its edge is refused; one more dot inside is enough. */
  lemma DomainRule(a: string, d: string)
    requires '@' !in a && '@' !in d
    ensures ValidEmail(a + "@" + d) <==>
      && a != ""
      && (forall j :: 0 <= j < |a + "@" + d| ==> !IsSpace((a + "@" + d)[j]))
      && exists i :: 0 < i < |d| - 1 && d[i] == '.'
  {
    SplitTwo(a, d);
  }

  /** A plain, non-empty local part and a plain domain with a dot strictly inside make an
      accepted address, wherever else the domain's dots sit. */
  lemma InnerDotAccepted(a: string, d: string, i: int)
    requires a != "" && Plain(a) && Plain(d)
    requires 0 < i < |d| - 1 && d[i] == '.'
    ensures ValidEmail(a + "@" + d)
  {
    DomainRule(a, d);
    var s := a + "@" + d;
    forall j | 0 <= j < |s|
      ensures !IsSpace(s[j])
    {
      if j < |a| {
        assert s[j] == a[j];
      } else if j > |a| {
        assert s[j] == d[j - |a| - 1];
      }
    }
  }

  /** A dot at the domain's edge does not refuse an address that has another dot inside. */
  lemma EdgeDotWithInnerDotAccepted()
    ensures ValidEmail("a@.b.c") && ValidEmail("a@b.c.")
  {
    InnerDotAccepted("a", ".b.c", 2);
    assert "a" + "@" + ".b.c" == "a@.b.c";
    InnerDotAccepted("a", "b.c.", 1);
    assert "a" + "@" + "b.c." == "a@b.c.";
  }

  /** A failed validation sends nothing. */
  lemma InvalidSendsNothing(info: SignupInfo, reply: Reply<SignupBody>)
    requires !NoErrors(Validate(info))
    ensures HandleSignup(info, reply).effects == []
  {
  }

  /** "Already registered" comes from a 409 failure or from the exact existing-user message in
      an unsuccessful answer, and from nothing else. */
  lemma AlreadyKnownIff(info: SignupInfo, reply: Reply<SignupBody>)
    requires NoErrors(Validate(info))
    ensures HandleSignup(info, reply).kind == AlreadyKnown <==>
      || (reply.Ok? && !reply.body.success && reply.body.message == ExistsMessage)
      || (reply.Fail? && reply.failure.Status? && reply.failure.code == 409)
    ensures HandleSignup(info, reply).kind == AlreadyKnown ==>
      HandleSignup(info, reply).effects[1] == Toast(InfoToast, AlreadyRegistered)
  {
  }
}
