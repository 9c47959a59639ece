/** The login form's submit handler (`onSubmit` in `src/pages/shared/Login.jsx`): a
    required-field check, the endpoint chosen by the role selector, the answer's user record,
    the token read back from the cookie string, and the gate in front of the session's `login`. */
module LoginPage {
  import opened Wrappers
  import opened Strings
  import opened Entities
  import opened Http
  import Cart
  import Session

  /** The role selector's initial value. */
  const InitialRole := "user"

  const AdminLoginPath := "/api/admin/login"
  const UserLoginPath := "/api/user/login"

  const MissingFields := "Email and Password are required"
  const Crash := "Something went wrong. Please try again."
  const MissingData := "Missing user data or token"

  /** The JSON body of a login answer: `message`, `user` and `admin` ("" / None when absent). */
  datatype LoginBody = LoginBody(message: string, user: Option<UserRecord>, admin: Option<UserRecord>)

  /** What `fetch` followed by `response.json()` yields: a rejected fetch, a body that is not
      JSON, or a parsed body with the response's `ok` flag. */
  datatype FetchReply = NetworkError | NotJson | Answer(ok: bool, body: LoginBody)

  /** The arguments handed to the session's `login`. */
  datatype LoginCall = LoginCall(username: string, token: string, role: string, email: string)

  /** What a submit did: its effects, and the `login` call it made if any. */
  datatype Attempt = Attempt(effects: seq<Effect>, call: Option<LoginCall>)

  /** The endpoint for the selected role. */
  function Endpoint(role: string): (path: string)
    ensures path == AdminLoginPath <==> role == AdminRole
    ensures path != AdminLoginPath ==> path == UserLoginPath
  {
    if role == AdminRole then AdminLoginPath else UserLoginPath
  }

  /** `result.user || result.admin`. */
  function UserData(body: LoginBody): (r: Option<UserRecord>)
    ensures body.user.Some? ==> r == body.user
    ensures body.user.None? ==> r == body.admin
  {
    if body.user.Some? then body.user else body.admin
  }

  /* ------------------------------------------------------------ the cookie token */

  /** The number of white-space characters that lead `row`. */
  function Lead(row: string): (n: nat)
    ensures n <= |row|
    decreases |row|
  {
    if |row| > 0 && IsSpace(row[0]) then 1 + Lead(row[1..]) else 0
  }

  /** A `;`-separated cookie segment whose text after the leading white space starts with
      `token=`. */
  predicate IsTokenRow(row: string) {
    "token=" <= row[Lead(row)..]
  }

  /** `IsTokenRow` is exactly the test `row.trim().startsWith("token=")`. */
  lemma IsTokenRowIsTrimTest(row: string)
    ensures IsTokenRow(row) <==> "token=" <= Trim(row)
  {
    TrimStartIsDrop(row);
    TokenPrefixSurvivesTrimEnd(TrimStart(row));
  }

  /** Trailing white space never reaches into a leading `token=`. */
  lemma TokenPrefixSurvivesTrimEnd(a: string)
    ensures "token=" <= a <==> "token=" <= TrimEnd(a)
  {
    var m := |TrimEnd(a)|;
    if "token=" <= a {
      assert !IsSpace(a[5]);
      assert 5 < m;
      assert TrimEnd(a)[..6] == a[..6];
    }
    if "token=" <= TrimEnd(a) {
      assert a[..6] == TrimEnd(a)[..6];
    }
  }

  /** Dropping the leading white space is `TrimStart`. */
  lemma {:induction false} TrimStartIsDrop(row: string)
    ensures TrimStart(row) == row[Lead(row)..]
    decreases |row|
  {
    if |row| > 0 && IsSpace(row[0]) {
      TrimStartIsDrop(row[1..]);
      assert row[1..][Lead(row[1..])..] == row[1 + Lead(row[1..])..];
    }
  }

  /** `rows.find(row => row.trim().startsWith("token="))`, as an index. */
  function FindRow(rows: seq<string>): (r: Option<nat>)
    ensures r.Some? ==> r.value < |rows| && IsTokenRow(rows[r.value])
    ensures r.Some? ==> forall k :: 0 <= k < r.value ==> !IsTokenRow(rows[k])
    ensures r.None? <==> forall k :: 0 <= k < |rows| ==> !IsTokenRow(rows[k])
    decreases |rows|
  {
    if |rows| == 0 then None
    else if IsTokenRow(rows[0]) then Some(0)
    else match FindRow(rows[1..])
      case None => None
      case Some(k) => Some(k + 1)
  }

  /** A token row contains `=`, so its split on `=` has a second part. */
  lemma TokenRowHasValue(row: string)
    requires IsTokenRow(row)
    ensures |Split(row, '=')| >= 2
  {
    assert row[Lead(row)..][5] == '=';
    assert row[Lead(row) + 5] == '=';
    SplitFindsSeparator(row, '=');
  }

  /** `document.cookie.split(";").find(...)?.split("=")[1]`: None when no segment qualifies. */
  function ExtractToken(cookie: string): (r: Option<string>)
    ensures r.None? <==> FindRow(Split(cookie, ';')).None?
  {
    var rows := Split(cookie, ';');
    match FindRow(rows)
    case None => None
    case Some(k) =>
      TokenRowHasValue(rows[k]);
      Some(Split(rows[k], '=')[1])
  }

  /** The value read from a token row is the text between its first and second `=` (or the
      end), so it holds no `=` and nothing the row lacks. */
  lemma RowValue(row: string)
    requires IsTokenRow(row)
    ensures var p := Split(row, '=');
      && |p| >= 2 && '=' !in p[0] && '=' !in p[1]
      && p[0] + "=" + p[1] <= row
      && (|p[0]| + 1 + |p[1]| == |row| || row[|p[0]| + 1 + |p[1]|] == '=')
      && (forall c :: c in p[1] ==> c in row)
  {
    TokenRowHasValue(row);
    SecondPart(row, '=');
    var p := Split(row, '=');
    assert p[0] + "=" + p[1] == p[0] + ['='] + p[1];
    assert forall j :: 0 <= j < |p[1]| ==> p[1][j] == (p[0] + "=" + p[1])[|p[0]| + 1 + j];
  }

  /** The token comes from the first qualifying segment, is its second `=`-field, and never
      contains `=` or `;`. */
  lemma TokenIsSecondField(cookie: string)
    requires ExtractToken(cookie).Some?
    ensures var rows := Split(cookie, ';');
      var k := FindRow(rows).value;
      && (forall j :: 0 <= j < k ==> !IsTokenRow(rows[j]))
      && |Split(rows[k], '=')| >= 2
      && ExtractToken(cookie).value == Split(rows[k], '=')[1]
      && '=' !in ExtractToken(cookie).value && ';' !in ExtractToken(cookie).value
  {
    var rows := Split(cookie, ';');
    var k := FindRow(rows).value;
    RowValue(rows[k]);
    SplitPartsFree(cookie, ';');
    assert ';' !in rows[k];
  }

  /** The concrete shape the token usually has: `a=1; token=xyz; b=2` yields `xyz`. */
  lemma TokenAfterOtherCookie(before: string, token: string, after: string)
    requires ';' !in before && !IsTokenRow(before)
    requires ';' !in token && '=' !in token && ';' !in after
    ensures ExtractToken(before + "; token=" + token + ";" + after) == Some(token)
  {
    var row := " token=" + token;
    SpacedTokenRow(token);
    assert ';' !in row;
    ThreeRows(before, row, after);
    assert before + "; token=" + token + ";" + after == before + ";" + row + ";" + after by {
      assert "; token=" == ";" + " token=";
    }
    var rows := [before, row, after];
    assert FindRow(rows) == Some(1) by {
      assert FindRow(rows[1..]) == Some(0);
    }
  }

  /** Three `;`-free segments joined by `;` split back into those segments. */
  lemma ThreeRows(a: string, b: string, c: string)
    requires ';' !in a && ';' !in b && ';' !in c
    ensures Split(a + ";" + b + ";" + c, ';') == [a, b, c]
  {
    SplitJoin([a, b, c], ';');
    assert [a, b, c][1..] == [b, c];
    assert [b, c][1..] == [c];
    assert Join([b, c], ';') == b + [';'] + c;
    assert Join([a, b, c], ';') == a + [';'] + (b + [';'] + c);
    assert a + [';'] + (b + [';'] + c) == a + ";" + b + ";" + c;
  }

  /** ` token=<value>` is a token row, and its value reads back. */
  lemma SpacedTokenRow(token: string)
    requires '=' !in token
    ensures IsTokenRow(" token=" + token)
    ensures |Split(" token=" + token, '=')| >= 2 && Split(" token=" + token, '=')[1] == token
    ensures ';' in " token=" + token <==> ';' in token
  {
    var row := " token=" + token;
    assert IsSpace(row[0]) && !IsSpace(row[1]);
    assert Lead(row[1..]) == 0;
    assert row[Lead(row)..] == "token=" + token;
    TokenValue(token);
  }

  /** Splitting ` token=<value>` at `=` gives the value as the second part. */
  lemma TokenValue(token: string)
    requires '=' !in token
    ensures |Split(" token=" + token, '=')| >= 2 && Split(" token=" + token, '=')[1] == token
  {
    var row := " token=" + token;
    SplitPrefix(" token", "=" + token, '=');
    assert row == " token" + ("=" + token);
    SplitPrefix(token, "", '=');
    assert token + "" == token;
    assert ("=" + token)[1..] == token;
    assert Split("=" + token, '=') == [""] + [token];
  }


  /* ------------------------------------------------------------ the submit handler */

  /** `onSubmit(data)` for the selected role, the answer the server gives, and the cookie
      string as it reads after the answer. */
  function Submit(role: string, email: string, password: string, reply: FetchReply, cookie: string): (r: Attempt)
    ensures email == "" || password == "" ==> r == Attempt([Toast(ErrorToast, MissingFields)], None)
    ensures email != "" && password != "" ==>
      |r.effects| > 0 && r.effects[0] == Request(Post, Endpoint(role), [Field("email", email), Field("password", password)])
    ensures r.call.Some? ==> reply.Answer? && reply.ok && UserData(reply.body).Some? && ExtractToken(cookie).Some?
    ensures r.call.Some? ==> var u := UserData(reply.body).value;
      r.call.value == LoginCall(u.username, ExtractToken(cookie).value, u.role, u.email)
  {
    if email == "" || password == "" then Attempt([Toast(ErrorToast, MissingFields)], None)
    else
      var post := Request(Post, Endpoint(role), [Field("email", email), Field("password", password)]);
      match reply
      case NetworkError => Attempt([post, Toast(ErrorToast, Crash)], None)
      case NotJson => Attempt([post, Toast(ErrorToast, Crash)], None)
      case Answer(ok, body) =>
        if !ok then Attempt([post, Toast(ErrorToast, Or(body.message, "Login failed"))], None)
        else match UserData(body)
          // `userData.username` is read for logging before the check: undefined throws
          case None => Attempt([post, Toast(ErrorToast, Crash)], None)
          case Some(u) =>
            var token := ExtractToken(cookie);
            if token.Some? && token.value != "" then Attempt([post], Some(LoginCall(u.username, token.value, u.role, u.email)))
            else Attempt([post, Toast(ErrorToast, MissingData)], None)
  }

  /* ------------------------------------------------------------ properties */

  /** The endpoint is the admin one iff "admin" is selected; the selector starts on "user". */
  lemma EndpointChoice()
    ensures Endpoint(InitialRole) == UserLoginPath
    ensures Endpoint(AdminRole) == AdminLoginPath
  {
  }

  /** A non-ok answer shows its message (or "Login failed") and never calls `login`. */
  lemma RejectedNeverLogsIn(role: string, email: string, password: string, body: LoginBody, cookie: string)
    requires email != "" && password != ""
    ensures var r := Submit(role, email, password, Answer(false, body), cookie);
      r.call.None? && r.effects[|r.effects| - 1] == Toast(ErrorToast, if body.message != "" then body.message else "Login failed")
  {
  }

  /** The role handed to `login` is the record's own, whatever the selector said. */
  lemma RoleComesFromRecord(r1: string, r2: string, email: string, password: string, reply: FetchReply, cookie: string)
    ensures Submit(r1, email, password, reply, cookie).call == Submit(r2, email, password, reply, cookie).call
  {
  }

  /** `login` is called iff the form is filled, the answer is ok, a user record is present and
      the token is present and non-empty. */
  lemma LoginGate(role: string, email: string, password: string, reply: FetchReply, cookie: string)
    ensures Submit(role, email, password, reply, cookie).call.Some? <==>
      && email != "" && password != ""
      && reply.Answer? && reply.ok && UserData(reply.body).Some?
      && ExtractToken(cookie).Some? && ExtractToken(cookie).value != ""
  {
  }

  /** An ok answer with neither `user` nor `admin` throws on the logging dereference and ends
      in the generic error, not the "missing data" one. */
  lemma NoRecordCrashes(role: string, email: string, password: string, message: string, cookie: string)
    requires email != "" && password != ""
    ensures Submit(role, email, password, Answer(true, LoginBody(message, None, None)), cookie)
         == Attempt([Request(Post, Endpoint(role), [Field("email", email), Field("password", password)]), Toast(ErrorToast, Crash)], None)
  {
  }

  /** An empty `token=` value never logs in. */
  lemma EmptyTokenRefused(role: string, email: string, password: string, body: LoginBody, before: string, after: string)
    requires email != "" && password != "" && UserData(body).Some?
    requires ';' !in before && !IsTokenRow(before) && ';' !in after
    ensures Submit(role, email, password, Answer(true, body), before + "; token=" + "" + ";" + after).call.None?
  {
    TokenAfterOtherCookie(before, "", after);
  }

  /** A call that gets through leads to a session that survives a reload iff the record's
      username is non-empty: the token is already known to be non-empty. */
  lemma AcceptedLoginSurvivesReload(role: string, email: string, password: string, reply: FetchReply, cookie: string,
                                    c: Session.Client, cartReply: Reply<Cart.CartPayload>)
    requires Submit(role, email, password, reply, cookie).call.Some?
    ensures var call := Submit(role, email, password, reply, cookie).call.value;
      var restored := Session.Restore(Session.Login(c, call.username, call.token, call.role, call.email, true, cartReply).client);
      restored.auth.isAuth <==> call.username != ""
  {
    var call := Submit(role, email, password, reply, cookie).call.value;
    Session.RestoreAfterLogin(c, call.username, call.token, call.role, call.email, cartReply);
  }
}
