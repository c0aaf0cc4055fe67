/**
 * The password-reset page: reading the `uid` and `token` of the reset link,
 * the password rule and its strength colour, the two guards of the submit
 * handler and the rule that disables the submit button.
 */
module ResetPassword {
  import opened Wrappers
  import opened JsText
  import UseSearch

  // ---------------------------------------------------------------------
  // validatePassword and passwordStrength

  /** `/\d/.test(s)`: some character is an ASCII digit. */
  function HasDigit(s: string): (r: bool)
    ensures r <==> exists i :: 0 <= i < |s| && IsAsciiDigit(s[i])
  {
    if s == [] then false
    else if IsAsciiDigit(s[0]) then true
    else
      var rest := HasDigit(s[1..]);
      assert forall i :: 1 <= i < |s| ==> s[i] == s[1..][i - 1];
      rest
  }

  /** `/[a-zA-Z]/.test(s)`: some character is an ASCII letter. */
  function HasLetter(s: string): (r: bool)
    ensures r <==> exists i :: 0 <= i < |s| && IsAsciiLetter(s[i])
  {
    if s == [] then false
    else if IsAsciiLetter(s[0]) then true
    else
      var rest := HasLetter(s[1..]);
      assert forall i :: 1 <= i < |s| ==> s[i] == s[1..][i - 1];
      rest
  }

  const MinLength: nat := 8

  /** `validatePassword`: at least eight characters, a digit and an ASCII letter. */
  function ValidatePassword(pass: string): (r: bool)
    ensures r <==> |pass| >= MinLength
                   && (exists i :: 0 <= i < |pass| && IsAsciiDigit(pass[i]))
                   && (exists i :: 0 <= i < |pass| && IsAsciiLetter(pass[i]))
  {
    |pass| >= MinLength && HasDigit(pass) && HasLetter(pass)
  }

  const Green: string := "text-green-600"
  const Yellow: string := "text-yellow-600"
  const Red: string := "text-red-600"

  /** `passwordStrength`: the colour class of the hint under the password field. */
  function PasswordStrength(password: string): (r: string)
    ensures r == "" <==> password == ""
    ensures r == Green <==> ValidatePassword(password)
    ensures r == Yellow <==> !ValidatePassword(password) && |password| >= 6
    ensures r == Red <==> password != "" && |password| < 6
  {
    if password == "" then ""
    else if |password| >= MinLength && HasDigit(password) && HasLetter(password) then Green
    else if |password| >= 6 then Yellow
    else Red
  }

  /**
   * Adding characters never takes a valid password back to invalid: the
   * rule only asks for a length and for characters being present.
   */
  lemma ValidStaysValid(pass: string, more: string)
    requires ValidatePassword(pass)
    ensures ValidatePassword(pass + more)
  {
    var d :| 0 <= d < |pass| && IsAsciiDigit(pass[d]);
    var l :| 0 <= l < |pass| && IsAsciiLetter(pass[l]);
    assert (pass + more)[d] == pass[d] && (pass + more)[l] == pass[l];
  }

  /** A password of letters only, or of digits only, is never valid, whatever its length. */
  lemma OneKindInvalid(pass: string)
    requires (forall i :: 0 <= i < |pass| ==> IsAsciiLetter(pass[i]))
          || (forall i :: 0 <= i < |pass| ==> IsAsciiDigit(pass[i]))
    ensures !ValidatePassword(pass)
    ensures PasswordStrength(pass) != Green
  {
    if forall i :: 0 <= i < |pass| ==> IsAsciiLetter(pass[i]) {
      forall i | 0 <= i < |pass| ensures !IsAsciiDigit(pass[i]) {
        assert IsAsciiLetter(pass[i]);
      }
    } else {
      forall i | 0 <= i < |pass| ensures !IsAsciiLetter(pass[i]) {
        assert IsAsciiDigit(pass[i]);
      }
    }
  }

  // ---------------------------------------------------------------------
  // Submit guards and the submit button

  /** Why the submit handler stops before sending anything. */
  datatype SubmitError =
    | Mismatch    // "Las contraseñas no coinciden."
    | Weak        // "La contraseña debe tener al menos 8 caracteres e incluir letras y números."

  /** The guards of `handleSubmit`, in order: the mismatch first, then the rule. */
  function SubmitGuard(password: string, confirmPassword: string): (r: Option<SubmitError>)
    ensures r.None? <==> password == confirmPassword && ValidatePassword(password)
    ensures r == Some(Weak) ==> password == confirmPassword
  {
    if password != confirmPassword then Some(Mismatch)
    else if !ValidatePassword(password) then Some(Weak)
    else None
  }

  /** The submit button's `disabled`. */
  predicate ButtonDisabled(isLoading: bool, password: string, confirmPassword: string) {
    isLoading || !ValidatePassword(password) || password != confirmPassword
  }

  /**
   * While nothing is loading, the button is enabled exactly when the guards
   * let the submission through: a click on an enabled button always sends.
   */
  lemma ButtonMatchesGuards(password: string, confirmPassword: string)
    ensures !ButtonDisabled(false, password, confirmPassword) <==> SubmitGuard(password, confirmPassword).None?
    ensures forall loading :: !ButtonDisabled(loading, password, confirmPassword) ==> SubmitGuard(password, confirmPassword).None?
  {
  }

  // ---------------------------------------------------------------------
  // The reset link

  datatype Link = Link(uid: string, token: string)

  /** A parameter that is present and not empty. */
  predicate Filled(v: Option<string>) {
    v.Some? && v.value != ""
  }

  /**
   * The `uid` and `token` the page reads from its location: path segments 3
   * and 4 when the path has at least five '/'-separated segments, the query
   * parameters otherwise; `None` (the link is invalid and the page goes back
   * to the login) when either is missing or empty.
   */
  function LinkOf(pathname: string, search: string): (r: Option<Link>)
    ensures r.Some? ==> r.value.uid != "" && r.value.token != ""
    ensures var parts := Split(pathname, '/');
            |parts| >= 5 ==> r == (if parts[3] != "" && parts[4] != "" then Some(Link(parts[3], parts[4])) else None)
    ensures var parts := Split(pathname, '/');
            var params := UseSearch.SearchParams(search);
            |parts| < 5 ==>
              && (r.Some? <==> Filled(UseSearch.Get(params, "uid")) && Filled(UseSearch.Get(params, "token")))
              && (r.Some? ==> r.value == Link(UseSearch.Get(params, "uid").value, UseSearch.Get(params, "token").value))
  {
    var parts := Split(pathname, '/');
    if |parts| >= 5 then
      var uidParam := parts[3];
      var tokenParam := parts[4];
      if tokenParam == "" || uidParam == "" then None else Some(Link(uidParam, tokenParam))
    else
      var params := UseSearch.SearchParams(search);
      var tokenParam := UseSearch.Get(params, "token");
      var uidParam := UseSearch.Get(params, "uid");
      if !Filled(tokenParam) || !Filled(uidParam) then None else Some(Link(uidParam.value, tokenParam.value))
  }

  /** The prefix of the links the page expects: `/login/reset-password/`. */
  const LinkPrefix: string := "/login/reset-password/"

  /**
   * A link `/login/reset-password/<uid>/<token>/` yields that uid and token,
   * whatever its query, as long as neither contains '/'.
   */
  lemma PathLinkRead(uid: string, token: string, search: string)
    requires uid != "" && token != "" && '/' !in uid && '/' !in token
    ensures LinkOf(LinkPrefix + uid + "/" + token + "/", search) == Some(Link(uid, token))
  {
    var path := LinkPrefix + uid + "/" + token + "/";
    assert '/' !in "login" && '/' !in "reset-password";
    assert LinkPrefix == "/" + "login" + "/" + "reset-password" + "/";
    assert path == "/" + "login" + "/" + "reset-password" + "/" + uid + "/" + token + "/";
    SplitSegments("login", "reset-password", uid, token);
    var parts := Split(path, '/');
    assert |parts| == 6 && parts[3] == uid && parts[4] == token;
  }

  /** `/a/b/c/d/` splits on '/' into an empty first piece, the four segments and an empty last piece. */
  lemma SplitSegments(a: string, b: string, c: string, d: string)
    requires '/' !in a && '/' !in b && '/' !in c && '/' !in d
    ensures Split("/" + a + "/" + b + "/" + c + "/" + d + "/", '/') == ["", a, b, c, d, ""]
  {
    var t4 := d + ['/'] + [];
    var t3 := c + ['/'] + t4;
    var t2 := b + ['/'] + t3;
    var t1 := a + ['/'] + t2;
    SlashedShape(a, b, c, d);
    SplitWithoutSep([], '/');
    SplitAfterPiece(d, '/', []);
    SplitAfterPiece(c, '/', t4);
    SplitAfterPiece(b, '/', t3);
    SplitAfterPiece(a, '/', t2);
    SplitAfterPiece([], '/', t1);
  }

  /** The same path, grouped piece by piece from the right. */
  lemma SlashedShape(a: string, b: string, c: string, d: string)
    ensures "/" + a + "/" + b + "/" + c + "/" + d + "/"
            == [] + ['/'] + (a + ['/'] + (b + ['/'] + (c + ['/'] + (d + ['/'] + []))))
  {
  }

  /**
   * On a path of fewer than five segments the link is read from the query:
   * `?uid=<uid>&token=<token>` yields that uid and token, as long as neither
   * needs escaping.
   */
  lemma QueryLinkRead(pathname: string, uid: string, token: string)
    requires |Split(pathname, '/')| < 5
    requires uid != "" && token != "" && '&' !in uid && '?' !in uid && '&' !in token && '?' !in token
    ensures LinkOf(pathname, "?uid=" + uid + "&token=" + token) == Some(Link(uid, token))
  {
    var q := "uid=" + uid + "&token=" + token;
    assert "?uid=" == "?" + "uid=";
    assert "?uid=" + uid + "&token=" + token == "?" + q;
    assert ("?" + q)[1..] == q && ("?" + q)[..1] == "?";
    assert "uid=" == "uid" + "=" && "&token=" == "&" + "token" + "=";
    assert q == "uid" + "=" + uid + "&" + "token" + "=" + token;
    ReadTwoParams("uid", uid, "token", token);
    var params := [("uid", uid), ("token", token)];
    assert UseSearch.SearchParams("?" + q) == params;
    assert |"uid"| != |"token"|;
    assert UseSearch.Get(params, "uid") == Some(uid);
    assert params[1..] == [("token", token)];
    assert UseSearch.Get(params, "token") == Some(token);
  }

  /** A query of two plain parameters reads back as those two parameters. */
  lemma ReadTwoParams(k1: string, v1: string, k2: string, v2: string)
    requires UseSearch.PlainParam((k1, v1)) && UseSearch.PlainParam((k2, v2))
    ensures UseSearch.ParseQuery(k1 + "=" + v1 + "&" + k2 + "=" + v2) == [(k1, v1), (k2, v2)]
  {
    var params := [(k1, v1), (k2, v2)];
    var pieces := UseSearch.Pieces(params);
    assert pieces == [k1 + "=" + v1, k2 + "=" + v2];
    assert pieces[1..] == [k2 + "=" + v2];
    assert Join(pieces, "&") == k1 + "=" + v1 + "&" + k2 + "=" + v2;
    SplitJoin(pieces, '&');
    UseSearch.ParsePiecesOf(params);
  }

  /** The path of the confirmation request: `/facet/password/reset/confirm/<uid>/<token>/`. */
  function ConfirmPath(link: Link): string {
    "/facet/password/reset/confirm/" + link.uid + "/" + link.token + "/"
  }

  /** The request the page sends: the password twice, as `new_password` and `new_password_confirm`. */
  datatype ResetRequest = ResetRequest(path: string, newPassword: string, newPasswordConfirm: string)

  /** How a submission ends. */
  datatype SubmitOutcome =
    | Rejected(reason: SubmitError)
    | PasswordReset    // success dialog, then the login page
    | ResetFailed      // "No se pudo restablecer la contraseña. El enlace puede haber expirado."

  /** The page's state. The password fields change as the user types. */
  class ResetPasswordPage {
    var password: string
    var confirmPassword: string
    var isLoading: bool
    var token: string
    var uid: string

    constructor ()
      ensures password == "" && confirmPassword == "" && !isLoading && token == "" && uid == ""
    {
      password := "";
      confirmPassword := "";
      isLoading := false;
      token := "";
      uid := "";
    }

    /** The submit button's `disabled` on the current state. */
    predicate SubmitDisabled()
      reads this
    {
      ButtonDisabled(isLoading, password, confirmPassword)
    }

    /**
     * The effect run on load: keeps the link's uid and token, or reports the
     * link invalid and leaves them as they were.
     */
    method LoadLink(pathname: string, search: string) returns (valid: bool)
      modifies this
      ensures valid <==> LinkOf(pathname, search).Some?
      ensures valid ==> uid == LinkOf(pathname, search).value.uid && token == LinkOf(pathname, search).value.token
      ensures !valid ==> uid == old(uid) && token == old(token)
      ensures password == old(password) && confirmPassword == old(confirmPassword) && isLoading == old(isLoading)
    {
      var link := LinkOf(pathname, search);
      if link.None? {
        return false;
      }
      token := link.value.token;
      uid := link.value.uid;
      return true;
    }

    /**
     * `handleSubmit`: the guards, then the confirmation request, whose
     * success or failure the caller supplies. Nothing is sent when a guard
     * fails; otherwise `isLoading` ends false again.
     */
    method Submit(requestSucceeds: bool) returns (outcome: SubmitOutcome, sent: Option<ResetRequest>)
      modifies this
      ensures var guard := SubmitGuard(old(password), old(confirmPassword));
              && (guard.Some? ==> outcome == Rejected(guard.value) && sent.None? && isLoading == old(isLoading))
              && (guard.None? ==> sent == Some(ResetRequest(ConfirmPath(Link(uid, token)), password, password))
                                  && !isLoading
                                  && outcome == (if requestSucceeds then PasswordReset else ResetFailed))
      ensures password == old(password) && confirmPassword == old(confirmPassword)
      ensures uid == old(uid) && token == old(token)
    {
      if password != confirmPassword {
        return Rejected(Mismatch), None;
      }
      if !ValidatePassword(password) {
        return Rejected(Weak), None;
      }
      isLoading := true;
      sent := Some(ResetRequest(ConfirmPath(Link(uid, token)), password, password));
      outcome := if requestSucceeds then PasswordReset else ResetFailed;
      isLoading := false;
    }
  }

  /** A click on the enabled submit button always reaches the request. */
  lemma EnabledButtonSends(page: ResetPasswordPage)
    requires !page.SubmitDisabled()
    ensures SubmitGuard(page.password, page.confirmPassword).None?
  {
    ButtonMatchesGuards(page.password, page.confirmPassword);
  }
}
