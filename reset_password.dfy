/** The password-reset page: the recovery-token test on the URL hash, the
    validation chain of the new password, the calls a submission makes, when
    the page stops loading, and which card it renders. */
module ResetPassword {
  import opened Util

  /** `checkForToken` / `hasTokenInUrl` on the URL hash. */
  predicate HasRecoveryToken(hash: string) {
    hash != "" && (Contains(hash, "access_token") || Contains(hash, "type=recovery"))
  }

  /** The emptiness test is implied by the two substring tests, so the token
      test is exactly "mentions an access token or a recovery type". */
  lemma RecoveryTokenIsSubstringTest(hash: string)
    ensures HasRecoveryToken(hash) <==> Contains(hash, "access_token") || Contains(hash, "type=recovery")
    ensures !HasRecoveryToken("")
  {
    if Contains(hash, "access_token") {
      ContainsLength(hash, "access_token");
    }
    if Contains(hash, "type=recovery") {
      ContainsLength(hash, "type=recovery");
    }
  }

  /** A hash carrying a recovery fragment is recognised wherever the fragment sits. */
  lemma RecoveryFragmentRecognised(before: string, after: string)
    ensures HasRecoveryToken(before + "type=recovery" + after)
    ensures HasRecoveryToken(before + "access_token" + after)
  {
    ContainsInfix(before, "type=recovery", after);
    ContainsInfix(before, "access_token", after);
  }

  /** The render-time test adds that a window exists (false during server
      rendering) and otherwise applies the same rule. */
  predicate TokenInUrl(windowDefined: bool, hash: string) {
    windowDefined && HasRecoveryToken(hash)
  }

  datatype Refusal = BothFieldsRequired | TooShort | Mismatch

  const MinPasswordLength := 6

  /** The three checks of `handleSubmit`, in their order. The length is
      JavaScript's `length`, counted in UTF-16 code units. */
  function ValidatePasswords(password: string, confirm: string): (r: Option<Refusal>)
    ensures r.None? <==> password != "" && password == confirm && Utf16Length(password) >= MinPasswordLength
    ensures password == "" || confirm == "" ==> r == Some(BothFieldsRequired)
    ensures password != "" && confirm != "" && Utf16Length(password) < MinPasswordLength ==> r == Some(TooShort)
    ensures password != "" && confirm != "" && Utf16Length(password) >= MinPasswordLength && password != confirm
      ==> r == Some(Mismatch)
    ensures r == Some(Mismatch) ==>
      Utf16Length(password) >= MinPasswordLength && confirm != "" && password != confirm
  {
    if password == "" || confirm == "" then Some(BothFieldsRequired)
    else if Utf16Length(password) < MinPasswordLength then Some(TooShort)
    else if password != confirm then Some(Mismatch)
    else None
  }

  /** Three characters beyond the Basic Multilingual Plane, such as emoji,
      make a password of length six, which the length check accepts; six
      characters of the plane always pass it. */
  lemma LengthCountsCodeUnits(c: char, plain: string)
    requires c as int > 0xFFFF
    requires |plain| == MinPasswordLength
    ensures ValidatePasswords([c, c, c], [c, c, c]).None?
    ensures ValidatePasswords(plain, plain).None?
  {
    assert [c, c][1..] == [c];
    assert [c, c, c][1..] == [c, c];
    assert Utf16Length([c]) == 2;
    assert Utf16Length([c, c]) == 4;
    assert Utf16Length([c, c, c]) == 6;
  }

  /** A call to the auth server or the router. */
  datatype Call = GetSession | UpdateUser(password: string) | SignOut | Navigate(path: string)

  /** The toast a submission ends with. */
  datatype Toast =
    | Refused(reason: Refusal)
    | InvalidLink
    | UpdateFailed(message: string)
    | PasswordReset

  /** The calls of one submission, given whether a session exists and the
      error `updateUser` reports, if any. */
  function SubmitCalls(password: string, confirm: string, hasSession: bool, updateError: Option<string>): seq<Call> {
    if ValidatePasswords(password, confirm).Some? then []
    else if !hasSession then [GetSession]
    else if updateError.Some? then [GetSession, UpdateUser(password)]
    else [GetSession, UpdateUser(password), SignOut, Navigate("/login")]
  }

  function SubmitToast(password: string, confirm: string, hasSession: bool, updateError: Option<string>): Toast {
    var refusal := ValidatePasswords(password, confirm);
    if refusal.Some? then Refused(refusal.value)
    else if !hasSession then InvalidLink
    else if updateError.Some? then UpdateFailed(updateError.value)
    else PasswordReset
  }

  /** The password is changed only when both fields are filled, long enough,
      equal, and a session exists, and then with the entered password; the
      temporary session is signed out and the user sent to `/login` exactly
      when the change succeeded, the sign-out coming first. */
  lemma SubmitCallsProperties(password: string, confirm: string, hasSession: bool, updateError: Option<string>)
    ensures var calls := SubmitCalls(password, confirm, hasSession, updateError);
      && ((exists p :: UpdateUser(p) in calls) <==>
            password != "" && password == confirm && Utf16Length(password) >= MinPasswordLength && hasSession)
      && (forall p :: UpdateUser(p) in calls ==> p == password)
      && (Navigate("/login") in calls <==> SubmitToast(password, confirm, hasSession, updateError) == PasswordReset)
      && (SignOut in calls <==> Navigate("/login") in calls)
      && (Navigate("/login") in calls ==> calls[|calls| - 2] == SignOut && calls[|calls| - 1] == Navigate("/login"))
  {
    var calls := SubmitCalls(password, confirm, hasSession, updateError);
    if ValidatePasswords(password, confirm).None? && hasSession {
      assert calls[1] == UpdateUser(password);
    }
  }

  datatype ResetView = InvalidLinkCard | Skeleton | Form

  /** The render: while loading, the invalid-link card unless the URL carries
      a token, in which case a skeleton; once loaded, the form. */
  function View(isLoading: bool, tokenInUrl: bool): (v: ResetView)
    ensures v == Form <==> !isLoading
    ensures v == InvalidLinkCard <==> isLoading && !tokenInUrl
  {
    if isLoading && !tokenInUrl then InvalidLinkCard
    else if isLoading then Skeleton
    else Form
  }

  /** How the delayed session check ends: `mounted1` and `mounted2` say
      whether the page is still mounted after the first and the second wait,
      `firstSession` and `retrySession` whether the two session reads found a
      session, and `token` whether the hash carries a token. */
  function CheckSessionClearsLoading(mounted1: bool, firstSession: bool, token: bool,
                                     mounted2: bool, retrySession: bool): bool {
    if !mounted1 then false
    else if firstSession then true
    else if token && !mounted2 then false
    else if token && retrySession then true
    else true
  }

  /** Every path of the session check that finds the page still mounted
      clears the loading flag, found session or not. */
  lemma CheckSessionAlwaysEndsLoading(mounted1: bool, firstSession: bool, token: bool,
                                      mounted2: bool, retrySession: bool)
    ensures CheckSessionClearsLoading(mounted1, firstSession, token, mounted2, retrySession) <==>
      mounted1 && (firstSession || !token || mounted2)
  {
  }

  datatype AuthEvent = PasswordRecovery | SignedIn | OtherEvent

  /** The page's React state. */
  class ResetPasswordPage {
    var password: string
    var confirmPassword: string
    var isSubmitting: bool
    var isLoading: bool

    constructor ()
      ensures password == "" && confirmPassword == "" && !isSubmitting && isLoading
    {
      password := "";
      confirmPassword := "";
      isSubmitting := false;
      isLoading := true;
    }

    /** The `onAuthStateChange` listener: a recovery event, or a sign-in that
        brings a session, ends loading while the page is mounted. */
    method OnAuthStateChange(event: AuthEvent, hasSession: bool, mounted: bool)
      modifies this`isLoading
      ensures isLoading == (old(isLoading) && !(mounted && (event == PasswordRecovery || (event == SignedIn && hasSession))))
    {
      if event == PasswordRecovery {
        if mounted {
          isLoading := false;
        }
      } else if event == SignedIn && hasSession {
        if mounted {
          isLoading := false;
        }
      }
    }

    /** `checkSession`, with the answers of its two reads as inputs. */
    method CheckSession(mounted1: bool, firstSession: bool, token: bool, mounted2: bool, retrySession: bool)
      modifies this`isLoading
      ensures isLoading == (old(isLoading) && !CheckSessionClearsLoading(mounted1, firstSession, token, mounted2, retrySession))
    {
      if !mounted1 {
        return;
      }
      if firstSession {
        isLoading := false;
        return;
      }
      if token {
        if !mounted2 {
          return;
        }
        if retrySession {
          isLoading := false;
          return;
        }
      }
      if !token && !firstSession {
        isLoading := false;
      } else {
        isLoading := false;
      }
    }

    /** `handleSubmit`, with the session read and the error of `updateUser`
        as inputs; it returns the calls made and the toast shown. Fields are
        kept, and `isSubmitting` is false once it returns, on every path. */
    method HandleSubmit(hasSession: bool, updateError: Option<string>) returns (calls: seq<Call>, toast: Toast)
      modifies this`isSubmitting
      ensures calls == SubmitCalls(password, confirmPassword, hasSession, updateError)
      ensures toast == SubmitToast(password, confirmPassword, hasSession, updateError)
      ensures ValidatePasswords(password, confirmPassword).Some? ==> isSubmitting == old(isSubmitting)
      ensures ValidatePasswords(password, confirmPassword).None? ==> !isSubmitting
    {
      var refusal := ValidatePasswords(password, confirmPassword);
      if refusal.Some? {
        return [], Refused(refusal.value);
      }
      isSubmitting := true;
      calls := [GetSession];
      if !hasSession {
        toast := InvalidLink;
      } else {
        calls := calls + [UpdateUser(password)];
        if updateError.Some? {
          toast := UpdateFailed(updateError.value);
        } else {
          calls := calls + [SignOut, Navigate("/login")];
          toast := PasswordReset;
        }
      }
      isSubmitting := false;
    }
  }
}
