/** The sign-in / sign-up card: submission gating on the form fields and the
    campus allow-list, the e-mail redirect address of a sign-up, the mode
    toggle and the field resets after each auth call. */
module AuthCard {
  import opened Util
  import opened EmailDomains

  datatype AuthMode = SignIn | SignUp

  /** `toggleAuthMode`. */
  function Toggle(m: AuthMode): (r: AuthMode)
    ensures r != m
  {
    if m == SignIn then SignUp else SignIn
  }

  /** Toggling twice gives back the mode. */
  lemma ToggleInvolution(m: AuthMode)
    ensures Toggle(Toggle(m)) == m
  {
  }

  /** The path part of `emailRedirectTo`: kept when it starts with `/`,
      otherwise given a leading `/`. */
  function NormalizeRedirect(p: string): string {
    if StartsWith(p, "/") then p else "/" + p
  }

  /** The normalised path always starts with `/`, is the path itself or the
      path behind one added `/`, and normalising again changes nothing. */
  lemma NormalizeRedirectProperties(p: string)
    ensures StartsWith(NormalizeRedirect(p), "/")
    ensures NormalizeRedirect(p) == p || NormalizeRedirect(p) == "/" + p
    ensures StartsWith(p, "/") <==> NormalizeRedirect(p) == p
    ensures NormalizeRedirect(NormalizeRedirect(p)) == NormalizeRedirect(p)
  {
    if !StartsWith(p, "/") {
      assert ("/" + p)[..1] == "/";
    }
  }

  /** The address a confirmation e-mail links back to. */
  function EmailRedirectTo(origin: string, redirectPath: string): string {
    origin + NormalizeRedirect(redirectPath)
  }

  /** The auth server call the card makes. */
  datatype AuthCall =
    | SignUpCall(email: string, password: string, emailRedirectTo: string)
    | SignInCall(email: string, password: string)
    | SignOutCall

  /** The message a refused submission shows. */
  datatype Refusal = BothFieldsRequired | NotCampusEmail

  /** The checks `handleSubmit` makes before any auth call. */
  function SubmitGate(email: string, password: string): (r: Option<Refusal>)
    ensures r.None? <==> email != "" && password != "" && IsAllowedEmail(email)
  {
    if email == "" || password == "" then Some(BothFieldsRequired)
    else if !IsAllowedEmail(email) then Some(NotCampusEmail)
    else None
  }

  /** The card's React state. `pending` is the auth call awaiting its answer. */
  class AuthCardState {
    var authMode: AuthMode
    var email: string
    var password: string
    var isSubmitting: bool
    var pending: Option<AuthCall>

    /** While an auth call is out `isSubmitting` is raised, and only then. */
    ghost predicate Valid()
      reads this
    {
      isSubmitting <==> pending.Some?
    }

    constructor (defaultMode: AuthMode)
      ensures Valid()
      ensures authMode == defaultMode && email == "" && password == "" && !isSubmitting && pending.None?
    {
      authMode := defaultMode;
      email := "";
      password := "";
      isSubmitting := false;
      pending := None;
    }

    method SetEmail(e: string)
      modifies this`email
      ensures email == e
    {
      email := e;
    }

    method SetPassword(p: string)
      modifies this`password
      ensures password == p
    {
      password := p;
    }

    method ToggleAuthMode()
      modifies this`authMode
      ensures authMode == Toggle(old(authMode))
    {
      authMode := Toggle(authMode);
    }

    /** The synchronous part of `handleSubmit`: a refused submission makes no
        call and changes nothing; otherwise the call of the current mode goes
        out, with the entered email and password. */
    method HandleSubmit(origin: string, redirectPath: string) returns (refused: Option<Refusal>)
      requires Valid() && !isSubmitting
      modifies this`isSubmitting, this`pending
      ensures Valid()
      ensures refused == SubmitGate(email, password)
      ensures refused.Some? ==> !isSubmitting && pending == old(pending)
      ensures refused.None? ==> isSubmitting && pending == Some(
        if authMode == SignUp then SignUpCall(email, password, EmailRedirectTo(origin, redirectPath))
        else SignInCall(email, password))
    {
      refused := SubmitGate(email, password);
      if refused.Some? {
        return;
      }
      isSubmitting := true;
      if authMode == SignUp {
        pending := Some(SignUpCall(email, password, EmailRedirectTo(origin, redirectPath)));
      } else {
        pending := Some(SignInCall(email, password));
      }
    }

    /** The answer to the pending call, `ok` when it carries no error. A
        successful sign-up switches to sign-in and clears the password but
        keeps the email; a failed one changes neither; a sign-in changes no
        field either way. `isSubmitting` is lowered on every path. */
    method CompleteAuthCall(ok: bool)
      requires Valid() && pending.Some? && !pending.value.SignOutCall?
      modifies this`isSubmitting, this`pending, this`authMode, this`password
      ensures Valid() && !isSubmitting
      ensures email == old(email)
      ensures old(pending.value).SignUpCall? && ok ==> authMode == SignIn && password == ""
      ensures !(old(pending.value).SignUpCall? && ok) ==>
        authMode == old(authMode) && password == old(password)
    {
      var call := pending.value;
      isSubmitting := false;
      pending := None;
      if call.SignUpCall? && ok {
        authMode := SignIn;
        password := "";
      }
    }

    /** The start of `handleSignOut`. */
    method BeginSignOut()
      requires Valid() && !isSubmitting
      modifies this`isSubmitting, this`pending
      ensures Valid() && isSubmitting && pending == Some(SignOutCall)
    {
      isSubmitting := true;
      pending := Some(SignOutCall);
    }

    /** The end of `handleSignOut`: both fields are cleared only when the
        sign-out succeeded; `isSubmitting` is lowered either way. */
    method CompleteSignOut(ok: bool)
      requires pending == Some(SignOutCall)
      modifies this`isSubmitting, this`pending, this`email, this`password
      ensures Valid() && !isSubmitting
      ensures ok ==> email == "" && password == ""
      ensures !ok ==> email == old(email) && password == old(password)
    {
      isSubmitting := false;
      pending := None;
      if ok {
        email := "";
        password := "";
      }
    }
  }
}
