/**
 The sign-in page of Login.tsx, between one await and the next.

 `Ui` is the page's state; the functions on it are the stretches of the three handlers that React
 applies as one update, and `LoginPage` is the same code on fields. Calls to the identity service
 are values: a handler issues one and is resumed with its answer.
 */
module Login {
  import opened Common
  import opened Text

  datatype Profile = Profile(sub: string, preferredUsername: Option<string>, email: Option<string>)

  datatype Session = SignedOut | SignedIn(profile: Profile)

  /** What the address of the page says, whether busy buttons are inert, and how letter case is folded. */
  datatype Page = Page(strong: bool, direct: bool, hint: string, busyBlocks: bool, lower: string -> string)

  datatype Request =
    | Password(username: string, password: string)
    | VerifyMfa(token: string, code: string)
    | StepUpMfa(code: string)
    | LoginPasskey
    | StepUpPasskey

  datatype Answer = Resolved(demand: Option<string>) | Rejected(message: string)

  datatype Notice = EnterBothFields | CodeRequired | StrongAuthUnavailable | Reported(message: string)

  datatype Ui = Ui(username: string, password: string, error: Option<Notice>, loading: bool, passkeyLoading: bool,
                   mfaRequired: bool, mfaToken: string, mfaCode: string)

  predicate ByPasskey(r: Request) {
    r.LoginPasskey? || r.StepUpPasskey?
  }

  predicate MatchesHint(page: Page, profile: Profile) {
    || page.hint == ""
    || (profile.preferredUsername.Some? && profile.preferredUsername.value != ""
        && page.lower(profile.preferredUsername.value) == page.lower(page.hint))
    || profile.sub == page.hint
    || (profile.email.Some? && profile.email.value != "" && page.lower(profile.email.value) == page.lower(page.hint))
  }

  predicate SudoMode(page: Page, session: Session) {
    page.strong && session.SignedIn? && MatchesHint(page, session.profile)
  }

  function PasswordBegun(u: Ui): (Ui, Option<Request>) {
    if u.username == "" || u.password == "" then (u.(error := Some(EnterBothFields)), None)
    else (u.(loading := true, error := None), Some(Password(u.username, u.password)))
  }

  function CodeBegun(u: Ui, sudo: bool): (Ui, Option<Request>) {
    var code := Trim(JsSpace, u.mfaCode);
    if code == "" then (u.(error := Some(CodeRequired)), None)
    else (u.(loading := true, error := None), Some(if sudo then StepUpMfa(code) else VerifyMfa(u.mfaToken, code)))
  }

  function PasskeyBegun(u: Ui, sudo: bool): (Ui, Option<Request>) {
    (u.(passkeyLoading := true, error := None), Some(if sudo then StepUpPasskey else LoginPasskey))
  }

  function BackToLogin(u: Ui): Ui {
    u.(mfaRequired := false, error := None, mfaCode := "")
  }

  // The finally block of the handler that issued r.
  function Ended(u: Ui, r: Request): Ui {
    if ByPasskey(r) then u.(passkeyLoading := false) else u.(loading := false)
  }

  // Whether the handler goes on to the redirect; if not, it is over.
  function Answered(page: Page, u: Ui, r: Request, a: Answer): (Ui, bool) {
    match a
    case Rejected(message) => (Ended(u.(error := Some(Reported(message))), r), false)
    case Resolved(demand) =>
      if !r.Password? then (u, true)
      else if demand.Some? then (Ended(u.(mfaRequired := true, mfaToken := demand.value, mfaCode := ""), r), false)
      else if page.strong then (Ended(u.(error := Some(StrongAuthUnavailable)), r), false)
      else (u, true)
  }

  // The handler behind its redirect: at once for doRedirect, or when redirectToAuthorize settles.
  function RedirectSettled(u: Ui, r: Request, a: Answer): Ui {
    Ended(if a.Rejected? then u.(error := Some(Reported(a.message))) else u, r)
  }

  class LoginPage {
    const page: Page
    var username: string
    var password: string
    var error: Option<Notice>
    var loading: bool
    var passkeyLoading: bool
    var mfaRequired: bool
    var mfaToken: string
    var mfaCode: string

    function View(): Ui
      reads this
    {
      Ui(username, password, error, loading, passkeyLoading, mfaRequired, mfaToken, mfaCode)
    }

    constructor (page: Page)
      ensures this.page == page
      ensures View() == Ui("", "", None, false, false, false, "", "")
    {
      this.page := page;
      username, password, error, loading, passkeyLoading := "", "", None, false, false;
      mfaRequired, mfaToken, mfaCode := false, "", "";
    }

    method HandleLogin() returns (call: Option<Request>)
      modifies this
      ensures (View(), call) == PasswordBegun(old(View()))
    {
      if username == "" || password == "" {
        error := Some(EnterBothFields);
        return None;
      }
      loading := true;
      error := None;
      return Some(Password(username, password));
    }

    method HandleMfaVerify(sudo: bool) returns (call: Option<Request>)
      modifies this
      ensures (View(), call) == CodeBegun(old(View()), sudo)
    {
      if Trim(JsSpace, mfaCode) == "" {
        error := Some(CodeRequired);
        return None;
      }
      loading := true;
      error := None;
      if sudo {
        return Some(StepUpMfa(Trim(JsSpace, mfaCode)));
      }
      return Some(VerifyMfa(mfaToken, Trim(JsSpace, mfaCode)));
    }

    method HandlePasskeyLogin(sudo: bool) returns (call: Option<Request>)
      modifies this
      ensures (View(), call) == PasskeyBegun(old(View()), sudo)
    {
      passkeyLoading := true;
      error := None;
      if sudo {
        return Some(StepUpPasskey);
      }
      return Some(LoginPasskey);
    }

    method HandleBackToLogin()
      modifies this
      ensures View() == BackToLogin(old(View()))
    {
      mfaRequired := false;
      error := None;
      mfaCode := "";
    }

    method Finally(r: Request)
      modifies this
      ensures View() == Ended(old(View()), r)
    {
      if ByPasskey(r) {
        passkeyLoading := false;
      } else {
        loading := false;
      }
    }

    method Resume(r: Request, a: Answer) returns (redirects: bool)
      modifies this
      ensures (View(), redirects) == Answered(page, old(View()), r, a)
    {
      match a {
        case Rejected(message) =>
          error := Some(Reported(message));
          Finally(r);
          return false;
        case Resolved(demand) =>
          if r.Password? {
            if demand.Some? {
              mfaRequired := true;
              mfaToken := demand.value;
              mfaCode := "";
              Finally(r);
              return false;
            }
            if page.strong {
              error := Some(StrongAuthUnavailable);
              Finally(r);
              return false;
            }
          }
          return true;
      }
    }

    method ResumeAfterRedirect(r: Request, a: Answer)
      modifies this
      ensures View() == RedirectSettled(old(View()), r, a)
    {
      if a.Rejected? {
        error := Some(Reported(a.message));
      }
      Finally(r);
    }
  }
}
