/**
 The step-up provider of SudoContext.tsx.

 `Ui` is the provider's state together with the stored deadline. The functions on it are the
 stretches of code between two awaits, which React applies as one update; `SudoProvider` is the
 same code on fields. Storage calls may throw, as in the source.
 */
module Sudo {
  import opened Common
  import opened Text

  const GRACE_PERIOD_MS := 5 * 60 * 1000

  /** What session storage holds: nothing, something that is not a number, or a deadline. */
  datatype Stored = Absent | Garbage | Until(deadline: int)

  /** The action behind a request: any action, or one attempt of a passkey submission. */
  datatype Action = Plain | Register(submission: nat)

  datatype Request = Request(id: nat, action: Action)

  datatype Method = Mfa | Passkey

  datatype Ui = Ui(storage: Stored, pending: Option<Request>, code: string, loading: bool, passkeyLoading: bool,
                   error: Option<string>)

  predicate Active(storage: Stored, now: int, readFails: bool) {
    !readFails && storage.Until? && now < storage.deadline
  }

  function Cleared(u: Ui, removeFails: bool): Ui {
    if removeFails then u else u.(storage := Absent)
  }

  // requireSudo: whether the action runs at once, otherwise the request becomes the pending one.
  function Required(u: Ui, r: Request, now: int, readFails: bool): (Ui, bool) {
    if Active(u.storage, now, readFails) then (u, true)
    else (u.(error := None, code := "", pending := Some(r)), false)
  }

  function Closed(u: Ui): Ui {
    u.(pending := None, error := None, code := "")
  }

  predicate CodeBlank(u: Ui) {
    Trim(JsSpace, u.code) == ""
  }

  function MfaStarted(u: Ui): Ui {
    if CodeBlank(u) then u.(error := Some("login.mfaCodeRequired")) else u.(loading := true, error := None)
  }

  function PasskeyStarted(u: Ui): Ui {
    u.(passkeyLoading := true, error := None)
  }

  // recordSudoSuccess and the start of completePendingAction.
  function Verified(u: Ui, now: int, writeFails: bool): Ui {
    u.(storage := if writeFails then u.storage else Until(now + GRACE_PERIOD_MS), pending := None)
  }

  // The catch and finally blocks; no error if nothing was thrown.
  function Settled(u: Ui, m: Method, thrown: Option<string>): Ui {
    var shown := if thrown.Some? then u.(error := thrown) else u;
    match m
    case Mfa => shown.(loading := false)
    case Passkey => shown.(passkeyLoading := false)
  }

  class SudoProvider {
    var storage: Stored
    var pendingAction: Option<Request>
    var code: string
    var loading: bool
    var passkeyLoading: bool
    var error: Option<string>

    function View(): Ui
      reads this
    {
      Ui(storage, pendingAction, code, loading, passkeyLoading, error)
    }

    constructor (stored: Stored)
      ensures View() == Ui(stored, None, "", false, false, None)
    {
      storage, pendingAction, code, loading, passkeyLoading, error := stored, None, "", false, false, None;
    }

    method IsSudoActive(now: int, readFails: bool) returns (active: bool)
      ensures active <==> Active(storage, now, readFails)
    {
      if readFails { return false; }
      match storage {
        case Absent => return false;
        case Garbage => return false;
        case Until(deadline) => return now < deadline;
      }
    }

    method ClearSudo(removeFails: bool)
      modifies this
      ensures View() == Cleared(old(View()), removeFails)
    {
      if !removeFails { storage := Absent; }
    }

    method RecordSudoSuccess(now: int, writeFails: bool)
      modifies this
      ensures View() == old(View()).(storage := storage)
      ensures storage == if writeFails then old(storage) else Until(now + GRACE_PERIOD_MS)
    {
      if !writeFails { storage := Until(now + GRACE_PERIOD_MS); }
    }

    method RequireSudo(r: Request, now: int, readFails: bool) returns (runs: bool)
      modifies this
      ensures (View(), runs) == Required(old(View()), r, now, readFails)
    {
      runs := IsSudoActive(now, readFails);
      if runs { return; }
      error := None;
      code := "";
      pendingAction := Some(r);
    }

    method HandleClose()
      modifies this
      ensures View() == Closed(old(View()))
    {
      pendingAction := None;
      error := None;
      code := "";
    }

    // handleMfaSubmit up to its await; the handler keeps the action it was rendered with.
    method StartMfaSubmit() returns (started: bool, captured: Option<Request>)
      modifies this
      ensures View() == MfaStarted(old(View()))
      ensures started <==> !CodeBlank(old(View()))
      ensures captured == old(pendingAction)
    {
      captured := pendingAction;
      if Trim(JsSpace, code) == "" {
        error := Some("login.mfaCodeRequired");
        return false, captured;
      }
      loading := true;
      error := None;
      started := true;
    }

    // handlePasskeyStepUp up to its await.
    method StartPasskeyStepUp() returns (captured: Option<Request>)
      modifies this
      ensures View() == PasskeyStarted(old(View())) && captured == old(pendingAction)
    {
      captured := pendingAction;
      passkeyLoading := true;
      error := None;
    }

    // Either handler behind its await: the captured action is what runs, whatever is pending now.
    method FinishVerification(captured: Option<Request>, now: int, writeFails: bool) returns (runs: Option<Request>)
      modifies this
      ensures View() == Verified(old(View()), now, writeFails) && runs == captured
    {
      RecordSudoSuccess(now, writeFails);
      runs := captured;
      pendingAction := None;
    }

    method Settle(m: Method, thrown: Option<string>)
      modifies this
      ensures View() == Settled(old(View()), m, thrown)
    {
      if thrown.Some? { error := thrown; }
      match m {
        case Mfa => loading := false;
        case Passkey => passkeyLoading := false;
      }
    }
  }
}
