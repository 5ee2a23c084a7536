/**
 * Host self-registration (src/components/HostRegistration.tsx): the form's validation rules,
 * the host handed to the store and the record appended to the browser's registration list,
 * which is what sign-in later reads.
 */
module HostRegistration {
  import opened Wrappers
  import opened Text
  import opened DataModel
  import opened DataMutations
  import opened DataContext
  import opened BrowserStorage
  import opened EmailPattern

  /** The form's fields; an unselected visitor limit is `None`. */
  datatype RegistrationForm = RegistrationForm(
    name: string,
    email: string,
    password: string,
    confirmPassword: string,
    department: string,
    maxVisitorsPerDay: Option<int>)

  /** The messages the form can show, at most one per field. */
  datatype FieldError =
    | NameRequired
    | EmailRequired
    | InvalidEmail
    | PasswordRequired
    | PasswordTooShort
    | ConfirmRequired
    | PasswordsDoNotMatch
    | DepartmentRequired
    | LimitRequired
    | EmailRefusedByBrowser

  const MinPasswordLength := 6

  function EmailErrors(email: string): seq<FieldError> {
    if email == "" then [EmailRequired] else if !IsValidEmail(email) then [InvalidEmail] else []
  }

  function PasswordErrors(password: string): seq<FieldError> {
    if password == "" then [PasswordRequired] else if |password| < MinPasswordLength then [PasswordTooShort] else []
  }

  function ConfirmErrors(password: string, confirm: string): seq<FieldError> {
    if confirm == "" then [ConfirmRequired] else if confirm != password then [PasswordsDoNotMatch] else []
  }

  /** The field rules in field order; a field's "required" rule is checked before its other rule. */
  function Validate(f: RegistrationForm): (errors: seq<FieldError>)
    ensures errors == [] <==> (f.name != "" && IsValidEmail(f.email) && |f.password| >= MinPasswordLength
                               && f.confirmPassword == f.password && f.department != ""
                               && f.maxVisitorsPerDay.Some?)
    ensures |errors| <= 6
  {
    (if f.name == "" then [NameRequired] else [])
    + EmailErrors(f.email)
    + PasswordErrors(f.password)
    + ConfirmErrors(f.password, f.confirmPassword)
    + (if f.department == "" then [DepartmentRequired] else [])
    + (if f.maxVisitorsPerDay.None? then [LimitRequired] else [])
  }

  /**
   * What pressing the submit button shows: the e-mail input is `type="email"`, so the browser
   * refuses an address it does not accept before the form's own rules run; otherwise the rules.
   */
  function SubmitErrors(f: RegistrationForm): (errors: seq<FieldError>)
    ensures !BrowserAcceptsEmail(f.email) ==> errors == [EmailRefusedByBrowser]
    ensures BrowserAcceptsEmail(f.email) ==> errors == Validate(f)
    ensures errors == [] <==> BrowserAcceptsEmail(f.email) && Validate(f) == []
  {
    if !BrowserAcceptsEmail(f.email) then [EmailRefusedByBrowser] else Validate(f)
  }

  /** A five-character password is refused, a six-character one is not. */
  lemma PasswordLengthBoundary()
    ensures PasswordErrors("12345") == [PasswordTooShort]
    ensures PasswordErrors("123456") == []
  {
  }

  /** The host handed to `addHost`: active, carrying the chosen password; the store adds `isApproved`. */
  function HostDraftFor(f: RegistrationForm): (d: HostDraft)
    requires f.maxVisitorsPerDay.Some?
    ensures d.isActive && d.password == Some(f.password) && d.email == f.email && d.name == f.name
  {
    HostDraft(f.name, f.email, Some(f.password), f.department, true, f.maxVisitorsPerDay.value)
  }

  /** The record appended to the registration list: the same host, unapproved, with the clock as id. */
  function StoredRecordFor(f: RegistrationForm, now: nat): (h: StoredHost)
    requires f.maxVisitorsPerDay.Some?
    ensures !h.isApproved && h.isActive && h.id == Decimal(now) && h.createdAt == now
    ensures h.email == f.email && h.password == f.password && h.approvedBy.None? && h.approvedAt.None?
  {
    StoredHost(Decimal(now), f.name, f.email, f.password, f.department, true, false,
               f.maxVisitorsPerDay.value, now, None, None)
  }

  /**
   * The store's copy and the stored copy name the same host with the same password, neither
   * approved. Their ids are two separate clock readings, the store's first: they agree exactly
   * when the clock has not moved between the two.
   */
  lemma BothCopiesAgree(s: State, f: RegistrationForm, now: nat, later: nat)
    requires f.maxVisitorsPerDay.Some?
    ensures var h := AddHost(s, HostDraftFor(f), now).hosts[|s.hosts|];
            var rec := StoredRecordFor(f, later);
            h.email == rec.email && h.password == Some(rec.password) && !h.isApproved && !rec.isApproved
            && (h.id == rec.id <==> later == now)
  {
    DecimalInjective(now, later);
  }

  class HostRegistrationPage {
    var isSubmitted: bool

    constructor()
      ensures !isSubmitted
    {
      isSubmitted := false;
    }

    /**
     * The submit button: with the browser's check failed or any rule broken nothing happens but
     * the messages; otherwise the
     * host goes to the store at clock reading `now`, one unapproved record is appended to the
     * registration list with the later reading `later` as its id, and the page shows its
     * confirmation.
     */
    method OnSubmit(store: DataStore, storage: Storage, f: RegistrationForm, now: nat, later: nat) returns (errors: seq<FieldError>)
      modifies this, store, storage
      ensures errors == SubmitErrors(f)
      ensures errors == [] ==>
                f.maxVisitorsPerDay.Some?
                && store.Snapshot() == AddHost(old(store.Snapshot()), HostDraftFor(f), now)
                && storage.registeredHosts == old(storage.registeredHosts) + [StoredRecordFor(f, later)]
                && isSubmitted
      ensures errors != [] ==>
                store.Snapshot() == old(store.Snapshot())
                && storage.registeredHosts == old(storage.registeredHosts)
                && isSubmitted == old(isSubmitted)
      ensures storage.sessionUser == old(storage.sessionUser)
    {
      errors := SubmitErrors(f);
      if errors != [] {
        return;
      }
      store.AddHost(HostDraftFor(f), now);
      storage.registeredHosts := storage.registeredHosts + [StoredRecordFor(f, later)];
      isSubmitted := true;
    }
  }
}
