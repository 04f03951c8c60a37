/** The Streamlit session state of one browser session and the transitions that do not
    belong to a single wizard step: wizard initialisation and reset, the progress bullets,
    the step dispatch of `render_main_app`, the application router, and the buttons of the
    login page and sidebar. The session state is a dictionary, so every key is a `Slot`:
    `Absent` until some code writes it. */
module Session {
  import opened Prelude

  datatype View = DashboardView | WizardView

  datatype Page = LoginPage | RegisterPage

  datatype Role = User | Assistant

  /** `{"role": ..., "content": ...}`. */
  datatype Message = Message(role: Role, content: string)

  /** One entry of `upload_buffer`: `{"name": ..., "data": ...}`. */
  datatype Upload = Upload(name: string, data: seq<Byte>)

  /** A retrieval chain over the vector store persisted in `storeDir`. How it answers is
      not modelled; each answer is an input to the chat turn. */
  datatype Chain = Chain(storeDir: string)

  /** The session-state keys the application reads and writes. */
  datatype State = State(
    wizardStep: Slot<int>,
    uploadBuffer: Slot<seq<Upload>>,
    savedFilePaths: Slot<seq<string>>,
    ragChain: Slot<Option<Chain>>,
    messages: Slot<seq<Message>>,
    currentKbName: Slot<Option<string>>,
    currentKbSanitizedName: Slot<Option<string>>,
    view: Slot<View>,
    page: Slot<Page>,
    guestMode: Slot<bool>,
    guestUuid: Slot<string>)

  /** A new browser session: no key has been written. */
  const Fresh: State := State(Absent, Absent, Absent, Absent, Absent, Absent, Absent,
                              Absent, Absent, Absent, Absent)

  /** The seven keys `_init_wizard_state` provides. */
  predicate WizardKeysPresent(s: State) {
    && s.wizardStep.Present? && s.uploadBuffer.Present? && s.savedFilePaths.Present?
    && s.ragChain.Present? && s.messages.Present?
    && s.currentKbName.Present? && s.currentKbSanitizedName.Present?
  }

  /** The keys outside the wizard are the same in both states. */
  predicate SameOutsideWizard(s: State, t: State) {
    t.view == s.view && t.page == s.page && t.guestMode == s.guestMode && t.guestUuid == s.guestUuid
  }

  /** `setdefault`: a key that was present keeps its value; an absent one gets the default. */
  predicate KeptOrDefaulted<T(==)>(before: Slot<T>, after: Slot<T>, default: T) {
    && after.Present?
    && (before.Present? ==> after == before)
    && (before.Absent? ==> after.value == default)
  }

  function SetDefault<T>(slot: Slot<T>, default: T): Slot<T> {
    if slot.Present? then slot else Present(default)
  }

  /** `_init_wizard_state`: fills each absent wizard key with its default and never overwrites one. */
  function InitWizardState(s: State): (t: State)
    ensures KeptOrDefaulted(s.wizardStep, t.wizardStep, 1)
    ensures KeptOrDefaulted(s.uploadBuffer, t.uploadBuffer, [])
    ensures KeptOrDefaulted(s.savedFilePaths, t.savedFilePaths, [])
    ensures KeptOrDefaulted(s.ragChain, t.ragChain, None)
    ensures KeptOrDefaulted(s.messages, t.messages, [])
    ensures KeptOrDefaulted(s.currentKbName, t.currentKbName, None)
    ensures KeptOrDefaulted(s.currentKbSanitizedName, t.currentKbSanitizedName, None)
    ensures SameOutsideWizard(s, t)
    ensures WizardKeysPresent(t)
  {
    s.(wizardStep := SetDefault(s.wizardStep, 1),
       uploadBuffer := SetDefault(s.uploadBuffer, []),
       savedFilePaths := SetDefault(s.savedFilePaths, []),
       ragChain := SetDefault(s.ragChain, None),
       messages := SetDefault(s.messages, []),
       currentKbName := SetDefault(s.currentKbName, None),
       currentKbSanitizedName := SetDefault(s.currentKbSanitizedName, None))
  }

  /** Initialising twice is initialising once, and a state that already holds every wizard
      key is left as it is. */
  lemma InitWizardStateIdempotent(s: State)
    ensures InitWizardState(InitWizardState(s)) == InitWizardState(s)
    ensures WizardKeysPresent(s) ==> InitWizardState(s) == s
  {
  }

  /** `_reset_wizard(clear_chain)`: back to step 1 with empty buffers; the chain, the messages
      and the knowledge-base names are cleared only when `clearChain` holds. */
  function ResetWizard(s: State, clearChain: bool): (t: State)
    ensures t.wizardStep == Present(1)
    ensures t.uploadBuffer == Present([]) && t.savedFilePaths == Present([])
    ensures clearChain ==> && t.ragChain == Present(None) && t.messages == Present([])
                           && t.currentKbName == Present(None) && t.currentKbSanitizedName == Present(None)
    ensures !clearChain ==> && t.ragChain == s.ragChain && t.messages == s.messages
                            && t.currentKbName == s.currentKbName
                            && t.currentKbSanitizedName == s.currentKbSanitizedName
    ensures SameOutsideWizard(s, t)
  {
    var t := s.(wizardStep := Present(1), uploadBuffer := Present([]), savedFilePaths := Present([]));
    if clearChain then
      t.(ragChain := Present(None), messages := Present([]),
         currentKbName := Present(None), currentKbSanitizedName := Present(None))
    else t
  }

  /** A full reset forgets everything the wizard held: any two states that agree outside
      the wizard reset to the same state. */
  lemma ResetForgetsWizard(s: State, s': State)
    requires SameOutsideWizard(s, s')
    ensures ResetWizard(s, true) == ResetWizard(s', true)
    ensures WizardKeysPresent(ResetWizard(s, true))
  {
  }

  // ---------------------------------------------------------------------------------------------
  // Progress bullets and step dispatch

  datatype Bullet = Done | Current | Pending

  /** The bullet of step `i` while step `active` is shown. */
  function BulletFor(active: int, i: int): Bullet {
    if active > i then Done else if active == i then Current else Pending
  }

  /** The bullets of steps 1, 2 and 3. */
  function Progress(active: int): (r: seq<Bullet>)
    ensures |r| == 3
  {
    [BulletFor(active, 1), BulletFor(active, 2), BulletFor(active, 3)]
  }

  /** For an active step in 1..3, exactly that step shows the current-step bullet, the steps
      before it are done and those after it pending; for any other value none is current. */
  lemma ProgressHasOneCurrent(active: int)
    ensures 1 <= active <= 3 ==> Progress(active)[active - 1] == Current
    ensures forall i :: 0 <= i < 3 && i != active - 1 ==> Progress(active)[i] != Current
    ensures forall i :: 0 <= i < 3 ==> (Progress(active)[i] == Done <==> i + 1 < active)
    ensures forall i :: 0 <= i < 3 ==> (Progress(active)[i] == Pending <==> active < i + 1)
  {
  }

  function Glyph(b: Bullet): string {
    match b
    case Done => "\U{2705}"
    case Current => "\U{1F7E2}"
    case Pending => "\U{26AA}\U{FE0F}"
  }

  const StepLabels: seq<string> := ["1. Upload", "2. Process", "3. Chat"]

  /** The sidebar's progress lines: shown only while the view is the wizard, each the step's
      bullet, a space and its label; the active step defaults to 1 when no step was written. */
  function ProgressLines(s: State): (lines: seq<string>)
    ensures s.view.GetOr(DashboardView) != WizardView ==> lines == []
    ensures s.view.GetOr(DashboardView) == WizardView ==>
              && |lines| == 3
              && forall i :: 0 <= i < 3 ==>
                   lines[i] == Glyph(Progress(s.wizardStep.GetOr(1))[i]) + " " + StepLabels[i]
  {
    if s.view.GetOr(DashboardView) != WizardView then []
    else
      var bullets := Progress(s.wizardStep.GetOr(1));
      seq(3, i requires 0 <= i < 3 => Glyph(bullets[i]) + " " + StepLabels[i])
  }

  datatype StepView = UploadStep | ProcessStep | ChatStep

  /** The `if step == 1 ... elif step == 2 ... else` dispatch. */
  function StepFor(step: int): (v: StepView)
    ensures v == UploadStep <==> step == 1
    ensures v == ProcessStep <==> step == 2
    ensures v == ChatStep <==> step != 1 && step != 2
  {
    if step == 1 then UploadStep else if step == 2 then ProcessStep else ChatStep
  }

  /** `render_main_app`: initialises the wizard only when no step was written yet, then shows
      the step the state names. */
  function RenderMainApp(s: State): (r: (State, StepView))
    ensures s.wizardStep.Present? ==> r.0 == s
    ensures s.wizardStep.Absent? ==> r.0 == InitWizardState(s) && r.1 == UploadStep
    ensures r.0.wizardStep.Present? && r.1 == StepFor(r.0.wizardStep.value)
  {
    var t := if s.wizardStep.Absent? then InitWizardState(s) else s;
    (t, StepFor(t.wizardStep.value))
  }

  // ---------------------------------------------------------------------------------------------
  // Router and login-page buttons

  /** `authentication_status`: `None` before any attempt, `False` after a failed one, and
      true once a user is logged in (with the `username` the authenticator stored). */
  datatype AuthStatus = NotAttempted | LoginFailed | LoggedIn(username: string)

  datatype Screen =
    | GuestApp(guestId: string, step: StepView)
    | UserDashboard(user: string)
    | UserApp(user: string, step: StepView)
    | LoginScreen(showsError: bool)
    | RegisterScreen

  /** The application router: guest mode first, then a logged-in user (dashboard or wizard by
      `view`, which defaults to the dashboard), else the login or registration page (the page
      defaults to login). A guest without a stored id is shown the app under `freshId`. */
  function Route(s: State, auth: AuthStatus, freshId: string): (r: (State, Screen))
    ensures s.guestMode.GetOr(false) ==>
              r.1 == GuestApp(s.guestUuid.GetOr(freshId), RenderMainApp(s).1) && r.0 == RenderMainApp(s).0
    ensures !s.guestMode.GetOr(false) && auth.LoggedIn? ==>
              var t := s.(view := SetDefault(s.view, DashboardView));
              && r.0.view == t.view
              && (t.view.value == DashboardView ==> r == (t, UserDashboard(auth.username)))
              && (t.view.value == WizardView ==> r == (RenderMainApp(t).0, UserApp(auth.username, RenderMainApp(t).1)))
    ensures !s.guestMode.GetOr(false) && !auth.LoggedIn? ==>
              var t := s.(page := SetDefault(s.page, LoginPage));
              && r.0 == t
              && (t.page.value == LoginPage ==> r.1 == LoginScreen(auth == LoginFailed))
              && (t.page.value == RegisterPage ==> r.1 == RegisterScreen)
  {
    if s.guestMode.GetOr(false) then
      var (t, step) := RenderMainApp(s);
      (t, GuestApp(s.guestUuid.GetOr(freshId), step))
    else if auth.LoggedIn? then
      var t := s.(view := SetDefault(s.view, DashboardView));
      if t.view.value == DashboardView then (t, UserDashboard(auth.username))
      else
        var (u, step) := RenderMainApp(t);
        (u, UserApp(auth.username, step))
    else
      var t := s.(page := SetDefault(s.page, LoginPage));
      match t.page.value
      case LoginPage => (t, LoginScreen(auth == LoginFailed))
      case RegisterPage => (t, RegisterScreen)
  }

  /** A guest never reaches the dashboard, whatever the authenticator says. */
  lemma GuestNeverSeesDashboard(s: State, auth: AuthStatus, freshId: string)
    requires s.guestMode.GetOr(false)
    ensures !Route(s, auth, freshId).1.UserDashboard?
    ensures !Route(s, auth, freshId).1.LoginScreen? && !Route(s, auth, freshId).1.RegisterScreen?
  {
  }

  /** "Continue as Guest": guest mode on under the new id, a full wizard reset, view wizard. */
  function EnterAsGuest(s: State, guestId: string): (t: State)
    ensures t.guestMode == Present(true) && t.guestUuid == Present(guestId)
    ensures t.view == Present(WizardView) && t.page == s.page
    ensures t.(view := s.view, guestMode := s.guestMode, guestUuid := s.guestUuid) == ResetWizard(s, true)
  {
    ResetWizard(s, true).(guestMode := Present(true), guestUuid := Present(guestId), view := Present(WizardView))
  }

  /** After entering as a guest, the router shows the upload step under the guest's id,
      whatever the authenticator's status. */
  lemma GuestStartsAtUpload(s: State, guestId: string, auth: AuthStatus, freshId: string)
    ensures Route(EnterAsGuest(s, guestId), auth, freshId).1 == GuestApp(guestId, UploadStep)
  {
  }

  /** "Not a member? Register here". */
  function GoToRegister(s: State): State {
    s.(page := Present(RegisterPage))
  }

  /** "Back to Login", and the page a successful registration returns to. */
  function BackToLogin(s: State): State {
    s.(page := Present(LoginPage))
  }

  /** For a visitor who is neither a guest nor logged in, the two page buttons switch the
      router between the registration form and the login form. */
  lemma PageButtonsSwitchForms(s: State, auth: AuthStatus, freshId: string)
    requires !s.guestMode.GetOr(false) && !auth.LoggedIn?
    ensures Route(GoToRegister(s), auth, freshId).1 == RegisterScreen
    ensures Route(BackToLogin(s), auth, freshId).1 == LoginScreen(auth == LoginFailed)
  {
  }

  /** The sidebar's "Start Over" and "Back to Dashboard" buttons: a full wizard reset and the
      dashboard view. */
  function ReturnToDashboard(s: State): (t: State)
    ensures t.view == Present(DashboardView)
    ensures t.(view := s.view) == ResetWizard(s, true)
  {
    ResetWizard(s, true).(view := Present(DashboardView))
  }
}
