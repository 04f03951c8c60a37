/** The registration form of the login page: its ordered checks, and the credentials entry a
    successful registration adds to the configuration. Reading and writing the configuration
    file (`load_config`, `save_config`) is not modelled; the configuration is a value, and
    the bcrypt hash of the password is an input. */
module Registration {
  import opened Prelude
  import opened Auth
  import opened Session
  import opened Paths
  import Wizard
  import Dashboard

  /** The five text inputs of the form. */
  datatype Form = Form(fullName: string, email: string, username: string, password: string, confirm: string)

  /** `config["credentials"]["usernames"]`, either level of which may be missing. Only the
      part of the configuration registration reads and writes is kept. */
  datatype Config = Config(credentials: Slot<CredentialsSection>)

  datatype CredentialsSection = CredentialsSection(usernames: Slot<map<string, UserRecord>>)

  /** `config.get("credentials", {}).get("usernames", {})`. */
  function RegisteredUsers(config: Config): map<string, UserRecord> {
    if config.credentials.Absent? then map[] else config.credentials.value.usernames.GetOr(map[])
  }

  /** The message a submission ends with. */
  datatype RegisterResult = MissingField | PasswordMismatch | UsernameTaken | Registered | InvalidUsername

  /** The result, the configuration afterwards and the session state afterwards. */
  datatype RegisterOutcome = RegisterOutcome(result: RegisterResult, config: Config, state: State)

  predicate AllFilled(f: Form) {
    f.fullName != [] && f.email != [] && f.username != [] && f.password != [] && f.confirm != []
  }

  /** "Create account". The checks run in order: any empty field, then differing passwords,
      then a username already in the credentials. Only a submission that passes all three
      adds an entry (email, full name and hash) under its username, keeps every other entry,
      and returns to the login page; a failing one changes nothing. */
  function Register(s: State, config: Config, f: Form, hashed: string): (r: RegisterOutcome)
    ensures r.result == MissingField <==> !AllFilled(f)
    ensures r.result == PasswordMismatch <==> AllFilled(f) && f.password != f.confirm
    ensures r.result == UsernameTaken <==>
              AllFilled(f) && f.password == f.confirm && f.username in RegisteredUsers(config)
    ensures r.result == Registered <==>
              AllFilled(f) && f.password == f.confirm && f.username !in RegisteredUsers(config)
    ensures r.result != Registered ==> r.config == config && r.state == s
    ensures r.result == Registered ==>
              && RegisteredUsers(r.config) == RegisteredUsers(config)[f.username := UserRecord(f.email, f.fullName, hashed)]
              && r.state == s.(page := Present(LoginPage))
  {
    if !AllFilled(f) then RegisterOutcome(MissingField, config, s)
    else if f.password != f.confirm then RegisterOutcome(PasswordMismatch, config, s)
    else if f.username in RegisteredUsers(config) then RegisterOutcome(UsernameTaken, config, s)
    else RegisterOutcome(Registered, AddUser(config, f.username, UserRecord(f.email, f.fullName, hashed)), BackToLogin(s))
  }

  /** `config.setdefault("credentials", {}).setdefault("usernames", {})[username] = record`. */
  function AddUser(config: Config, username: string, record: UserRecord): (c: Config)
    ensures RegisteredUsers(c) == RegisteredUsers(config)[username := record]
  {
    var section := config.credentials.GetOr(CredentialsSection(Absent));
    var users := section.usernames.GetOr(map[]);
    Config(Present(section.(usernames := Present(users[username := record]))))
  }

  /** A successful registration adds exactly one username: the new one, absent before. */
  lemma RegisterAddsOneUser(s: State, config: Config, f: Form, hashed: string)
    requires Register(s, config, f, hashed).result == Registered
    ensures var after := RegisteredUsers(Register(s, config, f, hashed).config);
            && after.Keys == RegisteredUsers(config).Keys + {f.username}
            && f.username !in RegisteredUsers(config)
            && |after.Keys| == |RegisteredUsers(config).Keys| + 1
            && forall u :: u in RegisteredUsers(config) ==> u in after && after[u] == RegisteredUsers(config)[u]
  {
  }

  /** Once a username is registered, any further well-formed submission for it is refused
      as taken, so an entry is never overwritten through the form. */
  lemma RegisterTwiceIsTaken(s: State, config: Config, f: Form, hashed: string, s': State, g: Form, hashed': string)
    requires Register(s, config, f, hashed).result == Registered
    requires AllFilled(g) && g.password == g.confirm && g.username == f.username
    ensures Register(s', Register(s, config, f, hashed).config, g, hashed').result == UsernameTaken
  {
  }

  /** After a successful registration the router shows the login form. */
  lemma RegisteredUserSeesLogin(s: State, config: Config, f: Form, hashed: string, auth: AuthStatus, freshId: string)
    requires Register(s, config, f, hashed).result == Registered
    requires !s.guestMode.GetOr(false) && !auth.LoggedIn?
    ensures Route(Register(s, config, f, hashed).state, auth, freshId).1.LoginScreen?
  {
  }

  /** Registration with a username check: after the empty-field and password checks, a
      username containing `/`, or one that is `.` or `..`, is refused and nothing changes; any
      other submission is handled as `Register` handles it. */
  function RegisterChecked(s: State, config: Config, f: Form, hashed: string): (r: RegisterOutcome)
    ensures r.result == InvalidUsername <==> AllFilled(f) && f.password == f.confirm && !IsPlainSegment(f.username)
    ensures r.result == InvalidUsername ==> r.config == config && r.state == s
    ensures r.result != InvalidUsername ==> r == Register(s, config, f, hashed)
  {
    if AllFilled(f) && f.password == f.confirm && !IsPlainSegment(f.username) then RegisterOutcome(InvalidUsername, config, s)
    else Register(s, config, f, hashed)
  }

  /** Every registered username is a plain path segment. */
  predicate SegmentUsernames(config: Config) {
    forall u :: u in RegisteredUsers(config) ==> IsPlainSegment(u)
  }

  /** The checked registration keeps every registered username a plain segment. */
  lemma RegisterCheckedKeepsSegments(s: State, config: Config, f: Form, hashed: string)
    requires SegmentUsernames(config)
    ensures SegmentUsernames(RegisterChecked(s, config, f, hashed).config)
  {
  }

  /** Under the checked registration, deleting one registered user's knowledge base keeps the
      chat history of every other registered user. */
  lemma CheckedUsersDeleteOnlyOwn(config: Config, entries: seq<Dashboard.DirEntry>, store: Wizard.HistoryStore,
                                  u1: string, k1: string, u2: string, k2: string)
    requires SegmentUsernames(config)
    requires u1 in RegisteredUsers(config) && u2 in RegisteredUsers(config) && u1 != u2
    requires IsPlainSegment(k1) && IsPlainSegment(k2) && HistoryPath(u2, k2) in store
    ensures var after := Dashboard.DeleteKnowledgeBase(entries, store, u1, k1).1;
            HistoryPath(u2, k2) in after && after[HistoryPath(u2, k2)] == store[HistoryPath(u2, k2)]
  {
    Dashboard.DeleteKeepsOtherHistories(entries, store, u1, k1, u2, k2);
  }

  /** Under the registration as written, the username `a/b` is accepted whenever the form is
      filled, the passwords match and the name is free. */
  lemma NestedUsernameIsAccepted(s: State, config: Config, f: Form, hashed: string)
    requires AllFilled(f) && f.password == f.confirm && f.username == "a/b"
    requires "a/b" !in RegisteredUsers(config)
    ensures Register(s, config, f, hashed).result == Registered
    ensures !IsSegment(f.username)
  {
    assert f.username[1] == '/';
  }

  /** The registration as written accepts the username `..`, whose delete of knowledge base
      `data` names the directory `data/../data`, the parent of every user's tree; the checked
      registration refuses it, and `.` likewise. */
  lemma DotUsernamesAreRefused(s: State, config: Config, f: Form, hashed: string)
    requires AllFilled(f) && f.password == f.confirm && (f.username == "." || f.username == "..")
    ensures f.username !in RegisteredUsers(config) ==> Register(s, config, f, hashed).result == Registered
    ensures f.username == ".." ==> UserKbDir(f.username, "data") == "data/../data"
    ensures RegisterChecked(s, config, f, hashed).result == InvalidUsername
    ensures RegisterChecked(s, config, f, hashed).config == config
  {
  }
}
