/** The dashboard of a logged-in user: listing the knowledge bases found under `data/{user}`,
    their display names, and the "Create New", "Chat" and "Delete" buttons. The local
    directory tree is given as data: the entries of the user's directory, and the chat-history
    files of `Wizard.HistoryStore`. */
module Dashboard {
  import opened Prelude
  import opened Sanitize
  import opened Paths
  import opened Session
  import opened Wizard

  // ---------------------------------------------------------------------------------------------
  // get_user_kbs

  /** One entry of `os.listdir(f"data/{user}")`: its name and whether `{entry}/db` is a directory. */
  datatype DirEntry = DirEntry(name: string, hasDbDir: bool)

  /** The user's directory: `None` when it does not exist, else its entries in listing order. */
  type UserDir = Option<seq<DirEntry>>

  /** Reference definition of the filter: the names of the entries that hold a `db`
      directory, in listing order. */
  function KbNames(entries: seq<DirEntry>): seq<string> {
    if entries == [] then []
    else
      var last := entries[|entries| - 1];
      KbNames(entries[..|entries| - 1]) + (if last.hasDbDir then [last.name] else [])
  }

  /** A name is listed exactly when some entry of that name holds a `db` directory. */
  lemma {:induction false} KbNamesMembership(entries: seq<DirEntry>, name: string)
    ensures name in KbNames(entries) <==>
              exists i :: 0 <= i < |entries| && entries[i].name == name && entries[i].hasDbDir
    decreases |entries|
  {
    if entries != [] {
      var init := entries[..|entries| - 1];
      KbNamesMembership(init, name);
      if exists i :: 0 <= i < |init| && init[i].name == name && init[i].hasDbDir {
        var i :| 0 <= i < |init| && init[i].name == name && init[i].hasDbDir;
        assert entries[i] == init[i];
      }
      if exists i :: 0 <= i < |entries| && entries[i].name == name && entries[i].hasDbDir {
        var i :| 0 <= i < |entries| && entries[i].name == name && entries[i].hasDbDir;
        if i < |init| {
          assert init[i] == entries[i];
        }
      }
    }
  }

  /** The filter keeps listing order: the names of two runs of entries are the names of the
      first followed by those of the second. */
  lemma {:induction false} KbNamesAppend(a: seq<DirEntry>, b: seq<DirEntry>)
    ensures KbNames(a + b) == KbNames(a) + KbNames(b)
    decreases |b|
  {
    if b == [] {
      assert a + b == a;
    } else {
      var init := b[..|b| - 1];
      assert (a + b)[..|a + b| - 1] == a + init;
      KbNamesAppend(a, init);
    }
  }

  /** `get_user_kbs`: a missing user directory is created and nothing is listed; otherwise the
      names of the entries that hold a `db` directory, in listing order. The second result is
      the user's directory afterwards. */
  method GetUserKbs(dir: UserDir) returns (kbs: seq<string>, after: UserDir)
    ensures dir.None? ==> kbs == [] && after == Some([])
    ensures dir.Some? ==> after == dir && kbs == KbNames(dir.value)
    ensures forall i :: 0 <= i < |kbs| ==>
              exists j :: 0 <= j < |after.value| && after.value[j].name == kbs[i] && after.value[j].hasDbDir
  {
    if dir.None? {
      kbs, after := [], Some([]);
      assert |kbs| == 0;
      return;
    }
    var entries := dir.value;
    kbs := [];
    var k := 0;
    while k < |entries|
      invariant 0 <= k <= |entries|
      invariant kbs == KbNames(entries[..k])
    {
      assert entries[..k + 1][..k] == entries[..k];
      if entries[k].hasDbDir {
        kbs := kbs + [entries[k].name];
      }
      k := k + 1;
    }
    assert entries[..k] == entries;
    after := dir;
    forall i | 0 <= i < |kbs|
      ensures exists j :: 0 <= j < |after.value| && after.value[j].name == kbs[i] && after.value[j].hasDbDir
    {
      assert kbs[i] in KbNames(entries);
      KbNamesMembership(entries, kbs[i]);
    }
    assert forall i :: 0 <= i < |kbs| ==>
              exists j :: 0 <= j < |after.value| && after.value[j].name == kbs[i] && after.value[j].hasDbDir;
  }

  // ---------------------------------------------------------------------------------------------
  // Display names

  /** `str.title()` on ASCII: a letter that follows a letter is lower-cased, any other letter
      is upper-cased, and every other character is kept. */
  function Title(s: string): seq<char> {
    seq(|s|, i requires 0 <= i < |s| =>
      if i > 0 && IsAsciiLetter(s[i - 1]) then ToLower(s[i]) else ToUpper(s[i]))
  }

  /** `kb_name.replace("_", " ").title()`: the heading of one knowledge base. */
  function DisplayName(kb: string): (d: string)
    ensures |d| == |kb|
    ensures '_' !in d
    ensures forall i :: 0 <= i < |kb| && kb[i] == '_' ==> d[i] == ' '
    ensures forall i :: 0 <= i < |kb| && IsAsciiLetter(kb[i]) ==>
              IsAsciiLetter(d[i]) && ToLower(d[i]) == ToLower(kb[i])
    ensures forall i :: 0 <= i < |kb| && !IsAsciiLetter(kb[i]) && kb[i] != '_' ==> d[i] == kb[i]
  {
    Title(seq(|kb|, i requires 0 <= i < |kb| => if kb[i] == '_' then ' ' else kb[i]))
  }

  /** The display name of a folder the wizard created sanitises back to the folder name:
      a sanitised name is recovered from its heading. */
  lemma DisplayNameSanitizesBack(kb: string)
    requires AllSafe(kb)
    ensures SanitizeFilename(DisplayName(kb)) == kb
  {
    var d := DisplayName(kb);
    forall i | 0 <= i < |kb|
      ensures SanitizeFilename(d)[i] == kb[i]
    {
      SanitizePointwise(d, i);
    }
  }

  /** In a heading, each word starts with an upper-case letter and continues in lower case. */
  lemma DisplayNameWords(kb: string, i: int)
    requires 0 <= i < |kb| && IsAsciiLetter(kb[i])
    ensures i == 0 || !IsAsciiLetter(DisplayName(kb)[i - 1]) ==> IsAsciiUpper(DisplayName(kb)[i])
    ensures i > 0 && IsAsciiLetter(DisplayName(kb)[i - 1]) ==> IsAsciiLower(DisplayName(kb)[i])
  {
  }

  // ---------------------------------------------------------------------------------------------
  // Dashboard buttons

  /** "＋ Create New Knowledge Base": a full wizard reset and the wizard view. */
  function CreateNew(s: State): (t: State)
    ensures t.view == Present(WizardView)
    ensures t.(view := s.view) == ResetWizard(s, true)
  {
    ResetWizard(s, true).(view := Present(WizardView))
  }

  /** "Chat" on the card of `kb`. `storeLoads` says whether `load_vector_store` found the store
      under `data/{user}/{kb}/db`. When it did, the chain is built over that store, the saved
      history is restored, the display name and the folder name become the current names and
      the wizard opens at step 3; otherwise nothing changes. The upload buffers are untouched. */
  function LoadKnowledgeBase(s: State, user: string, kb: string, storeLoads: bool, store: HistoryStore)
    : (t: State)
    ensures !storeLoads ==> t == s
    ensures storeLoads ==>
              && t.ragChain == Present(Some(Chain(DbDir(user, kb))))
              && t.messages == Present(LoadChatHistory(store, user, kb))
              && t.currentKbName == Present(Some(DisplayName(kb)))
              && t.currentKbSanitizedName == Present(Some(kb))
              && t.wizardStep == Present(3)
              && t.view == Present(WizardView)
    ensures && t.uploadBuffer == s.uploadBuffer && t.savedFilePaths == s.savedFilePaths
            && t.page == s.page && t.guestMode == s.guestMode && t.guestUuid == s.guestUuid
  {
    if !storeLoads then s
    else
      s.(ragChain := Present(Some(Chain(DbDir(user, kb)))),
         messages := Present(LoadChatHistory(store, user, kb)),
         currentKbName := Present(Some(DisplayName(kb))),
         currentKbSanitizedName := Present(Some(kb)),
         wizardStep := Present(3),
         view := Present(WizardView))
  }

  /** After a successful load the router shows the chat step of the loaded knowledge base. */
  lemma LoadOpensChat(s: State, user: string, kb: string, store: HistoryStore, freshId: string)
    requires !s.guestMode.GetOr(false)
    ensures Route(LoadKnowledgeBase(s, user, kb, true, store), LoggedIn(user), freshId).1 == UserApp(user, ChatStep)
  {
  }

  /** "Delete" on the card of `kb`: `shutil.rmtree(os.path.join(f"data/{user}", kb))` when that
      directory exists. The entry leaves the user's listing, and every chat history stored
      anywhere inside that directory goes with it; every history outside it is kept. The S3
      copies and the session state are not touched. */
  function DeleteKnowledgeBase(entries: seq<DirEntry>, store: HistoryStore, user: string, kb: string)
    : (r: (seq<DirEntry>, HistoryStore))
    ensures |r.0| <= |entries|
    ensures forall i :: 0 <= i < |r.0| ==> r.0[i].name != kb && r.0[i] in entries
    ensures forall e :: e in entries && e.name != kb ==> e in r.0
    ensures forall p :: p in r.1 ==> !IsUnder(p, UserKbDir(user, kb))
    ensures forall p :: p in store && !IsUnder(p, UserKbDir(user, kb)) ==> p in r.1 && r.1[p] == store[p]
    ensures r.1.Keys <= store.Keys
  {
    (RemoveNamed(entries, kb), map p | p in store && !IsUnder(p, UserKbDir(user, kb)) :: store[p])
  }

  /** For a one-segment user name and a listed entry, the delete forgets the knowledge base's
      own chat history: reopening it afterwards starts an empty conversation. */
  lemma DeleteForgetsHistory(entries: seq<DirEntry>, store: HistoryStore, user: string, kb: string)
    requires user != [] && IsSegment(user) && kb != [] && IsSegment(kb)
    ensures LoadChatHistory(DeleteKnowledgeBase(entries, store, user, kb).1, user, kb) == []
  {
    UserKbDirIsKbDir(user, kb);
    assert IsDirName(kb);
    HistoryIsUnderKbDir(user, kb);
  }

  /** The delete is not confined to one user: the directory of `user`'s knowledge base `kb` is
      also the directory of the user named `user/kb`, so deleting it removes the history of
      every knowledge base of that user (user `a` deleting `b` removes the history of user
      `a/b`'s knowledge base `c`). Registration accepts such a username. */
  lemma DeleteReachesNestedUser(entries: seq<DirEntry>, store: HistoryStore, user: string, kb: string, c: string)
    requires user != [] && IsSegment(user) && kb != [] && IsSegment(kb) && c != [] && IsSegment(c)
    requires HistoryPath(user + "/" + kb, c) in store
    ensures IsUnder(HistoryPath(user + "/" + kb, c), UserKbDir(user, kb))
    ensures HistoryPath(user + "/" + kb, c) !in DeleteKnowledgeBase(entries, store, user, kb).1
  {
    UserKbDirIsKbDir(user, kb);
    var dir := KbDir(user, kb);
    assert IsDirName(c);
    HistoryPathShape(user + "/" + kb, c);
    var h := HistoryPath(user + "/" + kb, c);
    assert h == (dir + "/") + (c + "/chat_history.json");
    assert h[..|dir + "/"|] == dir + "/";
  }

  /** With plain user and knowledge-base names, as registration with the username check
      admits and as a directory listing yields, deleting one user's knowledge base keeps every
      chat history of every other knowledge base, the other users' included. */
  lemma DeleteKeepsOtherHistories(entries: seq<DirEntry>, store: HistoryStore, u1: string, k1: string,
                                  u2: string, k2: string)
    requires IsPlainSegment(u1) && IsPlainSegment(k1) && IsPlainSegment(u2) && IsPlainSegment(k2)
    requires (u1, k1) != (u2, k2)
    requires HistoryPath(u2, k2) in store
    ensures var after := DeleteKnowledgeBase(entries, store, u1, k1).1;
            HistoryPath(u2, k2) in after && after[HistoryPath(u2, k2)] == store[HistoryPath(u2, k2)]
  {
    UserKbDirIsKbDir(u1, k1);
    HistoryIsolation(u1, k1, u2, k2);
  }

  /** The entries whose name is not `kb`, in order. */
  function RemoveNamed(entries: seq<DirEntry>, kb: string): (r: seq<DirEntry>)
    ensures |r| <= |entries|
    ensures forall i :: 0 <= i < |r| ==> r[i].name != kb && r[i] in entries
    ensures forall e :: e in entries && e.name != kb ==> e in r
  {
    if entries == [] then []
    else
      var last := entries[|entries| - 1];
      var rest := RemoveNamed(entries[..|entries| - 1], kb);
      assert forall e :: e in entries ==> e in entries[..|entries| - 1] || e == last;
      if last.name == kb then rest else rest + [last]
  }

  /** Listing after a delete gives the names listed before with `kb` left out, in order. */
  lemma {:induction false} DeleteUnlists(entries: seq<DirEntry>, kb: string)
    ensures KbNames(RemoveNamed(entries, kb)) == RemoveName(KbNames(entries), kb)
    ensures kb !in KbNames(RemoveNamed(entries, kb))
    decreases |entries|
  {
    if entries != [] {
      var init := entries[..|entries| - 1];
      var last := entries[|entries| - 1];
      DeleteUnlists(init, kb);
      var rest := RemoveNamed(init, kb);
      if last.name != kb {
        assert (rest + [last])[..|rest + [last]| - 1] == rest;
        RemoveNameAppend(KbNames(init), if last.hasDbDir then [last.name] else [], kb);
      } else {
        RemoveNameAppend(KbNames(init), if last.hasDbDir then [last.name] else [], kb);
        assert RemoveName(if last.hasDbDir then [last.name] else [], kb) == [] by {
          if last.hasDbDir {
            assert [last.name][..0] == [];
          }
        }
      }
      RemoveNameHasNo(KbNames(init), kb);
    }
  }

  /** The names of a list other than `kb`, in order. */
  function RemoveName(names: seq<string>, kb: string): seq<string> {
    if names == [] then []
    else
      var rest := RemoveName(names[..|names| - 1], kb);
      if names[|names| - 1] == kb then rest else rest + [names[|names| - 1]]
  }

  lemma {:induction false} RemoveNameAppend(a: seq<string>, b: seq<string>, kb: string)
    ensures RemoveName(a + b, kb) == RemoveName(a, kb) + RemoveName(b, kb)
    decreases |b|
  {
    if b == [] {
      assert a + b == a;
    } else {
      var init := b[..|b| - 1];
      assert (a + b)[..|a + b| - 1] == a + init;
      RemoveNameAppend(a, init, kb);
    }
  }

  lemma {:induction false} RemoveNameHasNo(names: seq<string>, kb: string)
    ensures kb !in RemoveName(names, kb)
    decreases |names|
  {
    if names != [] {
      RemoveNameHasNo(names[..|names| - 1], kb);
    }
  }

  // ---------------------------------------------------------------------------------------------
  // A user's round trip

  /** A knowledge base a user created and chatted in is reopened from the dashboard with the
      conversation as it was: the chat turn saves under the sanitised name, and loading that
      name restores the saved messages over a chain on the same store. */
  lemma ChatIsRestoredOnReload(s: State, user: string, kbName: string, bucket: string, prompt: string,
                               reply: ChainReply, store: HistoryStore, later: State)
    requires s.uploadBuffer.Present? && CreateEnabled(s, kbName) && user != [] && prompt != []
    ensures var created := CreateKnowledgeBase(s, user, kbName, bucket, true).state;
            var chatted := ChatTurn(created, user, false, prompt, reply, store);
            var reopened := LoadKnowledgeBase(later, user, SanitizeFilename(kbName), true, chatted.store);
            && reopened.messages == chatted.state.messages
            && reopened.ragChain == created.ragChain
            && reopened.currentKbSanitizedName == created.currentKbSanitizedName
  {
    SanitizedNameIsNotBlank(kbName);
  }

  // ---------------------------------------------------------------------------------------------
  // The wizard step stays in range

  /** A written step is one of 1, 2 and 3. */
  predicate StepInRange(s: State) {
    s.wizardStep.Present? ==> 1 <= s.wizardStep.value <= 3
  }

  /** Every transition of the application keeps the wizard step in 1..3, so the dispatch's
      `else` branch is only ever reached with step 3. */
  lemma StepStaysInRange(s: State, clearChain: bool, uploads: seq<UploadedFile>, user: string, kbName: string,
                         bucket: string, buildSucceeds: bool, isGuest: bool, prompt: string, reply: ChainReply,
                         store: HistoryStore, storeLoads: bool, guestId: string)
    requires StepInRange(s)
    ensures StepInRange(InitWizardState(s)) && StepInRange(ResetWizard(s, clearChain))
    ensures StepInRange(SaveAndContinue(s, uploads)) && StepInRange(ClearUploads(s)) && StepInRange(BackToUpload(s))
    ensures s.uploadBuffer.Present? ==> StepInRange(CreateKnowledgeBase(s, user, kbName, bucket, buildSucceeds).state)
    ensures s.messages.Present? && s.ragChain.Present? && s.currentKbSanitizedName.Present? ==>
              StepInRange(ChatTurn(s, user, isGuest, prompt, reply, store).state)
    ensures StepInRange(LoadKnowledgeBase(s, user, kbName, storeLoads, store)) && StepInRange(CreateNew(s))
    ensures StepInRange(EnterAsGuest(s, guestId)) && StepInRange(ReturnToDashboard(s))
    ensures StepInRange(RenderMainApp(s).0)
    ensures RenderMainApp(s).1 == ChatStep ==> RenderMainApp(s).0.wizardStep == Present(3)
  {
  }

  // ---------------------------------------------------------------------------------------------
  // Each step finds the keys it reads

  /** A written step comes with the keys its screen reads: the chain, the messages and the
      sanitised name for any step (the chat step reads them), and the upload buffer for steps
      1 and 2. Only the dashboard's "Chat" reaches step 3 without writing the buffer. */
  predicate StepKeysWritten(s: State) {
    && (s.wizardStep.Present? ==>
          s.ragChain.Present? && s.messages.Present? && s.currentKbSanitizedName.Present?)
    && (s.wizardStep == Present(1) || s.wizardStep == Present(2) ==> s.uploadBuffer.Present?)
  }

  /** A new session holds the invariant; initialisation, the resets, the dispatch and the
      router keep it (a reset that keeps the chain only from a state with a written step). */
  lemma StepKeysAcrossResets(s: State, auth: AuthStatus, freshId: string)
    requires StepKeysWritten(s)
    ensures StepKeysWritten(Fresh)
    ensures StepKeysWritten(InitWizardState(s)) && StepKeysWritten(ResetWizard(s, true))
    ensures s.wizardStep.Present? ==> StepKeysWritten(ResetWizard(s, false))
    ensures StepKeysWritten(RenderMainApp(s).0) && StepKeysWritten(Route(s, auth, freshId).0)
  {
  }

  /** The upload step's buttons, pressed at a written step, and "Back" in the process step
      keep the invariant. */
  lemma StepKeysAcrossUpload(s: State, uploads: seq<UploadedFile>)
    requires StepKeysWritten(s)
    ensures s.wizardStep.Present? ==> StepKeysWritten(SaveAndContinue(s, uploads))
    ensures StepKeysWritten(ClearUploads(s))
    ensures s.wizardStep == Present(2) ==> StepKeysWritten(BackToUpload(s))
  {
  }

  /** A create with a written buffer and a chat turn with its keys written keep the invariant. */
  lemma StepKeysAcrossProcessAndChat(s: State, user: string, kbName: string, bucket: string, buildSucceeds: bool,
                                     isGuest: bool, prompt: string, reply: ChainReply, store: HistoryStore)
    requires StepKeysWritten(s)
    ensures s.uploadBuffer.Present? ==> StepKeysWritten(CreateKnowledgeBase(s, user, kbName, bucket, buildSucceeds).state)
    ensures s.messages.Present? && s.ragChain.Present? && s.currentKbSanitizedName.Present? ==>
              StepKeysWritten(ChatTurn(s, user, isGuest, prompt, reply, store).state)
  {
  }

  /** The dashboard's and the sidebar's buttons keep the invariant from any state. */
  lemma StepKeysAcrossDashboard(s: State, user: string, kb: string, storeLoads: bool, store: HistoryStore,
                                guestId: string)
    requires StepKeysWritten(s)
    ensures StepKeysWritten(LoadKnowledgeBase(s, user, kb, storeLoads, store)) && StepKeysWritten(CreateNew(s))
    ensures StepKeysWritten(EnterAsGuest(s, guestId)) && StepKeysWritten(ReturnToDashboard(s))
  {
  }

  /** Under the invariant, the step `render_main_app` dispatches to finds every key it reads:
      the buffer for the upload and process steps, and the messages, the chain and the
      sanitised name for the chat step. So the requirements of `CreateKnowledgeBase` and
      `ChatTurn` hold whenever the router shows their step. */
  lemma DispatchedStepHasItsKeys(s: State)
    requires StepKeysWritten(s)
    ensures var (t, step) := RenderMainApp(s);
            && (step == UploadStep || step == ProcessStep ==> t.uploadBuffer.Present?)
            && (step == ChatStep ==> t.messages.Present? && t.ragChain.Present? && t.currentKbSanitizedName.Present?)
  {
  }
}
