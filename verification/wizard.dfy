/** The three wizard steps: Upload (buffer the chosen files), Process (store the files and build
    the knowledge base) and Chat (one question and answer per turn, persisted for users).
    File and network effects are returned as data: the S3 puts, local copies and manifest a
    create performs, and the chat-history files a turn writes. */
module Wizard {
  import opened Prelude
  import opened Sanitize
  import opened Paths
  import opened Session
  import S3Utils

  // ---------------------------------------------------------------------------------------------
  // Step 1: Upload

  /** A file from the uploader widget. Only its name and bytes reach the buffer. */
  datatype UploadedFile = UploadedFile(name: string, mimeType: string, data: seq<Byte>)

  /** "Save & Continue": enabled only when files are selected; it replaces the buffer with the
      files' (name, data) pairs in order and moves to step 2. Nothing else changes. */
  function SaveAndContinue(s: State, uploads: seq<UploadedFile>): (t: State)
    ensures uploads == [] ==> t == s
    ensures uploads != [] ==>
              && t.wizardStep == Present(2)
              && t.uploadBuffer.Present? && |t.uploadBuffer.value| == |uploads|
              && (forall i :: 0 <= i < |uploads| ==>
                    t.uploadBuffer.value[i] == Upload(uploads[i].name, uploads[i].data))
    ensures t.(wizardStep := s.wizardStep, uploadBuffer := s.uploadBuffer) == s
  {
    if uploads == [] then s
    else
      var buffer := seq(|uploads|, i requires 0 <= i < |uploads| => Upload(uploads[i].name, uploads[i].data));
      s.(uploadBuffer := Present(buffer), wizardStep := Present(2))
  }

  /** "Clear": empties the buffer and leaves the step, and everything else, as it was. */
  function ClearUploads(s: State): (t: State)
    ensures t.uploadBuffer == Present([])
    ensures t.(uploadBuffer := s.uploadBuffer) == s
  {
    s.(uploadBuffer := Present([]))
  }

  // ---------------------------------------------------------------------------------------------
  // Step 2: Process

  /** Both "← Back" buttons of the process step (with or without buffered files): step 1,
      nothing else changes. */
  function BackToUpload(s: State): (t: State)
    ensures t.wizardStep == Present(1)
    ensures t.(wizardStep := s.wizardStep) == s
  {
    s.(wizardStep := Present(1))
  }

  /** What "Create Knowledge Base" writes before building the vector store: the directory it
      creates, one S3 put and one local copy per buffered file, the manifest of file names, and
      the directory the vector store is persisted in. */
  datatype CreatePlan = CreatePlan(
    baseDir: string,
    uploads: seq<S3Utils.PutRequest>,
    localPaths: seq<string>,
    manifestPath: string,
    manifest: seq<string>,
    dbDir: string)

  function PlanFor(user: string, dir: string, bucket: string, buffer: seq<Upload>): (plan: CreatePlan)
    ensures plan.baseDir == KbDir(user, dir) && plan.dbDir == DbDir(user, dir)
    ensures plan.manifestPath == ManifestPath(user, dir)
    ensures |plan.uploads| == |buffer| && |plan.localPaths| == |buffer| && |plan.manifest| == |buffer|
    ensures forall i :: 0 <= i < |buffer| ==>
              && plan.uploads[i] == S3Utils.PutRequest(bucket, S3ObjectKey(user, dir, buffer[i].name), buffer[i].data, None)
              && plan.localPaths[i] == TempDocPath(user, dir, buffer[i].name)
              && plan.manifest[i] == buffer[i].name
  {
    CreatePlan(
      KbDir(user, dir),
      seq(|buffer|, i requires 0 <= i < |buffer| => S3Utils.PutRequest(bucket, S3ObjectKey(user, dir, buffer[i].name), buffer[i].data, None)),
      seq(|buffer|, i requires 0 <= i < |buffer| => TempDocPath(user, dir, buffer[i].name)),
      ManifestPath(user, dir),
      seq(|buffer|, i requires 0 <= i < |buffer| => buffer[i].name),
      DbDir(user, dir))
  }

  /** Every file of a create lands in the knowledge base's S3 folder, under its own name. */
  lemma PlanKeysInKbFolder(user: string, kbName: string, bucket: string, buffer: seq<Upload>, i: int)
    requires 0 <= i < |buffer|
    ensures var key := PlanFor(user, SanitizeFilename(kbName), bucket, buffer).uploads[i].key;
            var prefix := KbPrefix(user, SanitizeFilename(kbName));
            && |prefix| <= |key| && key[..|prefix|] == prefix && key[|prefix|..] == buffer[i].name
  {
  }

  /** The loop of a create over its puts: one `upload_file_to_s3` after another, each one's
      result ignored, so a failed put neither stops the loop nor is reported. */
  function UploadAll(store: S3Utils.ObjectStore, puts: seq<S3Utils.PutRequest>,
                     putRaises: S3Utils.PutRequest -> bool): (after: S3Utils.ObjectStore)
    ensures store.Keys <= after.Keys
    ensures forall k :: k in after && k !in store ==> exists j :: 0 <= j < |puts| && puts[j].key == k
  {
    if puts == [] then store
    else
      var last := puts[|puts| - 1];
      var before := UploadAll(store, puts[..|puts| - 1], putRaises);
      assert forall j :: 0 <= j < |puts| - 1 ==> puts[..|puts| - 1][j] == puts[j];
      S3Utils.UploadFile(before, last.body, last.bucket, last.key, putRaises).1
  }

  /** A put without a content type that did not raise, and is the last put to its key, leaves
      its body under that key. */
  lemma {:induction false} UploadAllStores(store: S3Utils.ObjectStore, puts: seq<S3Utils.PutRequest>,
                                           putRaises: S3Utils.PutRequest -> bool, i: int)
    requires forall j :: 0 <= j < |puts| ==> puts[j].contentType == None
    requires 0 <= i < |puts| && !putRaises(puts[i])
    requires forall j :: i < j < |puts| ==> puts[j].key != puts[i].key
    ensures var after := UploadAll(store, puts, putRaises);
            puts[i].key in after && after[puts[i].key] == puts[i].body
    decreases |puts|
  {
    var init := puts[..|puts| - 1];
    var last := puts[|puts| - 1];
    assert last == S3Utils.PutRequest(last.bucket, last.key, last.body, None);
    if i < |puts| - 1 {
      assert init[i] == puts[i];
      UploadAllStores(store, init, putRaises, i);
    }
  }

  /** An object under a key no put names is kept as it was. */
  lemma {:induction false} UploadAllKeepsOthers(store: S3Utils.ObjectStore, puts: seq<S3Utils.PutRequest>,
                                                putRaises: S3Utils.PutRequest -> bool, k: string)
    requires k in store && forall j :: 0 <= j < |puts| ==> puts[j].key != k
    ensures var after := UploadAll(store, puts, putRaises);
            k in after && after[k] == store[k]
    decreases |puts|
  {
    if puts != [] {
      UploadAllKeepsOthers(store, puts[..|puts| - 1], putRaises, k);
    }
  }

  /** After the puts of a create, none raising, each buffered file that is the last one with
      its name is stored in the knowledge base's folder under that name with its bytes. */
  lemma CreateStoresFiles(store: S3Utils.ObjectStore, user: string, dir: string, bucket: string,
                          buffer: seq<Upload>, puts: seq<S3Utils.PutRequest>, putRaises: S3Utils.PutRequest -> bool,
                          i: int)
    requires puts == PlanFor(user, dir, bucket, buffer).uploads
    requires 0 <= i < |buffer| && forall j :: 0 <= j < |buffer| ==> buffer[j].name != buffer[i].name || j <= i
    requires forall j :: 0 <= j < |puts| ==> !putRaises(puts[j])
    ensures var after := UploadAll(store, puts, putRaises);
            S3ObjectKey(user, dir, buffer[i].name) in after && after[S3ObjectKey(user, dir, buffer[i].name)] == buffer[i].data
  {
    forall j | i < j < |puts|
      ensures puts[j].key != puts[i].key
    {
      if puts[j].key == puts[i].key {
        S3ObjectKeyInjective(user, dir, buffer[j].name, buffer[i].name);
      }
    }
    UploadAllStores(store, puts, putRaises, i);
  }

  /** The create button is shown only with a non-empty buffer and is enabled only for a name
      that is not all whitespace (`kb_name.strip()`). */
  predicate CreateEnabled(s: State, kbName: string)
    requires s.uploadBuffer.Present?
  {
    s.uploadBuffer.value != [] && !IsBlank(kbName)
  }

  datatype CreateOutcome = CreateOutcome(state: State, plan: Option<CreatePlan>)

  /** "Create Knowledge Base" in `step_process`. The files are put to S3 under
      `{user}/{sanitised}/{name}`, copied locally and listed in the manifest; the saved paths
      are stored before the vector store is built. `buildSucceeds` says whether building the
      store and the chain returned (an exception there leaves the rest of the state as it was).
      On success the chat starts empty on a chain over the new store, the names are the raw and
      the sanitised input, and the wizard moves to step 3. The upload buffer is kept. */
  function CreateKnowledgeBase(s: State, user: string, kbName: string, bucket: string, buildSucceeds: bool)
    : (r: CreateOutcome)
    requires s.uploadBuffer.Present?
    ensures r.plan.Some? <==> CreateEnabled(s, kbName)
    ensures !CreateEnabled(s, kbName) ==> r.state == s
    ensures CreateEnabled(s, kbName) ==>
              && r.plan.value == PlanFor(user, SanitizeFilename(kbName), bucket, s.uploadBuffer.value)
              && r.state.savedFilePaths == Present(r.plan.value.localPaths)
    ensures CreateEnabled(s, kbName) && buildSucceeds ==>
              && r.state.wizardStep == Present(3)
              && r.state.ragChain == Present(Some(Chain(DbDir(user, SanitizeFilename(kbName)))))
              && r.state.messages == Present([])
              && r.state.currentKbName == Present(Some(kbName))
              && r.state.currentKbSanitizedName == Present(Some(SanitizeFilename(kbName)))
    ensures CreateEnabled(s, kbName) && !buildSucceeds ==> r.state == s.(savedFilePaths := r.state.savedFilePaths)
    ensures r.state.uploadBuffer == s.uploadBuffer && SameOutsideWizard(s, r.state)
  {
    if !CreateEnabled(s, kbName) then CreateOutcome(s, None)
    else
      var dir := SanitizeFilename(kbName);
      var plan := PlanFor(user, dir, bucket, s.uploadBuffer.value);
      var saved := s.(savedFilePaths := Present(plan.localPaths));
      if !buildSucceeds then CreateOutcome(saved, Some(plan))
      else
        CreateOutcome(
          saved.(ragChain := Present(Some(Chain(plan.dbDir))), messages := Present([]),
                 currentKbName := Present(Some(kbName)), currentKbSanitizedName := Present(Some(dir)),
                 wizardStep := Present(3)),
          Some(plan))
  }

  /** A name that is not blank stays not blank once sanitised, so it yields a usable directory. */
  lemma SanitizedNameIsNotBlank(kbName: string)
    requires !IsBlank(kbName)
    ensures !IsBlank(SanitizeFilename(kbName)) && IsDirName(SanitizeFilename(kbName))
  {
    var i :| 0 <= i < |kbName| && !IsSpace(kbName[i]);
    var r := SanitizeFilename(kbName);
    assert IsSafe(r[0]);
    SanitizedIsDirName(kbName);
  }

  /** Creating from a raw name or from its sanitised form writes the same S3 keys, local
      files and manifest, and builds the chain over the same store. */
  lemma CreateNamespaceDeterminism(s: State, user: string, kbName: string, bucket: string, buildSucceeds: bool)
    requires s.uploadBuffer.Present? && CreateEnabled(s, kbName)
    ensures CreateEnabled(s, SanitizeFilename(kbName))
    ensures CreateKnowledgeBase(s, user, SanitizeFilename(kbName), bucket, buildSucceeds).plan
         == CreateKnowledgeBase(s, user, kbName, bucket, buildSucceeds).plan
    ensures CreateKnowledgeBase(s, user, SanitizeFilename(kbName), bucket, buildSucceeds).state.ragChain
         == CreateKnowledgeBase(s, user, kbName, bucket, buildSucceeds).state.ragChain
  {
    SanitizedNameIsNotBlank(kbName);
    SanitizeIdempotent(kbName);
  }

  // ---------------------------------------------------------------------------------------------
  // Step 3: Chat

  /** The local chat-history files: path to the stored message list. */
  type HistoryStore = map<string, seq<Message>>

  /** `save_chat_history`: nothing happens when the username or the knowledge-base name is
      empty or `None`; otherwise the messages replace the file's content. */
  function SaveChatHistory(store: HistoryStore, user: string, kbName: Option<string>, messages: seq<Message>)
    : (t: HistoryStore)
    ensures user == [] || kbName.GetOr([]) == [] ==> t == store
    ensures user != [] && kbName.GetOr([]) != [] ==>
              && t.Keys == store.Keys + {HistoryPath(user, kbName.value)}
              && t[HistoryPath(user, kbName.value)] == messages
              && forall p :: p in store && p != HistoryPath(user, kbName.value) ==> t[p] == store[p]
  {
    if user == [] || kbName.GetOr([]) == [] then store
    else store[HistoryPath(user, kbName.value) := messages]
  }

  /** `load_chat_history`: the stored list, or `[]` when there is no file. */
  function LoadChatHistory(store: HistoryStore, user: string, kbName: string): (r: seq<Message>)
    ensures HistoryPath(user, kbName) !in store ==> r == []
    ensures HistoryPath(user, kbName) in store ==> r == store[HistoryPath(user, kbName)]
  {
    if HistoryPath(user, kbName) in store then store[HistoryPath(user, kbName)] else []
  }

  /** What is saved for a user and a knowledge base is what is loaded back. */
  lemma HistoryRoundTrip(store: HistoryStore, user: string, kbName: string, messages: seq<Message>)
    requires user != [] && kbName != []
    ensures LoadChatHistory(SaveChatHistory(store, user, Some(kbName), messages), user, kbName) == messages
  {
  }

  /** How the chain's `invoke` went: an answer dictionary (its `answer` entry, `None` when the
      key is missing) or an exception, which ends the turn. */
  datatype ChainReply = Answered(answer: Option<string>) | Raised

  datatype ChatOutcome = ChatOutcome(state: State, store: HistoryStore)

  /** Whether one chat turn appends the assistant's answer: only with a chain that answered. */
  predicate AnswerAppended(s: State, reply: ChainReply)
    requires s.ragChain.Present?
  {
    s.ragChain.value.Some? && reply.Answered?
  }

  /** The history file a turn may write: that of the current knowledge base, if one is named. */
  function CurrentHistory(s: State, user: string): set<string>
    requires s.currentKbSanitizedName.Present?
  {
    if s.currentKbSanitizedName.value.Some? then {HistoryPath(user, s.currentKbSanitizedName.value.value)} else {}
  }

  /** One chat turn of `step_chat`. An empty prompt is no submission. Otherwise the user's
      message is appended first; the assistant's message follows only when a chain exists and
      answered, so the history grows by one or two messages. A user's history is saved after
      each append, a guest's never. */
  function ChatTurn(s: State, user: string, isGuest: bool, prompt: string, reply: ChainReply,
                    store: HistoryStore): (r: ChatOutcome)
    requires s.messages.Present? && s.ragChain.Present? && s.currentKbSanitizedName.Present?
    ensures prompt == [] ==> r == ChatOutcome(s, store)
    ensures prompt != [] ==>
              var before := s.messages.value;
              && r.state.messages.Present?
              && var after := r.state.messages.value;
              && |after| == |before| + (if AnswerAppended(s, reply) then 2 else 1)
              && after[..|before|] == before
              && after[|before|] == Message(User, prompt)
              && (AnswerAppended(s, reply) ==> after[|before| + 1] == Message(Assistant, reply.answer.GetOr([])))
    ensures r.state == s.(messages := r.state.messages)
    ensures isGuest ==> r.store == store
    ensures !isGuest && prompt != [] && user != [] && s.currentKbSanitizedName.value.GetOr([]) != [] ==>
              LoadChatHistory(r.store, user, s.currentKbSanitizedName.value.value) == r.state.messages.value
    ensures user == [] || s.currentKbSanitizedName.value.GetOr([]) == [] ==> r.store == store
    ensures r.store.Keys <= store.Keys + CurrentHistory(s, user)
    ensures forall p :: p in store && p !in CurrentHistory(s, user) ==> p in r.store && r.store[p] == store[p]
  {
    if prompt == [] then ChatOutcome(s, store)
    else
      var kb := s.currentKbSanitizedName.value;
      var asked := s.messages.value + [Message(User, prompt)];
      var store1 := if isGuest then store else SaveChatHistory(store, user, kb, asked);
      if !AnswerAppended(s, reply) then ChatOutcome(s.(messages := Present(asked)), store1)
      else
        var answered := asked + [Message(Assistant, reply.answer.GetOr([]))];
        var store2 := if isGuest then store1 else SaveChatHistory(store1, user, kb, answered);
        ChatOutcome(s.(messages := Present(answered)), store2)
  }
}
