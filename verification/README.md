# ChatMyDocs: a Dafny model of the knowledge-base lifecycle and wizard

ChatMyDocs is a Streamlit application. A visitor logs in, registers, or continues as a guest. They
upload documents and turn them into a named knowledge base. Then they chat with it through a
retrieval chain. This project models the deterministic logic around that flow:

- **Name sanitisation** turns a knowledge-base name into a directory name, `sanitize_filename`
  (`sanitize.dfy`).
- **Storage locations** are derived from the owner and the sanitised name: the local tree
  `data/{user}/{kb}` with `db`, `temp_docs`, `source_documents.json` and `chat_history.json`,
  and the S3 keys `{user}/{kb}/{file}` (`paths.dfy`).
- **The session state** is the Streamlit `session_state` dictionary (`session.dfy`). Each key is
  a `Slot`, so a key that was never written differs from one holding `None`. This module also
  holds wizard initialisation and reset, the progress bullets, the step dispatch of
  `render_main_app`, the application router, and the guest, login-page and sidebar buttons.
- **The three wizard steps** are Upload, Process and Chat (`wizard.dfy`). A create returns what it
  writes as data: the S3 puts, the local copies, the manifest and the store directory. Chat
  histories are a map from file path to messages.
- **The dashboard** covers `get_user_kbs`, the display name of each knowledge base, and the
  Create New, Chat and Delete buttons (`dashboard.dfy`).
- **The registration form** covers the ordered checks and the credentials entry a successful
  registration adds (`registration.dfy`).
- **The S3 helpers** are modelled in `s3_utils.dfy`: prefix normalisation, folder extraction from
  paginated listings, the key list of a folder delete, and the True/False/None conventions of the
  put and get wrappers. A small object-store model states what a save, a load and a delete do to
  a bucket's contents.
- **The DynamoDB credentials** fold and the new-user write are in `auth.dfy`.

Every external effect becomes an input: S3, DynamoDB, the vector store, the chain's answers, the
file system and uuid. An AWS call that raises `ClientError` is one of the values an input can
take; the other exceptions these calls can raise are not modelled (see "Left out").

Each knowledge base lives under `data/{user}/{sanitized}` locally and under `{user}/{sanitized}/`
in S3. The dashboard's Delete removes only the local directory: it does not call
`delete_folder_from_s3`.

## Model

| member | source | states |
|---|---|---|
| Sanitize.ReplaceDisallowed | app.py:32 | the substitution keeps the length, keeps every character of `[a-zA-Z0-9_-]` in place and turns every other character into exactly one `_` |
| Sanitize.LowerAll | app.py:32 | lower-casing keeps the length and lower-cases each character in place |
| Sanitize.SanitizeFilename | app.py:30-32 | the sanitised name has the input's length and only characters of `[a-z0-9_-]` |
| Sanitize.SanitizePointwise | app.py:30-32 | position by position: an allowed character becomes its lower-case form, any other becomes `_` |
| Sanitize.SanitizeFixedPoints | app.py:30-32 | a name is unchanged by sanitisation exactly when it is made of `[a-z0-9_-]` |
| Sanitize.SanitizeIdempotent | app.py:30-32 | sanitising twice equals sanitising once |
| Sanitize.SanitizeHasNoSlash | app.py:30-32 | a sanitised name contains no `/`, so it is one path component |
| Sanitize.SanitizeMerges | app.py:30-32 | "My KB" and "my_kb" sanitise to the same "my_kb", so sanitisation is not injective |
| Paths.Join | app.py:179 | `os.path.join` of two parts: the second part is a suffix of the result; the first is a prefix unless the second is absolute, and then the result is the second part |
| Paths.S3ObjectKey | app.py:176 | the S3 key of an upload is the knowledge-base prefix `{user}/{kb}/` followed by the file name |
| Paths.SanitizedIsDirName | app.py:166-167 | a non-empty name sanitises to a non-empty directory name that does not end with `/` |
| Paths.DerivedPathsUnderKbDir | app.py:186-190 | the store, manifest and history paths are the knowledge-base directory, one `/`, and `db`, `source_documents.json` or `chat_history.json` |
| Paths.JoinUnderKbDir | app.py:38 | joining a relative file name to a knowledge-base directory inserts exactly one `/` |
| Paths.TempDocPathShape | app.py:179 | a relative upload name is copied to `{kbdir}/temp_docs/{name}`; an absolute one replaces the whole path |
| Paths.NamespaceDeterminism | app.py:166-176 | deriving the directory and S3 keys from a name or from its sanitised form gives the same locations |
| Paths.S3ObjectKeyInjective | app.py:176 | within one knowledge base, distinct file names get distinct S3 keys |
| Paths.UserKbDirIsKbDir | app.py:327 | for a one-segment user name and a listed entry, the directory the delete removes is the knowledge base's own directory |
| Paths.HistoryIsUnderKbDir | app.py:38 | a knowledge base's chat history lies inside its own directory |
| Paths.HistoryIsolation | app.py:35-38 | with plain user and knowledge-base names (non-empty, no `/`, neither `.` nor `..`), the history file of one pair lies inside the directory of another exactly when the pairs are equal |
| S3Utils.NormalizePrefix | s3_utils.py:70-71 | the prefix ends with `/`; it is unchanged if it already did, else exactly one `/` is appended |
| S3Utils.NormalizePrefixIdempotent | s3_utils.py:70-71 | normalising twice equals normalising once |
| S3Utils.TrimLeftIsSuffix | s3_utils.py:81 | `lstrip('/')` removes exactly the leading run of slashes |
| S3Utils.TrimRightIsPrefix | s3_utils.py:81 | `rstrip('/')` removes exactly the trailing run of slashes |
| S3Utils.LastSegmentIsLastPart | s3_utils.py:81 | `split('/')[-1]` is the suffix after the last `/`: it holds no `/`, and a `/` precedes it unless it is the whole string |
| S3Utils.FolderNameHasNoSlash | s3_utils.py:81 | a folder name extracted by `FolderName` (`strip('/').split('/')[-1]`) never contains `/` |
| S3Utils.TrimLeftAppend | s3_utils.py:81 | stripping leading slashes of `q + k` only touches `q` when `k` does not start with `/` |
| S3Utils.LastSegmentAppend | s3_utils.py:81 | the last segment of a slash-terminated prefix followed by a slash-free `k` is `k` |
| S3Utils.FolderNameOfChild | s3_utils.py:80-81 | `FolderName` of `q + k + "/"` is `k`, so extraction undoes the way S3 reports a sub-folder |
| S3Utils.FolderNameOfKbPrefix | s3_utils.py:80-81 | listing recovers each knowledge base's sanitised name from the prefix its files were uploaded under |
| S3Utils.FolderNamesPointwise | s3_utils.py:79-82 | one folder name per CommonPrefixes entry, each the name of the entry at the same position |
| S3Utils.FolderNamesLength | s3_utils.py:79-82 | a page contributes exactly as many names as it has CommonPrefixes entries |
| S3Utils.AllFoldersAppend | s3_utils.py:77-82 | the names of a run of pages are the names of its first part followed by those of its second |
| S3Utils.AllFoldersHaveNoSlash | s3_utils.py:77-82 | every listed name is a single path component |
| S3Utils.AllFoldersStep | s3_utils.py:77-82 | fetching one more page appends exactly that page's names |
| S3Utils.CollectFolders | s3_utils.py:76-86 | the loop over the fetched pages yields every page's names in page then entry order, or `[]` once any page raised ClientError |
| S3Utils.ListFolders | s3_utils.py:66-86 | pages are requested under the normalised prefix with delimiter `/`; the result is every page's names in page then entry order, pages without CommonPrefixes add nothing, and a `ClientError` on any page gives `[]` |
| S3Utils.KeysOf | s3_utils.py:98 | one delete key per listed object, in listing order |
| S3Utils.DeleteFolder | s3_utils.py:89-103 | a single listing under the unnormalised prefix; a `ClientError` gives False with no delete call; no Contents gives True with no delete call; otherwise exactly the listed keys are deleted and the result is True unless the delete raised `ClientError` |
| S3Utils.UploadFile | s3_utils.py:20-29 | True exactly when the put did not raise `ClientError`; then the key holds the bytes and every other object of the bucket is kept, else the bucket is unchanged |
| S3Utils.SaveJson | s3_utils.py:34-47 | the JSON encoding is put as `application/json`; True exactly when the put did not raise `ClientError`; then the key holds the encoding and every other object is kept, else the bucket is unchanged |
| S3Utils.UploadThenGet | s3_utils.py:20-29 | after an upload reported as done a get returns the uploaded bytes; after a failed one a get returns what it did before |
| S3Utils.LoadJson | s3_utils.py:50-63 | a body yields its value; any `ClientError` yields `None`; only an error other than `NoSuchKey` is reported |
| S3Utils.SaveThenLoadJson | s3_utils.py:34-63 | what a save reported as done is loaded back from the bucket it left unchanged, with no error, whenever decoding undoes encoding |
| S3Utils.LoadMissingIsSilent | s3_utils.py:57-60 | loading a key that was never written yields `None` without an error message |
| S3Utils.DeleteFolderEmptiesPrefix | s3_utils.py:89-100 | when the single listing covered the folder and the delete call did not raise, the result is True whatever failed per key; the objects left under the prefix are among the failed ones, so none is left when none failed; objects outside the prefix are kept and nothing is added |
| Auth.FoldKeys | auth.py:26-34 | the credentials have one key per distinct scanned username and no other key |
| Auth.FoldLastWriterWins | auth.py:27-33 | a username maps to the email, name and password of the last item that carries it |
| Auth.LoadCredentials | auth.py:19-37 | a `ClientError` gives `{"usernames": {}}`; otherwise the keys are the scanned usernames and each entry copies exactly email, name and password of the last item with that username |
| Auth.SaveNewUser | auth.py:40-55 | True exactly when `put_item` did not raise `ClientError`; then the username holds an item of exactly username, name, email and hash, and every other item of the table is kept; else the table is unchanged |
| Auth.ScanFoldsTable | auth.py:23-34 | folding a scan that returns the table gives one entry per stored username, each the stored item's email, name and password |
| Auth.SavedUserIsLoaded | auth.py:19-51 | after a save reported as done, loading the credentials from any scan of the table gives the saved email, name and hash for that user and the table's entry for every other user |
| Session.InitWizardState | app.py:60-67 | each of the seven wizard keys keeps its value if present and gets its default if absent; no other key changes |
| Session.InitWizardStateIdempotent | app.py:60-67 | initialising twice equals initialising once, and a state holding every wizard key is unchanged |
| Session.ResetWizard | app.py:69-77 | step 1 and empty buffers always; chain, messages and names are cleared exactly when `clear_chain` holds and are otherwise unchanged |
| Session.ResetForgetsWizard | app.py:69-77 | after a full reset the state depends only on the keys outside the wizard |
| Session.Progress | app.py:98-99 | one bullet for each of the three steps |
| Session.ProgressHasOneCurrent | app.py:96-100 | for an active step in 1..3 exactly that step is current; earlier steps are done and later ones pending |
| Session.ProgressLines | app.py:94-100 | the progress lines appear only in the wizard view; each is the step's bullet, a space and its label, with the active step defaulting to 1 |
| Session.StepFor | app.py:265-271 | step 1 dispatches to upload, step 2 to process, and any other value to chat |
| Session.RenderMainApp | app.py:259-271 | the wizard is initialised only when no step was written, and then the upload step is shown; otherwise the written step is dispatched |
| Session.Route | app.py:333-376 | guest mode first, under the stored or a fresh id, showing the dispatched step; then a logged-in user, whose view defaults to the dashboard: the dashboard leaves the state as defaulted, the wizard shows the step `render_main_app` dispatches; else the page, defaulting to login, picks the form, and the login form shows the error exactly after a failed login |
| Session.GuestNeverSeesDashboard | app.py:333-336 | in guest mode the router never shows the dashboard, the login form or the registration form |
| Session.EnterAsGuest | app.py:365-370 | "Continue as Guest" sets guest mode and the new id, fully resets the wizard and opens the wizard view |
| Session.GuestStartsAtUpload | app.py:365-370 | right after entering as a guest the router shows the upload step under the guest's id |
| Session.PageButtonsSwitchForms | app.py:372-410 | for a visitor who is neither guest nor logged in, "Register here" (`GoToRegister`, lines 372-373) shows the registration form and "Back to Login" (`BackToLogin`, lines 409-410) shows the login form |
| Session.ReturnToDashboard | app.py:88-105 | "Back to Dashboard" and "Start Over" fully reset the wizard and show the dashboard |
| Wizard.SaveAndContinue | app.py:124-130 | with no uploads nothing changes; otherwise the buffer is the uploads' (name, data) pairs in order and the step is 2; nothing else changes |
| Wizard.ClearUploads | app.py:132-134 | the buffer is emptied and nothing else, the step included, changes |
| Wizard.BackToUpload | app.py:142-147 | both Back buttons set step 1 and change nothing else |
| Wizard.PlanFor | app.py:166-190 | one S3 put per buffered file under `{user}/{kb}/{name}` with its bytes, one local copy per file, the manifest is the names in order, and the store is `{kbdir}/db` |
| Wizard.PlanKeysInKbFolder | app.py:173-176 | every key a create writes is the knowledge base's S3 prefix followed by the file's name |
| Wizard.UploadAll | app.py:175-177 | the upload loop keeps every object the bucket held and adds only keys that some put of the loop names |
| Wizard.UploadAllStores | app.py:175-177 | in the create's upload loop, a put that did not raise and is the last to its key leaves its bytes under that key |
| Wizard.UploadAllKeepsOthers | app.py:175-177 | an object under a key no put of the loop names is kept |
| Wizard.CreateStoresFiles | app.py:173-177 | when no put raises, each buffered file that is the last with its name is stored under `{user}/{kb}/{name}` with its bytes |
| Wizard.CreateKnowledgeBase | app.py:142-202 | a create happens exactly when the buffer is non-empty and the name is not blank; the saved paths are stored before the build; on success the step is 3, the chain is over the new store, the messages are empty and the names are the raw and sanitised input; a failed build changes only the saved paths |
| Wizard.SanitizedNameIsNotBlank | app.py:163-167 | a name that is not blank sanitises to a usable directory name |
| Wizard.CreateNamespaceDeterminism | app.py:163-198 | creating from a name or from its sanitised form writes the same files and keys and builds the same chain |
| Wizard.SaveChatHistory | app.py:35-40 | with an empty username or knowledge-base name nothing is written; otherwise only that knowledge base's history file is replaced by the messages |
| Wizard.LoadChatHistory | app.py:43-49 | a missing history file loads as `[]`; an existing one loads as its stored messages |
| Wizard.HistoryRoundTrip | app.py:35-48 | a saved history is loaded back unchanged |
| Wizard.ChatTurn | app.py:237-256 | an empty prompt changes nothing; otherwise the user message is appended first, the answer follows only when a chain exists, so the history grows by 1 or 2; only the messages change; a guest's history is never written, a user's saved history equals the new messages, and every other history file is kept and none is added |
| Dashboard.KbNamesMembership | app.py:281-284 | a name is listed exactly when an entry of that name holds a `db` directory |
| Dashboard.KbNamesAppend | app.py:281-284 | the filter keeps listing order |
| Dashboard.GetUserKbs | app.py:274-285 | a missing user directory is created and nothing is listed; otherwise the names of the entries with a `db` directory in listing order |
| Dashboard.DisplayName | app.py:308 | the heading has the name's length, turns each `_` into a space, keeps each letter up to case and every other character |
| Dashboard.DisplayNameSanitizesBack | app.py:308 | the heading of a sanitised name sanitises back to that name |
| Dashboard.DisplayNameWords | app.py:308 | in a heading a letter starting a word is upper case and any other letter lower case |
| Dashboard.CreateNew | app.py:291-294 | "Create New" fully resets the wizard and opens the wizard view |
| Dashboard.LoadKnowledgeBase | app.py:310-323 | when the store loads, the chain is over `{kbdir}/db`, the saved history is restored, the names are the heading and the folder, the step is 3 and the view is the wizard; otherwise nothing changes |
| Dashboard.LoadOpensChat | app.py:310-321 | after a successful load the router shows that user the chat step |
| Dashboard.DeleteKnowledgeBase | app.py:326-330 | the entry of that name leaves the listing and every other entry is kept; no chat history inside `data/{user}/{kb}`, at any depth, survives, and every history outside it is kept unchanged |
| Dashboard.RemoveNamed | app.py:327-329 | the entries other than the deleted one, each kept |
| Dashboard.DeleteUnlists | app.py:326-330 | listing after a delete gives the previous list without the deleted name |
| Dashboard.DeleteForgetsHistory | app.py:326-330 | for a one-segment user and a listed entry, reopening the deleted knowledge base finds no history |
| Dashboard.DeleteReachesNestedUser | app.py:326-330 | deleting `kb` of `user` removes every history of the user named `user/kb`, whose directory lies inside the deleted one |
| Dashboard.DeleteKeepsOtherHistories | app.py:326-330 | with plain user and knowledge-base names, deleting one knowledge base keeps every other knowledge base's history, other users' included |
| Dashboard.ChatIsRestoredOnReload | app.py:237-256 | a user's conversation in a new knowledge base is restored when it is reopened from the dashboard |
| Dashboard.StepStaysInRange | app.py:259-271 | every transition keeps a written step in 1..3, so the chat branch is only reached with step 3 |
| Dashboard.StepKeysAcrossResets | app.py:60-77 | a new session, initialisation, both resets (the chain-keeping one from a written step), the dispatch and the router keep the invariant that a written step comes with the chain, messages and sanitised name, and steps 1 and 2 with the buffer |
| Dashboard.StepKeysAcrossUpload | app.py:124-147 | the upload step's buttons and the process step's Back keep that invariant |
| Dashboard.StepKeysAcrossProcessAndChat | app.py:163-256 | a create and a chat turn keep that invariant |
| Dashboard.StepKeysAcrossDashboard | app.py:291-320 | Create New, Chat on a card, Continue as Guest and the sidebar's reset buttons keep that invariant |
| Dashboard.DispatchedStepHasItsKeys | app.py:259-271 | under the invariant the dispatched step finds every key it reads: the buffer for steps 1 and 2, the chain, messages and sanitised name for the chat step |
| Registration.Register | app.py:386-404 | the checks run in order (an empty field, then a password mismatch, then a taken username); only a passing submission adds the entry and returns to login, and a failing one changes nothing |
| Registration.AddUser | app.py:395-400 | the credentials, created if missing, gain the entry under the username and keep all others |
| Registration.RegisterAddsOneUser | app.py:391-400 | a successful registration adds exactly one new username and keeps every existing entry |
| Registration.RegisterTwiceIsTaken | app.py:391-392 | a second well-formed registration of the same username is refused as taken |
| Registration.RegisteredUserSeesLogin | app.py:403 | after a successful registration the router shows the login form |
| Registration.NestedUsernameIsAccepted | app.py:386-392 | a filled form with matching passwords registers the free username `a/b`, which contains `/` |
| Registration.DotUsernamesAreRefused | app.py:386-392 | the registration as written accepts a free `.` or `..`, and `..` deleting `data` names `data/../data`; the corrected registration refuses both and changes nothing |
| Registration.RegisterChecked | app.py:386-392 | the corrected registration refuses, after the field and password checks, exactly the usernames that contain `/` or are `.` or `..`, changing nothing; otherwise it is the registration as written |
| Registration.RegisterCheckedKeepsSegments | app.py:391-400 | under the corrected registration every registered username stays a plain path segment |
| Registration.CheckedUsersDeleteOnlyOwn | app.py:326-330 | under the corrected registration, deleting one registered user's plainly named knowledge base keeps every other registered user's histories |

## Left out

- The retrieval chain, the vector store and document processing are not modelled. They are LangChain, Bedrock and Chroma calls. Whether a build or load succeeded, and what the chain answered, are inputs.
- `rag_core.py` is not part of this model. It wraps the text splitter, the LLM and the vector store.
- `style.py` is not part of this model. It is a CSS string.
- Streamlit rendering is not modelled: widgets, spinners, messages and `st.rerun`. Only the resulting session-state changes are.
- The sidebar's source-document list (`get_kb_documents`, app.py:51-56, 216-222) is display only.
- Real file and network I/O is not modelled. The file tree, S3 and DynamoDB are values. JSON encoding is a parameter, and a malformed JSON file (an exception in the source) is not modelled.
- bcrypt hashing is not modelled. The hash is an opaque input.
- The `uuid4` guest ids are inputs.
- The authenticator's login and logout, and `load_config`/`save_config`, are not modelled. auth.py, which app.py:13 imports them from, does not define them, so the configuration is a value. Likewise rag_core.py does not define `load_vector_store`, which app.py:11 imports; whether a store loads is an input.
- Registration writes to the configuration, not to DynamoDB. `save_new_user_to_db` is modelled on its own, as the source has it.
- The allowed upload types (app.py:111) are enforced by the upload widget, which is not modelled.
- Dashboard.DisplayName: models `str.title()` and the case folds of `sanitize_filename` on ASCII letters only. Python's Unicode casing of other letters is not modelled.
- Wizard.CreateKnowledgeBase: the results of the S3 uploads are ignored, as in the source. An exception while writing the local files is not modelled.
- S3Utils.DeleteFolder: covers only the first `list_objects_v2` response, as the source does. A folder of more than one page keeps its remaining objects, which is why `DeleteFolderEmptiesPrefix` assumes a listing that covers the folder.
- Auth.LoadCredentials: uses the first page of `scan()` only, as the source does.
- Dashboard.DeleteUnlists: `os.listdir` (app.py:282) promises no order. The listing is a given sequence, and the model keeps its order across a delete; the source does not promise that order.
- Dashboard.DeleteKnowledgeBase: the local tree is modelled only through its chat-history files. The store, manifest and document copies the delete also removes are not modelled. Paths are compared as strings: repeated `/`, `.` and `..` are not resolved, so for a user `..` deleting `data` (the directory `data/../data`) the model keeps histories the file system loses. Symbolic links are not modelled either.
- HistoryIsolation: speaks of string paths, and requires plain names (no `/`, not `.` or `..`) because only for those does a string prefix match the directory on disk.
- DeleteKeepsOtherHistories: requires plain user and knowledge-base names for the same reason; a knowledge-base name from a directory listing is always one.
- CheckedUsersDeleteOnlyOwn: requires plain knowledge-base names for the same reason; the corrected registration makes every username plain.
- S3Utils.DeleteFolderEmptiesPrefix: a `delete_objects` call that does not raise may still fail for some keys, reported in its `Errors` list, which s3_utils.py:97-100 does not read. The set of failed keys is a parameter; the prefix is emptied only when no key failed (the failed set is empty).
- Errors other than `ClientError` are not modelled. The S3 client and the DynamoDB table are built outside each `try` (s3_utils.py:22, auth.py:21), so a failure there propagates. Other botocore exceptions propagate too, and so does the `KeyError` of a scanned item that lacks `username`, `email`, `name` or `password` (auth.py:28-32).
- Auth.SavedUserIsLoaded: the users table is keyed by `username`, which the source's writes suggest but do not show. A scan is assumed to return the whole table.
- Wizard.CreateStoresFiles: a buffered file followed by another file of the same name is overwritten in S3 by the later one, so the lemma speaks only of the last file with each name.

## Findings

| source | as written | input that shows it | evidently intended | confidence | as-written member | corrected member |
|---|---|---|---|---|---|---|
| app.py:386-392 | registration accepts any non-empty username, while the dashboard's Delete (app.py:327-329) removes `data/{user}/{kb}` recursively | user `a` deletes knowledge base `b` while user `a/b` has knowledge base `c`: `data/a/b/c/chat_history.json` is removed; worse, user `..` sees `data` listed once a user named `db` has a directory (`data/db`), and deleting it runs `rmtree("data/../data")`, removing every user's tree | deleting a knowledge base touches only its owner's files, so a username is one plain path segment: no `/`, and not `.` or `..` | not executed | Dashboard.DeleteKnowledgeBase, with Dashboard.DeleteReachesNestedUser, Registration.NestedUsernameIsAccepted and Registration.DotUsernamesAreRefused | Registration.RegisterChecked, with Registration.RegisterCheckedKeepsSegments and Registration.CheckedUsersDeleteOnlyOwn |

The rest of the model keeps the registration as written (`Registration.Register`), since it
describes what the code does; `RegisterChecked` sits beside it with the isolation property
proved about it.
