/** The S3 helpers: prefix normalisation and folder extraction for listing, the key list of a
    folder delete, and the True/False/None conventions of the put and get wrappers. The S3
    client is not modelled; each AWS response is an input, and raising `ClientError` is one of
    the responses. */
module S3Utils {
  import opened Prelude
  import opened Paths
  import opened Sanitize

  // ---------------------------------------------------------------------------------------------
  // Prefix normalisation and folder names

  /** `if not prefix.endswith('/'): prefix += '/'`. */
  function NormalizePrefix(prefix: string): (r: string)
    ensures EndsWithChar(r, '/')
    ensures EndsWithChar(prefix, '/') ==> r == prefix
    ensures !EndsWithChar(prefix, '/') ==> r == prefix + "/"
  {
    if EndsWithChar(prefix, '/') then prefix else prefix + "/"
  }

  /** Normalising an already normalised prefix changes nothing. */
  lemma NormalizePrefixIdempotent(prefix: string)
    ensures NormalizePrefix(NormalizePrefix(prefix)) == NormalizePrefix(prefix)
  {
  }

  /** `s.lstrip('/')`. */
  function TrimLeft(s: string): string {
    if StartsWithChar(s, '/') then TrimLeft(s[1..]) else s
  }

  /** `s.rstrip('/')`. */
  function TrimRight(s: string): string {
    if EndsWithChar(s, '/') then TrimRight(s[..|s| - 1]) else s
  }

  /** `s.strip('/')`. */
  function Strip(s: string): string {
    TrimRight(TrimLeft(s))
  }

  /** `s.split('/')[-1]`: what follows the last `/`, or all of `s` when it has none. */
  function LastSegment(s: string): string {
    if s == [] || EndsWithChar(s, '/') then []
    else LastSegment(s[..|s| - 1]) + [s[|s| - 1]]
  }

  /** `obj.get('Prefix').strip('/').split('/')[-1]`: the folder name of one CommonPrefix. */
  function FolderName(commonPrefix: string): string {
    LastSegment(Strip(commonPrefix))
  }

  /** `lstrip('/')` removes a run of leading slashes and nothing else. */
  lemma {:induction false} TrimLeftIsSuffix(s: string)
    ensures |TrimLeft(s)| <= |s| && TrimLeft(s) == s[|s| - |TrimLeft(s)|..]
    ensures !StartsWithChar(TrimLeft(s), '/')
    ensures forall i :: 0 <= i < |s| - |TrimLeft(s)| ==> s[i] == '/'
    decreases |s|
  {
    if StartsWithChar(s, '/') {
      TrimLeftIsSuffix(s[1..]);
    }
  }

  /** `rstrip('/')` removes a run of trailing slashes and nothing else. */
  lemma {:induction false} TrimRightIsPrefix(s: string)
    ensures |TrimRight(s)| <= |s| && TrimRight(s) == s[..|TrimRight(s)|]
    ensures !EndsWithChar(TrimRight(s), '/')
    ensures forall i :: |TrimRight(s)| <= i < |s| ==> s[i] == '/'
    decreases |s|
  {
    if EndsWithChar(s, '/') {
      TrimRightIsPrefix(s[..|s| - 1]);
    }
  }

  /** The last segment is the suffix of `s` after its last `/`: it holds no `/`, and either it
      is all of `s` or a `/` comes right before it. */
  lemma {:induction false} LastSegmentIsLastPart(s: string)
    ensures '/' !in LastSegment(s)
    ensures |LastSegment(s)| <= |s| && LastSegment(s) == s[|s| - |LastSegment(s)|..]
    ensures |LastSegment(s)| < |s| ==> s[|s| - |LastSegment(s)| - 1] == '/'
    decreases |s|
  {
    if s != [] && !EndsWithChar(s, '/') {
      var p := s[..|s| - 1];
      LastSegmentIsLastPart(p);
      assert s == p + [s[|s| - 1]];
    }
  }

  /** A folder name is a single path component. */
  lemma FolderNameHasNoSlash(commonPrefix: string)
    ensures '/' !in FolderName(commonPrefix)
  {
    LastSegmentIsLastPart(Strip(commonPrefix));
  }

  lemma {:induction false} TrimLeftAppend(q: string, k: string)
    requires !StartsWithChar(k, '/')
    ensures TrimLeft(q + k) == TrimLeft(q) + k
    decreases |q|
  {
    if q == [] {
      assert q + k == k;
    } else if q[0] == '/' {
      assert (q + k)[1..] == q[1..] + k;
      TrimLeftAppend(q[1..], k);
    }
  }

  lemma {:induction false} LastSegmentAppend(t: string, k: string)
    requires t == [] || EndsWithChar(t, '/')
    requires '/' !in k
    ensures LastSegment(t + k) == k
    decreases |k|
  {
    if k == [] {
      assert t + k == t;
    } else {
      var n := |k| - 1;
      assert (t + k)[..|t + k| - 1] == t + k[..n];
      LastSegmentAppend(t, k[..n]);
      assert k[..n] + [k[n]] == k;
    }
  }

  /** The folder name of `q + k + "/"` is `k`, for any `q` that is empty or ends with `/` and
      any non-empty `k` without `/`: the extraction undoes the way S3 reports a folder. */
  lemma FolderNameOfChild(q: string, k: string)
    requires q == [] || EndsWithChar(q, '/')
    requires k != [] && '/' !in k
    ensures FolderName(q + k + "/") == k
  {
    assert k[0] != '/';
    assert q + k + "/" == q + (k + "/");
    TrimLeftAppend(q, k + "/");
    var t := TrimLeft(q);
    assert t + (k + "/") == (t + k) + "/";
    assert TrimRight((t + k) + "/") == TrimRight(t + k) by {
      assert ((t + k) + "/")[..|t + k|] == t + k;
    }
    assert (t + k)[|t + k| - 1] == k[|k| - 1];
    assert TrimRight(t + k) == t + k;
    TrimLeftIsSuffix(q);
    if t != [] {
      assert t[|t| - 1] == q[|q| - 1];
    }
    LastSegmentAppend(t, k);
  }

  /** Listing a user's folders recovers each knowledge base's sanitised name from the
      prefix its files were uploaded under. */
  lemma FolderNameOfKbPrefix(user: string, kbName: string)
    requires kbName != []
    ensures FolderName(KbPrefix(user, SanitizeFilename(kbName))) == SanitizeFilename(kbName)
  {
    var dir := SanitizeFilename(kbName);
    SanitizeHasNoSlash(kbName);
    assert KbPrefix(user, dir) == (user + "/") + dir + "/";
    FolderNameOfChild(user + "/", dir);
  }

  // ---------------------------------------------------------------------------------------------
  // list_folders_in_s3

  /** A `list_objects_v2` request. */
  datatype ListRequest = ListRequest(bucket: string, prefix: string, delimiter: Option<string>)

  /** One page of a paginated listing: its `CommonPrefixes` entries (each entry's `Prefix`),
      or `None` when the page has no such key. */
  datatype ListPage = ListPage(commonPrefixes: Option<seq<string>>)

  /** Fetching a page either succeeds or raises `ClientError`. */
  datatype PageFetch = Fetched(page: ListPage) | PageClientError

  /** The folder names of a sequence of CommonPrefix entries, in order. */
  function FolderNames(entries: seq<string>): seq<string> {
    if entries == [] then []
    else FolderNames(entries[..|entries| - 1]) + [FolderName(entries[|entries| - 1])]
  }

  /** One name per entry, each the folder name of the entry at the same position. */
  lemma {:induction false} FolderNamesPointwise(entries: seq<string>, i: int)
    requires 0 <= i < |entries|
    ensures |FolderNames(entries)| == |entries|
    ensures FolderNames(entries)[i] == FolderName(entries[i])
    decreases |entries|
  {
    var n := |entries| - 1;
    if n > 0 {
      FolderNamesLength(entries[..n]);
      if i < n {
        FolderNamesPointwise(entries[..n], i);
      }
    }
  }

  lemma {:induction false} FolderNamesLength(entries: seq<string>)
    ensures |FolderNames(entries)| == |entries|
    decreases |entries|
  {
    if entries != [] {
      FolderNamesLength(entries[..|entries| - 1]);
    }
  }

  /** The names one page contributes: none when it has no `CommonPrefixes`. */
  function PageFolders(page: ListPage): seq<string> {
    match page.commonPrefixes
    case None => []
    case Some(entries) => FolderNames(entries)
  }

  /** The names one fetch contributes: a page's names, or none for a page that raised. */
  function Contribution(fetch: PageFetch): seq<string> {
    if fetch.Fetched? then PageFolders(fetch.page) else []
  }

  /** Reference definition of the names of all fetched pages, page by page. */
  function AllFolders(pages: seq<PageFetch>): seq<string> {
    if pages == [] then [] else AllFolders(pages[..|pages| - 1]) + Contribution(pages[|pages| - 1])
  }

  predicate HasClientError(pages: seq<PageFetch>) {
    exists i :: 0 <= i < |pages| && pages[i].PageClientError?
  }

  /** The names of a listing are those of its pages in order, so splitting the pages splits the names. */
  lemma {:induction false} AllFoldersAppend(a: seq<PageFetch>, b: seq<PageFetch>)
    ensures AllFolders(a + b) == AllFolders(a) + AllFolders(b)
    decreases |b|
  {
    if b == [] {
      assert a + b == a;
    } else {
      var n := |b| - 1;
      var ab := a + b;
      assert ab[..|ab| - 1] == a + b[..n];
      assert ab[|ab| - 1] == b[n];
      assert AllFolders(ab) == AllFolders(a + b[..n]) + Contribution(b[n]);
      AllFoldersAppend(a, b[..n]);
    }
  }

  /** Every listed name is a single path component. */
  lemma {:induction false} AllFoldersHaveNoSlash(pages: seq<PageFetch>)
    ensures forall i :: 0 <= i < |AllFolders(pages)| ==> '/' !in AllFolders(pages)[i]
    decreases |pages|
  {
    if pages != [] {
      var init := pages[..|pages| - 1];
      var last := pages[|pages| - 1];
      AllFoldersHaveNoSlash(init);
      if last.Fetched? && last.page.commonPrefixes.Some? {
        var entries := last.page.commonPrefixes.value;
        FolderNamesLength(entries);
        forall j | 0 <= j < |entries|
          ensures '/' !in FolderNames(entries)[j]
        {
          FolderNamesPointwise(entries, j);
          FolderNameHasNoSlash(entries[j]);
        }
      }
    }
  }

  /** Fetching one more page adds that page's names. */
  lemma AllFoldersStep(pages: seq<PageFetch>, i: int)
    requires 0 <= i < |pages| && pages[i].Fetched?
    ensures AllFolders(pages[..i + 1]) == AllFolders(pages[..i]) + Contribution(pages[i])
  {
    assert pages[..i + 1][..i] == pages[..i];
  }

  /** The loop of `list_folders_in_s3` over the fetched pages: every page's names in order, or
      `[]` as soon as a page raised `ClientError`. */
  method CollectFolders(pages: seq<PageFetch>) returns (folders: seq<string>)
    ensures HasClientError(pages) ==> folders == []
    ensures !HasClientError(pages) ==> folders == AllFolders(pages)
  {
    folders := [];
    var i := 0;
    while i < |pages|
      invariant 0 <= i <= |pages|
      invariant forall k :: 0 <= k < i ==> pages[k].Fetched?
      invariant folders == AllFolders(pages[..i])
    {
      if pages[i].PageClientError? {
        assert HasClientError(pages);
        return [];
      }
      // the inner loop over the page's CommonPrefixes entries appends the page's names
      AllFoldersStep(pages, i);
      folders := folders + Contribution(pages[i]);
      i := i + 1;
    }
    assert pages[..i] == pages;
  }

  /** `list_folders_in_s3`: asks for the pages under the normalised prefix with delimiter `/`
      and collects one folder name per CommonPrefixes entry, page by page; a `ClientError` on
      any page makes the whole result empty. */
  method ListFolders(bucket: string, prefix: string, paginate: ListRequest -> seq<PageFetch>)
    returns (folders: seq<string>)
    ensures HasClientError(paginate(ListRequest(bucket, NormalizePrefix(prefix), Some("/")))) ==> folders == []
    ensures !HasClientError(paginate(ListRequest(bucket, NormalizePrefix(prefix), Some("/"))))
         ==> folders == AllFolders(paginate(ListRequest(bucket, NormalizePrefix(prefix), Some("/"))))
  {
    var pages := paginate(ListRequest(bucket, NormalizePrefix(prefix), Some("/")));
    folders := CollectFolders(pages);
  }

  // ---------------------------------------------------------------------------------------------
  // delete_folder_from_s3

  /** One object of a listing; only its key matters here. */
  datatype S3Object = S3Object(key: string)

  /** A single `list_objects_v2` response: its `Contents`, `None` when the key is missing,
      or a raised `ClientError`. */
  datatype ListObjectsResponse = Listing(contents: Option<seq<S3Object>>) | ListClientError

  /** A `delete_objects` request: `Objects` is the list of keys. */
  datatype DeleteRequest = DeleteRequest(bucket: string, keys: seq<string>)

  /** What a folder delete asked S3 to delete, and the function's return value. */
  datatype DeleteOutcome = DeleteOutcome(deleteCall: Option<DeleteRequest>, result: bool)

  function KeysOf(objects: seq<S3Object>): (keys: seq<string>)
    ensures |keys| == |objects|
    ensures forall i :: 0 <= i < |objects| ==> keys[i] == objects[i].key
  {
    seq(|objects|, i requires 0 <= i < |objects| => objects[i].key)
  }

  /** `delete_folder_from_s3`: lists once under the prefix (no pagination and no trailing-slash
      normalisation) and deletes exactly the listed keys, in listing order.
      `deleteRaises` says whether `delete_objects` raised `ClientError`. */
  function DeleteFolder(bucket: string, prefix: string, list: ListRequest -> ListObjectsResponse,
                        deleteRaises: DeleteRequest -> bool): (r: DeleteOutcome)
    ensures list(ListRequest(bucket, prefix, None)).ListClientError? ==> r == DeleteOutcome(None, false)
    ensures list(ListRequest(bucket, prefix, None)) == Listing(None) ==> r == DeleteOutcome(None, true)
    ensures list(ListRequest(bucket, prefix, None)).Listing? && list(ListRequest(bucket, prefix, None)).contents.Some? ==>
              var objects := list(ListRequest(bucket, prefix, None)).contents.value;
              && r.deleteCall.Some?
              && r.deleteCall.value.bucket == bucket
              && |r.deleteCall.value.keys| == |objects|
              && (forall i :: 0 <= i < |objects| ==> r.deleteCall.value.keys[i] == objects[i].key)
              && (r.result <==> !deleteRaises(r.deleteCall.value))
  {
    match list(ListRequest(bucket, prefix, None))
    case ListClientError => DeleteOutcome(None, false)
    case Listing(None) => DeleteOutcome(None, true)
    case Listing(Some(objects)) =>
      var call := DeleteRequest(bucket, KeysOf(objects));
      DeleteOutcome(Some(call), !deleteRaises(call))
  }

  // ---------------------------------------------------------------------------------------------
  // Put and get wrappers

  /** A `put_object` request; `contentType` is `None` when the call passes none. */
  datatype PutRequest = PutRequest(bucket: string, key: string, body: seq<Byte>, contentType: Option<string>)

  /** The objects of one bucket: key to body. A put or get names the bucket; the store is the
      contents of that bucket. */
  type ObjectStore = map<string, seq<Byte>>

  /** A put that did not raise stores the body under its key; one that raised stores nothing. */
  function ApplyPut(store: ObjectStore, req: PutRequest, raised: bool): ObjectStore {
    if raised then store else store[req.key := req.body]
  }

  /** `upload_file_to_s3` against the bucket's contents `store`: True unless the put raised
      `ClientError`. When it did not, the key now holds the bytes and every other object is
      as it was; when it did, the bucket is unchanged. */
  function UploadFile(store: ObjectStore, data: seq<Byte>, bucket: string, key: string,
                      putRaises: PutRequest -> bool): (r: (bool, ObjectStore))
    ensures r.0 <==> !putRaises(PutRequest(bucket, key, data, None))
    ensures r.0 ==> && r.1.Keys == store.Keys + {key} && r.1[key] == data
                    && forall k :: k in store && k != key ==> r.1[k] == store[k]
    ensures !r.0 ==> r.1 == store
  {
    var req := PutRequest(bucket, key, data, None);
    (!putRaises(req), ApplyPut(store, req, putRaises(req)))
  }

  /** `save_json_to_s3` against the bucket's contents `store`: puts the JSON text of `data`
      (its encoding is the parameter `encode`) as `application/json`; True unless the put
      raised `ClientError`. When it did not, the key holds the encoded text and every other
      object is as it was; when it did, the bucket is unchanged. */
  function SaveJson<J>(store: ObjectStore, data: J, bucket: string, key: string, encode: J -> seq<Byte>,
                       putRaises: PutRequest -> bool): (r: (bool, ObjectStore))
    ensures r.0 <==> !putRaises(PutRequest(bucket, key, encode(data), Some("application/json")))
    ensures r.0 ==> && r.1.Keys == store.Keys + {key} && r.1[key] == encode(data)
                    && forall k :: k in store && k != key ==> r.1[k] == store[k]
    ensures !r.0 ==> r.1 == store
  {
    var req := PutRequest(bucket, key, encode(data), Some("application/json"));
    (!putRaises(req), ApplyPut(store, req, putRaises(req)))
  }

  /** A `get_object` response, already decoded from JSON, or a `ClientError` with its error code. */
  datatype GetResponse<J> = Body(json: J) | GetClientError(code: string)

  /** The value `load_json_from_s3` returns and whether it reports an error message. */
  datatype LoadOutcome<J> = LoadOutcome(value: Option<J>, reportsError: bool)

  /** `load_json_from_s3`: the decoded body, or `None` on any `ClientError`; a missing key
      (`NoSuchKey`) is the one error that is not reported. */
  function LoadJson<J>(response: GetResponse<J>): (r: LoadOutcome<J>)
    ensures r.value.Some? <==> response.Body?
    ensures response.Body? ==> r.value.value == response.json
    ensures r.reportsError <==> response.GetClientError? && response.code != "NoSuchKey"
  {
    match response
    case Body(json) => LoadOutcome(Some(json), false)
    case GetClientError(code) => LoadOutcome(None, code != "NoSuchKey")
  }

  // ---------------------------------------------------------------------------------------------
  // The wrappers against a bucket's contents

  /** `get_object` followed by JSON decoding: the decoded body, or `NoSuchKey` for a missing key. */
  function GetObject<J>(store: ObjectStore, key: string, decode: seq<Byte> -> J): GetResponse<J> {
    if key in store then Body(decode(store[key])) else GetClientError("NoSuchKey")
  }

  /** What `upload_file_to_s3` reports stored, `get_object` returns; a failed upload leaves
      what a get returns as it was. */
  lemma UploadThenGet<J>(store: ObjectStore, data: seq<Byte>, bucket: string, key: string,
                         putRaises: PutRequest -> bool, decode: seq<Byte> -> J)
    ensures var r := UploadFile(store, data, bucket, key, putRaises);
            && (r.0 ==> GetObject(r.1, key, decode) == Body(decode(data)))
            && (!r.0 ==> GetObject(r.1, key, decode) == GetObject(store, key, decode))
  {
  }

  /** What `save_json_to_s3` reports saved, `load_json_from_s3` loads back, without an error
      message, whenever decoding undoes the encoding. */
  lemma SaveThenLoadJson<J>(store: ObjectStore, bucket: string, key: string, data: J,
                            encode: J -> seq<Byte>, decode: seq<Byte> -> J, putRaises: PutRequest -> bool)
    requires decode(encode(data)) == data
    requires SaveJson(store, data, bucket, key, encode, putRaises).0
    ensures LoadJson(GetObject(SaveJson(store, data, bucket, key, encode, putRaises).1, key, decode))
         == LoadOutcome(Some(data), false)
  {
  }

  /** Loading a key that was never written yields `None` and reports nothing. */
  lemma LoadMissingIsSilent<J>(store: ObjectStore, key: string, decode: seq<Byte> -> J)
    requires key !in store
    ensures LoadJson(GetObject(store, key, decode)) == LoadOutcome(None, false)
  {
  }

  /** The contents after a folder delete. When the delete call was made and did not raise,
      the requested keys are gone except those `failed` names: S3 reports per-key failures in
      the response's `Errors`, which the source does not read. */
  function AfterDelete(store: ObjectStore, r: DeleteOutcome, failed: set<string>): ObjectStore {
    if r.deleteCall.Some? && r.result then
      map k | k in store && (k !in r.deleteCall.value.keys || k in failed) :: store[k]
    else store
  }

  /** A listing that reports exactly the objects under the prefix: no `Contents` when there is
      none, and otherwise `Contents` whose keys are all under the prefix and include each such key. */
  predicate ListsPrefix(store: ObjectStore, prefix: string, response: ListObjectsResponse) {
    && response.Listing?
    && (response.contents.None? ==> forall k :: k in store ==> !StartsWith(k, prefix))
    && (response.contents.Some? ==>
          forall k :: k in store && StartsWith(k, prefix) ==>
            exists i :: 0 <= i < |response.contents.value| && response.contents.value[i].key == k)
    && (response.contents.Some? ==>
          forall i :: 0 <= i < |response.contents.value| ==> StartsWith(response.contents.value[i].key, prefix))
  }

  /** When the single listing covered the whole folder and the delete call did not raise, the
      result is True whatever S3 reported per key: the objects left under the prefix are
      exactly among those whose delete failed, so with no failure none is left. Every object
      outside the prefix is kept. */
  lemma DeleteFolderEmptiesPrefix(store: ObjectStore, bucket: string, prefix: string,
                                  list: ListRequest -> ListObjectsResponse, deleteRaises: DeleteRequest -> bool,
                                  failed: set<string>)
    requires ListsPrefix(store, prefix, list(ListRequest(bucket, prefix, None)))
    requires DeleteFolder(bucket, prefix, list, deleteRaises).result
    ensures var after := AfterDelete(store, DeleteFolder(bucket, prefix, list, deleteRaises), failed);
            && (forall k :: k in after && StartsWith(k, prefix) ==> k in failed)
            && (failed == {} ==> forall k :: k in after ==> !StartsWith(k, prefix))
            && (forall k :: k in store && !StartsWith(k, prefix) ==> k in after && after[k] == store[k])
            && after.Keys <= store.Keys
  {
    var r := DeleteFolder(bucket, prefix, list, deleteRaises);
    var response := list(ListRequest(bucket, prefix, None));
    if response.contents.Some? {
      var objects := response.contents.value;
      forall k | k in store && StartsWith(k, prefix)
        ensures k in r.deleteCall.value.keys
      {
        var i :| 0 <= i < |objects| && objects[i].key == k;
        assert r.deleteCall.value.keys[i] == k;
      }
      assert forall i :: 0 <= i < |r.deleteCall.value.keys| ==> StartsWith(r.deleteCall.value.keys[i], prefix);
    }
  }
}
