/** The server side of the file repository (cmd/goatak_server/marti_api.go):
    how an upload becomes a resource record with its keyword set, which
    resources a search returns, the validation of the upload and content
    requests, and the two small answer builders. Files, the database and the
    HTTP framework are reduced to the values they hand back. */
module MartiApi {
  import opened Opt
  import opened Text
  import opened JsValues

  // ---------------------------------------------------------------------
  // Keyword sets

  /** The union of what `f` gives for each piece. */
  function UnionOf(pieces: seq<string>, f: string -> set<string>): set<string> {
    if pieces == [] then {} else UnionOf(pieces[..|pieces| - 1], f) + f(pieces[|pieces| - 1])
  }

  /** Something is in the union exactly when one piece gives it. */
  lemma {:induction false} UnionOfMembership(pieces: seq<string>, f: string -> set<string>, k: string)
    ensures k in UnionOf(pieces, f) <==> exists p | p in pieces :: k in f(p)
  {
    if pieces != [] {
      var init := pieces[..|pieces| - 1];
      UnionOfMembership(init, f, k);
      assert pieces == init + [pieces[|pieces| - 1]];
      assert forall p :: p in pieces <==> p in init || p == pieces[|pieces| - 1];
    }
  }

  /** The union over two runs of pieces is the union of each run's. */
  lemma {:induction false} UnionOfAppend(a: seq<string>, b: seq<string>, f: string -> set<string>)
    ensures UnionOf(a + b, f) == UnionOf(a, f) + UnionOf(b, f)
  {
    if b == [] {
      assert a + b == a;
    } else {
      var init := b[..|b| - 1];
      UnionOfAppend(a, init, f);
      assert (a + b)[..|a + b| - 1] == a + init;
    }
  }

  /** The keyword one piece contributes: its trimmed form, unless empty. */
  function PieceKeyword(piece: string): set<string> {
    var k := TrimSpace(piece);
    if k != "" then {k} else {}
  }

  /** The keywords of comma-separated pieces: each piece trimmed, empty ones
      dropped. */
  function Kws(pieces: seq<string>): set<string> {
    UnionOf(pieces, PieceKeyword)
  }

  /** The keyword set built from a `keywords` form value: every keyword is
      non-empty, trimmed and free of commas. */
  function KeywordSet(keywords: string): (kw: set<string>)
    ensures forall k | k in kw :: k != "" && Trimmed(k) && ',' !in k
  {
    var pieces := Split(keywords, ',');
    forall k | k in Kws(pieces)
      ensures k != "" && Trimmed(k) && ',' !in k
    {
      KwsMembership(pieces, k);
      var p :| p in pieces && TrimSpace(p) == k;
      if ',' in k {
        TrimSpaceWithin(p, ',');
      }
    }
    Kws(pieces)
  }

  /** A keyword is exactly the non-empty trimmed form of some piece. */
  lemma KwsMembership(pieces: seq<string>, k: string)
    ensures k in Kws(pieces) <==> k != "" && exists p | p in pieces :: TrimSpace(p) == k
  {
    UnionOfMembership(pieces, PieceKeyword, k);
  }

  /** The keywords of two runs of pieces are the union of each run's. */
  lemma KwsAppend(a: seq<string>, b: seq<string>)
    ensures Kws(a + b) == Kws(a) + Kws(b)
  {
    UnionOfAppend(a, b, PieceKeyword);
  }

  /** Trimming keeps only characters of the original string. */
  lemma TrimSpaceWithin(s: string, c: char)
    requires c in TrimSpace(s)
    ensures c in s
  {
    var l := TrimLeft(s);
    var r := TrimRight(l);
    assert r == TrimSpace(s);
    var i :| 0 <= i < |r| && r[i] == c;
    assert l[i] == c;
    assert s[|s| - |l| + i] == c;
  }

  /** Every non-empty trimmed piece of the value is a keyword. */
  lemma EveryPieceKept(keywords: string, i: nat)
    requires i < |Split(keywords, ',')| && TrimSpace(Split(keywords, ',')[i]) != ""
    ensures TrimSpace(Split(keywords, ',')[i]) in KeywordSet(keywords)
  {
    KwsMembership(Split(keywords, ','), TrimSpace(Split(keywords, ',')[i]));
  }

  /** An empty value gives no keyword. */
  lemma EmptyKeywords()
    ensures KeywordSet("") == {}
  {
    assert Split("", ',') == [""];
    assert Split("", ',')[..0] == [];
  }

  /** A single trimmed keyword without commas is its own keyword set. */
  lemma SingleKeyword(k: string)
    requires k != "" && Trimmed(k) && ',' !in k
    ensures KeywordSet(k) == {k}
  {
    SplitNoSep(k, ',');
    TrimSpaceOfTrimmed(k);
    assert [k][..0] == [];
    assert Kws([k]) == Kws([]) + {k};
  }

  /** Joining two values with a comma unites their keyword sets. */
  lemma KeywordsOfJoin(a: string, b: string)
    ensures KeywordSet(a + "," + b) == KeywordSet(a) + KeywordSet(b)
  {
    assert a + "," + b == a + [','] + b;
    SplitConcat(a, ',', b);
    KwsAppend(Split(a, ','), Split(b, ','));
  }

  /** Two single keywords joined by a comma are exactly those two. */
  lemma TwoKeywords(a: string, b: string)
    requires a != "" && Trimmed(a) && ',' !in a
    requires b != "" && Trimmed(b) && ',' !in b
    ensures KeywordSet(a + "," + b) == {a, b}
  {
    KeywordsOfJoin(a, b);
    SingleKeyword(a);
    SingleKeyword(b);
  }

  /** One more piece adds its trimmed form, when that is not empty. */
  lemma KwsStep(pieces: seq<string>, i: nat)
    requires i < |pieces|
    ensures Kws(pieces[..i + 1]) == Kws(pieces[..i]) + PieceKeyword(pieces[i])
  {
    assert pieces[..i + 1][..i] == pieces[..i];
  }

  /** The keyword set of a non-empty value, the guard every non-video path
      puts before the loop: an empty value gives the empty set either way. */
  function GuardedKeywordSet(keywords: string): (kw: set<string>)
    ensures kw == KeywordSet(keywords)
  {
    if keywords != "" then KeywordSet(keywords)
    else
      EmptyKeywords();
      {}
  }

  /** The loop that fills `KwSet` from a `keywords` value. */
  method BuildKwSet(keywords: string) returns (kw: set<string>)
    ensures kw == KeywordSet(keywords)
  {
    var pieces := Split(keywords, ',');
    kw := {};
    var i := 0;
    while i < |pieces|
      invariant 0 <= i <= |pieces|
      invariant kw == Kws(pieces[..i])
    {
      KwsStep(pieces, i);
      var trimmed := TrimSpace(pieces[i]);
      assert PieceKeyword(pieces[i]) == if trimmed != "" then {trimmed} else {};
      if trimmed != "" {
        kw := kw + {trimmed};
      }
      i := i + 1;
    }
    assert pieces[..i] == pieces;
  }

  // ---------------------------------------------------------------------
  // Resources and uploads

  /** A stored resource (`model.Resource`), as far as these handlers fill
      it. */
  datatype Resource = Resource(
    scope: string, hash: string, uid: string, name: string, fileName: string,
    mimeType: string, size: int, submissionUser: string, creatorUid: string,
    tool: string, keywords: string, kwSet: set<string>, expiration: int)

  /** The uploading user's scope and login. */
  datatype Caller = Caller(scope: string, login: string)

  /** The `assetfile` part of a multipart form. */
  datatype FormFile = FormFile(filename: string, contentType: string, size: int)

  /** The multipart request as the handler sees it: the `keywords` form
      value, the `creatorUid` query value and the `assetfile` part, if any. */
  datatype MultipartForm = MultipartForm(keywords: string, creatorUid: string, file: Option<FormFile>)

  /** What storing the file content gave: its hash, or an error. */
  datatype Stored = StoredAs(hash: string) | StoreFailed(err: string)

  /** A Go `(*model.Resource, error)` pair; either half may be nil. */
  datatype Ret = Ret(res: Option<Resource>, err: Option<string>)

  const VideoMarker := "webcam-recording"
  const VideoKeyword := "video"
  const VideoKeywordSuffix := VideoKeyword + "," + VideoMarker
  const NoFormFile := "there is no uploaded file associated with the given key"

  /** The keywords of a recorded video: the client's keywords, if any, then
      "video" and "webcam-recording". */
  function VideoKeywords(keywords: string): (v: string)
    ensures keywords == "" ==> v == VideoKeywordSuffix
    ensures keywords != "" ==> v == keywords + "," + VideoKeywordSuffix
  {
    if keywords != "" then keywords + "," + VideoKeywordSuffix else VideoKeywordSuffix
  }

  /** The video keywords always include both video markers, next to the
      client's own. */
  lemma VideoKeywordSet(keywords: string)
    ensures KeywordSet(VideoKeywords(keywords)) == KeywordSet(keywords) + {VideoKeyword, VideoMarker}
  {
    VideoSuffixKeywords();
    if keywords != "" {
      KeywordsOfJoin(keywords, VideoKeywordSuffix);
    } else {
      EmptyKeywords();
    }
  }

  /** The two video markers, each its own keyword. */
  lemma VideoSuffixKeywords()
    ensures KeywordSet(VideoKeywordSuffix) == {VideoKeyword, VideoMarker}
  {
    TwoKeywords(VideoKeyword, VideoMarker);
  }

  /** Go's `filepath.Base` for '/'-separated paths: trailing slashes go,
      then everything up to the last slash; "" gives "." and a path of
      slashes gives "/". Otherwise the result is the last non-empty
      element: a slash-free run of `path` that starts the path or follows a
      '/', and after which only slashes follow. */
  function BaseName(path: string): (b: string)
    ensures b != ""
    ensures b == "/" || '/' !in b
    ensures (exists k :: 0 <= k < |path| && path[k] != '/') ==> '/' !in b
    ensures path == "" ==> b == "."
    ensures path != "" && '/' !in path ==> b == path
    ensures path != "" && (forall k :: 0 <= k < |path| ==> path[k] == '/') ==> b == "/"
    ensures (exists k :: 0 <= k < |path| && path[k] != '/') ==>
      exists i, j :: 0 <= i < j <= |path| && b == path[i..j] && (i == 0 || path[i - 1] == '/')
                     && forall k :: j <= k < |path| ==> path[k] == '/'
  {
    if path == "" then "."
    else
      var stripped := TrimTrailingSlashes(path);
      if stripped == "" then "/"
      else
        var b := AfterLastSlash(stripped);
        var j := |stripped|;
        var i := j - |b|;
        assert path[i..j] == stripped[i..j];
        assert i > 0 ==> path[i - 1] == stripped[i - 1];
        b
  }

  /** `s` without its trailing slashes, and nothing else removed. */
  function TrimTrailingSlashes(s: string): (r: string)
    ensures |r| <= |s| && r == s[..|r|]
    ensures forall k :: |r| <= k < |s| ==> s[k] == '/'
    ensures r == [] || r[|r| - 1] != '/'
  {
    if s != [] && s[|s| - 1] == '/' then TrimTrailingSlashes(s[..|s| - 1]) else s
  }

  /** The part after the last '/', or the whole string when it has none. */
  function AfterLastSlash(s: string): (r: string)
    requires s != ""
    ensures '/' !in r
    ensures |r| <= |s| && r == s[|s| - |r|..]
    ensures |r| < |s| ==> s[|s| - |r| - 1] == '/'
    ensures s[|s| - 1] != '/' ==> r != ""
  {
    if '/' !in s then s
    else if s[|s| - 1] == '/' then ""
    else AfterLastSlash(s[..|s| - 1]) + [s[|s| - 1]]
  }

  /** The record of a recorded video (the `webcam-recording` branch). */
  function VideoResource(caller: Caller, form: MultipartForm, f: FormFile, uid: string, filename: string): (c: Resource)
    ensures c.mimeType == "video/webm" && c.tool == "webcam-recorder" && c.expiration == -1
    ensures c.hash == "video-" + BaseName(filename) && c.fileName == BaseName(filename) && c.name == filename
    ensures c.kwSet == KeywordSet(c.keywords) && c.keywords == VideoKeywords(form.keywords)
  {
    var clean := BaseName(filename);
    var keywords := VideoKeywords(form.keywords);
    Resource(caller.scope, "video-" + clean, uid, filename, clean, "video/webm", f.size,
             caller.login, form.creatorUid, "webcam-recorder", keywords, KeywordSet(keywords), -1)
  }

  /** The record of any other multipart upload; a mission package also gets
      the "missionpackage" keyword and the "public" tool. */
  function RegularResource(caller: Caller, form: MultipartForm, f: FormFile, uid: string, filename: string,
                           hash: string, pack: bool): (c: Resource)
    ensures c.hash == hash && c.name == filename && c.fileName == f.filename && c.mimeType == f.contentType
    ensures c.keywords == form.keywords && c.expiration == -1
    ensures c.kwSet == KeywordSet(form.keywords) + (if pack then {"missionpackage"} else {})
    ensures c.tool == if pack then "public" else ""
  {
    var kw := GuardedKeywordSet(form.keywords);
    Resource(caller.scope, hash, uid, filename, f.filename, f.contentType, f.size, caller.login,
             form.creatorUid, if pack then "public" else "", form.keywords,
             if pack then kw + {"missionpackage"} else kw, -1)
  }

  /** `uploadMultipart` as the source has it. `fileErr` is the error of
      opening or copying the upload (None when it worked), `stored` the
      result of storing a regular file and `createErr` the database error.
      When the stored hash differs from a non-empty expected one it returns
      neither a resource nor an error. */
  function UploadMultipartAsWritten(caller: Caller, form: MultipartForm, uid: string, hash: string, filename: string,
                                    pack: bool, fileErr: Option<string>, stored: Stored, createErr: Option<string>): (r: Ret)
    ensures form.file.None? ==> r == Ret(None, Some(NoFormFile))
    ensures r.err.None? && r.res.Some? ==> createErr.None?
  {
    match form.file
    case None => Ret(None, Some(NoFormFile))
    case Some(f) =>
      if Contains(filename, VideoMarker) then
        if fileErr.Some? then Ret(None, fileErr)
        else Ret(Some(VideoResource(caller, form, f, uid, filename)), createErr)
      else if fileErr.Some? then Ret(None, fileErr)
      else match stored
        case StoreFailed(e) => Ret(None, Some(e))
        case StoredAs(hash1) =>
          if hash != "" && hash != hash1 then Ret(None, None)
          else Ret(Some(RegularResource(caller, form, f, uid, filename, hash1, pack)), createErr)
  }

  /** The upload reached the hash comparison and the hashes differ. */
  predicate BadHash(form: MultipartForm, hash: string, filename: string, fileErr: Option<string>, stored: Stored) {
    form.file.Some? && !Contains(filename, VideoMarker) && fileErr.None? && stored.StoredAs?
    && hash != "" && hash != stored.hash
  }

  /** `uploadMultipart` with the hash mismatch reported as an error, as its
      "bad hash" log line intends; every other path is the source's. */
  function UploadMultipart(caller: Caller, form: MultipartForm, uid: string, hash: string, filename: string,
                           pack: bool, fileErr: Option<string>, stored: Stored, createErr: Option<string>): (r: Ret)
    ensures r.res.None? ==> r.err.Some?
    ensures BadHash(form, hash, filename, fileErr, stored) ==> r == Ret(None, Some("bad hash"))
    ensures !BadHash(form, hash, filename, fileErr, stored) ==>
      r == UploadMultipartAsWritten(caller, form, uid, hash, filename, pack, fileErr, stored, createErr)
  {
    if BadHash(form, hash, filename, fileErr, stored) then Ret(None, Some("bad hash"))
    else UploadMultipartAsWritten(caller, form, uid, hash, filename, pack, fileErr, stored, createErr)
  }

  /** As written, a hash mismatch gives a nil resource with a nil error. */
  lemma BadHashReturnsNeither(caller: Caller, form: MultipartForm, uid: string, hash: string, filename: string,
                              pack: bool, stored: Stored, createErr: Option<string>)
    requires BadHash(form, hash, filename, None, stored)
    ensures UploadMultipartAsWritten(caller, form, uid, hash, filename, pack, None, stored, createErr) == Ret(None, None)
  {
  }

  /** A file name mentioning "webcam-recording" is stored as a video: its
      hash is "video-" and the base name, it is WebM, and its keyword set
      holds both video markers beside the client's keywords. */
  lemma VideoUpload(caller: Caller, form: MultipartForm, uid: string, hash: string, filename: string,
                    pack: bool, stored: Stored, createErr: Option<string>)
    requires form.file.Some? && Contains(filename, VideoMarker)
    ensures var r := UploadMultipart(caller, form, uid, hash, filename, pack, None, stored, createErr);
      r.res.Some? && r.err == createErr
      && r.res.value.hash == "video-" + BaseName(filename) && r.res.value.mimeType == "video/webm"
      && r.res.value.kwSet == KeywordSet(form.keywords) + {"video", "webcam-recording"}
  {
    VideoKeywordSet(form.keywords);
  }

  /** A mission package gets the "missionpackage" keyword and the "public"
      tool; any other regular upload with no keywords gets none. */
  lemma RegularUpload(caller: Caller, form: MultipartForm, uid: string, filename: string,
                      pack: bool, hash1: string, createErr: Option<string>)
    requires form.file.Some? && !Contains(filename, VideoMarker)
    ensures var r := UploadMultipart(caller, form, uid, "", filename, pack, None, StoredAs(hash1), createErr);
      r.res.Some? && r.res.value.hash == hash1
      && (pack ==> "missionpackage" in r.res.value.kwSet && r.res.value.tool == "public")
      && (!pack && form.keywords == "" ==> r.res.value.kwSet == {})
  {
    EmptyKeywords();
  }

  /** What storing a raw request body gave: its hash and length, or an
      error. */
  datatype RawStored = RawStoredAs(hash: string, length: int) | RawStoreFailed(err: string)

  /** `uploadFile`: a raw body stored as is, named by the `name` query
      value. */
  function UploadFile(caller: Caller, keywords: string, creatorUid: string, uid: string, filename: string,
                      contentType: string, stored: RawStored, createErr: Option<string>): (r: Ret)
    ensures stored.RawStoreFailed? <==> r.res.None?
    ensures r.res.Some? ==>
      r.err == createErr && r.res.value.fileName == filename && r.res.value.name == filename
      && r.res.value.hash == stored.hash && r.res.value.kwSet == KeywordSet(keywords) && r.res.value.tool == ""
  {
    match stored
    case RawStoreFailed(e) => Ret(None, Some(e))
    case RawStoredAs(hash, n) =>
      var kw := GuardedKeywordSet(keywords);
      Ret(Some(Resource(caller.scope, hash, uid, filename, filename, contentType, n, caller.login,
                        creatorUid, "", keywords, kw, -1)), createErr)
  }

  // ---------------------------------------------------------------------
  // Handlers

  /** An HTTP answer: a status with a text body, a bare status, an error
      handed back to the framework, a Go panic, or a file. */
  datatype Response =
    | Text(code: int, body: string)
    | Code(code: int)
    | Failure(err: string)
    | Panic
    | FileBody(contentType: string, length: int, etag: string)

  const StatusNotAcceptable := 406
  const StatusNotFound := 404
  const StatusOK := 200

  /** `resourceUrl(root, c)`. */
  function ResourceUrl(root: string, hash: string): (url: string)
    ensures StartsWith(url, root) && EndsWith(url, hash)
  {
    var url := root + ContentPath + hash;
    assert url[..|root|] == root;
    assert url[|url| - |hash|..] == hash;
    url
  }

  const ContentPath := "/Marti/sync/content?hash="

  /** The hash named by a resource URL under `root`, if the URL is one. */
  function HashOfUrl(root: string, url: string): (h: Option<string>) {
    if StartsWith(url, root + ContentPath) then Some(url[|root + ContentPath|..]) else None
  }

  /** A resource URL names its hash back. */
  lemma UrlRoundTrip(root: string, hash: string)
    ensures HashOfUrl(root, ResourceUrl(root, hash)) == Some(hash)
  {
    var url := ResourceUrl(root, hash);
    assert url == (root + ContentPath) + hash;
    assert url[..|root + ContentPath|] == root + ContentPath;
  }

  /** The answer to an upload: 406 on an error, otherwise the resource's
      URL; a nil resource without an error is dereferenced and panics. */
  function Answer(r: Ret, base: string): (resp: Response)
    ensures r.err.Some? ==> resp == Code(StatusNotAcceptable)
    ensures r.err.None? && r.res.Some? ==> resp == Text(StatusOK, ResourceUrl(base, r.res.value.hash))
  {
    if r.err.Some? then Code(StatusNotAcceptable)
    else if r.res.None? then Panic
    else Text(StatusOK, ResourceUrl(base, r.res.value.hash))
  }

  const MultipartType := "multipart/form-data"

  /** The upload handler: no `name` is refused with 406 "no name"; a
      multipart body goes through `uploadMultipart`, any other through
      `uploadFile`. */
  function UploadHandler(name: string, uid: string, contentType: string, base: string, caller: Caller,
                         form: MultipartForm, fileErr: Option<string>, stored: Stored,
                         raw: RawStored, createErr: Option<string>): (resp: Response)
    ensures name == "" <==> resp == Text(StatusNotAcceptable, "no name")
    ensures name != "" && StartsWith(contentType, MultipartType) ==>
      resp == Answer(UploadMultipart(caller, form, uid, "", name, false, fileErr, stored, createErr), base)
    ensures name != "" && !StartsWith(contentType, MultipartType) ==>
      resp == Answer(UploadFile(caller, form.keywords, form.creatorUid, uid, name, contentType, raw, createErr), base)
    ensures resp != Panic
  {
    if name == "" then Text(StatusNotAcceptable, "no name")
    else if StartsWith(contentType, MultipartType) then
      Answer(UploadMultipart(caller, form, uid, "", name, false, fileErr, stored, createErr), base)
    else
      Answer(UploadFile(caller, form.keywords, form.creatorUid, uid, name, contentType, raw, createErr), base)
  }

  /** The mission-package upload handler over a given `uploadMultipart`
      result: a missing hash or file name is refused with 406. */
  function MissionUploadAnswer(hash: string, filename: string, queryArgs: string, base: string, r: Ret): (resp: Response)
    ensures hash == "" ==> resp == Text(StatusNotAcceptable, "no hash" + queryArgs)
    ensures hash != "" && filename == "" ==> resp == Text(StatusNotAcceptable, "no filename")
    ensures hash != "" && filename != "" ==> resp == Answer(r, base)
  {
    if hash == "" then Text(StatusNotAcceptable, "no hash" + queryArgs)
    else if filename == "" then Text(StatusNotAcceptable, "no filename")
    else Answer(r, base)
  }

  /** The mission-package upload handler over the corrected upload. */
  function MissionUploadHandler(hash: string, filename: string, queryArgs: string, base: string, caller: Caller,
                                form: MultipartForm, fileErr: Option<string>, stored: Stored,
                                createErr: Option<string>): (resp: Response)
    ensures resp != Panic
  {
    MissionUploadAnswer(hash, filename, queryArgs, base,
      UploadMultipart(caller, form, "", hash, filename, true, fileErr, stored, createErr))
  }

  /** As written, a mission package whose content does not match its hash
      makes the handler dereference the nil resource. */
  lemma MissionUploadAsWrittenPanics(hash: string, filename: string, queryArgs: string, base: string,
                                     caller: Caller, form: MultipartForm, stored: Stored, createErr: Option<string>)
    requires filename != "" && BadHash(form, hash, filename, None, stored)
    ensures MissionUploadAnswer(hash, filename, queryArgs, base,
      UploadMultipartAsWritten(caller, form, "", hash, filename, true, None, stored, createErr)) == Panic
  {
  }

  /** With the mismatch reported, the same request is refused with 406. */
  lemma MissionUploadBadHashRefused(hash: string, filename: string, queryArgs: string, base: string,
                                    caller: Caller, form: MultipartForm, stored: Stored, createErr: Option<string>)
    requires filename != "" && BadHash(form, hash, filename, None, stored)
    ensures MissionUploadHandler(hash, filename, queryArgs, base, caller, form, None, stored, createErr)
      == Code(StatusNotAcceptable)
  {
  }

  /** How reading the stored content went. */
  datatype Fetched = Found | Missing | FetchFailed(err: string)

  /** The content handler: a request with neither hash nor uid is refused
      with 406; no matching record, or no stored content, is 404; otherwise
      the content goes out with its type, length and hash as ETag. The
      content is read (`getFile`) under the hash of the query, not the
      record's, in the record's scope, so a request by uid alone reads the
      hash "". */
  function ContentHandler(hash: string, uid: string, record: Option<Resource>,
                          getFile: (string, string) -> Fetched): (resp: Response)
    ensures hash == "" && uid == "" <==> resp == Text(StatusNotAcceptable, "no hash or uid")
    ensures (hash != "" || uid != "") && record.None? ==> resp == Text(StatusNotFound, "not found")
    ensures resp.FileBody? <==>
      (hash != "" || uid != "") && record.Some? && getFile(hash, record.value.scope).Found?
    ensures resp.FileBody? ==>
      resp == FileBody(record.value.mimeType, record.value.size, record.value.hash)
  {
    if hash == "" && uid == "" then Text(StatusNotAcceptable, "no hash or uid")
    else if record.None? then Text(StatusNotFound, "not found")
    else match getFile(hash, record.value.scope)
      case Missing => Text(StatusNotFound, "not found")
      case FetchFailed(e) => Failure(e)
      case Found => FileBody(record.value.mimeType, record.value.size, record.value.hash)
  }

  // ---------------------------------------------------------------------
  // Search

  /** A resource as the search shows it: one from another scope gets its
      scope appended to its name. */
  function Shown(f: Resource, userScope: string): (g: Resource)
    ensures g == f.(name := g.name)
    ensures f.scope == userScope ==> g.name == f.name
    ensures f.scope != userScope ==> g.name == f.name + " [" + f.scope + "]"
  {
    if f.scope != userScope then f.(name := f.name + " [" + f.scope + "]") else f
  }

  /** Whether the search keeps a resource: always without a keyword,
      otherwise exactly when its keyword set holds it. */
  predicate Kept(f: Resource, kw: string) {
    kw == "" || kw in f.kwSet
  }

  /** The search results, in the order of the query. */
  function SearchResults(files: seq<Resource>, kw: string, userScope: string): (res: seq<Resource>)
    ensures |res| <= |files|
    ensures kw == "" ==> |res| == |files|
  {
    if files == [] then []
    else
      var last := files[|files| - 1];
      SearchResults(files[..|files| - 1], kw, userScope) + (if Kept(last, kw) then [Shown(last, userScope)] else [])
  }

  /** A result is exactly the shown form of a kept resource. */
  lemma {:induction false} SearchMembership(files: seq<Resource>, kw: string, userScope: string, g: Resource)
    ensures g in SearchResults(files, kw, userScope) <==>
      exists f | f in files :: Kept(f, kw) && g == Shown(f, userScope)
  {
    if files != [] {
      var init := files[..|files| - 1];
      SearchMembership(init, kw, userScope, g);
      assert forall f :: f in files <==> f in init || f == files[|files| - 1];
    }
  }

  /** With a keyword, every result carries it. */
  lemma SearchResultsCarryKeyword(files: seq<Resource>, kw: string, userScope: string, g: Resource)
    requires kw != "" && g in SearchResults(files, kw, userScope)
    ensures kw in g.kwSet
  {
    SearchMembership(files, kw, userScope, g);
  }

  /** The search answer: `resultCount` and `results`. */
  datatype SearchAnswer = SearchAnswer(resultCount: int, results: seq<Resource>)

  /** The loop of the search handler over the query's resources. */
  method Search(files: seq<Resource>, kw: string, userScope: string) returns (a: SearchAnswer)
    ensures a.results == SearchResults(files, kw, userScope)
    ensures a.resultCount == |a.results|
  {
    var res: seq<Resource> := [];
    var i := 0;
    while i < |files|
      invariant 0 <= i <= |files|
      invariant res == SearchResults(files[..i], kw, userScope)
    {
      assert files[..i + 1][..i] == files[..i];
      var f := files[i];
      if kw != "" && kw !in f.kwSet {
        i := i + 1;
        continue;
      }
      if f.scope != userScope {
        f := f.(name := f.name + " [" + f.scope + "]");
      }
      res := res + [f];
      i := i + 1;
    }
    assert files[..i] == files;
    a := SearchAnswer(|res|, res);
  }

  // ---------------------------------------------------------------------
  // Answer envelope

  const ApiVersion := "3"
  const NodeId := "main"

  /** `makeAnswer(typ, data)`. */
  function MakeAnswer(typ: string, data: JsValue): (m: map<string, JsValue>)
    ensures m.Keys == {"version", "type", "nodeId", "data"}
    ensures m["version"] == Str(ApiVersion) && m["nodeId"] == Str(NodeId)
    ensures m["type"] == Str(typ) && m["data"] == data
  {
    map["version" := Str(ApiVersion), "type" := Str(typ), "nodeId" := Str(NodeId), "data" := data]
  }
}
