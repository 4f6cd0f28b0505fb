/** The file-repository panel of the map client: which of the server's files
    a repository point shows, how uploaded files are named, the upload loop,
    and the icon chosen for a file. */
module Repository {
  import opened JsValues
  import opened Opt
  import opened Text

  /** `v.key` for any value: reading a property of null or undefined throws;
      other values without the property read as undefined. */
  function FieldOf(v: JsValue, key: string): (o: Outcome<JsValue>)
    ensures o.Threw? <==> v.Null? || v.Undefined?
    ensures v.Obj? ==> o == Returned(Get(v.props, key))
  {
    if v.Null? || v.Undefined? then Threw("Cannot read properties of " + (if v.Null? then "null" else "undefined"))
    else Returned(Prop(v, key))
  }

  /** `file.FileName && file.FileName.includes(uid)`: a falsy name does not
      match, a string matches when it contains the uid, an array when it holds
      the uid as an element; any other truthy name has no `includes` and
      throws. */
  function FileNameMatch(name: JsValue, uid: string): (o: Outcome<bool>)
    ensures o.Threw? <==> Truthy(name) && !name.Str? && !name.Arr?
    ensures o == Returned(true) <==>
      (name.Str? && name.s != "" && Contains(name.s, uid)) || (name.Arr? && Str(uid) in name.items)
  {
    if !Truthy(name) then Returned(false)
    else match name
      case Str(s) => Returned(Contains(s, uid))
      case Arr(items) => Returned(Str(uid) in items)
      case _ => Threw("file.FileName.includes is not a function")
  }

  /** The keyword test: a string of keywords matches when it contains the
      uid, an array when one of its string elements contains it; anything
      else never matches. */
  predicate KeywordMatch(keywords: JsValue, uid: string) {
    match keywords
    case Str(s) => s != "" && Contains(s, uid)
    case Arr(items) => exists i | 0 <= i < |items| :: items[i].Str? && Contains(items[i].s, uid)
    case _ => false
  }

  /** The filter callback of `loadRepositoryFiles`: the file name test,
      then the keyword test. */
  function FileMatch(file: JsValue, uid: string): (o: Outcome<bool>)
    ensures o.Threw? <==> file.Null? || file.Undefined? || FileNameMatch(Prop(file, "FileName"), uid).Threw?
    ensures o == Returned(true) <==>
      !file.Null? && !file.Undefined?
      && (FileNameMatch(Prop(file, "FileName"), uid) == Returned(true)
          || (FileNameMatch(Prop(file, "FileName"), uid) == Returned(false) && KeywordMatch(Prop(file, "Keywords"), uid)))
  {
    if file.Null? || file.Undefined? then Threw("Cannot read properties of " + (if file.Null? then "null" else "undefined"))
    else match FileNameMatch(Prop(file, "FileName"), uid)
      case Threw(r) => Threw(r)
      case Returned(b) => Returned(b || KeywordMatch(Prop(file, "Keywords"), uid))
  }

  /** `allFiles.filter(...)`: the matching files in their order, or the
      first exception of the callback. */
  function FilterFiles(files: seq<JsValue>, uid: string): (o: Outcome<seq<JsValue>>)
    ensures o.Threw? <==> exists i | 0 <= i < |files| :: FileMatch(files[i], uid).Threw?
    ensures o.Returned? ==> |o.value| <= |files|
    ensures o.Returned? ==> forall x :: x in o.value <==> x in files && FileMatch(x, uid) == Returned(true)
  {
    if files == [] then Returned([])
    else match FileMatch(files[0], uid)
      case Threw(r) => Threw(r)
      case Returned(b) =>
        match FilterFiles(files[1..], uid)
        case Threw(r) =>
          assert forall x :: x in files[1..] ==> x in files;
          Threw(r)
        case Returned(rest) =>
          assert forall x :: x in files <==> x == files[0] || x in files[1..];
          Returned(if b then [files[0]] + rest else rest)
  }

  /** The debug log over the first five files reads `file.Hash.length` and,
      for a value longer than 40, calls `substring` on it: a missing hash
      throws, and so do an array of more than 40 elements and an object
      whose `length` is a number above 40 (neither has `substring`). */
  predicate HashLogThrows(file: JsValue) {
    file.Null? || file.Undefined?
    || var h := Prop(file, "Hash");
       h.Null? || h.Undefined? || (h.Arr? && |h.items| > 40)
       || (h.Obj? && Get(h.props, "length").Num? && Get(h.props, "length").n > 40.0)
  }

  /** How the search request ended: the fetch failed, the server answered
      with an error status, or with a body that is JSON (`Some`) or not. */
  datatype SearchReply = Unreachable | NotOk(status: int) | Ok(body: Option<JsValue>)

  /** The files of a search answer that the client iterates over: the
      `results` array of a JSON object; anything else gives none. */
  function ServerFiles(reply: SearchReply): (files: seq<JsValue>)
    ensures files != [] ==> reply.Ok? && reply.body.Some? && reply.body.value.Obj?
                            && Prop(reply.body.value, "results") == Arr(files)
  {
    if reply.Ok? && reply.body.Some? && !reply.body.value.Null? && !reply.body.value.Undefined?
       && Prop(reply.body.value, "results").Arr?
    then Prop(reply.body.value, "results").items
    else []
  }

  /** `loadRepositoryFiles(uid)`: the new `repositoryFiles`. Any failure,
      including an exception of the debug log or of the filter, leaves the
      list empty. */
  function LoadedFiles(reply: SearchReply, uid: string): (shown: seq<JsValue>)
    ensures forall x :: x in shown ==> x in ServerFiles(reply) && FileMatch(x, uid) == Returned(true)
    ensures ((exists i | 0 <= i < |ServerFiles(reply)| && i < 5 :: HashLogThrows(ServerFiles(reply)[i]))
             || FilterFiles(ServerFiles(reply), uid).Threw?) ==> shown == []
  {
    var all := ServerFiles(reply);
    if all == [] then []
    else if exists i | 0 <= i < |all| && i < 5 :: HashLogThrows(all[i]) then []
    else match FilterFiles(all, uid)
      case Threw(_) => []
      case Returned(fs) => fs
  }

  /** A first file whose `Hash` is an object with a `length` above 40 makes
      the debug log throw, so the panel shows no file at all, not even that
      matching one. */
  lemma HashObjectEmptiesPanel(uid: string, name: string)
    ensures var hash := Obj(map["length" := Num(41.0)]);
      var file := Obj(map["FileName" := Str(UploadName(uid, name)), "Hash" := hash]);
      FileMatch(file, uid) == Returned(true)
      && LoadedFiles(Ok(Some(Obj(map["results" := Arr([file])]))), uid) == []
  {
    var hash := Obj(map["length" := Num(41.0)]);
    var fields := map["FileName" := Str(UploadName(uid, name)), "Hash" := hash];
    UploadedFileMatches(uid, name, fields);
    var reply := Ok(Some(Obj(map["results" := Arr([Obj(fields)])])));
    assert ServerFiles(reply) == [Obj(fields)];
    assert HashLogThrows(ServerFiles(reply)[0]);
  }

  /** When neither the debug log nor the filter throws, every matching file
      of the server's answer is shown. */
  lemma LoadedFilesComplete(reply: SearchReply, uid: string, x: JsValue)
    requires forall i | 0 <= i < |ServerFiles(reply)| && i < 5 :: !HashLogThrows(ServerFiles(reply)[i])
    requires forall i | 0 <= i < |ServerFiles(reply)| :: FileMatch(ServerFiles(reply)[i], uid).Returned?
    requires x in ServerFiles(reply) && FileMatch(x, uid) == Returned(true)
    ensures x in LoadedFiles(reply, uid)
  {
  }

  /** The name under which a file is uploaded to a repository. */
  function UploadName(uid: string, name: string): string {
    uid + "_" + name
  }

  /** `fileName.replace(/^[^_]*_/, '')`: everything up to and including the
      first underscore is dropped; a name without one is kept. */
  function DisplayName(fileName: string): (r: string)
    ensures '_' !in fileName ==> r == fileName
    ensures '_' in fileName ==> exists k | 0 <= k < |fileName| ::
      '_' !in fileName[..k] && fileName[k] == '_' && r == fileName[k + 1..]
  {
    if '_' in fileName then fileName[IndexOf(fileName, '_') + 1..] else fileName
  }

  /** The first `c` of `a + [c] + b` is right after `a` when `a` has none. */
  lemma {:induction false} IndexAfterPrefix(a: string, c: char, b: string)
    requires c !in a
    ensures c in a + [c] + b && IndexOf(a + [c] + b, c) == |a|
  {
    var s := a + [c] + b;
    assert s[|a|] == c;
    if a != [] {
      assert s[1..] == a[1..] + [c] + b;
      IndexAfterPrefix(a[1..], c, b);
    }
  }

  /** The first `c` of `a + b` is the first of `a` when `a` has one. */
  lemma {:induction false} IndexInPrefix(a: string, b: string, c: char)
    requires c in a
    ensures c in a + b && IndexOf(a + b, c) == IndexOf(a, c)
  {
    var s := a + b;
    assert s[IndexOf(a, c)] == c;
    if a[0] != c {
      assert s[1..] == a[1..] + b;
      IndexInPrefix(a[1..], b, c);
    }
  }

  /** The display name recovers the original file name exactly when the
      repository uid has no underscore. */
  lemma DisplayOfUploadName(uid: string, name: string)
    ensures DisplayName(UploadName(uid, name)) == name <==> '_' !in uid
  {
    var s := UploadName(uid, name);
    if '_' !in uid {
      IndexAfterPrefix(uid, '_', name);
      assert s[|uid| + 1..] == name;
    } else {
      IndexInPrefix(uid, "_" + name, '_');
      assert s == uid + ("_" + name);
      assert |DisplayName(s)| > |name|;
    }
  }

  /** An uploaded file's name contains the repository uid, so the file name
      test shows it in that repository. */
  lemma UploadedFileMatches(uid: string, name: string, file: map<string, JsValue>)
    requires Get(file, "FileName") == Str(UploadName(uid, name))
    ensures FileMatch(Obj(file), uid) == Returned(true)
  {
    ContainsInConcat([], uid, "_" + name);
    assert [] + uid + ("_" + name) == UploadName(uid, name);
  }

  /** The 60 MiB limit the client applies before uploading. */
  const MaxUploadSize: nat := 60 * 1024 * 1024

  /** A file picked for upload. */
  datatype LocalFile = LocalFile(name: string, size: nat)

  /** The multipart request sent for one file. */
  datatype UploadRequest = UploadRequest(name: string, keywords: string, creatorUid: Option<JsValue>, submissionUser: Option<JsValue>)

  /** How the upload request for a file ended. */
  datatype UploadReply = Accepted | Refused(status: int) | Broken(message: string)

  datatype FailReason = TooLarge | HttpStatus(code: int) | Error(message: string)

  /** Where a file landed: the success list or the failure list. */
  datatype Landing = Succeeded(name: string) | Failed(name: string, reason: FailReason)

  /** `config.<key>` when `config && config.<key>` is truthy. */
  function ConfigValue(config: JsValue, key: string): (v: Option<JsValue>)
    ensures v.Some? ==> Truthy(v.value)
  {
    if Truthy(config) && Truthy(Prop(config, key)) then Some(Prop(config, key)) else None
  }

  /** The request for one file of an upload to repository `uid`. */
  function RequestFor(uid: string, f: LocalFile, config: JsValue): (req: UploadRequest)
    ensures req.keywords == uid && DisplayName(req.name) == f.name <== '_' !in uid
  {
    DisplayOfUploadName(uid, f.name);
    UploadRequest(UploadName(uid, f.name), uid, ConfigValue(config, "uid"), ConfigValue(config, "callsign"))
  }

  /** Where a file lands given the server's reply to its request (a file
      over the limit is never sent). */
  function Land(f: LocalFile, reply: UploadReply): (l: Landing)
    ensures l.name == f.name
    ensures f.size > MaxUploadSize ==> l == Failed(f.name, TooLarge)
  {
    if f.size > MaxUploadSize then Failed(f.name, TooLarge)
    else match reply
      case Accepted => Succeeded(f.name)
      case Refused(status) => Failed(f.name, HttpStatus(status))
      case Broken(message) => Failed(f.name, Error(message))
  }

  /** The landing of every file, the i-th reply coming from `respond(i, …)`. */
  function Landings(uid: string, files: seq<LocalFile>, config: JsValue, respond: (nat, UploadRequest) -> UploadReply): (ls: seq<Landing>)
    ensures |ls| == |files|
  {
    seq(|files|, i requires 0 <= i < |files| => Land(files[i], respond(i, RequestFor(uid, files[i], config))))
  }

  function SuccessNames(ls: seq<Landing>): seq<string> {
    if ls == [] then []
    else SuccessNames(ls[..|ls| - 1]) + (if ls[|ls| - 1].Succeeded? then [ls[|ls| - 1].name] else [])
  }

  function Failures(ls: seq<Landing>): seq<Landing> {
    if ls == [] then []
    else Failures(ls[..|ls| - 1]) + (if ls[|ls| - 1].Failed? then [ls[|ls| - 1]] else [])
  }

  /** The requests sent: one per file within the limit, in order. */
  function Requests(uid: string, files: seq<LocalFile>, config: JsValue): (reqs: seq<UploadRequest>)
    ensures |reqs| <= |files|
    ensures forall r | r in reqs :: (r.keywords == uid
      && exists f | f in files :: f.size <= MaxUploadSize && r.name == UploadName(uid, f.name))
  {
    if files == [] then []
    else
      var last := files[|files| - 1];
      var init := Requests(uid, files[..|files| - 1], config);
      assert forall f | f in files[..|files| - 1] :: f in files;
      init + (if last.size <= MaxUploadSize then [RequestFor(uid, last, config)] else [])
  }

  /** Every file lands in exactly one of the two lists. */
  lemma {:induction false} EveryFileLandsOnce(ls: seq<Landing>)
    ensures |SuccessNames(ls)| + |Failures(ls)| == |ls|
  {
    if ls != [] {
      EveryFileLandsOnce(ls[..|ls| - 1]);
    }
  }

  /** Every failed landing is in the failure list. */
  lemma {:induction false} FailedLandsInFailures(ls: seq<Landing>, i: nat)
    requires i < |ls| && ls[i].Failed?
    ensures ls[i] in Failures(ls)
  {
    if i < |ls| - 1 {
      FailedLandsInFailures(ls[..|ls| - 1], i);
    }
  }

  /** A file over the limit always ends among the failures, with the size
      reason, whatever the server would have answered. */
  lemma TooLargeFails(uid: string, files: seq<LocalFile>, config: JsValue,
                      respond: (nat, UploadRequest) -> UploadReply, i: nat)
    requires i < |files| && files[i].size > MaxUploadSize
    ensures Failed(files[i].name, TooLarge) in Failures(Landings(uid, files, config, respond))
  {
    var ls := Landings(uid, files, config, respond);
    assert ls[i] == Land(files[i], respond(i, RequestFor(uid, files[i], config)));
    FailedLandsInFailures(ls, i);
  }

  /** One more landing extends the two lists by that landing alone. */
  lemma LandingStep(ls: seq<Landing>, i: nat)
    requires i < |ls|
    ensures SuccessNames(ls[..i + 1]) == SuccessNames(ls[..i]) + (if ls[i].Succeeded? then [ls[i].name] else [])
    ensures Failures(ls[..i + 1]) == Failures(ls[..i]) + (if ls[i].Failed? then [ls[i]] else [])
  {
    assert ls[..i + 1][..i] == ls[..i];
  }

  /** One more file extends the requests by its request, if it is sent. */
  lemma RequestStep(uid: string, files: seq<LocalFile>, config: JsValue, i: nat)
    requires i < |files|
    ensures Requests(uid, files[..i + 1], config) == Requests(uid, files[..i], config)
      + (if files[i].size <= MaxUploadSize then [RequestFor(uid, files[i], config)] else [])
  {
    assert files[..i + 1][..i] == files[..i];
  }

  /** The body of the upload loop for the i-th file: the size check, then
      the request and the reply to it. */
  method UploadOne(uid: string, f: LocalFile, i: nat, config: JsValue, respond: (nat, UploadRequest) -> UploadReply)
    returns (l: Landing, req: Option<UploadRequest>)
    ensures l == Land(f, respond(i, RequestFor(uid, f, config)))
    ensures req == if f.size <= MaxUploadSize then Some(RequestFor(uid, f, config)) else None
  {
    if f.size > MaxUploadSize {
      return Failed(f.name, TooLarge), None;
    }
    var request := RequestFor(uid, f, config);
    req := Some(request);
    match respond(i, request) {
      case Accepted => l := Succeeded(f.name);
      case Refused(status) => l := Failed(f.name, HttpStatus(status));
      case Broken(message) => l := Failed(f.name, Error(message));
    }
  }

  /** The loop of `uploadFilesToRepository` over the selected files: the
      success names, the failures and the requests sent, each in file order. */
  method UploadAll(uid: string, files: seq<LocalFile>, config: JsValue, respond: (nat, UploadRequest) -> UploadReply)
    returns (successes: seq<string>, failures: seq<Landing>, sent: seq<UploadRequest>)
    ensures successes == SuccessNames(Landings(uid, files, config, respond))
    ensures failures == Failures(Landings(uid, files, config, respond))
    ensures sent == Requests(uid, files, config)
  {
    ghost var ls := Landings(uid, files, config, respond);
    successes, failures, sent := [], [], [];
    var i := 0;
    while i < |files|
      invariant 0 <= i <= |files|
      invariant successes == SuccessNames(ls[..i]) && failures == Failures(ls[..i])
      invariant sent == Requests(uid, files[..i], config)
    {
      var l, req := UploadOne(uid, files[i], i, config, respond);
      LandingStep(ls, i);
      RequestStep(uid, files, config, i);
      match l {
        case Succeeded(name) => successes := successes + [name];
        case Failed(_, _) => failures := failures + [l];
      }
      if req.Some? {
        sent := sent + [req.value];
      }
      i := i + 1;
    }
    assert ls[..i] == ls;
    assert files[..i] == files;
  }

  /** The outcome of `uploadFilesToRepository`. */
  datatype UploadResult =
    | NothingSelected
    | NoRepository
    | Completed(successes: seq<string>, failures: seq<Landing>, sent: seq<UploadRequest>)

  /** The repository currently open in the panel. */
  datatype OpenRepository = OpenRepository(uid: string, name: JsValue, visible: bool)

  const RepositoryType := "b-m-p-s-p-f"

  /** The panel's state in the client. */
  class RepositoryPanel {
    var currentRepository: Option<OpenRepository>
    var repositoryFiles: seq<JsValue>
    /** None when `selectedFiles` is null. */
    var selectedFiles: Option<seq<LocalFile>>
    var isUploading: bool
    var uploadProgress: nat

    constructor ()
      ensures currentRepository == None && repositoryFiles == [] && selectedFiles == None
      ensures !isUploading && uploadProgress == 0
    {
      currentRepository := None;
      repositoryFiles := [];
      selectedFiles := None;
      isUploading := false;
      uploadProgress := 0;
    }

    /** `loadRepositoryFiles(uid)` once the search request has ended. */
    method LoadRepositoryFiles(uid: string, reply: SearchReply)
      modifies this`repositoryFiles
      ensures repositoryFiles == LoadedFiles(reply, uid)
    {
      repositoryFiles := LoadedFiles(reply, uid);
    }

    /** `showFileRepository(unit)`: only a repository point (flagged, or of
        the repository type) opens the panel, named after its repository
        name or else its callsign, and loads its files. */
    method ShowFileRepository(uid: string, unit: Record, reply: SearchReply) returns (shown: bool)
      modifies this`currentRepository, this`repositoryFiles
      ensures shown <==> Truthy(Get(unit, "isFileRepository")) || Get(unit, "type") == Str(RepositoryType)
      ensures !shown ==> currentRepository == old(currentRepository) && repositoryFiles == old(repositoryFiles)
      ensures shown ==> (currentRepository.Some? && currentRepository.value.uid == uid && currentRepository.value.visible
        && currentRepository.value.name ==
             (if Truthy(Get(unit, "repositoryName")) then Get(unit, "repositoryName") else Get(unit, "callsign"))
        && repositoryFiles == LoadedFiles(reply, uid))
    {
      if !Truthy(Get(unit, "isFileRepository")) && Get(unit, "type") != Str(RepositoryType) {
        return false;
      }
      var name := if Truthy(Get(unit, "repositoryName")) then Get(unit, "repositoryName") else Get(unit, "callsign");
      currentRepository := Some(OpenRepository(uid, name, true));
      LoadRepositoryFiles(uid, reply);
      shown := true;
    }

    /** `handleFileSelection`. */
    method SelectFiles(files: seq<LocalFile>)
      modifies this`selectedFiles
      ensures selectedFiles == Some(files)
    {
      selectedFiles := Some(files);
    }

    /** `closeFileRepository`. */
    method CloseFileRepository()
      modifies this`currentRepository, this`repositoryFiles, this`selectedFiles, this`uploadProgress, this`isUploading
      ensures currentRepository == None && repositoryFiles == [] && selectedFiles == Some([])
      ensures uploadProgress == 0 && !isUploading
    {
      currentRepository := None;
      repositoryFiles := [];
      selectedFiles := Some([]);
      uploadProgress := 0;
      isUploading := false;
    }

    /** `uploadFilesToRepository`: with files selected and a repository
        open, each file is checked against the size limit and, within it,
        sent as `<uid>_<name>` with the uid as keyword; its reply decides
        which list it joins. Afterwards the upload flags are reset and the
        selection cleared. */
    method UploadFilesToRepository(config: JsValue, respond: (nat, UploadRequest) -> UploadReply) returns (r: UploadResult)
      modifies this`isUploading, this`uploadProgress, this`selectedFiles
      ensures old(selectedFiles).None? || old(selectedFiles) == Some([]) <==> r == NothingSelected
      ensures r == NothingSelected || r == NoRepository ==>
        isUploading == old(isUploading) && uploadProgress == old(uploadProgress) && selectedFiles == old(selectedFiles)
      ensures r == NoRepository <==> r != NothingSelected && currentRepository.None?
      ensures r.Completed? ==>
        var uid := currentRepository.value.uid;
        var files := old(selectedFiles).value;
        var ls := Landings(uid, files, config, respond);
        r.successes == SuccessNames(ls) && r.failures == Failures(ls) && r.sent == Requests(uid, files, config)
        && !isUploading && uploadProgress == 0 && selectedFiles.None?
    {
      if selectedFiles.None? || selectedFiles.value == [] {
        return NothingSelected;
      }
      if currentRepository.None? {
        return NoRepository;
      }
      isUploading := true;
      var uid := currentRepository.value.uid;
      var successes, failures, sent := UploadAll(uid, selectedFiles.value, config, respond);
      isUploading := false;
      uploadProgress := 0;
      selectedFiles := None;
      r := Completed(successes, failures, sent);
    }
  }

  /** The icon names `getFileIcon` chooses from. */
  const Icons: set<string> := {"bi-file-earmark", "bi-file-play", "bi-file-image", "bi-file-music", "bi-file-pdf"}

  /** `getFileIcon(file)` on the file's `MIMEType`: by the video/, image/ and
      audio/ prefixes, then by "pdf" anywhere; a missing type gives the
      generic icon and a truthy type that is not a string throws. */
  function FileIcon(mime: JsValue): (o: Outcome<string>)
    ensures o.Threw? <==> Truthy(mime) && !mime.Str?
    ensures o.Returned? ==> o.value in Icons
    ensures !Truthy(mime) ==> o == Returned("bi-file-earmark")
  {
    if !Truthy(mime) then Returned("bi-file-earmark")
    else match mime
      case Str(t) =>
        if StartsWith(t, "video/") then Returned("bi-file-play")
        else if StartsWith(t, "image/") then Returned("bi-file-image")
        else if StartsWith(t, "audio/") then Returned("bi-file-music")
        else if Contains(t, "pdf") then Returned("bi-file-pdf")
        else Returned("bi-file-earmark")
      case _ => Threw("file.MIMEType.startsWith is not a function")
  }

  /** A string starts with any prefix it was built from. */
  lemma StartsWithConcat(a: string, b: string)
    ensures StartsWith(a + b, a)
  {
    assert (a + b)[..|a|] == a;
  }

  /** Strings that differ at some position of the prefix do not start with
      it. */
  lemma CharDiffers(s: string, prefix: string, i: nat)
    requires i < |s| && i < |prefix| && s[i] != prefix[i]
    ensures !StartsWith(s, prefix)
  {
  }

  /** Every video type gets the play icon. */
  lemma VideoIcon(sub: string)
    ensures FileIcon(Str("video/" + sub)) == Returned("bi-file-play")
  {
    StartsWithConcat("video/", sub);
  }

  /** Every image type gets the image icon. */
  lemma ImageIcon(sub: string)
    ensures FileIcon(Str("image/" + sub)) == Returned("bi-file-image")
  {
    var t := "image/" + sub;
    CharDiffers(t, "video/", 0);
    StartsWithConcat("image/", sub);
  }

  /** Every audio type gets the music icon. */
  lemma AudioIcon(sub: string)
    ensures FileIcon(Str("audio/" + sub)) == Returned("bi-file-music")
  {
    var t := "audio/" + sub;
    CharDiffers(t, "video/", 0);
    CharDiffers(t, "image/", 0);
    StartsWithConcat("audio/", sub);
  }

  /** An application type mentioning "pdf" gets the PDF icon. */
  lemma PdfIcon(sub: string)
    ensures FileIcon(Str("application/" + sub + "pdf")) == Returned("bi-file-pdf")
  {
    var t := "application/" + sub + "pdf";
    CharDiffers(t, "video/", 0);
    CharDiffers(t, "image/", 0);
    CharDiffers(t, "audio/", 1);
    ContainsInConcat("application/" + sub, "pdf", "");
    assert "application/" + sub + "pdf" + "" == t;
  }
}
