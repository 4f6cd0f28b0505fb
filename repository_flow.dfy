/** How a file the map client uploads to a repository point comes back to
    the repository panel: the client names the file `uid + "_" + name` and
    sends the repository uid as its keywords; the server stores the part's
    file name; the panel fetches the search without a keyword, which returns
    every resource, keeps the files whose `FileName` (or `Keywords`) holds
    the repository uid, and shows each `FileName` with the prefix up to the
    first '_' stripped. The server's DTO (`model.ToResourceDTO`) is not part
    of this model: the panel's view of a result is taken as any object that
    carries the resource's file name as its `FileName`. */
module RepositoryFlow {
  import opened Opt
  import opened Text
  import opened JsValues
  import R = Repository
  import M = MartiApi

  /** The multipart form the server sees for a client upload request. The
      part's file name arrives unchanged: the browser's escaping of quotes
      and line breaks and the multipart parser's reduction of the name to
      its last '/'-separated element are not modelled. */
  function FormOf(req: R.UploadRequest, creatorUid: string, contentType: string, size: int): (form: M.MultipartForm)
    ensures form.keywords == req.keywords && form.file.Some?
  {
    M.MultipartForm(req.keywords, creatorUid, Some(M.FormFile(req.name, contentType, size)))
  }

  /** A file uploaded to a repository is stored under its upload name, is
      returned by the keyword-less search the panel issues, passes the
      panel's filter for that repository, and, when the repository uid has
      no '_', is shown under its original name. */
  lemma UploadedFileShownInPanel(uid: string, f: R.LocalFile, config: JsValue,
                                 caller: M.Caller, serverUid: string, creatorUid: string, contentType: string,
                                 hash1: string, createErr: Option<string>, dto: map<string, JsValue>)
    requires !Contains(R.UploadName(uid, f.name), M.VideoMarker)
    ensures var req := R.RequestFor(uid, f, config);
      var r := M.UploadMultipart(caller, FormOf(req, creatorUid, contentType, f.size), serverUid, "", req.name,
                                 false, None, M.StoredAs(hash1), createErr);
      r.err.None? && r.res.Some? ==>
        var found := M.SearchResults([r.res.value], "", caller.scope);
        && |found| == 1 && found[0].fileName == R.UploadName(uid, f.name)
        && (Get(dto, "FileName") == Str(found[0].fileName) ==> R.FileMatch(Obj(dto), uid) == Returned(true))
        && (R.DisplayName(found[0].fileName) == f.name <==> '_' !in uid)
    ensures var req := R.RequestFor(uid, f, config);
      createErr.None? ==>
        M.UploadMultipart(caller, FormOf(req, creatorUid, contentType, f.size), serverUid, "", req.name,
                          false, None, M.StoredAs(hash1), createErr).res.Some?
  {
    var req := R.RequestFor(uid, f, config);
    var r := M.UploadMultipart(caller, FormOf(req, creatorUid, contentType, f.size), serverUid, "", req.name,
                               false, None, M.StoredAs(hash1), createErr);
    if r.err.None? && r.res.Some? {
      var c := r.res.value;
      var found := M.SearchResults([c], "", caller.scope);
      assert [c][..0] == [];
      assert found == [M.Shown(c, caller.scope)];
      if Get(dto, "FileName") == Str(found[0].fileName) {
        R.UploadedFileMatches(uid, f.name, dto);
      }
      R.DisplayOfUploadName(uid, f.name);
    }
  }
}
