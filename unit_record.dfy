/** What the client computes from a unit record alone: whether an update
    needs its marker icon redrawn (`Unit.needsRedraw` in map.js) and the
    camera and file-repository flags re-derived from a point's `text`
    (the body of `processUnit`). */
module UnitRecord {
  import opened JsValues
  import opened Opt
  import opened StreamType

  /** The fields whose change alters the marker icon. */
  const WatchedFields: set<string> := {"type", "sidc", "status", "speed", "direction", "team", "role"}

  /** `sidc.charAt(2) === 'A'` on a string: an air unit. */
  predicate IsAirSidc(sidc: string) {
    |sidc| > 2 && sidc[2] == 'A'
  }

  /** `needsRedraw`: compares the watched fields of the stored record with the
      incoming one, then, for an air unit, the height. Reading the third
      character of a stored `sidc` that is not a string throws. */
  function NeedsRedraw(stored: Record, incoming: Record): (r: Outcome<bool>)
    ensures r.Threw? ==> !Get(stored, "sidc").Str?
  {
    if Get(stored, "type") != Get(incoming, "type") || Get(stored, "sidc") != Get(incoming, "sidc")
       || Get(stored, "status") != Get(incoming, "status") then Returned(true)
    else if Get(stored, "speed") != Get(incoming, "speed")
       || Get(stored, "direction") != Get(incoming, "direction") then Returned(true)
    else if Get(stored, "team") != Get(incoming, "team") || Get(stored, "role") != Get(incoming, "role") then Returned(true)
    else
      match Get(stored, "sidc")
      case Str(sidc) => Returned(IsAirSidc(sidc) && Get(stored, "hae") != Get(incoming, "hae"))
      case _ => Threw("sidc.charAt is not a function")
  }

  /** A redraw is needed exactly when a watched field differs, or the unit is
      an air unit whose height differs; the call throws exactly when no watched
      field differs and the stored `sidc` is not a string. */
  lemma NeedsRedrawIff(stored: Record, incoming: Record)
    ensures NeedsRedraw(stored, incoming) == Returned(true) <==>
      (exists f :: f in WatchedFields && Get(stored, f) != Get(incoming, f))
      || (Get(stored, "sidc").Str? && IsAirSidc(Get(stored, "sidc").s) && Get(stored, "hae") != Get(incoming, "hae"))
    ensures NeedsRedraw(stored, incoming).Threw? <==>
      (forall f :: f in WatchedFields ==> Get(stored, f) == Get(incoming, f)) && !Get(stored, "sidc").Str?
  {
    if exists f :: f in WatchedFields && Get(stored, f) != Get(incoming, f) {
      var f :| f in WatchedFields && Get(stored, f) != Get(incoming, f);
      assert f in {"type", "sidc", "status", "speed", "direction", "team", "role"};
    }
  }

  /** A move (new `lat`/`lon`) alone never needs a redraw. */
  lemma MoveNeedsNoRedraw(stored: Record, lat: JsValue, lon: JsValue)
    requires Get(stored, "sidc").Str?
    ensures NeedsRedraw(stored, stored["lat" := lat]["lon" := lon]) == Returned(false)
  {
  }

  /** `course` is not watched (the comparison reads `direction`). */
  lemma CourseNotWatched(stored: Record, course: JsValue)
    requires Get(stored, "sidc").Str?
    ensures NeedsRedraw(stored, stored["course" := course]) == Returned(false)
  {
  }

  /** A status change always needs a redraw. */
  lemma StatusChangeRedraws(stored: Record, status: JsValue)
    requires Get(stored, "status") != status
    ensures NeedsRedraw(stored, stored["status" := status]) == Returned(true)
  {
  }

  /** Receiving the stored record again needs no redraw. */
  lemma SameRecordNoRedraw(stored: Record)
    requires Get(stored, "sidc").Str?
    ensures NeedsRedraw(stored, stored) == Returned(false)
  {
  }

  /** `hasCoords`: both `lat` and `lon` truthy (so a coordinate of 0 counts
      as missing). */
  predicate HasCoords(r: Record) {
    Truthy(Get(r, "lat")) && Truthy(Get(r, "lon"))
  }

  const CameraType := "b-m-p-s-p-v"
  const RepositoryType := "b-m-p-s-p-f"

  /** The keys the flag derivation may write. */
  const FlagKeys: set<string> := {"isCamera", "streamUrl", "streamType", "isFileRepository", "repositoryName"}

  /** The incoming record after the flag derivation, and the exception that
      escaped it, if any. */
  datatype Derived = Derived(fields: Record, error: Option<string>)

  /** The `catch` branch for a camera point: mark it a camera and take the
      first http(s)/rtsp URL the text contains (`urlMatch` stands for the
      regular expression). Calling `match` on a text that is not a string
      throws out of `processUnit`. */
  function CameraFallback(u: Record, urlMatch: string -> Option<string>): (d: Derived)
    ensures Get(d.fields, "isCamera") == Bool(true)
    ensures d.fields.Keys <= u.Keys + FlagKeys
    ensures forall k :: k !in FlagKeys ==> Get(d.fields, k) == Get(u, k)
  {
    var marked := u["isCamera" := Bool(true)];
    match Get(u, "text")
    case Str(t) =>
      (match urlMatch(t)
       case None => Derived(marked, None)
       case Some(m) => Derived(marked["streamUrl" := Str(m)]["streamType" := Str(KindName(DetectStreamType(m)))], None))
    case _ => Derived(marked, Some("u.text.match is not a function"))
  }

  /** The camera branch: stream details from the parsed text (`parse` stands
      for `JSON.parse`, `None` for a parse error). Reading a property of a
      parsed `null`, or classifying a stream URL that is not a string,
      throws into the fallback after the writes already made. */
  function CameraFlags(u: Record, parse: JsValue -> Option<JsValue>, urlMatch: string -> Option<string>): (d: Derived)
    ensures d.fields.Keys <= u.Keys + FlagKeys
    ensures forall k :: k !in FlagKeys ==> Get(d.fields, k) == Get(u, k)
  {
    match parse(Get(u, "text"))
    case None => CameraFallback(u, urlMatch)
    case Some(info) =>
      if info.Null? || info.Undefined? then CameraFallback(u, urlMatch)
      else
        var url := Prop(info, "streamUrl");
        if !Truthy(url) then Derived(u, None)
        else
          var marked := u["isCamera" := Bool(true)]["streamUrl" := url];
          var given := Prop(info, "streamType");
          if Truthy(given) then Derived(marked["streamType" := given], None)
          else if url.Str? then Derived(marked["streamType" := Str(KindName(DetectStreamType(url.s)))], None)
          else CameraFallback(marked, urlMatch)
  }

  /** The file-repository branch; a parse failure (or a parsed `null`) names
      the repository after the point's callsign. */
  function RepositoryFlags(u: Record, parse: JsValue -> Option<JsValue>): (r: Record)
    ensures r.Keys <= u.Keys + FlagKeys
    ensures forall k :: k !in FlagKeys ==> Get(r, k) == Get(u, k)
  {
    var fallback := u["isFileRepository" := Bool(true)]["repositoryName" := Get(u, "callsign")];
    match parse(Get(u, "text"))
    case None => fallback
    case Some(info) =>
      if info.Null? || info.Undefined? then fallback
      else
        var name := Prop(info, "repositoryName");
        if Truthy(name) then u["isFileRepository" := Bool(true)]["repositoryName" := name] else u
  }

  predicate IsCameraPoint(u: Record) {
    Get(u, "type") == Str(CameraType) && Truthy(Get(u, "text"))
  }

  predicate IsRepositoryPoint(u: Record) {
    Get(u, "type") == Str(RepositoryType) && Truthy(Get(u, "text"))
  }

  /** The flag derivation `processUnit` applies to the incoming record after
      storing or merging it. Only the flag keys change; only a camera point
      whose text is not a string can throw. */
  function DeriveFlags(u: Record, parse: JsValue -> Option<JsValue>, urlMatch: string -> Option<string>): (d: Derived)
    ensures d.fields.Keys <= u.Keys + FlagKeys
    ensures forall k :: k !in FlagKeys ==> Get(d.fields, k) == Get(u, k)
    ensures d.error.Some? ==> IsCameraPoint(u) && !Get(u, "text").Str?
    ensures !IsCameraPoint(u) && !IsRepositoryPoint(u) ==> d == Derived(u, None)
  {
    var cam := if IsCameraPoint(u) then CameraFlags(u, parse, urlMatch) else Derived(u, None);
    if cam.error.Some? then cam
    else if IsRepositoryPoint(cam.fields) then Derived(RepositoryFlags(cam.fields, parse), None)
    else cam
  }

  /** A camera point whose text parses to an object with a string stream URL
      is marked a camera with that URL, and its stream type is the supplied
      one or, failing that, the classifier's. */
  lemma CameraFromStreamInfo(u: Record, parse: JsValue -> Option<JsValue>, urlMatch: string -> Option<string>,
                             info: map<string, JsValue>)
    requires IsCameraPoint(u) && parse(Get(u, "text")) == Some(Obj(info))
    requires Get(info, "streamUrl").Str? && Get(info, "streamUrl") != Str("")
    ensures var d := DeriveFlags(u, parse, urlMatch);
      && d.error == None
      && Get(d.fields, "isCamera") == Bool(true)
      && Get(d.fields, "streamUrl") == Get(info, "streamUrl")
      && Get(d.fields, "streamType") ==
           (if Truthy(Get(info, "streamType")) then Get(info, "streamType")
            else Str(KindName(DetectStreamType(Get(info, "streamUrl").s))))
  {
  }

  /** A camera point whose text does not parse is still marked a camera, and
      takes the first URL found in the text when there is one. */
  lemma CameraFromPlainText(u: Record, parse: JsValue -> Option<JsValue>, urlMatch: string -> Option<string>, text: string)
    requires Get(u, "type") == Str(CameraType) && Get(u, "text") == Str(text) && text != ""
    requires parse(Str(text)).None?
    ensures var d := DeriveFlags(u, parse, urlMatch);
      && d.error == None
      && Get(d.fields, "isCamera") == Bool(true)
      && (urlMatch(text).Some? ==>
            Get(d.fields, "streamUrl") == Str(urlMatch(text).value)
            && Get(d.fields, "streamType") == Str(KindName(DetectStreamType(urlMatch(text).value))))
      && (urlMatch(text).None? ==> Get(d.fields, "streamUrl") == Get(u, "streamUrl"))
  {
  }

  /** A file-repository point whose text does not parse is named after its
      callsign. */
  lemma RepositoryNamedAfterCallsign(u: Record, parse: JsValue -> Option<JsValue>, urlMatch: string -> Option<string>)
    requires IsRepositoryPoint(u) && parse(Get(u, "text")).None?
    ensures var d := DeriveFlags(u, parse, urlMatch);
      d.error == None && Get(d.fields, "isFileRepository") == Bool(true)
      && Get(d.fields, "repositoryName") == Get(u, "callsign")
  {
  }
}
