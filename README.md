# GoATAK web map client, file repository and remote API: a Dafny model

This project models three parts of GoATAK, a TAK server with a browser map client:

- **The browser map client** (`staticfiles/static/js/map.js`). It keeps a store of units, keyed by uid. The store is reconciled from full snapshots and from WebSocket push frames. The client also models:
  - the current-unit selection and the multi-select set;
  - the pure string helpers: the stream-URL classifier, the CoT type to SIDC builder, the type-tree walkers and the file icon;
  - the edit form;
  - the chat badge counters;
  - the bookkeeping of the webcam streams it publishes;
  - the file-repository panel, which filters, names and uploads files.
- **The server's file repository API** (`cmd/goatak_server/marti_api.go`). An upload becomes a resource record with a keyword set. A search by keyword filters those records. The API also validates upload and content requests and builds the resource URL and the answer envelope.
- **The command-line client's URL builder** (`cmd/webclient/api.go`).

Conventions of the model:

- JavaScript values are modelled by `JsValues.JsValue`, and a JavaScript exception by `Outcome.Threw`.
- Objects the client mutates in place are classes: `JsObject`, `Unit`, `MapApp`, `ChatState`, `StreamBooks` and `RepositoryPanel`.
- The results of the network, WebRTC, `JSON.parse`, the URL regular expression, the database and the file store are parameters.
- Go's `(value, error)` pairs are datatypes with both halves optional.

Files:

| file | module | models |
|---|---|---|
| js_values.dfy | JsValues | JavaScript values, truthiness, property reads, mutable objects, exceptions |
| option.dfy | Opt | the optional value |
| text.dfy | Text | prefixes, substrings, `split`/`join`, Go's `strings.TrimSpace`, ASCII case mapping |
| stream_type.dfy | StreamType | `detectStreamType` |
| sidc.dfy | Sidc | `sidcFromType`, `getRootSidc`, `getSidc` |
| unit_record.dfy | UnitRecord | `needsRedraw` and the camera / repository flags `processUnit` derives |
| edit_form.dfy | EditForm | `formFromUnit` and `saveEditForm` on records |
| unit_store.dfy | UnitStore | `Unit`, the unit store, the selection, `processUnit(s)`, `processWS`, `removeUnit`, `clearAllPoints`, polling |
| chat.dfy | Chat | `msgNum`, `msgNum1`, `openChat` |
| publishers.dfy | Publishers | `activePublishers`, `myActiveStreams`, `activeStreamStatus` |
| repository.dfy | Repository | the repository panel: filter, names, upload loop, icons |
| marti_api.dfy | MartiApi | keyword sets, uploads, search, handlers, `resourceUrl`, `makeAnswer` |
| web_client.dfy | WebClient | `RemoteAPI.getURL` |
| repository_flow.dfy | RepositoryFlow | a client upload followed through the server's store and search, and back to the panel's filter and display |

## Model

| member | source | states |
|---|---|---|
| UnitStore.Unit.constructor | staticfiles/static/js/map.js:2308-2313 | A new unit wraps the very record it is given, takes its uid, and has a marker exactly when the record has coordinates |
| UnitStore.Unit.RemoveMarker | staticfiles/static/js/map.js:2360-2366 | The marker is gone; `redraw` is untouched |
| UnitStore.Unit.UpdateMarker | staticfiles/static/js/map.js:2368-2414 | A marker is held exactly when the record has coordinates; `redraw` is reset when it is held and kept otherwise |
| UnitStore.Unit.Update | staticfiles/static/js/map.js:2315-2329 | Another uid throws "wrong uid" and changes nothing; a throwing `needsRedraw` changes nothing; otherwise every key of the incoming record overwrites the stored one (the other keys stay), `redraw` is the comparison's verdict and the marker follows the coordinates; the incoming record is not changed |
| UnitRecord.NeedsRedrawIff | staticfiles/static/js/map.js:2331-2338 | A redraw is needed iff type, sidc, status, speed, direction, team or role differs, or the stored sidc's third character is 'A' and `hae` differs; the call throws iff no watched field differs and the stored sidc is not a string |
| UnitRecord.NeedsRedraw | staticfiles/static/js/map.js:2331-2338 | The comparison throws only when the stored `sidc` is not a string (its `charAt` is missing) |
| UnitRecord.MoveNeedsNoRedraw | staticfiles/static/js/map.js:2331-2338 | A change of `lat`/`lon` alone needs no redraw |
| UnitRecord.CourseNotWatched | staticfiles/static/js/map.js:2333 | A change of `course` alone needs no redraw, since the comparison reads `direction` |
| UnitRecord.StatusChangeRedraws | staticfiles/static/js/map.js:2332 | A status change always needs a redraw |
| UnitRecord.SameRecordNoRedraw | staticfiles/static/js/map.js:2331-2338 | The stored record received again needs no redraw |
| UnitRecord.CameraFallback | staticfiles/static/js/map.js:272-284 | A camera point whose text does not parse is marked a camera; only the flag keys change |
| UnitRecord.CameraFlags | staticfiles/static/js/map.js:258-285 | The camera branch changes only the flag keys of the record |
| UnitRecord.RepositoryFlags | staticfiles/static/js/map.js:288-302 | The repository branch changes only the flag keys of the record |
| UnitRecord.DeriveFlags | staticfiles/static/js/map.js:257-302 | Only the flag keys change; only a camera point whose text is not a string can throw; any other type, or a record without text, is left as it is |
| UnitRecord.CameraFromStreamInfo | staticfiles/static/js/map.js:258-271 | A camera text that parses to an object with a stream URL gives `isCamera`, that URL, and the supplied stream type or else the classifier's |
| UnitRecord.CameraFromPlainText | staticfiles/static/js/map.js:272-284 | A camera text that does not parse still gives `isCamera`; the first URL the regular expression finds becomes the stream URL, classified; without a match the stream URL is untouched |
| UnitRecord.RepositoryNamedAfterCallsign | staticfiles/static/js/map.js:295-301 | A repository text that does not parse names the repository after the callsign |
| UnitStore.Toggled | staticfiles/static/js/map.js:1528-1532 | The toggled uid changes membership, every other uid keeps it |
| UnitStore.ToggledTwice | staticfiles/static/js/map.js:1528-1532 | Toggling the same uid twice restores the selection |
| UnitStore.WriteFlags | staticfiles/static/js/map.js:257-302 | The derived flags are written onto the incoming object, whose uid is unchanged, and the escaping exception is returned |
| UnitStore.WriteForm | staticfiles/static/js/map.js:1662-1673 | The record becomes the saved fields of the form; its uid is unchanged |
| UnitStore.DeleteRequests | staticfiles/static/js/map.js:1580-1594 | One DELETE request per collected uid, in order |
| UnitStore.MapApp.constructor | staticfiles/static/js/map.js:4-60 | The store, selection, counters and request log start empty and the store invariant holds |
| UnitStore.MapApp.Insert | staticfiles/static/js/map.js:250-252 | A new uid gets exactly one new entry: a fresh unit that wraps the incoming object |
| UnitStore.MapApp.Merge | staticfiles/static/js/map.js:253-255 | An existing uid: the stored record receives every incoming key unless `needsRedraw` throws, in which case nothing changes |
| UnitStore.MapApp.FlagIncoming | staticfiles/static/js/map.js:257-302 | The flags are derived onto the incoming object and the store stays keyed by uid |
| UnitStore.MapApp.AddUnit | staticfiles/static/js/map.js:246-309 | A new uid: one entry is added under it, wrapping the incoming object, which then receives the derived flags; `ts` is incremented unless the derivation throws |
| UnitStore.MapApp.MergeUnit | staticfiles/static/js/map.js:246-309 | An existing uid: the key set is unchanged; the stored record gets the incoming keys; the flags are written onto the incoming object only, so they do not reach the stored record; `ts` is incremented unless something throws |
| UnitStore.MapApp.ProcessUnit | staticfiles/static/js/map.js:246-310 | A missing record changes nothing and returns nothing; otherwise the uid is stored afterwards, `ts` is incremented and the stored unit under that uid is returned, unless an exception escapes |
| UnitStore.MapApp.SetCurrentUnitUid | staticfiles/static/js/map.js:338-348 | Only a truthy uid of a stored unit becomes current, anything else clears the selection; the edit form follows; an exception from `formFromUnit` escapes |
| UnitStore.MapApp.GetCurrentUnit | staticfiles/static/js/map.js:350-353 | The current unit, which is the stored unit under the current uid, or null when no unit is current |
| UnitStore.MapApp.RemoveUnit | staticfiles/static/js/map.js:326-336 | An absent uid changes nothing; otherwise exactly that key is deleted, its marker dropped, and the selection cleared iff it was this unit |
| UnitStore.MapApp.PruneExcept | staticfiles/static/js/map.js:238-242 | The key set becomes its intersection with the kept uids |
| UnitStore.MapApp.UidsOf | staticfiles/static/js/map.js:234-236 | The uid each snapshot record names, position by position |
| UnitStore.MapApp.UpsertAt | staticfiles/static/js/map.js:234-236 | One upsert step adds the record's uid to the key set and returns the unit under that uid |
| UnitStore.MapApp.UpsertAll | staticfiles/static/js/map.js:232-236 | After the pass the collected keys are exactly the uids the snapshot names (`undefined` for a missing record) and the stored uids are the old ones plus those the snapshot carries; the store stays keyed |
| UnitStore.MapApp.ProcessUnits | staticfiles/static/js/map.js:231-243 | After a snapshot with no missing record, the key set equals the set of the snapshot's uids; in general it is (old keys plus carried uids) restricted to the named uids |
| UnitStore.MapApp.ProcessWS | staticfiles/static/js/map.js:312-324 | A "unit" frame adds its uid to the key set and counts in `ts`; a "delete" frame removes the uid; a "chat" frame refetches the messages; any other frame changes nothing |
| UnitStore.MapApp.ToggleUnitSelection | staticfiles/static/js/map.js:1527-1538 | The selection is toggled at the uid, and that unit's marker is refreshed when it is stored |
| UnitStore.MapApp.RedrawAllMarkers | staticfiles/static/js/map.js:1559-1563 | Every stored unit's marker follows its coordinates |
| UnitStore.MapApp.ToggleMultiSelect | staticfiles/static/js/map.js:1512-1525 | The mode flips; leaving it clears the selection and redraws every marker; entering it changes nothing else |
| UnitStore.MapApp.PointUids | staticfiles/static/js/map.js:1567-1569 | Exactly the stored uids whose category is "point", each once |
| UnitStore.MapApp.RemoveAll | staticfiles/static/js/map.js:1604-1606 | The key set loses exactly the given uids; the remaining entries are unchanged |
| UnitStore.MapApp.ClearAllPoints | staticfiles/static/js/map.js:1565-1623 | The collected uids are exactly the point uids; with none, or unconfirmed, nothing changes; otherwise one DELETE per point is sent, exactly the points leave the store, and the units are refetched |
| UnitStore.MapApp.SaveEditForm | staticfiles/static/js/map.js:1658-1678 | Without a current unit nothing is sent; otherwise its record becomes the form's saved fields, the marker is redrawn and the record is posted |
| UnitStore.MapApp.Connect | staticfiles/static/js/map.js:155-183 | Units and messages are fetched and `conn` is set, as when the WebSocket object is created (not when it opens) |
| UnitStore.MapApp.Renew | staticfiles/static/js/map.js:211-216 | The polling tick fetches units and messages only while no WebSocket was ever created (`conn` unset) |
| EditForm.Substring | staticfiles/static/js/map.js:1651-1653 | JavaScript `substring`: the slice when the bounds are in range, "" when both lie beyond the end |
| EditForm.FormFromRecord | staticfiles/static/js/map.js:1625-1656 | The form copies callsign, category, text and send; it throws exactly when the type is not a string |
| EditForm.FormShown | staticfiles/static/js/map.js:1638-1648 | The form left behind always carries the record's callsign, text and send |
| EditForm.SavedFields | staticfiles/static/js/map.js:1662-1673 | Only the edited keys change; a "unit" gets exactly the type `a-<aff>-<subtype>` and that type's SIDC; anything else gets the form's type and an empty SIDC |
| EditForm.AtomTypeRoundTrip | staticfiles/static/js/map.js:1649-1669 | A "unit" whose type is `a-<c>-<rest>`, opened in the form and saved unchanged, keeps every field except the recomputed SIDC |
| EditForm.OtherTypeRoundTrip | staticfiles/static/js/map.js:1638-1673 | A point with any other type keeps every field; its SIDC is cleared |
| EditForm.AtomTypeOutsideUnitReplaced | staticfiles/static/js/map.js:1649-1671 | An `a-` type on a record whose category is not "unit" is replaced by the point type on saving |
| Sidc.ShortRun | staticfiles/static/js/map.js:1891-1898 | The run of one-character segments is no longer than the segments |
| Sidc.ShortRunStops | staticfiles/static/js/map.js:1891-1898 | The loop stops at the first segment longer than one character: nothing from it on reaches the code |
| Sidc.ShortRunTakesShort | staticfiles/static/js/map.js:1891-1898 | One-character segments before the stop are all appended, in order |
| Sidc.PadDashes | staticfiles/static/js/map.js:1900-1902 | Padding to at least 10 characters keeps the string and adds only '-' |
| Sidc.SidcOf | staticfiles/static/js/map.js:1878-1905 | "" unless the type starts with "a-"; otherwise the body ('S', affiliation, dimension or '-', 'P', the short run) upper-cased, followed by '-' up to ten characters; no lower-case letter |
| Sidc.SidcStopsAtLongSegment | staticfiles/static/js/map.js:1878-1905 | A function-id segment longer than one character ends the code: `a-<aff>-<dim>-<long>-...` gives `S<aff><dim>P` padded with '-' (as for "a-f-G-UC-I") |
| Sidc.SidcFromType | staticfiles/static/js/map.js:1878-1905 | The accumulator loop computes `SidcOf` |
| Sidc.SidcPositions | staticfiles/static/js/map.js:1883-1889 | Characters 1 and 2 are the upper-cased affiliation and dimension, character 3 is 'P' |
| Sidc.SidcOfFiveSegments | staticfiles/static/js/map.js:1878-1905 | A type with five one-character segments gives `S`, affiliation, dimension, `P`, the three segments and `---`, upper-cased (as for "a-f-G-U-C-I") |
| Sidc.FirstPrefixChild | staticfiles/static/js/map.js:1689-1699 | The first child whose code prefixes the string, or none when no child's does |
| Sidc.RootSidcFrom | staticfiles/static/js/map.js:1680-1704 | A result is a branch of the tree with a child whose code equals the string |
| Sidc.SidcFrom | staticfiles/static/js/map.js:1706-1729 | When the walk halts with a node, that node is in the tree and its code equals the string |
| Sidc.GetRootSidc | staticfiles/static/js/map.js:1680-1704 | The loop computes `RootSidcOf` |
| Sidc.GetSidc | staticfiles/static/js/map.js:1706-1729 | The loop computes `SidcNodeOf`, including the runs that never end |
| Sidc.RootIsParentOfSidc | staticfiles/static/js/map.js:1680-1729 | Where the root walk finds a parent, the SIDC walk halts on its matching child; where it finds none, the SIDC walk finds nothing or spins |
| Sidc.WalkersAgree | staticfiles/static/js/map.js:1680-1729 | The same agreement from the top of the type tree |
| Sidc.EmptyBranchSpins | staticfiles/static/js/map.js:1713-1728 | A branch with no children makes `getSidc` loop forever, while `getRootSidc` returns null |
| StreamType.KindName | staticfiles/static/js/map.js:1933-1959 | The result is one of rtsp, hls, webrtc, webcam, video |
| StreamType.KindNameInjective | staticfiles/static/js/map.js:1933-1959 | Different kinds have different names |
| StreamType.DetectPriority | staticfiles/static/js/map.js:1933-1959 | On the lower-cased URL: rtsp iff the `rtsp://` prefix; hls iff not rtsp and `.m3u8` or `/hls/`; webrtc iff neither and a WebRTC marker; webcam iff the URL is the webcam sentinel; video iff none of these |
| StreamType.DetectStreamType | staticfiles/static/js/map.js:1933-1959 | The webcam kind is returned exactly for the sentinel `webcam://live-stream` (in any letter case): no earlier rule catches it |
| StreamType.DetectIgnoresCase | staticfiles/static/js/map.js:1934 | Upper- or lower-casing the URL does not change its class |
| StreamType.WebcamSentinelDetected | staticfiles/static/js/map.js:1949 | `webcam://live-stream` is classified as webcam |
| StreamType.ExampleWhep | staticfiles/static/js/map.js:1943-1946 | A MediaMTX WHEP URL is classified as webrtc |
| Chat.Counted | staticfiles/static/js/map.js:1825-1838 | The count of one conversation never exceeds its length, and equals it when every message counts |
| Chat.Lookup | staticfiles/static/js/map.js:1834-1847 | `messages[uid]` exists iff some entry has that key, and it is the thread of the first entry with that key |
| Chat.Total | staticfiles/static/js/map.js:1820-1831 | The badge total over every conversation is at least each single conversation's count |
| Chat.UnseenZeroIff | staticfiles/static/js/map.js:1833-1840 | The unseen count is 0 iff every message id is in the seen set |
| Chat.UnseenAntitone | staticfiles/static/js/map.js:1833-1840 | Seeing more never raises the unseen count |
| Chat.ThreadWithinTotal | staticfiles/static/js/map.js:1820-1840 | One conversation's badge never exceeds the badge over all of them |
| Chat.ChatState.constructor | staticfiles/static/js/map.js:4-60 | No messages seen, no conversation open |
| Chat.ChatState.MsgNum | staticfiles/static/js/map.js:1820-1831 | 0 without messages; otherwise the total over every conversation |
| Chat.ChatState.CountThread | staticfiles/static/js/map.js:1825-1838 | The inner loop computes the conversation's count |
| Chat.ChatState.MsgNum1 | staticfiles/static/js/map.js:1833-1840 | 0 without messages; throws for a uid without a conversation; otherwise that conversation's count |
| Chat.ChatState.OpenChat | staticfiles/static/js/map.js:1842-1852 | The conversation is recorded; its message ids join the seen set; a null `messages` or a conversation without `messages` throws and leaves the seen set unchanged |
| Chat.OpenedChatHasNoUnseen | staticfiles/static/js/map.js:1833-1851 | After the ids of a conversation are seen its unseen badge is 0 and its total is unchanged |
| Publishers.PeerConnection.constructor | staticfiles/static/js/map.js:1964-1966 | A new peer connection is open |
| Publishers.MediaStream.constructor | staticfiles/static/js/map.js:1969-1972 | A new stream's tracks are live |
| Publishers.Published | staticfiles/static/js/map.js:2040-2042 | The name becomes active with that publisher, is marked mine, and its status is "connected"; other names keep their membership; the books invariant is kept |
| Publishers.PublishFailed | staticfiles/static/js/map.js:2047-2050 | The status becomes "error"; the active and own sets are unchanged |
| Publishers.IceUpdated | staticfiles/static/js/map.js:1975-1992 | The status becomes "failed" for failed/disconnected and the reported state otherwise; other statuses and both sets are unchanged |
| Publishers.Stopped | staticfiles/static/js/map.js:2115-2132 | An inactive name changes nothing; an active one leaves all three collections and nothing else does |
| Publishers.Dropped | staticfiles/static/js/map.js:2060-2064 | The old publisher leaves the active set; own set and statuses are unchanged |
| Publishers.RepublishFailed | staticfiles/static/js/map.js:2060-2073 | The name is no longer active but still mine, with status "reconnect_failed" |
| Publishers.StopTwice | staticfiles/static/js/map.js:2115-2132 | Stopping is idempotent |
| Publishers.FailedRepublishIsStranded | staticfiles/static/js/map.js:2055-2074 | After a failed republish the stream stays mine, and `stopPublishing` then does nothing |
| Publishers.PublishThenStop | staticfiles/static/js/map.js:2115-2132 | Publishing and then stopping leaves the name in none of the three collections |
| Publishers.StreamBooks.constructor | staticfiles/static/js/map.js:51-54 | All three collections start empty |
| Publishers.StreamBooks.GetStreamStatus | staticfiles/static/js/map.js:2110-2112 | Never empty: the recorded status when there is a non-empty one, "unknown" for an unknown name |
| Publishers.StreamBooks.Publish | staticfiles/static/js/map.js:1961-2052 | Success stores a fresh open connection with the stream and the books become `Published`; failure throws and the books become `PublishFailed` |
| Publishers.StreamBooks.IceStateChanged | staticfiles/static/js/map.js:1975-1993 | A reconnect is scheduled iff the state is failed or disconnected; the books become `IceUpdated` |
| Publishers.StreamBooks.Republish | staticfiles/static/js/map.js:2055-2074 | The old connection is closed; success republishes with a fresh connection; failure gives `RepublishFailed` |
| Publishers.StreamBooks.ReconnectFired | staticfiles/static/js/map.js:1984-1989 | The reconnect is attempted iff the name is still active; otherwise nothing changes |
| Publishers.StreamBooks.StopPublishing | staticfiles/static/js/map.js:2115-2132 | The books become `Stopped`; the connection is closed and the tracks are stopped |
| Publishers.StreamBooks.StopMyStream | staticfiles/static/js/map.js:2077-2107 | No stream name, a stream that is not mine, and an unconfirmed stop each change nothing; a confirmed stop of my stream gives `Stopped` |
| Repository.FieldOf | staticfiles/static/js/map.js:772 | Reading a property throws exactly on null and undefined |
| Repository.FileNameMatch | staticfiles/static/js/map.js:772 | True iff the file name is a non-empty string containing the uid, or an array holding the uid; throws on other truthy values |
| Repository.FileMatch | staticfiles/static/js/map.js:770-799 | A file is kept iff its name matches, or its name is falsy or does not contain the uid and its keywords match; throws exactly on a null file or a throwing name test |
| Repository.FilterFiles | staticfiles/static/js/map.js:770-799 | Throws iff some file's test throws; otherwise keeps exactly the matching files, never more than were given |
| Repository.LoadedFiles | staticfiles/static/js/map.js:739-808 | Every file shown came from the server and matches the repository; when the debug log throws on one of the first five files, or the filter callback throws on any file, the list is empty |
| Repository.LoadedFilesComplete | staticfiles/static/js/map.js:739-808 | When nothing throws, every matching server file is shown |
| Repository.ServerFiles | staticfiles/static/js/map.js:747-749 | Files come only from an ok JSON object reply, and are exactly its `results` array |
| Repository.HashObjectEmptiesPanel | staticfiles/static/js/map.js:756-766 | A matching file whose `Hash` is an object with `length` 41 makes the debug log throw, so the panel shows nothing |
| Repository.DisplayName | staticfiles/static/js/map.js:907-936 | A name without '_' is kept; otherwise what follows the first '_' |
| Repository.DisplayOfUploadName | staticfiles/static/js/map.js:837 | Stripping the upload prefix gives the original name back iff the uid has no '_' |
| Repository.UploadedFileMatches | staticfiles/static/js/map.js:770-799 | A file stored under its upload name passes the repository's filter |
| Repository.ConfigValue | staticfiles/static/js/map.js:846-851 | Only a truthy configuration value is sent |
| Repository.RequestFor | staticfiles/static/js/map.js:837-851 | The request's keywords are the repository uid, and its name displays as the original when the uid has no '_' |
| Repository.Land | staticfiles/static/js/map.js:832-878 | Every file lands under its own name; one over 60 MiB fails as too large without a request |
| Repository.Landings | staticfiles/static/js/map.js:826-879 | One landing per selected file |
| Repository.Requests | staticfiles/static/js/map.js:826-864 | No more requests than files; each carries the uid as keywords and the upload name of a file within the limit |
| Repository.EveryFileLandsOnce | staticfiles/static/js/map.js:826-879 | The successes and the failures together count every file exactly once |
| Repository.FailedLandsInFailures | staticfiles/static/js/map.js:810-896 | Every failed landing is in the failure list |
| Repository.TooLargeFails | staticfiles/static/js/map.js:832-835 | A file over 60 MiB ends in the failure list with the size reason, whatever the server would answer |
| Repository.UploadOne | staticfiles/static/js/map.js:827-878 | One iteration gives the file's landing, and its request when within the limit |
| Repository.UploadAll | staticfiles/static/js/map.js:826-879 | The loop computes the success list, the failure list and the requests sent |
| Repository.RepositoryPanel.constructor | staticfiles/static/js/map.js:44-49 | No repository open, no files, the selection null, nothing uploading |
| Repository.RepositoryPanel.LoadRepositoryFiles | staticfiles/static/js/map.js:739-808 | The shown files are the filtered search reply |
| Repository.RepositoryPanel.ShowFileRepository | staticfiles/static/js/map.js:719-737 | Opens iff the unit is a repository point; it is then named after `repositoryName` or the callsign and its files are loaded; otherwise nothing changes |
| Repository.RepositoryPanel.SelectFiles | staticfiles/static/js/map.js:898-900 | The selection is the chosen files |
| Repository.RepositoryPanel.CloseFileRepository | staticfiles/static/js/map.js:957-963 | The panel state is reset |
| Repository.RepositoryPanel.UploadFilesToRepository | staticfiles/static/js/map.js:810-896 | No selection, or no repository, changes nothing; otherwise the results are the upload loop's and the panel is reset with no selection |
| Repository.FileIcon | staticfiles/static/js/map.js:973-980 | Always one of the icons; a falsy MIME type gives the generic icon; a truthy non-string throws |
| Repository.VideoIcon | staticfiles/static/js/map.js:975 | Any `video/` type gives the play icon |
| Repository.ImageIcon | staticfiles/static/js/map.js:976 | Any `image/` type gives the image icon |
| Repository.AudioIcon | staticfiles/static/js/map.js:977 | Any `audio/` type gives the music icon |
| Repository.PdfIcon | staticfiles/static/js/map.js:978 | An `application/…pdf` type gives the PDF icon |
| MartiApi.UnionOfMembership | cmd/goatak_server/marti_api.go:404-411 | A value is in the union iff some piece contributes it |
| MartiApi.UnionOfAppend | cmd/goatak_server/marti_api.go:404-411 | The union over two runs of pieces is the union of each |
| MartiApi.KwsMembership | cmd/goatak_server/marti_api.go:404-411 | A keyword is exactly the non-empty trimmed form of some piece |
| MartiApi.KwsAppend | cmd/goatak_server/marti_api.go:359-363 | Keywords of two runs of pieces unite |
| MartiApi.KeywordSet | cmd/goatak_server/marti_api.go:404-411 | Every keyword of the set built from a `keywords` value is non-empty, trimmed and free of commas |
| MartiApi.EveryPieceKept | cmd/goatak_server/marti_api.go:404-411 | Every non-empty trimmed piece is a keyword |
| MartiApi.EmptyKeywords | cmd/goatak_server/marti_api.go:404-411 | An empty value gives no keyword |
| MartiApi.SingleKeyword | cmd/goatak_server/marti_api.go:404-411 | A trimmed value without commas is its own only keyword |
| MartiApi.KeywordsOfJoin | cmd/goatak_server/marti_api.go:336-363 | Joining two values with a comma unites their keyword sets |
| MartiApi.TwoKeywords | cmd/goatak_server/marti_api.go:336 | Two single keywords joined by a comma give exactly those two |
| MartiApi.GuardedKeywordSet | cmd/goatak_server/marti_api.go:404-411 | The `keywords != ""` guard changes nothing: the result is the keyword set |
| MartiApi.BuildKwSet | cmd/goatak_server/marti_api.go:358-363 | The loop builds the keyword set of the value |
| MartiApi.VideoKeywords | cmd/goatak_server/marti_api.go:336-339 | "video,webcam-recording", prefixed by the client's keywords and a comma when they are not empty |
| MartiApi.VideoKeywordSet | cmd/goatak_server/marti_api.go:336-363 | A video's keyword set is the client's keywords plus "video" and "webcam-recording" |
| MartiApi.VideoSuffixKeywords | cmd/goatak_server/marti_api.go:336 | The video suffix alone gives exactly the two markers |
| MartiApi.BaseName | cmd/goatak_server/marti_api.go:304 | "." for "", "/" for a path of slashes; otherwise the last non-empty '/'-separated element, which has no '/': a slash-free run that starts the path or follows a '/', with only slashes after it |
| MartiApi.TrimTrailingSlashes | cmd/goatak_server/marti_api.go:304 | A prefix of the input that does not end in '/', and every character removed is a '/' |
| MartiApi.AfterLastSlash | cmd/goatak_server/marti_api.go:304 | A slash-free suffix of the input preceded by a '/' unless it is the whole input |
| MartiApi.VideoResource | cmd/goatak_server/marti_api.go:336-363 | WebM, tool "webcam-recorder", hash "video-" plus the base name, the video keywords and their set |
| MartiApi.RegularResource | cmd/goatak_server/marti_api.go:388-416 | The stored hash, the part's name and type, the client's keyword set, plus "missionpackage" and tool "public" for a package |
| MartiApi.UploadMultipartAsWritten | cmd/goatak_server/marti_api.go:271-420 | No file part gives the form error; a resource without an error means the database write worked |
| MartiApi.UploadMultipart | cmd/goatak_server/marti_api.go:271-420 | Never a nil resource without an error; a hash mismatch is "bad hash"; every other case is as written |
| MartiApi.BadHashReturnsNeither | cmd/goatak_server/marti_api.go:383-386 | As written, a hash mismatch returns neither a resource nor an error |
| MartiApi.VideoUpload | cmd/goatak_server/marti_api.go:291-366 | A file name with "webcam-recording" gives a WebM resource hashed "video-" plus the base name, with both video keywords |
| MartiApi.RegularUpload | cmd/goatak_server/marti_api.go:369-419 | A package gets "missionpackage" and tool "public"; a non-package with no keywords gets an empty set |
| MartiApi.UploadFile | cmd/goatak_server/marti_api.go:422-467 | A resource exactly when the body was stored, named by the query, with the stored hash and the keyword set |
| MartiApi.ResourceUrl | cmd/goatak_server/marti_api.go:757-759 | The URL starts with the root and ends with the hash |
| MartiApi.UrlRoundTrip | cmd/goatak_server/marti_api.go:757-759 | The hash can be read back from the URL |
| MartiApi.Answer | cmd/goatak_server/marti_api.go:252-257 | An error gives 406; a resource gives its URL |
| MartiApi.UploadHandler | cmd/goatak_server/marti_api.go:232-269 | 406 "no name" iff the name is empty; multipart iff the content type starts with `multipart/form-data`; never a panic |
| MartiApi.MissionUploadAnswer | cmd/goatak_server/marti_api.go:205-230 | An empty hash, then an empty file name, is refused with 406 |
| MartiApi.MissionUploadHandler | cmd/goatak_server/marti_api.go:205-230 | With the corrected upload the handler never panics |
| MartiApi.MissionUploadAsWrittenPanics | cmd/goatak_server/marti_api.go:220-228 | As written, a package whose hash does not match makes the handler dereference a nil resource |
| MartiApi.MissionUploadBadHashRefused | cmd/goatak_server/marti_api.go:220-224 | With the correction the same request is refused with 406 |
| MartiApi.ContentHandler | cmd/goatak_server/marti_api.go:469-511 | 406 iff neither hash nor uid; 404 without a record; content iff a record is found and the file store holds content under the query's hash (not the record's) in the record's scope, sent with the record's type, size and hash as ETag |
| MartiApi.Shown | cmd/goatak_server/marti_api.go:578-580 | Only the name changes, and only for another scope, by " [scope]" |
| MartiApi.SearchResults | cmd/goatak_server/marti_api.go:572-583 | No more results than resources; every resource without a keyword |
| MartiApi.SearchMembership | cmd/goatak_server/marti_api.go:572-583 | A result is exactly the shown form of a resource with the keyword (any resource without one) |
| MartiApi.SearchResultsCarryKeyword | cmd/goatak_server/marti_api.go:574-576 | With a keyword, every result carries it |
| MartiApi.Search | cmd/goatak_server/marti_api.go:563-588 | The loop computes the results, and `resultCount` is their number |
| MartiApi.MakeAnswer | cmd/goatak_server/marti_api.go:761-769 | Exactly the keys version "3", type, nodeId "main" and data |
| RepositoryFlow.UploadedFileShownInPanel | staticfiles/static/js/map.js:739-808 | Taking the multipart transport of the part's file name as the identity, a file the panel uploads as `uid_name` (map.js line 837) is stored by `uploadMultipart` whenever the store accepts it and, when the handler reports no error, is returned by the keyword-less search the panel fetches (line 741; marti_api.go line 574 keeps everything without a keyword), passes the panel's `FileName` filter for the repository, and is shown under its original name exactly when the uid has no '_' |
| WebClient.BaseURL | cmd/webclient/api.go:50-57 | A host with a scheme is kept; otherwise "http://" plus the host, with ":8080" added iff it has no ':' |
| WebClient.GetURL | cmd/webclient/api.go:44-65 | The URL is empty exactly when no host is configured; otherwise it contains a '/' and ends with the path |
| WebClient.WithLeadingSlash | cmd/webclient/api.go:59-62 | Starts with '/', ends with the path, and a path with '/' is kept |
| WebClient.EmptyHostGivesEmpty | cmd/webclient/api.go:45-47 | An empty host gives "" |
| WebClient.SchemeHostKept | cmd/webclient/api.go:50-51 | A host with a scheme is the URL's prefix |
| WebClient.DefaultSchemeAndPort | cmd/webclient/api.go:51-57 | Otherwise the URL starts with "http://", and with the host and ":8080" iff the host has no ':' |
| WebClient.PortAdded | cmd/webclient/api.go:53-55 | A host without ':' gets ":8080" |
| WebClient.PortKept | cmd/webclient/api.go:53-56 | A host with ':' gets no default port |
| WebClient.LeadingSlashAdded | cmd/webclient/api.go:60-62 | A path without a leading '/' gives the same URL as with it |
| WebClient.UrlShape | cmd/webclient/api.go:59-64 | The URL is the base followed by a '/'-led path that ends with the given path |
| Text.Split | cmd/goatak_server/marti_api.go:359-363 | At least one piece, none containing the separator |
| Text.TrimSpace | cmd/goatak_server/marti_api.go:360 | The result starts and ends with a non-space |
| Text.TrimSpaceStrips | cmd/goatak_server/marti_api.go:360 | The result is a slice of the input with only white space before and after it: the input minus its surrounding white space |
| Text.ToLower | staticfiles/static/js/map.js:1934 | Same length; each character lower-cased |
| Text.ToUpper | staticfiles/static/js/map.js:1904 | Same length; each character upper-cased |

## Left out

- Leaflet is not modelled: markers, icons, tooltips, popups and `setView`. A marker is a boolean "has marker" on `Unit`, and its opacity for the selection is not modelled.
- `UnitStore.Unit.UpdateMarker` does not model the exceptions of building the tooltip (`popup()`). For a unit with coordinates, the source throws on a non-string `sidc` or `text` or a truthy non-number `speed`. That aborts `new Unit` before the unit is stored, or aborts `update` after the copy. The model's `Unit.Update`, `MapApp.AddUnit` and `MapApp.MergeUnit` always complete in those cases.
- The DOM, `alert`, `confirm` and the modals are left out. `confirm` answers are parameters.
- `fetch`, `WebSocket`, `RTCPeerConnection`, SDP and ICE gathering, the WHIP exchange, Hls.js and the media APIs are left out. Their outcomes are parameters: `ok` flags, reply values and `respond` functions. Requests are appended to a log.
- Timers are left out:
  - the 3 s publisher reconnect is the explicit `ReconnectFired` event;
  - the 1.5 s reload after an upload and the WebSocket reconnect are not modelled.
- ICE events that interleave with an ongoing publish are not modelled. Each event is a separate call.
- `JSON.parse` and the URL regular expression are oracle parameters of `ProcessUnit`.
- `Sidc.GetSidc`: a walk that never ends is the result `Spins` rather than a hang.
- `Publishers.StreamBooks.StopMyStream` omits the rewrite of the unit's `text` and colour, and its post.
- `Repository.RepositoryPanel.UploadFilesToRepository` omits `uploadProgress` rounding, the text of the failure reasons and the summary `alert`. Failures carry a reason datatype instead of a formatted string.
- `Repository.LoadedFiles` omits the debug log over the first five files, except its exceptions: a null file, or a `Hash` that is null, undefined, an array longer than 40 or an object whose `length` is a number above 40, makes the whole load show no files. `HashLogThrows` states that case. `LoadedFiles` promises an empty list when it happens, and the completeness lemma assumes it does not. A non-number `length` that JavaScript's `>` would coerce to a number above 40 (a numeric string, say) is not modelled.
- `Repository.RepositoryPanel.ShowFileRepository` takes the repository uid as a string. The unit's uid is a JavaScript value in the source.
- The search loop's in-place `f.Name` update is modelled on values (`Shown`). The in-place change to the database's record and the conversion to DTOs are not modelled.
- Server plumbing is left out: the user lookup (`Username`, scopes), the database queries (the scope, read-scope and tool filters of the search, the record lookup of the content handler), `PutFile`/`GetFile`, copying to `data/videos`, `Last-Modified` and the response body copy. Their results are parameters.
- Go's `strings.TrimSpace` is modelled with the ASCII white space plus U+0085 and U+00A0. The rest of Unicode white space is not modelled.
- Case mapping is ASCII only.
- `countByCategory`, `contactsNum`, `byCategory` (locale-dependent sorting), `deleteSelectedUnits`, `createSpecialPoint`, `getStatus` and the floating-point helpers (`distBea`, `formatFileSize`, `printCoords`) are outside the modelled core.
- `periodicGetter` and the resty `request()` builder are outside the modelled core.
- `UnitStore.MapApp.PointUids` returns a set: the order in which `clearAllPoints` collects the point uids (the units map's insertion order) is not modelled.
- `UnitRecord.NeedsRedraw` compares object and array values by value, whereas `!==` compares them by reference. For example, a stored `status: {}` compared with a freshly parsed `status: {}` needs a redraw in the source but not in the model. The unit store's keys have the same gap: the source's `Map` tells object-valued uids apart by reference, so such a uid opens a new entry on every message, while the model merges the records.
- `Repository.RepositoryPanel.LoadRepositoryFiles` and `Repository.RepositoryPanel.UploadFilesToRepository` each run as one step. In the source, every `await fetch` lets other events run. `loadRepositoryFiles` assigns its result even if the panel was closed meanwhile, and the upload loop re-reads `selectedFiles` after each request. Those interleavings are not modelled.
- `UnitStore.MapApp.ClearAllPoints` sends every DELETE and then removes the points in one step. The source removes them only after `Promise.all` settles, so events that arrive in between are not modelled.
- `RepositoryFlow.UploadedFileShownInPanel` takes the multipart encoding and parsing of the part's file name as the identity. Browsers escape `"`, CR and LF in a form file name, and Go's multipart parser keeps only the last element of a '/'-separated name. Those layers are not in the source files. So for a repository uid containing '/', or a file name containing `"`, CR or LF, the stored name differs from the one the lemma states.
- `RepositoryFlow.UploadedFileShownInPanel`: the server's conversion of a resource to the JSON the panel reads (`model.ToResourceDTO`) is not part of this model. The lemma takes any object that carries the resource's file name as its `FileName`.

## Findings

| source | as written | input that shows it | evidently intended | confidence | as-written member | corrected member |
|---|---|---|---|---|---|---|
| cmd/goatak_server/marti_api.go:383-386, 220-228 | On a hash mismatch `uploadMultipart` returns `nil, err` while `err` is nil. The mission upload handler then reads `c.FileName` of the nil resource and panics. | A mission-package upload with `hash=abc` whose content the file store hashes to anything other than `abc` | Report the mismatch as an error ("bad hash"), so the handler answers 406 | not executed | MartiApi.MissionUploadAsWrittenPanics | MartiApi.MissionUploadBadHashRefused |
