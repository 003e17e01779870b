# Shelf-photo bot: a Dafny model

This project models the core of a Telegram bot that field agents use to report on shops.
An agent authorises by sharing their phone contact. They start an upload and name the
shop. Then they share a location, which the web service checks against the shop's
geofence, and pick a post category. Depending on the category, they pick an ORIMI brand
or a competitor brand. Finally they send either a count of competitor products or a
photo, taken at most five minutes earlier.

The photo goes through a provenance check before it is posted:

- it is saved under a fresh unique name in `media/shelf/`;
- its capture time is read, by exiftool for HEIC files and by Pillow/piexif for the rest;
- it is compared with the clock;
- HEIC photos are converted to JPEG;
- it is posted to the web service with the agent's and the store's ids and the collected
  fields, then deleted.

The model covers:

- **Conversation controller:** `Handlers.Session` is a class whose fields are the FSM
  state, the FSM data dictionary and the Redis profile. There is one method per handler,
  and `Handle` dispatches a message the way the router does.
- **Router:** `Dispatch.Route` picks the first handler, in registration order, whose
  filters match.
- **Category rule:** `Categories`.
- **Provenance check:** `PhotoCheck` and `ExifTime`. `ExifTime` holds the HEIC regular
  expression, `strptime`, the `datetime` range checks and the five-minute rule.
- **File pipeline:** `Files`. `FileSystem` is a class over a map from path to size, with
  `DownloadFile`, `ConvertHeicToJpeg` and `SaveFileToPost` proved against the functions
  `Download` and `Convert`.
- **Web-service answers and form fields:** `Services`.
- **Reply rule for photo errors:** `Replies`.
- **Constants and states:** `Constants` and `Fsm`.
- **Whole conversations:** `Scenarios`.

Everything outside the bot arrives as an input value, `Handlers.Env`:

- the HTTP answers of the web service;
- whether the Redis write fails;
- Telegram's file path and download;
- what the metadata readers report (`PhotoCheck.Probe`);
- what Pillow and ImageMagick do when converting;
- the clock, in microseconds;
- the two uuids.

Behaviour of the code that the model makes explicit:

- **Contact sharing:** a number the web service does not know still gets a stored
  profile. The later lookups refuse it, but it can start an upload
  (`Scenarios.UnknownNumberCanStartUpload`).
- **Rejection message:** a photo that fails the provenance check raises an error whose
  text contains the "more than 5 minutes ago" mark. So every rejected photo is answered
  as a stale photo, including one that has no metadata at all
  (`Replies.RejectionSelectsStale`).
- **Stale photos:** a stale photo keeps the stored location and category.
- **Files left on disk:**
  - a failed HEIC conversion leaves the HEIC file on disk;
  - a missing `"id"` in the agent's or the store's record leaves the downloaded file on
    disk.
  - a download whose status is 200 but whose body cannot be read leaves an empty file:
    the file is opened for writing before the body is read
    (`Handlers.UnreadableBodyLeavesEmptyFile`).
- **ORIMI brand carry-over:** `dmp_brand` is never cleared. A later photo of a category
  without a brand is posted with the earlier brand (`Scenarios.EarlierBrandIsResent`).

Behaviour of the code a reader may not expect:

- "🔙 Назад" while a location is awaited returns to the main menu (`authorized`), not to
  the shop name.
- A failed geofence check answers with the main menu but keeps the state, and keeps the
  location that was just stored.
- Categories and brands are stored as typed, without validation against the lists in
  `constants.py`. The category branch is decided by substring tests.
- Both metadata readers use the same five-minute threshold.
- The count state has no "back" case: "🔙 Назад" is handled as a non-numeric count.
- No backward step clears any field.
- A photo post carries the ORIMI brand (under `dmp_type`) whenever one was stored.

## Model

| member | source | states |
|---|---|---|
| Fsm.NineDistinctStates | fsms/fsm.py:4-13 | the states group declares exactly nine distinct states and every state is one of them |
| Constants.ListsAreSets | handlers/constants.py:1-23 | the post types, ORIMI brands and competitor brands have 6, 4 and 5 entries, none repeated |
| Constants.PostTypesAreTheSixLabels | handlers/constants.py:25-26 | `validate_post_type` accepts a text exactly when it is one of the six labels |
| Constants.BrandListsDisjoint | handlers/constants.py:28-32 | no text passes both brand validators |
| Text.ContainsIffOccurs | handlers/user_handlers.py:210-211 | Python's substring test holds exactly when the text occurs at some position |
| Categories.CategoryTargetCases | handlers/user_handlers.py:210-226 | the category leads to the competitor brand iff it holds "ДМП" and "конкурент", to the ORIMI brand iff "ДМП" without "конкурент", and to the photo iff no "ДМП" |
| Categories.PostTypesRouteByLabel | handlers/user_handlers.py:207-230 | of the six labels, "ДМП_конкурент" leads to the competitor brand, "ДМП_ОРИМИ КР" to the ORIMI brand, the four "РМП_" labels straight to the photo |
| Categories.OneLabelPerBrandState | handlers/user_handlers.py:210-224 | exactly one valid label leads to each brand state |
| Dispatch.ButtonOfMatchesText | handlers/user_handlers.py:48 | a message is classed as a menu or back button exactly when its text equals that button's text |
| Dispatch.Route | handlers/user_handlers.py:35-445 | the handler chosen in registration order: a state-filtered handler only in its own state, the file handler only for documents, the location handler only for locations |
| Dispatch.RouteMatchesMessageKind | handlers/user_handlers.py:79-80 | the contact handler is reached only by a contact, the four text-state handlers only by a non-empty text |
| Dispatch.ContactInEveryState | handlers/user_handlers.py:79-80 | a shared contact reaches the contact handler in every state |
| Dispatch.PlainTextIsNoCommand | handlers/user_handlers.py:47-48 | a text whose first character is neither blank nor "/" carries no command |
| Dispatch.StartInEveryState | handlers/user_handlers.py:35-36 | "/start" reaches `cmd_start` in every state |
| Dispatch.ButtonsWinInEveryState | handlers/user_handlers.py:47-115 | the help, profile and upload buttons reach their handlers in every state, before any state filter |
| Dispatch.UnauthorizedRoutesAsNoState | handlers/user_handlers.py:444-445 | no handler is filtered on `unauthorized`, so that state routes every message as no state does |
| Dispatch.PlainTextPassesGlobals | handlers/user_handlers.py:129-130 | a plain text that is no menu button is routed by the state alone |
| Dispatch.PlainTextRoute | handlers/user_handlers.py:47-462 | a plain text reaches the first menu-button handler it matches, otherwise the handler its state selects |
| Dispatch.HelpButtonWins | handlers/user_handlers.py:47-48 | the help button reaches `cmd_help` in every state |
| Dispatch.ProfileButtonWins | handlers/user_handlers.py:62-63 | the profile button reaches `cmd_profile` in every state |
| Dispatch.UploadButtonWins | handlers/user_handlers.py:114-115 | the upload button reaches the upload handler in every state |
| Dispatch.TextReachesStateHandler | handlers/user_handlers.py:276-277 | a plain text that is no button reaches the handler of each of the five text states |
| Dispatch.TextStatesAreHandled | handlers/user_handlers.py:233-234 | each of the five text states has a handler that a plain text reaches |
| Dispatch.LocationAndPhotoStatesAreHandled | handlers/user_handlers.py:150-151 | a location and "🔙 Назад" are handled in the location state, a document in the photo state |
| Dispatch.LocationReachesLocationHandler | handlers/user_handlers.py:150-151 | a shared location in the location state reaches the location handler |
| Dispatch.DocumentReachesFileHandler | handlers/user_handlers.py:322-323 | a document in the photo state reaches `handle_file` |
| Dispatch.BackInLocationStateIsBack | handlers/user_handlers.py:188-189 | "🔙 Назад" in the location state reaches `back_from_location` |
| Dispatch.PhotoStateTextFallsThrough | handlers/user_handlers.py:322-323 | in the photo state any plain text that is no menu button reaches the catch-all |
| Dispatch.BackInPhotoStateIsUnknown | handlers/user_handlers.py:444-462 | "🔙 Назад" in the photo state reaches the catch-all |
| Dispatch.BackInCountStateIsCount | handlers/user_handlers.py:276-277 | "🔙 Назад" in the count state reaches the count handler |
| Dispatch.AuthorizedNeverReachesCatchAll | handlers/user_handlers.py:436-441 | in `authorized` every message reaches a global handler or the authorized-menu handler |
| Paths.SplitExtParts | handlers/utils.py:239 | `splitext` cuts a path into a root and an extension that concatenate back to it; the extension is empty or a dot followed by no dot or slash |
| Paths.ExtOfStemWithExt | handlers/utils.py:239-241 | a directory, a unique stem and an extension give back that extension |
| Paths.ExtOfLower | handlers/utils.py:252 | lower-casing commutes with taking the extension |
| Paths.Basename | handlers/utils.py:266 | the base name is everything after the last slash: a slash-free suffix of the path, preceded by a slash unless it is the whole path |
| Files.SavePathExt | handlers/utils.py:239-241 | the saved name keeps the extension of the original name |
| Files.SavePathRoot | handlers/utils.py:239-241 | the saved name is media/shelf/ and the unique name, then the extension |
| Files.ShelfPathUnderMedia | handlers/utils.py:240-242 | the returned path is the saved name relative to media/ |
| Files.ShelfBasename | handlers/utils.py:266 | the base name of a file under media/shelf/ is its own name |
| Files.SavedHeicIsHeicName | handlers/utils.py:252-264 | a ".heic" download is saved under a name that still ends in ".heic" |
| Files.SavePathLowerExt | handlers/utils.py:239-252 | the saved file keeps the lower-cased extension of the original name |
| Files.JpegPathDiffers | handlers/utils.py:306-309 | a HEIC or HEIF name is never its own JPEG name |
| Files.Converted | handlers/utils.py:311-333 | Pillow's JPEG wins; otherwise ImageMagick's output, or its error when it fails; only the JPEG name changes |
| Files.Convert | handlers/utils.py:304-349 | a non-HEIC name comes back unchanged; a success leaves a non-empty JPEG and deletes the original; a failure keeps the original; no other file changes |
| Files.FileSystem.ConvertHeicToJpeg | handlers/utils.py:304-349 | the step-by-step conversion leaves the disk and result `Convert` gives |
| Files.Download | handlers/utils.py:236-271 | a request that raises or answers another status writes nothing; a body read that raises leaves an empty file at the save path; unchecked names are saved as they came; a photo failing the check is deleted and refused; a passing HEIC is replaced by its JPEG; a returned path names a file on disk |
| Files.FileSystem.DownloadFile | handlers/utils.py:236-271 | the step-by-step download leaves the disk and result `Download` gives |
| Files.ConvertSaved | handlers/utils.py:264-266 | a converted download returns its JPEG under shelf/ with the unique name, and that file exists |
| Files.ConvertSavedLeavesNoFile | handlers/utils.py:341-343 | once the JPEG is posted and deleted, only files present before the download remain |
| Files.ConvertedThenDeleted | handlers/utils.py:335-343 | after a successful conversion and the deletion of the JPEG, only names present before, less the original, remain |
| Files.HeicSaveIsConverted | handlers/utils.py:264-266 | a checked HEIC download is a HEIC name whose JPEG is media/shelf/<uuid>.jpg |
| Files.HeifIsNeitherCheckedNorConverted | handlers/utils.py:252-264 | a ".heif" download is neither checked nor converted |
| Files.FileSystem.SaveFileToPost | handlers/utils.py:352-424 | the file is deleted on every path; a missing file sends nothing and fails; otherwise the non-None form fields go out and the result follows the answer |
| Services.NormalizePhone | handlers/utils.py:47-48 | the number starts with "+", and is unchanged when it already did |
| Services.NormalizePhoneIdempotent | handlers/utils.py:65-66 | normalising twice is normalising once |
| Services.NormalizePhoneMerges | handlers/utils.py:47-48 | a number with and without a leading "+" normalise alike |
| Services.GetAgentByPhone | handlers/utils.py:46-61 | the body on 200, an empty list on another status, None when the request or decoding fails |
| Services.GetStoreIdByName | handlers/utils.py:23-37 | the body on 200, None otherwise |
| Services.CheckCoordinates | handlers/utils.py:132-152 | true exactly for a 200 answer whose JSON has a truthy "success" |
| Services.PostOutcome | handlers/utils.py:449-469 | created only on 201; another status gives that status and text; a raised request gives its error |
| Services.DropNone | handlers/utils.py:445 | keeps exactly the entries whose value is not None |
| Services.LookupDropNone | handlers/utils.py:444-445 | after dropping, a name finds its original value unless that value was None |
| Services.PostDataFieldsLookup | handlers/utils.py:434-445 | the count submission carries the brand under "dmp_type" and the count under "dmp_count", each present exactly when not None |
| Services.PostDataHasNoBrandNameField | handlers/utils.py:434-442 | the count submission has no "brand_name" field |
| ExifTime.MicrosMonotone | handlers/utils.py:186-193 | a later valid date-time has a larger microsecond count |
| ExifTime.MatchHeicDateOfFormat | handlers/utils.py:178-186 | the HEIC pattern reads the Exif text of every valid date-time back |
| ExifTime.FormatOfMatchHeicDate | handlers/utils.py:178-186 | a text the HEIC pattern reads as a valid date-time begins with exactly its Exif text |
| ExifTime.MatchHeicDateIgnoresTrailing | handlers/utils.py:178-180 | the HEIC pattern ignores whatever follows the seconds |
| ExifTime.StrptimeOfFormat | handlers/utils.py:211-213 | `strptime` reads the Exif text of every valid date-time back |
| ExifTime.TrailingTextSplitsTheParsers | handlers/utils.py:178-213 | with text after the seconds, `strptime` fails while the HEIC pattern still reads the date-time |
| ExifTime.Checked | handlers/utils.py:186 | a date-time passes the constructor's checks exactly when its fields are in range |
| PhotoCheck.GetHeicMetadata | handlers/utils.py:274-301 | the first exiftool record, None for a missing tool, a failed run or empty output |
| PhotoCheck.FindTimestamp | handlers/utils.py:166-170 | the loop returns the first present, truthy timestamp field |
| PhotoCheck.TimestampFieldOrder | handlers/utils.py:166-176 | DateTimeOriginal wins when truthy, CreateDate is used otherwise, none without both |
| PhotoCheck.CheckPhotoCreationTime | handlers/utils.py:155-233 | the step-by-step check returns the decision `PhotoAccepted` defines |
| PhotoCheck.HeicAcceptedIffFresh | handlers/utils.py:160-193 | a HEIC photo with a well-formed timestamp passes exactly when it is at most five minutes old |
| PhotoCheck.RasterAcceptedIffFresh | handlers/utils.py:195-220 | another photo passes exactly when its DateTime is exactly a timestamp and it is at most five minutes old |
| PhotoCheck.NoTimestampRejected | handlers/utils.py:160-229 | a photo without a capture time never passes |
| PhotoCheck.LaterCaptureStaysFresh | handlers/utils.py:216-220 | a later capture time is fresh whenever an earlier one is |
| Replies.FileErrorReply | handlers/user_handlers.py:401-428 | the stale answer iff the stale mark; the metadata answer iff no stale mark and one of the metadata marks; the generic failure otherwise |
| Replies.RejectionSelectsStale | handlers/user_handlers.py:408-413 | the provenance refusal is answered as a stale photo |
| Replies.DownloadStatusSelectsGeneric | handlers/utils.py:246-247 | a failed download status is answered as a generic failure |
| Replies.MissingIdSelectsGeneric | handlers/user_handlers.py:376-378 | a missing "id" is answered as a generic failure |
| Handlers.FallbackNameKeepsExtension | handlers/user_handlers.py:360-362 | a document without a name keeps the extension of Telegram's path |
| Handlers.CountCoordinates | handlers/user_handlers.py:302-307 | the stored coordinates, None twice without a location, failure for a non-location value |
| Handlers.CountSubmissionCarriesBrandAndCount | handlers/user_handlers.py:298-311 | in a well-formed count state the record carries the competitor brand and the count |
| Handlers.SaveOutcome | handlers/user_handlers.py:373-428 | a failed download keeps the data and is answered by the error rule; a saved photo is posted with the agent and store ids, the stored coordinates, category and ORIMI brand, deleted, and its location and category cleared; an unposted file stays on disk |
| Handlers.PostDownloaded | handlers/user_handlers.py:376-428 | after the download: an error is answered by the error rule; a post carries the ids, coordinates, category and ORIMI brand and deletes the file; without a post the disk is kept |
| Handlers.UnreadableBodyLeavesEmptyFile | handlers/utils.py:249-250 | a body read that raises after the 200 status leaves an empty file at the save path, is answered by the error rule, and keeps the data |
| Handlers.Session.CmdStart | handlers/user_handlers.py:35-44 | welcome and `unauthorized` from any state, the data kept |
| Handlers.Session.CmdHelp | handlers/user_handlers.py:47-59 | the instructions, nothing changed |
| Handlers.Session.CmdProfile | handlers/user_handlers.py:62-76 | the stored phone, or `unauthorized` without a profile |
| Handlers.Session.HandleContact | handlers/user_handlers.py:79-111 | another's contact or a failed write changes nothing; otherwise the normalised phone is stored and the lookup picks the state |
| Handlers.Session.HandleUploadPhoto | handlers/user_handlers.py:114-126 | with a profile the shop name is asked for; without, `unauthorized` |
| Handlers.Session.HandleShopName | handlers/user_handlers.py:129-147 | back returns to the menu; any other message's text is stored and the location asked for |
| Handlers.Session.HandleLocation | handlers/user_handlers.py:150-185 | the location is stored; a geofence pass asks for the category, a fail keeps the state |
| Handlers.Session.BackFromLocation | handlers/user_handlers.py:188-194 | back to `authorized` with the data kept |
| Handlers.Session.HandleTypePhoto | handlers/user_handlers.py:197-230 | back returns to the location; any other text is stored and the category rule picks the state |
| Handlers.Session.HandleDmpBrand | handlers/user_handlers.py:233-251 | back returns to the category; any other text is stored as the ORIMI brand and the photo asked for |
| Handlers.Session.HandleCompetitorBrand | handlers/user_handlers.py:254-273 | back returns to the category; any other text is stored and the count asked for |
| Handlers.Session.HandleCompetitorCount | handlers/user_handlers.py:276-319 | each refusal in order; a digit string sets `authorized` and submits the record; the data never changes |
| Handlers.Session.HandleFile | handlers/user_handlers.py:322-433 | each early exit in order with its state; otherwise `authorized` with the outcome `SaveOutcome` gives |
| Handlers.Session.SaveDocument | handlers/user_handlers.py:373-428 | `authorized` with the outcome `SaveOutcome` gives; a saved photo leaves no new file |
| Handlers.Session.HandleAuthorizedCommands | handlers/user_handlers.py:436-441 | points at the menu |
| Handlers.Session.UnknownMessage | handlers/user_handlers.py:444-462 | `unauthorized` without a profile; with one, `authorized` only when no state was set |
| Handlers.Session.Handle | handlers/user_handlers.py:35-462 | the routed handler runs: for each of the fifteen routes, the new state, data and profile that handler leaves; only the file handler touches files; a well-formed session stays well-formed |
| Scenarios.CompetitorCountIsSubmitted | handlers/user_handlers.py:276-319 | a full competitor report ends `authorized` with the brand and the count submitted |
| Scenarios.UnknownNumberCanStartUpload | handlers/user_handlers.py:93-125 | an unknown number is `unauthorized` yet can start an upload |
| Scenarios.BackFromLocationKeepsShopName | handlers/user_handlers.py:188-194 | back from the location ends in the menu with the shop name kept |
| Scenarios.PhotoDownload | handlers/utils.py:236-262 | a ".jpg" photo is kept when fresh and deleted and refused when stale |
| Scenarios.PhotoNameIsCheckedJpeg | handlers/utils.py:252 | "shelf.jpg" is checked and is read by the Pillow reader |
| Scenarios.ShelfPhotoOutcome | handlers/user_handlers.py:373-413 | a fresh photo is posted with the stored fields and cleared; a stale one is refused with the data kept |
| Scenarios.SavedPhotoIsPosted | handlers/user_handlers.py:376-399 | a saved shelf photo is posted with the ids, coordinates, category and brand, deleted, and location and category cleared |
| Scenarios.RejectedPhotoIsAnswered | handlers/user_handlers.py:401-413 | a refused download is answered as stale with the data kept |
| Scenarios.FreshPhotoOutcome | handlers/user_handlers.py:373-399 | a photo taken a minute before is saved and posted |
| Scenarios.StalePhotoOutcome | handlers/user_handlers.py:401-413 | a photo taken six minutes before is refused as stale |
| Scenarios.PostFreshPhoto | handlers/user_handlers.py:322-399 | a one-minute-old photo in the photo state ends `authorized` with the form sent and location and category cleared |
| Scenarios.FreshShelfPhotoIsSaved | handlers/user_handlers.py:374-399 | a one-minute-old shelf photo is saved, the location and category cleared, the shop name kept |
| Scenarios.StaleShelfPhotoIsRefused | handlers/user_handlers.py:401-413 | a six-minute-old photo is refused as stale with the location and category kept |
| Scenarios.BackInPhotoStateIsIgnored | handlers/user_handlers.py:444-462 | "🔙 Назад" in the photo state leaves the user in the photo state |
| Scenarios.FirstOrimiPhoto | handlers/user_handlers.py:233-399 | a full ORIMI report ends `authorized` with the brand "Greenfield" kept and sent |
| Scenarios.EarlierBrandIsResent | handlers/user_handlers.py:376-388 | the ORIMI brand of an earlier photo is sent again with a later photo of a brandless category |

## Left out

- Message transport, reply texts and keyboards are left out. Answers are modelled as
  categories (`Replies.Reply`); keyboards are not modelled.
- `schedule` is modelled only as the answer category `StoreSchedule`. It reads a
  schedule from the web service and renders shop buttons, neither of which affects
  the state.
- Redis is not modelled as a store. The profile is the `profile` field of
  `Handlers.Session`.
- The `save_user_profile` web-service call is ignored, because its result is never
  used. Only a failing Redis write is modelled.
- Logging is left out.
- Concurrency between users is left out. Each session is independent.
- `bot.edit_message_text` and `message.answer` are assumed never to fail.
- The status message "⏳ Загрузка файла..." is left out.
- Time zones: both times are localised to the same zone, and the model takes that zone's
  offset to be the same for both, so it cancels. Times are counted in microseconds since
  0001-01-01.
- PhotoCheck.IsFresh: localising a capture time can itself fail at the edge of the
  calendar, for example on 9999-12-31, and then the photo is refused. The model accepts
  such a photo, because a capture time later than the clock always counts as fresh. It also
  does not model a zone offset that changed between the capture time and the clock.
- The clock, the uuids and every HTTP answer are parameters (`Handlers.Env`).
- The web service is assumed to answer JSON objects (`Services.HttpAnswer.body`). A 200
  answer whose JSON is a list, a number, a string or `null` is not modelled. A non-empty
  list is truthy, and the later `agent["id"]` would then raise.
- Coordinates are reals and are passed through unchanged. Float formatting in URLs
  and form fields is left out.
- Form-field values are kept as typed values. Their `str()` rendering is left out.
- Text operations: `str.lower`, whitespace and digits are modelled only for ASCII, the
  Cyrillic capitals and Python's whitespace set. Unicode digits other than ASCII are
  left out.
- The bytes of downloaded files are left out. The disk records only each file's size.
- Image decoding is left out. What the metadata readers and converters report is an
  input.
- Services.PostOutcome: a 201 answer whose body is not JSON is modelled as a failure
  with a fixed message. The text of the JSON decoder's exception is not modelled.
- Handlers.Session.HandleCompetitorCount: the result of `save_post_data` is not
  modelled because the handler ignores it. A missing shop name raises out of the
  handler; it is modelled as `NoReply` with the state kept.
- Handlers.Session.HandleFile: any raised error other than a missing shop name or a
  failing `get_file` is not modelled. This includes a message without a document.
