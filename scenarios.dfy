/** Whole conversations, run on a fresh session against fixed answers of the outside
    world: what a user who follows each path of the dialogue ends up with. */
module Scenarios {
  import opened Values
  import opened Text
  import opened Fsm
  import opened Paths
  import opened ExifTime
  import opened PhotoCheck
  import opened Services
  import opened Files
  import opened Categories
  import opened Dispatch
  import opened Replies
  import opened Handlers

  const AGENT_RECORD: map<string, Value> := map["id" := Int(5)]
  const STORE_RECORD: map<string, Value> := map["id" := Int(9)]
  const SHOP: string := "Народный"
  const PHOTO_NAME: string := "shelf.jpg"
  const UUID: string := "5d2c"

  /** The outside world when the agent, the store and the geofence all answer yes, the
      post is created, and the downloaded photo is what `probe` says, at time `now`. */
  function Everything(now: int, probe: Probe): (env: Env)
    ensures UniqueName(env.uuid)
  {
    Env("orimi_bot", Response(200, Some(AGENT_RECORD)), false,
        Response(200, Some(map["success" := Bool(true)])), Response(200, Some(STORE_RECORD)),
        Posted(201, "", false), Some("documents/file_7.jpg"), "0f3a", UUID,
        Downloaded(200, 2048), probe, now, HeicConversion(None, MagickFailed("")))
  }

  /** Exiftool is not installed and Pillow reads the capture time `dt`. */
  function PhotoProbe(dt: DateTime): Probe
    requires ExifTime.Valid(dt)
  {
    Probe(ExiftoolMissing, ExifLoaded(TagText(Format(dt))))
  }

  /** The three lookups succeed in that world. */
  lemma EverythingIsFound(now: int, probe: Probe)
    ensures AgentFound(GetAgentByPhone(Everything(now, probe).agentAnswer))
    ensures GetAgentByPhone(Everything(now, probe).agentAnswer).body == AGENT_RECORD
    ensures StoreFound(GetStoreIdByName(Everything(now, probe).storeAnswer))
    ensures GetStoreIdByName(Everything(now, probe).storeAnswer).value == STORE_RECORD
    ensures CheckCoordinates(Everything(now, probe).geofenceAnswer)
  {
    assert "id" in AGENT_RECORD && "id" in STORE_RECORD;
  }

  /** A competitor report: authorise, start an upload, name the shop, share a location
      inside the geofence, pick "ДМП_конкурент", a brand and a count of digits. The
      session ends `authorized` and the record sent carries the brand and the count. */
  method CompetitorCountIsSubmitted(brand: string, count: string)
    returns (finalState: Option<UserState>, submitted: Option<Fields>)
    requires brand != BACK_BUTTON && IsDigitString(count)
    ensures finalState == Some(Authorized)
    ensures submitted.Some?
    ensures Lookup(submitted.value, "dmp_type") == Some(Str(brand))
    ensures Lookup(submitted.value, "dmp_count") == Some(Str(count))
  {
    var env := Everything(0, Probe(ExiftoolMissing, NoExif));
    EverythingIsFound(0, Probe(ExiftoolMissing, NoExif));
    var s := new Session(7, None);
    var reply := s.HandleContact("996555123456", Some(7), env);
    reply := s.HandleUploadPhoto();
    reply := s.HandleShopName(TextMessage(SHOP));
    reply := s.HandleLocation(42.87, 74.59, env);
    CompetitorLabelHasBothMarks();
    reply := s.HandleTypePhoto("ДМП_конкурент");
    reply := s.HandleCompetitorBrand(brand);
    CountSubmissionCarriesBrandAndCount(AGENT_RECORD, STORE_RECORD, s.data, s.profile, count);
    reply, submitted := s.HandleCompetitorCount(count, env);
    finalState := s.state;
  }

  /** A number the web service does not know still gets a stored profile, and with it
      the upload dialogue starts: only the later lookups of the agent refuse it. */
  method UnknownNumberCanStartUpload() returns (afterContact: Option<UserState>, afterUpload: Option<UserState>)
    ensures afterContact == Some(Unauthorized)
    ensures afterUpload == Some(WaitingForShopName)
  {
    var env := Everything(0, Probe(ExiftoolMissing, NoExif)).(agentAnswer := Response(404, None));
    var s := new Session(7, None);
    var reply := s.HandleContact("996555123456", Some(7), env);
    afterContact := s.state;
    reply := s.HandleUploadPhoto();
    afterUpload := s.state;
  }

  /** "🔙 Назад" while the location is awaited returns to the main menu, not to the shop
      name, and the shop name stays stored. */
  method BackFromLocationKeepsShopName() returns (finalState: Option<UserState>, data: map<string, Value>)
    ensures finalState == Some(Authorized)
    ensures data == map["phone" := Str("996555123456"), "shop_name" := Str(SHOP)]
  {
    var env := Everything(0, Probe(ExiftoolMissing, NoExif));
    EverythingIsFound(0, Probe(ExiftoolMissing, NoExif));
    var s := new Session(7, None);
    var reply := s.HandleContact("996555123456", Some(7), env);
    reply := s.HandleUploadPhoto();
    reply := s.HandleShopName(TextMessage(SHOP));
    reply := s.BackFromLocation();
    finalState := s.state;
    data := s.data;
  }

  /** "shelf.jpg" has the checked extension ".jpg", read by Pillow, not by exiftool. */
  lemma PhotoNameIsCheckedJpeg()
    ensures Ext(Lower(PHOTO_NAME)) == ".jpg" && IsChecked(PHOTO_NAME)
    ensures !UsesHeicReader(SavePath(UUID, PHOTO_NAME))
  {
    assert Lower(PHOTO_NAME) == PHOTO_NAME;
    assert [] + "shelf" + ".jpg" == PHOTO_NAME;
    ExtOfStemWithExt([], "shelf", ".jpg");
    SavePathLowerExt(UUID, PHOTO_NAME);
  }

  /** The downloaded photo, when Pillow reads the capture time `dt` and the clock says
      `now`: saved under the unique name when fresh, deleted and refused when not. */
  lemma PhotoDownload(dt: DateTime, now: int)
    requires ExifTime.Valid(dt)
    ensures var env := Everything(now, PhotoProbe(dt));
      Download(map[], env.download, PHOTO_NAME, UUID, env.probe, now, env.conversion)
      == if IsFresh(now, dt) then (map[SavePath(UUID, PHOTO_NAME) := 2048], Ok(ShelfPath(UUID, PHOTO_NAME)))
         else (map[], Err(REJECTION))
  {
    var probe := PhotoProbe(dt);
    PhotoNameIsCheckedJpeg();
    assert Format(dt) + [] == Format(dt);
    RasterAcceptedIffFresh(SavePath(UUID, PHOTO_NAME), probe, now, dt, []);
    assert map[SavePath(UUID, PHOTO_NAME) := 2048] - {SavePath(UUID, PHOTO_NAME)} == map[];
  }

  /** The dialogue up to the photo for a "РМП_чай_ДО" shelf photo of the shop. */
  method ReachShelfPhotoState(env: Env) returns (s: Session)
    requires AgentFound(GetAgentByPhone(env.agentAnswer)) && !env.profileWriteFails
    requires CheckCoordinates(env.geofenceAnswer)
    ensures fresh(s) && s.Valid() && s.state == Some(WaitingForPhoto)
    ensures s.data == map["phone" := Str("996555123456"), "shop_name" := Str(SHOP),
                          "location" := Location(42.87, 74.59), "type_photo" := Str("РМП_чай_ДО")]
  {
    s := new Session(7, None);
    var reply := s.HandleContact("996555123456", Some(7), env);
    reply := s.HandleUploadPhoto();
    reply := s.HandleShopName(TextMessage(SHOP));
    reply := s.HandleLocation(42.87, 74.59, env);
    TeaBeforeHasNoDmpMark();
    reply := s.HandleTypePhoto("РМП_чай_ДО");
  }

  /** What the inner part of the file handler does with that photo. */
  lemma ShelfPhotoOutcome(dt: DateTime, now: int, data: map<string, Value>)
    requires ExifTime.Valid(dt)
    requires "location" in data && data["location"] == Location(42.87, 74.59)
    ensures var env := Everything(now, PhotoProbe(dt));
      SaveOutcome(map[], data, AGENT_RECORD, STORE_RECORD, PHOTO_NAME, env)
      == if IsFresh(now, dt)
         then (map[], data["location" := Null]["type_photo" := Null], FileSaved,
               Some(PhotoFormFields(Int(5), Int(9), Num(42.87), Num(74.59),
                                    Get(data, "type_photo"), Get(data, "dmp_brand"))))
         else (map[], data, StalePhoto, None)
  {
    var env := Everything(now, PhotoProbe(dt));
    var d := Download(map[], env.download, PHOTO_NAME, UUID, env.probe, now, env.conversion);
    PhotoDownload(dt, now);
    assert SaveOutcome(map[], data, AGENT_RECORD, STORE_RECORD, PHOTO_NAME, env)
        == PostDownloaded(d, data, AGENT_RECORD, STORE_RECORD);
    if IsFresh(now, dt) {
      SavedPhotoIsPosted(data);
    } else {
      RejectedPhotoIsAnswered(data);
    }
  }

  /** Posting the saved photo: the agent's and the store's ids and the stored location
      go out, the file is deleted and the location and the category are cleared. */
  lemma SavedPhotoIsPosted(data: map<string, Value>)
    requires "location" in data && data["location"] == Location(42.87, 74.59)
    ensures PostDownloaded((map[SavePath(UUID, PHOTO_NAME) := 2048], Ok(ShelfPath(UUID, PHOTO_NAME))),
                           data, AGENT_RECORD, STORE_RECORD)
         == (map[], data["location" := Null]["type_photo" := Null], FileSaved,
             Some(PhotoFormFields(Int(5), Int(9), Num(42.87), Num(74.59),
                                  Get(data, "type_photo"), Get(data, "dmp_brand"))))
  {
    ShelfPathUnderMedia(UUID, PHOTO_NAME);
    assert map[SavePath(UUID, PHOTO_NAME) := 2048] - {SavePath(UUID, PHOTO_NAME)} == map[];
  }

  /** A photo refused by the provenance check is answered as a stale photo. */
  lemma RejectedPhotoIsAnswered(data: map<string, Value>)
    ensures PostDownloaded((map[], Err(REJECTION)), data, AGENT_RECORD, STORE_RECORD)
         == (map[], data, StalePhoto, None)
  {
    RejectionSelectsStale();
  }

  /** The photo's reading a minute after its capture time. */
  lemma FreshPhotoOutcome(dt: DateTime, data: map<string, Value>)
    requires ExifTime.Valid(dt)
    requires "location" in data && data["location"] == Location(42.87, 74.59)
    ensures var now := Micros(dt) + 60 * 1000000;
      SaveOutcome(map[], data, AGENT_RECORD, STORE_RECORD, PHOTO_NAME, Everything(now, PhotoProbe(dt)))
      == (map[], data["location" := Null]["type_photo" := Null], FileSaved,
          Some(PhotoFormFields(Int(5), Int(9), Num(42.87), Num(74.59),
                               Get(data, "type_photo"), Get(data, "dmp_brand"))))
  {
    var now := Micros(dt) + 60 * 1000000;
    ShelfPhotoOutcome(dt, now, data);
    assert IsFresh(now, dt);
  }

  /** The photo's reading six minutes after its capture time. */
  lemma StalePhotoOutcome(dt: DateTime, data: map<string, Value>)
    requires ExifTime.Valid(dt)
    requires "location" in data && data["location"] == Location(42.87, 74.59)
    ensures var now := Micros(dt) + 6 * 60 * 1000000;
      SaveOutcome(map[], data, AGENT_RECORD, STORE_RECORD, PHOTO_NAME, Everything(now, PhotoProbe(dt)))
      == (map[], data, StalePhoto, None)
  {
    var now := Micros(dt) + 6 * 60 * 1000000;
    ShelfPhotoOutcome(dt, now, data);
    assert !IsFresh(now, dt);
  }

  /** A shop photo of the four "РМП_" kinds: after the category the photo is asked for
      at once; a photo taken a minute ago is posted and deleted, the location and the
      category are cleared, the shop name stays and the session ends `authorized`. */
  method FreshShelfPhotoIsSaved(dt: DateTime)
    returns (reply: Reply, finalState: Option<UserState>, files: Disk, data: map<string, Value>)
    requires ExifTime.Valid(dt)
    ensures reply == FileSaved && finalState == Some(Authorized) && files == map[]
    ensures Get(data, "location") == Null && Get(data, "type_photo") == Null && Get(data, "shop_name") == Str(SHOP)
  {
    var env := Everything(0, Probe(ExiftoolMissing, NoExif));
    EverythingIsFound(0, Probe(ExiftoolMissing, NoExif));
    var s := ReachShelfPhotoState(env);
    var fs := new FileSystem(map[]);
    var sent;
    reply, sent := PostFreshPhoto(s, fs, dt);
    finalState, files, data := s.state, fs.files, s.data;
  }

  /** The same photo six minutes old: it is deleted and refused with the stale-photo
      answer, the session ends `authorized`, and the location and the category stay. */
  method StaleShelfPhotoIsRefused(dt: DateTime)
    returns (reply: Reply, finalState: Option<UserState>, files: Disk, data: map<string, Value>)
    requires ExifTime.Valid(dt)
    ensures reply == StalePhoto && finalState == Some(Authorized) && files == map[]
    ensures Get(data, "location") == Location(42.87, 74.59) && Get(data, "type_photo") == Str("РМП_чай_ДО")
  {
    var now := Micros(dt) + 6 * 60 * 1000000;
    var env := Everything(now, PhotoProbe(dt));
    EverythingIsFound(now, PhotoProbe(dt));
    var s := ReachShelfPhotoState(env);
    var fs := new FileSystem(map[]);
    ghost var before := s.data;
    assert Truthy(Get(s.data, "location"));
    assert FileNameFor(Some(PHOTO_NAME), env.telegramPath.value, env.fallbackHex) == PHOTO_NAME;
    var sent;
    reply, sent := s.HandleFile(Some(PHOTO_NAME), env, fs);
    assert (fs.files, s.data, reply, sent) == (map[], before, StalePhoto, None) by {
      StalePhotoOutcome(dt, before);
    }
    finalState, files, data := s.state, fs.files, s.data;
  }

  /** In the photo state "🔙 Назад" is no document: it falls through to the catch-all,
      which keeps the state, so the user stays asked for a photo. */
  method BackInPhotoStateIsIgnored() returns (h: Handler, finalState: Option<UserState>)
    ensures h == Unknown && finalState == Some(WaitingForPhoto)
  {
    var env := Everything(0, Probe(ExiftoolMissing, NoExif));
    EverythingIsFound(0, Probe(ExiftoolMissing, NoExif));
    var s := ReachShelfPhotoState(env);
    var fs := new FileSystem(map[]);
    BackInPhotoStateIsUnknown(env.botUsername);
    var reply;
    h, reply := s.Handle(TextMessage(BACK_BUTTON), env, fs);
    finalState := s.state;
  }

  /** A second upload in the same session, from the main menu to the photo of a
      "РМП_чай_ДО" shelf: the new shop name, location and category replace the old
      ones, and everything else stored stays. */
  method ContinueToShelfPhoto(s: Session, env: Env)
    requires s.state == Some(Authorized) && s.profile.Some? && CheckCoordinates(env.geofenceAnswer)
    modifies s
    ensures s.Valid() && s.state == Some(WaitingForPhoto) && s.profile == old(s.profile)
    ensures s.data == old(s.data)["shop_name" := Str(SHOP)]["location" := Location(42.87, 74.59)]
                                 ["type_photo" := Str("РМП_чай_ДО")]
  {
    var reply := s.HandleUploadPhoto();
    reply := s.HandleShopName(TextMessage(SHOP));
    reply := s.HandleLocation(42.87, 74.59, env);
    TeaBeforeHasNoDmpMark();
    reply := s.HandleTypePhoto("РМП_чай_ДО");
  }

  /** A photo taken a minute before the clock reads `now`, sent in the photo state of a
      session whose location is the one shared above: it is posted with the stored
      category and brand, and the location and the category are cleared. */
  method PostFreshPhoto(s: Session, fs: FileSystem, dt: DateTime) returns (reply: Reply, sent: Option<Fields>)
    requires ExifTime.Valid(dt) && fs.files == map[]
    requires s.Valid() && s.state == Some(WaitingForPhoto) && s.profile.Some?
    requires Get(s.data, "location") == Location(42.87, 74.59) && "shop_name" in s.data
    modifies s, fs
    ensures s.Valid() && s.state == Some(Authorized) && s.profile == old(s.profile) && fs.files == map[]
    ensures s.data == old(s.data)["location" := Null]["type_photo" := Null] && reply == FileSaved
    ensures sent == Some(PhotoFormFields(Int(5), Int(9), Num(42.87), Num(74.59),
                                         Get(old(s.data), "type_photo"), Get(old(s.data), "dmp_brand")))
  {
    var now := Micros(dt) + 60 * 1000000;
    var env := Everything(now, PhotoProbe(dt));
    EverythingIsFound(now, PhotoProbe(dt));
    ghost var before := s.data;
    assert Truthy(Get(s.data, "location"));
    assert FileNameFor(Some(PHOTO_NAME), env.telegramPath.value, env.fallbackHex) == PHOTO_NAME;
    reply, sent := s.HandleFile(Some(PHOTO_NAME), env, fs);
    assert (fs.files, s.data, reply, sent)
        == (map[], before["location" := Null]["type_photo" := Null], FileSaved,
            Some(PhotoFormFields(Int(5), Int(9), Num(42.87), Num(74.59),
                                 Get(before, "type_photo"), Get(before, "dmp_brand")))) by {
      FreshPhotoOutcome(dt, before);
    }
  }

  /** The three answers of a second upload leave the ORIMI brand alone. */
  lemma ShelfStepsKeepBrand(d: map<string, Value>)
    ensures var e := d["shop_name" := Str(SHOP)]["location" := Location(42.87, 74.59)]
                      ["type_photo" := Str("РМП_чай_ДО")];
      Get(e, "location") == Location(42.87, 74.59) && "shop_name" in e
      && Get(e, "type_photo") == Str("РМП_чай_ДО") && Get(e, "dmp_brand") == Get(d, "dmp_brand")
  {
  }

  /** The dialogue up to the photo for an "ДМП_ОРИМИ КР" shelf with the brand "Greenfield". */
  method ReachOrimiPhotoState(env: Env) returns (s: Session)
    requires AgentFound(GetAgentByPhone(env.agentAnswer)) && !env.profileWriteFails
    requires CheckCoordinates(env.geofenceAnswer)
    ensures fresh(s) && s.Valid() && s.state == Some(WaitingForPhoto) && s.profile.Some?
    ensures s.data == map["phone" := Str("996555123456"), "shop_name" := Str(SHOP),
                          "location" := Location(42.87, 74.59), "type_photo" := Str("ДМП_ОРИМИ КР"),
                          "dmp_brand" := Str("Greenfield")]
  {
    s := new Session(7, None);
    var reply := s.HandleContact("996555123456", Some(7), env);
    reply := s.HandleUploadPhoto();
    reply := s.HandleShopName(TextMessage(SHOP));
    reply := s.HandleLocation(42.87, 74.59, env);
    OrimiLabelHasOnlyDmpMark();
    reply := s.HandleTypePhoto("ДМП_ОРИМИ КР");
    reply := s.HandleDmpBrand("Greenfield");
  }

  /** A first photo, of an "ДМП_ОРИМИ КР" shelf with the brand "Greenfield": it is posted
      with that category and brand, and the brand stays stored afterwards. */
  method FirstOrimiPhoto(dt: DateTime) returns (s: Session, fs: FileSystem, first: Option<Fields>)
    requires ExifTime.Valid(dt)
    ensures fresh(s) && fresh(fs) && fs.files == map[]
    ensures s.Valid() && s.state == Some(Authorized) && s.profile.Some?
    ensures Get(s.data, "dmp_brand") == Str("Greenfield")
    ensures first == Some(PhotoFormFields(Int(5), Int(9), Num(42.87), Num(74.59),
                                          Str("ДМП_ОРИМИ КР"), Str("Greenfield")))
  {
    var env := Everything(0, Probe(ExiftoolMissing, NoExif));
    EverythingIsFound(0, Probe(ExiftoolMissing, NoExif));
    s := ReachOrimiPhotoState(env);
    fs := new FileSystem(map[]);
    var reply;
    reply, first := PostFreshPhoto(s, fs, dt);
  }

  /** The ORIMI brand is not cleared after a photo is saved: a later photo of a category
      without a brand is posted with the earlier brand as its "dmp_type". */
  method EarlierBrandIsResent(dt: DateTime) returns (first: Option<Fields>, second: Option<Fields>)
    requires ExifTime.Valid(dt)
    ensures first == Some(PhotoFormFields(Int(5), Int(9), Num(42.87), Num(74.59),
                                          Str("ДМП_ОРИМИ КР"), Str("Greenfield")))
    ensures second == Some(PhotoFormFields(Int(5), Int(9), Num(42.87), Num(74.59),
                                           Str("РМП_чай_ДО"), Str("Greenfield")))
  {
    var s, fs;
    s, fs, first := FirstOrimiPhoto(dt);
    var env := Everything(0, Probe(ExiftoolMissing, NoExif));
    EverythingIsFound(0, Probe(ExiftoolMissing, NoExif));
    ghost var before := s.data;
    ContinueToShelfPhoto(s, env);
    ShelfStepsKeepBrand(before);
    var reply;
    reply, second := PostFreshPhoto(s, fs, dt);
  }
}
