/** The per-user conversation controller of handlers/user_handlers.py. A `Session` holds
    what aiogram's FSM context and Redis keep for one Telegram user: the current state
    (None before any `set_state`), the data dictionary and the stored profile. Each
    handler is a method that changes them step by step; every collaborator's answer
    (web service, Redis write, Telegram, clock, uuid, metadata readers) arrives in `Env`. */
module Handlers {
  import opened Values
  import opened Text
  import opened Fsm
  import opened Paths
  import opened PhotoCheck
  import opened Services
  import opened Files
  import opened Categories
  import opened Dispatch
  import opened Replies

  /** The answers of everything outside the bot for one incoming message. */
  datatype Env = Env(
    botUsername: string,           // the bot's username, for command mentions
    agentAnswer: HttpAnswer,       // GET /api/agent/<phone>
    profileWriteFails: bool,       // the Redis write of `save_user_profile` raises
    geofenceAnswer: HttpAnswer,    // GET /api/check-address/...
    storeAnswer: HttpAnswer,       // GET /api/store-id/<name>
    postAnswer: PostAnswer,        // POST /api/photo-posts/create/
    telegramPath: Option<string>,  // `bot.get_file(...).file_path`; None when the call raises
    fallbackHex: string,           // `uuid.uuid4().hex` in `handle_file`
    uuid: string,                  // `uuid.uuid4()` in `download_file`
    download: DownloadAnswer,      // the Telegram file download
    probe: Probe,                  // what the metadata readers report for the file
    nowMicros: int,                // `datetime.now` in microseconds
    conversion: HeicConversion)    // what the HEIC converters do

  /** The states reached only after a shop name was stored, after a location passed
      the geofence, and after a category was chosen. */
  const AFTER_SHOP_NAME: set<UserState> := {
    WaitingForLocation, WaitingForTypePhoto, WaitingForCompetitorBrand, WaitingForDmpBrand,
    WaitingForCompetitorCountAfterBrand, WaitingForPhoto
  }
  const AFTER_LOCATION: set<UserState> := {
    WaitingForTypePhoto, WaitingForCompetitorBrand, WaitingForDmpBrand,
    WaitingForCompetitorCountAfterBrand, WaitingForPhoto
  }
  const AFTER_CATEGORY: set<UserState> := {
    WaitingForCompetitorBrand, WaitingForDmpBrand, WaitingForCompetitorCountAfterBrand, WaitingForPhoto
  }

  /** What the dialogue guarantees about the stored data in each state: every state but
      `unauthorized` (and none) has a profile behind it, and each step's field is there
      once the step is behind the user. */
  predicate DataFitsState(st: Option<UserState>, data: map<string, Value>, profile: Option<string>) {
    (st.Some? && st.value != Unauthorized ==> profile.Some?)
    && (st.Some? && st.value in AFTER_SHOP_NAME ==> "shop_name" in data)
    && (st.Some? && st.value in AFTER_LOCATION ==> "location" in data && data["location"].Location?)
    && (st.Some? && st.value in AFTER_CATEGORY ==> "type_photo" in data && data["type_photo"].Str?)
    && (st == Some(WaitingForCompetitorCountAfterBrand) ==>
          "competitor_brand" in data && data["competitor_brand"].Str?)
  }

  /** The menu state asks nothing of the stored data. */
  lemma AuthorizedFitsAnyData(data: map<string, Value>, profile: Option<string>)
    requires profile.Some?
    ensures DataFitsState(Some(Authorized), data, profile)
  {
    assert Authorized !in AFTER_SHOP_NAME && Authorized !in AFTER_LOCATION && Authorized !in AFTER_CATEGORY;
  }

  /** `if not store:` on the store lookup. */
  predicate StoreFound(s: Option<map<string, Value>>) {
    s.Some? && s.value != map[]
  }

  /** `document.file_name or f"{uuid4().hex}{splitext(file_path)[1]}"`. */
  function FileNameFor(documentName: Option<string>, telegramPath: string, hex: string): string {
    if documentName.Some? && documentName.value != "" then documentName.value
    else hex + Ext(telegramPath)
  }

  /** A document without a name is saved under the random name with the extension of
      Telegram's own path, so the extension still decides whether it is checked. */
  lemma FallbackNameKeepsExtension(documentName: Option<string>, telegramPath: string, hex: string)
    requires documentName.None? || documentName.value == ""
    requires hex != "" && NoSeparators(hex)
    ensures Ext(FileNameFor(documentName, telegramPath, hex)) == Ext(telegramPath)
  {
    SplitExtParts(telegramPath);
    assert [] + hex + Ext(telegramPath) == hex + Ext(telegramPath);
    ExtOfStemWithExt([], hex, Ext(telegramPath));
  }

  /** `data.get("location", {})` followed by `.get("latitude")` and `.get("longitude")`:
      the coordinates of a stored location, None twice when there is no location, and no
      result (an AttributeError) when the key holds anything else, None included. */
  function CountCoordinates(data: map<string, Value>): (c: Option<(Value, Value)>)
    ensures c.Some? <==> "location" !in data || data["location"].Location?
    ensures "location" !in data ==> c == Some((Null, Null))
  {
    if "location" !in data then Some((Null, Null))
    else match data["location"]
      case Location(latitude, longitude) => Some((Num(latitude), Num(longitude)))
      case _ => None
  }

  /** The record the count handler sends, or None when building the call raises: a
      missing "id" in the agent's or the store's record, or a location that is not one. */
  function CountSubmission(agent: map<string, Value>, store: map<string, Value>,
                           data: map<string, Value>, count: string): Option<Fields> {
    match CountCoordinates(data)
    case None => None
    case Some(coordinates) =>
      if "id" in agent && "id" in store then
        Some(PostDataFields(agent["id"], store["id"], coordinates.0, coordinates.1,
                            Get(data, "type_photo"), Get(data, "competitor_brand"), Str(count)))
      else None
  }

  /** In the count state of a well-formed session, a submission with both ids carries
      the competitor brand as "dmp_type" and the count text as "dmp_count". */
  lemma CountSubmissionCarriesBrandAndCount(agent: map<string, Value>, store: map<string, Value>,
                                            data: map<string, Value>, profile: Option<string>,
                                            count: string)
    requires DataFitsState(Some(WaitingForCompetitorCountAfterBrand), data, profile)
    requires "id" in agent && "id" in store
    ensures CountSubmission(agent, store, data, count).Some?
    ensures var f := CountSubmission(agent, store, data, count).value;
      Lookup(f, "dmp_type") == Some(data["competitor_brand"]) && Lookup(f, "dmp_count") == Some(Str(count))
  {
    var c := CountCoordinates(data).value;
    PostDataFieldsLookup(agent["id"], store["id"], c.0, c.1, Get(data, "type_photo"),
                         Get(data, "competitor_brand"), Str(count));
  }

  /** The FSM context and the Redis profile of one Telegram user. */
  class Session {
    const userId: int
    var state: Option<UserState>
    var data: map<string, Value>
    var profile: Option<string>  // the "agent_number" stored under user:<id>

    predicate Valid()
      reads this
    {
      DataFitsState(state, data, profile)
    }

    /** A user the bot has not talked to yet; Redis may already hold a profile. */
    constructor (userId: int, profile: Option<string>)
      ensures this.userId == userId && state == None && data == map[] && this.profile == profile
      ensures Valid()
    {
      this.userId := userId;
      state := None;
      data := map[];
      this.profile := profile;
    }

    /** `cmd_start`: welcome and `unauthorized`, from any state; the data stays. */
    method CmdStart() returns (reply: Reply)
      modifies this
      ensures state == Some(Unauthorized) && data == old(data) && profile == old(profile)
      ensures reply == Welcome
      ensures Valid()
    {
      state := Some(Unauthorized);
      reply := Welcome;
    }

    /** `cmd_help`: the instructions; nothing changes. */
    method CmdHelp() returns (reply: Reply)
      ensures reply == Instructions
    {
      reply := Instructions;
    }

    /** `cmd_profile`: the stored phone, or `unauthorized` without a profile. */
    method CmdProfile() returns (reply: Reply)
      modifies this
      ensures data == old(data) && profile == old(profile)
      ensures old(profile).None? ==> state == Some(Unauthorized) && reply == AskToAuthorize
      ensures old(profile).Some? ==> state == old(state) && reply == ShowPhone(old(profile).value)
      ensures old(Valid()) ==> Valid()
    {
      if profile.None? {
        reply := AskToAuthorize;
        state := Some(Unauthorized);
        return;
      }
      reply := ShowPhone(profile.value);
    }

    /** `handle_contact`: somebody else's contact changes nothing. Otherwise the agent is
        looked up, the normalised phone is stored as the profile whatever the lookup gave,
        the raw phone goes into the data, and the lookup decides between `authorized` and
        `unauthorized`. A failing profile write changes nothing. */
    method HandleContact(phone: string, contactUserId: Option<int>, env: Env) returns (reply: Reply)
      modifies this
      ensures contactUserId != Some(userId) || env.profileWriteFails ==>
        state == old(state) && data == old(data) && profile == old(profile)
      ensures contactUserId != Some(userId) ==> reply == OwnContactOnly
      ensures contactUserId == Some(userId) && env.profileWriteFails ==> reply == ContactCheckFailed
      ensures contactUserId == Some(userId) && !env.profileWriteFails ==>
        profile == Some(NormalizePhone(phone)) && data == old(data)["phone" := Str(phone)]
      ensures contactUserId == Some(userId) && !env.profileWriteFails
              && AgentFound(GetAgentByPhone(env.agentAnswer))
        ==> state == Some(Authorized) && reply == AuthSuccess
      ensures contactUserId == Some(userId) && !env.profileWriteFails
              && !AgentFound(GetAgentByPhone(env.agentAnswer))
        ==> state == Some(Unauthorized) && reply == NumberNotFound
      ensures old(Valid()) ==> Valid()
    {
      if contactUserId != Some(userId) {
        return OwnContactOnly;
      }
      var agent := GetAgentByPhone(env.agentAnswer);
      if env.profileWriteFails {
        return ContactCheckFailed;
      }
      profile := Some(NormalizePhone(phone));
      data := data["phone" := Str(phone)];
      if AgentFound(agent) {
        state := Some(Authorized);
        reply := AuthSuccess;
      } else {
        state := Some(Unauthorized);
        reply := NumberNotFound;
      }
    }

    /** `handle_upload_photo`: with a profile the dialogue starts at the shop name and the
        schedule is shown; without one the user is sent to authorise. */
    method HandleUploadPhoto() returns (reply: Reply)
      modifies this
      ensures data == old(data) && profile == old(profile)
      ensures old(profile).None? ==> state == Some(Unauthorized) && reply == AskToAuthorize
      ensures old(profile).Some? ==> state == Some(WaitingForShopName) && reply == StoreSchedule
      ensures old(Valid()) ==> Valid()
    {
      if profile.None? {
        reply := AskToAuthorize;
        state := Some(Unauthorized);
        return;
      }
      state := Some(WaitingForShopName);
      reply := StoreSchedule;
    }

    /** `handle_shop_name`: "🔙 Назад" returns to the menu; any other message stores its
        text verbatim (None for a message without text) and asks for the location. */
    method HandleShopName(m: Message) returns (reply: Reply)
      requires state == Some(WaitingForShopName)
      modifies this
      ensures profile == old(profile)
      ensures TextIs(m, BACK_BUTTON) ==> state == Some(Authorized) && data == old(data) && reply == MainMenu
      ensures !TextIs(m, BACK_BUTTON) ==>
        state == Some(WaitingForLocation)
        && data == old(data)["shop_name" := TextValue(MessageText(m))]
        && reply == ShopNameSaved(TextValue(MessageText(m)))
      ensures old(Valid()) ==> Valid()
    {
      if m.TextMessage? && m.text == BACK_BUTTON {
        state := Some(Authorized);
        return MainMenu;
      }
      var shopName := TextValue(MessageText(m));
      data := data["shop_name" := shopName];
      state := Some(WaitingForLocation);
      reply := ShopNameSaved(shopName);
    }

    /** `handle_location`: without a profile, `unauthorized`. Otherwise the location is
        stored before the geofence call; a pass asks for the category, a fail answers with
        the main menu but keeps the state and the stored location. */
    method HandleLocation(latitude: real, longitude: real, env: Env) returns (reply: Reply)
      requires state == Some(WaitingForLocation)
      modifies this
      ensures profile == old(profile)
      ensures old(profile).None? ==> state == Some(Unauthorized) && data == old(data) && reply == AskToAuthorize
      ensures old(profile).Some? ==> data == old(data)["location" := Location(latitude, longitude)]
      ensures old(profile).Some? && CheckCoordinates(env.geofenceAnswer) ==>
        state == Some(WaitingForTypePhoto) && reply == AskTypePhoto
      ensures old(profile).Some? && !CheckCoordinates(env.geofenceAnswer) ==>
        state == old(state) && reply == MainMenu
      ensures old(Valid()) ==> Valid()
    {
      if profile.None? {
        reply := AskToAuthorize;
        state := Some(Unauthorized);
        return;
      }
      data := data["location" := Location(latitude, longitude)];
      var check := CheckCoordinates(env.geofenceAnswer);
      if check {
        state := Some(WaitingForTypePhoto);
        reply := AskTypePhoto;
      } else {
        reply := MainMenu;
      }
    }

    /** `back_from_location`: back to the menu, not to the shop name. */
    method BackFromLocation() returns (reply: Reply)
      requires state == Some(WaitingForLocation)
      modifies this
      ensures state == Some(Authorized) && data == old(data) && profile == old(profile)
      ensures reply == MainMenu
      ensures old(Valid()) ==> Valid()
    {
      state := Some(Authorized);
      reply := MainMenu;
    }

    /** `handle_type_photo`: "🔙 Назад" returns to the location; any other text is stored
        unvalidated as the category and the substring rule picks the next state. */
    method HandleTypePhoto(text: string) returns (reply: Reply)
      requires state == Some(WaitingForTypePhoto)
      modifies this
      ensures profile == old(profile)
      ensures text == BACK_BUTTON ==>
        state == Some(WaitingForLocation) && data == old(data) && reply == BackToLocation
      ensures text != BACK_BUTTON ==>
        data == old(data)["type_photo" := Str(text)] && state == Some(CategoryTarget(text))
      ensures text != BACK_BUTTON && CategoryTarget(text) == WaitingForCompetitorBrand ==>
        reply == AskCompetitorBrand(text)
      ensures text != BACK_BUTTON && CategoryTarget(text) == WaitingForDmpBrand ==> reply == AskOrimiBrand(text)
      ensures text != BACK_BUTTON && CategoryTarget(text) == WaitingForPhoto ==> reply == AskFileType
      ensures old(Valid()) ==> Valid()
    {
      if text == BACK_BUTTON {
        state := Some(WaitingForLocation);
        return BackToLocation;
      }
      data := data["type_photo" := Str(text)];
      if Contains(text, DMP_MARK) {
        if Contains(text, COMPETITOR_MARK) {
          reply := AskCompetitorBrand(text);
          state := Some(WaitingForCompetitorBrand);
        } else {
          reply := AskOrimiBrand(text);
          state := Some(WaitingForDmpBrand);
        }
      } else {
        state := Some(WaitingForPhoto);
        reply := AskFileType;
      }
    }

    /** `handle_dmp_brand`: "🔙 Назад" returns to the category; any other text is stored
        unvalidated as the ORIMI brand and the photo is asked for. */
    method HandleDmpBrand(text: string) returns (reply: Reply)
      requires state == Some(WaitingForDmpBrand)
      modifies this
      ensures profile == old(profile)
      ensures text == BACK_BUTTON ==>
        state == Some(WaitingForTypePhoto) && data == old(data) && reply == BackToTypePhoto
      ensures text != BACK_BUTTON ==>
        state == Some(WaitingForPhoto) && data == old(data)["dmp_brand" := Str(text)] && reply == AskFileType
      ensures old(Valid()) ==> Valid()
    {
      if text == BACK_BUTTON {
        state := Some(WaitingForTypePhoto);
        return BackToTypePhoto;
      }
      data := data["dmp_brand" := Str(text)];
      state := Some(WaitingForPhoto);
      reply := AskFileType;
    }

    /** `handle_competitor_brand`: "🔙 Назад" returns to the category; any other text is
        stored unvalidated as the competitor brand and the count is asked for. */
    method HandleCompetitorBrand(text: string) returns (reply: Reply)
      requires state == Some(WaitingForCompetitorBrand)
      modifies this
      ensures profile == old(profile)
      ensures text == BACK_BUTTON ==>
        state == Some(WaitingForTypePhoto) && data == old(data) && reply == BackToTypePhoto
      ensures text != BACK_BUTTON ==>
        state == Some(WaitingForCompetitorCountAfterBrand)
        && data == old(data)["competitor_brand" := Str(text)] && reply == AskCount(text)
      ensures old(Valid()) ==> Valid()
    {
      if text == BACK_BUTTON {
        state := Some(WaitingForTypePhoto);
        return BackToTypePhoto;
      }
      data := data["competitor_brand" := Str(text)];
      state := Some(WaitingForCompetitorCountAfterBrand);
      reply := AskCount(text);
    }

    /** `handle_competitor_count_after_brand`. In order: no profile gives `unauthorized`;
        no agent, or no store for the stored shop name, answers and keeps the state; a
        missing shop name raises (no answer). Then a text of digits sets `authorized` and
        submits the record, whatever the service answers; any other text, "🔙 Назад"
        included, asks again. Building the record can still raise after the state was
        set (`submitted` is then None). The data is never changed. */
    method HandleCompetitorCount(text: string, env: Env) returns (reply: Reply, submitted: Option<Fields>)
      requires state == Some(WaitingForCompetitorCountAfterBrand)
      modifies this
      ensures data == old(data) && profile == old(profile)
      ensures old(profile).None? ==> state == Some(Unauthorized) && reply == AskToAuthorize && submitted == None
      ensures old(profile).Some? && !AgentFound(GetAgentByPhone(env.agentAnswer)) ==>
        state == old(state) && reply == StoreNotRegistered && submitted == None
      ensures old(profile).Some? && AgentFound(GetAgentByPhone(env.agentAnswer)) && "shop_name" !in old(data) ==>
        state == old(state) && reply == NoReply && submitted == None
      ensures old(profile).Some? && AgentFound(GetAgentByPhone(env.agentAnswer)) && "shop_name" in old(data)
              && !StoreFound(GetStoreIdByName(env.storeAnswer))
        ==> state == old(state) && reply == StoreNotRegistered && submitted == None
      ensures old(profile).Some? && AgentFound(GetAgentByPhone(env.agentAnswer)) && "shop_name" in old(data)
              && StoreFound(GetStoreIdByName(env.storeAnswer)) && !IsDigitString(text)
        ==> state == old(state) && reply == NotANumber && submitted == None
      ensures old(profile).Some? && AgentFound(GetAgentByPhone(env.agentAnswer)) && "shop_name" in old(data)
              && StoreFound(GetStoreIdByName(env.storeAnswer)) && IsDigitString(text)
        ==> state == Some(Authorized)
            && submitted == CountSubmission(GetAgentByPhone(env.agentAnswer).body,
                                            GetStoreIdByName(env.storeAnswer).value, old(data), text)
            && reply == (if submitted.Some? then DataSaved else NoReply)
      ensures old(Valid()) ==> Valid()
    {
      submitted := None;
      if profile.None? {
        reply := AskToAuthorize;
        state := Some(Unauthorized);
        return;
      }
      var agent := GetAgentByPhone(env.agentAnswer);
      if !AgentFound(agent) {
        return StoreNotRegistered, None;
      }
      if "shop_name" !in data {
        return NoReply, None;  // KeyError: the handler raises
      }
      var store := GetStoreIdByName(env.storeAnswer);
      if !StoreFound(store) {
        return StoreNotRegistered, None;
      }
      if !IsDigitString(text) {
        return NotANumber, None;
      }
      state := Some(Authorized);
      submitted := CountSubmission(agent.body, store.value, data, text);
      var posted := PostOutcome(env.postAnswer);  // the result is not looked at
      reply := if submitted.Some? then DataSaved else NoReply;
    }

    /** `handle_file`, outer part. In order: no profile gives `unauthorized`; no truthy
        location sends the user back to the location; no agent or no store answers and
        keeps the state; a missing shop name or a failing `get_file` is an unknown error
        and `authorized`. Then the download and the post (see `SaveDocument`). */
    method HandleFile(documentName: Option<string>, env: Env, fs: FileSystem)
      returns (reply: Reply, sent: Option<Fields>)
      requires state == Some(WaitingForPhoto) && UniqueName(env.uuid)
      modifies this, fs
      ensures profile == old(profile)
      ensures old(profile).None? ==>
        state == Some(Unauthorized) && data == old(data) && fs.files == old(fs.files)
        && reply == AskToAuthorize && sent == None
      ensures old(profile).Some? && !Truthy(Get(old(data), "location")) ==>
        state == Some(WaitingForLocation) && data == old(data) && fs.files == old(fs.files)
        && reply == SendLocationFirst && sent == None
      ensures old(profile).Some? && Truthy(Get(old(data), "location"))
              && !AgentFound(GetAgentByPhone(env.agentAnswer))
        ==> state == old(state) && data == old(data) && fs.files == old(fs.files)
            && reply == StoreNotRegistered && sent == None
      ensures old(profile).Some? && Truthy(Get(old(data), "location"))
              && AgentFound(GetAgentByPhone(env.agentAnswer)) && "shop_name" !in old(data)
        ==> state == Some(Authorized) && data == old(data) && fs.files == old(fs.files)
            && reply == UnknownError && sent == None
      ensures old(profile).Some? && Truthy(Get(old(data), "location"))
              && AgentFound(GetAgentByPhone(env.agentAnswer)) && "shop_name" in old(data)
              && !StoreFound(GetStoreIdByName(env.storeAnswer))
        ==> state == old(state) && data == old(data) && fs.files == old(fs.files)
            && reply == StoreNotRegistered && sent == None
      ensures old(profile).Some? && Truthy(Get(old(data), "location"))
              && AgentFound(GetAgentByPhone(env.agentAnswer)) && "shop_name" in old(data)
              && StoreFound(GetStoreIdByName(env.storeAnswer)) && env.telegramPath.None?
        ==> state == Some(Authorized) && data == old(data) && fs.files == old(fs.files)
            && reply == UnknownError && sent == None
      ensures old(profile).Some? && Truthy(Get(old(data), "location"))
              && AgentFound(GetAgentByPhone(env.agentAnswer)) && "shop_name" in old(data)
              && StoreFound(GetStoreIdByName(env.storeAnswer)) && env.telegramPath.Some?
        ==> state == Some(Authorized)
            && (fs.files, data, reply, sent)
               == SaveOutcome(old(fs.files), old(data), GetAgentByPhone(env.agentAnswer).body,
                              GetStoreIdByName(env.storeAnswer).value,
                              FileNameFor(documentName, env.telegramPath.value, env.fallbackHex), env)
      ensures reply == FileSaved ==> fs.files.Keys <= old(fs.files).Keys
      ensures old(Valid()) ==> Valid()
    {
      sent := None;
      if profile.None? {
        reply := AskToAuthorize;
        state := Some(Unauthorized);
        return;
      }
      var location := Get(data, "location");
      if !Truthy(location) {
        reply := SendLocationFirst;
        state := Some(WaitingForLocation);
        return;
      }
      var agent := GetAgentByPhone(env.agentAnswer);
      if !AgentFound(agent) {
        return StoreNotRegistered, None;
      }
      if "shop_name" !in data {
        state := Some(Authorized);
        return UnknownError, None;  // KeyError, caught by the outer handler
      }
      var store := GetStoreIdByName(env.storeAnswer);
      if !StoreFound(store) {
        return StoreNotRegistered, None;
      }
      if env.telegramPath.None? {
        state := Some(Authorized);
        return UnknownError, None;
      }
      var fileName := FileNameFor(documentName, env.telegramPath.value, env.fallbackHex);
      reply, sent := SaveDocument(agent.body, store.value, fileName, env, fs);
    }

    /** `handle_file`, inner part: download the file, then post it with the agent's and
        the store's ids, the stored location, category and ORIMI brand; on success clear
        the location and the category. Every exception in between is answered by the
        rule of `FileErrorReply`. The state ends `authorized` in every case, and the
        post's own result is not looked at. */
    method SaveDocument(agent: map<string, Value>, store: map<string, Value>, fileName: string,
                        env: Env, fs: FileSystem) returns (reply: Reply, sent: Option<Fields>)
      requires UniqueName(env.uuid) && profile.Some?
      modifies this, fs
      ensures state == Some(Authorized) && profile == old(profile)
      ensures (fs.files, data, reply, sent) == SaveOutcome(old(fs.files), old(data), agent, store, fileName, env)
      ensures reply == FileSaved ==> fs.files.Keys <= old(fs.files).Keys
      ensures old(Valid()) ==> Valid()
    {
      state := Some(Authorized);
      sent := None;
      var relative := fs.DownloadFile(env.download, fileName, env.uuid, env.probe, env.nowMicros, env.conversion);
      ghost var d := (fs.files, relative);
      assert d == Download(old(fs.files), env.download, fileName, env.uuid, env.probe, env.nowMicros, env.conversion);
      if relative.Err? {
        AuthorizedFitsAnyData(data, profile);
        return FileErrorReply(relative.error), None;
      }
      var location := Get(data, "location");
      if "id" !in agent || "id" !in store || !location.Location? {
        AuthorizedFitsAnyData(data, profile);
        return SaveFailed, None;  // KeyError or TypeError while building the call
      }
      assert "media/" + relative.value in fs.files;
      var posted;
      posted, sent := fs.SaveFileToPost(agent["id"], store["id"], relative.value,
                                        Num(location.latitude), Num(location.longitude),
                                        Get(data, "type_photo"), Get(data, "dmp_brand"), env.postAnswer);
      data := data["location" := Null]["type_photo" := Null];
      reply := FileSaved;
      AuthorizedFitsAnyData(data, profile);
      assert (fs.files, data, reply, sent) == PostDownloaded(d, old(data), agent, store);
    }

    /** `handle_authorized_commands`: points at the menu; nothing changes. */
    method HandleAuthorizedCommands() returns (reply: Reply)
      ensures reply == UseMenu
    {
      reply := UseMenu;
    }

    /** `unknown_message`: without a profile, `unauthorized`; with one, `authorized` only
        when no state was set, and every other state is kept. */
    method UnknownMessage() returns (reply: Reply)
      modifies this
      ensures data == old(data) && profile == old(profile)
      ensures old(profile).None? ==> state == Some(Unauthorized) && reply == AskToAuthorize
      ensures old(profile).Some? && old(state).None? ==> state == Some(Authorized) && reply == UseMenu
      ensures old(profile).Some? && old(state).Some? ==> state == old(state) && reply == UseMenu
      ensures old(Valid()) ==> Valid()
    {
      var currentState := state;
      if profile.None? {
        reply := AskToAuthorize;
        state := Some(Unauthorized);
        return;
      }
      if currentState.None? {
        state := Some(Authorized);
      }
      reply := UseMenu;
    }

    /** The dispatcher: the message goes to the first handler whose filters match, and
        the session changes as that handler changes it. The files change only in the file
        handler, and every handler keeps a well-formed session well-formed. */
    method Handle(m: Message, env: Env, fs: FileSystem) returns (h: Handler, reply: Reply)
      requires UniqueName(env.uuid)
      modifies this, fs
      ensures h == Route(m, old(state), env.botUsername)
      ensures h != File ==> fs.files == old(fs.files)
      ensures h in {Help, AuthorizedMenu} ==> state == old(state) && data == old(data) && profile == old(profile)
      ensures h in {Start, Profile, Upload, Unknown} || h.BackFromLocation? ==> data == old(data) && profile == old(profile)
      ensures h == Start ==> state == Some(Unauthorized)
      ensures h == Profile ==> state == (if old(profile).None? then Some(Unauthorized) else old(state))
      ensures h == Upload ==> state == Some(if old(profile).Some? then WaitingForShopName else Unauthorized)
      ensures h.BackFromLocation? ==> state == Some(Authorized)
      ensures h == Unknown ==>
        state == (if old(profile).None? then Some(Unauthorized)
                  else if old(state).None? then Some(Authorized) else old(state))
      ensures h == Contact ==> (m.ContactMessage? &&
        if m.contactUserId != Some(userId) || env.profileWriteFails then
          state == old(state) && data == old(data) && profile == old(profile)
        else
          profile == Some(NormalizePhone(m.phoneNumber)) && data == old(data)["phone" := Str(m.phoneNumber)]
          && state == Some(if AgentFound(GetAgentByPhone(env.agentAnswer)) then Authorized else Unauthorized))
      ensures h == ShopName ==> (profile == old(profile) &&
        if TextIs(m, BACK_BUTTON) then state == Some(Authorized) && data == old(data)
        else state == Some(WaitingForLocation) && data == old(data)["shop_name" := TextValue(MessageText(m))])
      ensures h == SharedLocation ==> (m.LocationMessage? && profile == old(profile) &&
        if old(profile).None? then state == Some(Unauthorized) && data == old(data)
        else data == old(data)["location" := Location(m.latitude, m.longitude)]
             && state == (if CheckCoordinates(env.geofenceAnswer) then Some(WaitingForTypePhoto) else old(state)))
      ensures h == TypePhoto ==> (m.TextMessage? && profile == old(profile) &&
        if m.text == BACK_BUTTON then state == Some(WaitingForLocation) && data == old(data)
        else state == Some(CategoryTarget(m.text)) && data == old(data)["type_photo" := Str(m.text)])
      ensures h == DmpBrand ==> (m.TextMessage? && profile == old(profile) &&
        if m.text == BACK_BUTTON then state == Some(WaitingForTypePhoto) && data == old(data)
        else state == Some(WaitingForPhoto) && data == old(data)["dmp_brand" := Str(m.text)])
      ensures h == CompetitorBrand ==> (m.TextMessage? && profile == old(profile) &&
        if m.text == BACK_BUTTON then state == Some(WaitingForTypePhoto) && data == old(data)
        else state == Some(WaitingForCompetitorCountAfterBrand) && data == old(data)["competitor_brand" := Str(m.text)])
      ensures h == CompetitorCount ==> (m.TextMessage? && data == old(data) && profile == old(profile)
        && state == CountStateAfter(old(state), old(data), old(profile), m.text, env))
      ensures h == File ==> (m.DocumentMessage? && profile == old(profile)
        && state == FileStateAfter(old(state), old(data), old(profile), env)
        && if FileReachesDownload(old(data), old(profile), env) then
             var out := SaveOutcome(old(fs.files), old(data), GetAgentByPhone(env.agentAnswer).body,
                                    GetStoreIdByName(env.storeAnswer).value,
                                    FileNameFor(m.fileName, env.telegramPath.value, env.fallbackHex), env);
             fs.files == out.0 && data == out.1 && reply == out.2
           else fs.files == old(fs.files) && data == old(data))
      ensures old(Valid()) ==> Valid()
    {
      h := Route(m, state, env.botUsername);
      match h
      case Start => reply := CmdStart();
      case Help => reply := CmdHelp();
      case Profile => reply := CmdProfile();
      case Contact => reply := HandleContact(m.phoneNumber, m.contactUserId, env);
      case Upload => reply := HandleUploadPhoto();
      case ShopName => reply := HandleShopName(m);
      case SharedLocation => reply := HandleLocation(m.latitude, m.longitude, env);
      case BackFromLocation => reply := BackFromLocation();
      case TypePhoto => reply := HandleTypePhoto(m.text);
      case DmpBrand => reply := HandleDmpBrand(m.text);
      case CompetitorBrand => reply := HandleCompetitorBrand(m.text);
      case CompetitorCount => var submitted; reply, submitted := HandleCompetitorCount(m.text, env);
      case File => var sent; reply, sent := HandleFile(m.fileName, env, fs);
      case AuthorizedMenu => reply := HandleAuthorizedCommands();
      case Unknown => reply := UnknownMessage();
    }
  }

  /** The state `handle_competitor_count_after_brand` leaves: `unauthorized` without a
      profile, `authorized` once a count is accepted, the old state after every refusal. */
  function CountStateAfter(st: Option<UserState>, data: map<string, Value>, profile: Option<string>,
                           text: string, env: Env): Option<UserState> {
    if profile.None? then Some(Unauthorized)
    else if AgentFound(GetAgentByPhone(env.agentAnswer)) && "shop_name" in data
            && StoreFound(GetStoreIdByName(env.storeAnswer)) && IsDigitString(text)
    then Some(Authorized)
    else st
  }

  /** Whether `handle_file` gets as far as the download. */
  predicate FileReachesDownload(data: map<string, Value>, profile: Option<string>, env: Env) {
    profile.Some? && Truthy(Get(data, "location")) && AgentFound(GetAgentByPhone(env.agentAnswer))
    && "shop_name" in data && StoreFound(GetStoreIdByName(env.storeAnswer)) && env.telegramPath.Some?
  }

  /** The state `handle_file` leaves, by its early exits in order. */
  function FileStateAfter(st: Option<UserState>, data: map<string, Value>, profile: Option<string>,
                          env: Env): Option<UserState> {
    if profile.None? then Some(Unauthorized)
    else if !Truthy(Get(data, "location")) then Some(WaitingForLocation)
    else if !AgentFound(GetAgentByPhone(env.agentAnswer)) then st
    else if "shop_name" !in data then Some(Authorized)
    else if !StoreFound(GetStoreIdByName(env.storeAnswer)) then st
    else Some(Authorized)
  }

  /** The files, the data, the answer and the posted form after the inner part of
      `handle_file`: a failed download keeps the data and is answered by the error rule;
      a missing id or a stored location that is not one is a generic failure that leaves
      the downloaded file on disk; otherwise the file is posted and deleted, and the
      location and the category are cleared. */
  function SaveOutcome(disk: Disk, data: map<string, Value>, agent: map<string, Value>,
                       store: map<string, Value>, fileName: string, env: Env)
    : (out: (Disk, map<string, Value>, Reply, Option<Fields>))
    requires UniqueName(env.uuid)
    ensures out.2 in {FileSaved, StalePhoto, MissingMetadata, SaveFailed}
    ensures out.2 == FileSaved <==> out.3.Some?
    ensures out.2 == FileSaved ==>
      out.1.Keys == data.Keys + {"location", "type_photo"}
      && out.1["location"] == Null && out.1["type_photo"] == Null
      && forall k :: k in data && k != "location" && k != "type_photo" ==> out.1[k] == data[k]
    ensures out.2 != FileSaved ==> out.1 == data
    ensures var d := Download(disk, env.download, fileName, env.uuid, env.probe, env.nowMicros, env.conversion);
      (d.1.Err? ==> out == (d.0, data, FileErrorReply(d.1.error), None))
      && (out.3.None? ==> out.0 == d.0)
      && (out.3.Some? ==>
            d.1.Ok? && "id" in agent && "id" in store && Get(data, "location").Location?
            && out.0 == d.0 - {"media/" + d.1.value}
            && out.3.value == PhotoFormFields(agent["id"], store["id"], Num(Get(data, "location").latitude),
                                              Num(Get(data, "location").longitude),
                                              Get(data, "type_photo"), Get(data, "dmp_brand")))
  {
    PostDownloaded(Download(disk, env.download, fileName, env.uuid, env.probe, env.nowMicros, env.conversion),
                   data, agent, store)
  }

  /** A body read that raises after the 200 status leaves the empty file `download_file`
      opened on disk; the user gets the answer the error rule picks and the data is kept. */
  lemma UnreadableBodyLeavesEmptyFile(disk: Disk, data: map<string, Value>, agent: map<string, Value>,
                                      store: map<string, Value>, fileName: string, env: Env)
    requires UniqueName(env.uuid) && env.download.BodyRaised?
    ensures SaveOutcome(disk, data, agent, store, fileName, env)
         == (disk[SavePath(env.uuid, fileName) := 0], data, FileErrorReply(env.download.error), None)
    ensures SavePath(env.uuid, fileName) in SaveOutcome(disk, data, agent, store, fileName, env).0
  {
  }

  /** The part of `handle_file` after `download_file` returned or raised. */
  function PostDownloaded(d: (Disk, Result<string, string>), data: map<string, Value>,
                          agent: map<string, Value>, store: map<string, Value>)
    : (out: (Disk, map<string, Value>, Reply, Option<Fields>))
    ensures out.2 in {FileSaved, StalePhoto, MissingMetadata, SaveFailed}
    ensures out.2 == FileSaved <==> out.3.Some?
    ensures out.2 == FileSaved ==>
      out.1.Keys == data.Keys + {"location", "type_photo"}
      && out.1["location"] == Null && out.1["type_photo"] == Null
      && forall k :: k in data && k != "location" && k != "type_photo" ==> out.1[k] == data[k]
    ensures out.2 != FileSaved ==> out.1 == data
    ensures d.1.Err? ==> out == (d.0, data, FileErrorReply(d.1.error), None)
    ensures out.3.None? ==> out.0 == d.0
    ensures out.3.Some? ==>
      d.1.Ok? && "id" in agent && "id" in store && Get(data, "location").Location?
      && out.0 == d.0 - {"media/" + d.1.value}
      && out.3.value == PhotoFormFields(agent["id"], store["id"], Num(Get(data, "location").latitude),
                                        Num(Get(data, "location").longitude),
                                        Get(data, "type_photo"), Get(data, "dmp_brand"))
  {
    match d.1
    case Err(e) => (d.0, data, FileErrorReply(e), None)
    case Ok(relative) =>
      var location := Get(data, "location");
      if "id" !in agent || "id" !in store || !location.Location? then (d.0, data, SaveFailed, None)
      else
        (d.0 - {"media/" + relative}, data["location" := Null]["type_photo" := Null], FileSaved,
         Some(PhotoFormFields(agent["id"], store["id"], Num(location.latitude), Num(location.longitude),
                              Get(data, "type_photo"), Get(data, "dmp_brand"))))
  }
}
