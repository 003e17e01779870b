/** The router: which handler of handlers/user_handlers.py an incoming message reaches.
    The dispatcher tries the handlers in registration order and the first whose filters
    all match wins; handlers without a state filter match in every state. */
module Dispatch {
  import opened Values
  import opened Text
  import opened Fsm

  const HELP_BUTTON: string := "❓ Помощь"
  const PROFILE_BUTTON: string := "👤 Мой профиль"
  const UPLOAD_BUTTON: string := "📷 Загрузить фото"
  const BACK_BUTTON: string := "🔙 Назад"

  /** An incoming message, as far as the filters and handlers look at it. */
  datatype Message =
    | TextMessage(text: string)
    | ContactMessage(phoneNumber: string, contactUserId: Option<int>)
    | LocationMessage(latitude: real, longitude: real)
    | DocumentMessage(fileName: Option<string>, caption: Option<string>)
    | OtherMessage(caption: Option<string>)  // photo, sticker, voice, ...

  /** `message.text`. */
  function MessageText(m: Message): Option<string> {
    if m.TextMessage? then Some(m.text) else None
  }

  /** `F.text == t`. */
  predicate TextIs(m: Message, t: string) {
    m.TextMessage? && m.text == t
  }

  /** The reply-keyboard buttons the text filters compare against. */
  datatype Button = HelpButton | ProfileButton | UploadButton | BackButton | NoButton

  /** Which button's text, if any, the message is exactly. */
  function ButtonOf(m: Message): Button {
    if TextIs(m, HELP_BUTTON) then HelpButton
    else if TextIs(m, PROFILE_BUTTON) then ProfileButton
    else if TextIs(m, UPLOAD_BUTTON) then UploadButton
    else if TextIs(m, BACK_BUTTON) then BackButton
    else NoButton
  }

  /** The buttons' texts are distinct, so a message is a button exactly when its text is
      that button's text. */
  lemma ButtonOfMatchesText(m: Message)
    ensures ButtonOf(m) == HelpButton <==> TextIs(m, HELP_BUTTON)
    ensures ButtonOf(m) == ProfileButton <==> TextIs(m, PROFILE_BUTTON)
    ensures ButtonOf(m) == UploadButton <==> TextIs(m, UPLOAD_BUTTON)
    ensures ButtonOf(m) == BackButton <==> TextIs(m, BACK_BUTTON)
  {
    assert HELP_BUTTON[0] != PROFILE_BUTTON[0] && HELP_BUTTON[0] != UPLOAD_BUTTON[0];
    assert HELP_BUTTON[0] != BACK_BUTTON[0] && PROFILE_BUTTON[0] != UPLOAD_BUTTON[0];
    assert PROFILE_BUTTON[0] != BACK_BUTTON[0] && UPLOAD_BUTTON[0] != BACK_BUTTON[0];
  }

  /** `F.text`: the message has a non-empty text. */
  predicate HasText(m: Message) {
    m.TextMessage? && m.text != ""
  }

  /** `message.text or message.caption`, the text the command filter reads. */
  function CommandSource(m: Message): Option<string> {
    match m
    case TextMessage(t) => if t != "" then Some(t) else None
    case DocumentMessage(_, caption) => caption
    case OtherMessage(caption) => caption
    case _ => None
  }

  /** The command a message carries for the `Command` filter: the first word of its text
      is "/" followed by the command, and a mention after "@", if any, names this bot
      (compared case-insensitively; a bot without a username accepts any mention).
      Arguments after the word are allowed. None when the message is no command. */
  function CommandOf(m: Message, botUsername: string): Option<string> {
    match CommandSource(m)
    case None => None
    case Some(t) =>
      match FirstWord(t)
      case None => None
      case Some(w) =>
        if |w| > 0 && w[0] == '/'
           && (After(w[1..], '@') == "" || botUsername == ""
               || Lower(After(w[1..], '@')) == Lower(botUsername))
        then Some(Before(w[1..], '@'))
        else None
  }

  /** `Command(name)`. */
  predicate IsCommand(m: Message, name: string, botUsername: string) {
    CommandOf(m, botUsername) == Some(name)
  }

  /** The handlers, in registration order. */
  datatype Handler =
    | Start             // cmd_start
    | Help              // cmd_help
    | Profile           // cmd_profile
    | Contact           // handle_contact
    | Upload            // handle_upload_photo
    | ShopName          // handle_shop_name
    | SharedLocation    // handle_location
    | BackFromLocation  // back_from_location
    | TypePhoto         // handle_type_photo
    | DmpBrand          // handle_dmp_brand
    | CompetitorBrand   // handle_competitor_brand
    | CompetitorCount   // handle_competitor_count_after_brand
    | File              // handle_file
    | AuthorizedMenu    // handle_authorized_commands
    | Unknown           // unknown_message

  /** The state filter of a handler, if it has one. */
  function StateFilter(h: Handler): Option<UserState> {
    match h
    case ShopName => Some(WaitingForShopName)
    case SharedLocation => Some(WaitingForLocation)
    case BackFromLocation => Some(WaitingForLocation)
    case TypePhoto => Some(WaitingForTypePhoto)
    case DmpBrand => Some(WaitingForDmpBrand)
    case CompetitorBrand => Some(WaitingForCompetitorBrand)
    case CompetitorCount => Some(WaitingForCompetitorCountAfterBrand)
    case File => Some(WaitingForPhoto)
    case AuthorizedMenu => Some(Authorized)
    case _ => None
  }

  /** The handlers without a state filter, tried first: /start, help, profile, a shared
      contact and the upload button. */
  function GlobalHandler(command: Option<string>, button: Button, m: Message): (h: Option<Handler>)
    ensures h.Some? ==> StateFilter(h.value).None? && h.value != Unknown
    ensures h == Some(Contact) ==> m.ContactMessage?
  {
    if command == Some("start") then Some(Start)
    else if button == HelpButton || command == Some("help") then Some(Help)
    else if button == ProfileButton || command == Some("profile") then Some(Profile)
    else if m.ContactMessage? then Some(Contact)
    else if button == UploadButton then Some(Upload)
    else None
  }

  /** The state-filtered handlers in their order, then the catch-all. */
  function StateHandler(m: Message, button: Button, st: Option<UserState>): (h: Handler)
    ensures StateFilter(h).Some? ==> st == StateFilter(h)
    ensures h == File ==> m.DocumentMessage?
    ensures h == SharedLocation ==> m.LocationMessage?
  {
    if st == Some(WaitingForShopName) then ShopName
    else if st == Some(WaitingForLocation) && m.LocationMessage? then SharedLocation
    else if st == Some(WaitingForLocation) && button == BackButton then BackFromLocation
    else if st == Some(WaitingForTypePhoto) && HasText(m) then TypePhoto
    else if st == Some(WaitingForDmpBrand) && HasText(m) then DmpBrand
    else if st == Some(WaitingForCompetitorBrand) && HasText(m) then CompetitorBrand
    else if st == Some(WaitingForCompetitorCountAfterBrand) && HasText(m) then CompetitorCount
    else if st == Some(WaitingForPhoto) && m.DocumentMessage? then File
    else if st == Some(Authorized) then AuthorizedMenu
    else Unknown
  }

  /** The handler the dispatcher picks for message m in state st. A state-filtered
      handler is only reached in its state; the catch-all only when nothing else matches. */
  function Route(m: Message, st: Option<UserState>, botUsername: string): (h: Handler)
    ensures StateFilter(h).Some? ==> st == StateFilter(h)
    ensures h == File ==> m.DocumentMessage?
    ensures h == SharedLocation ==> m.LocationMessage?
  {
    Pick(CommandOf(m, botUsername), ButtonOf(m), m, st)
  }

  /** The handler picked once the filters have read the message's command and button. */
  function Pick(command: Option<string>, button: Button, m: Message, st: Option<UserState>): (h: Handler)
    ensures StateFilter(h).Some? ==> st == StateFilter(h)
    ensures h == File ==> m.DocumentMessage?
    ensures h == SharedLocation ==> m.LocationMessage?
  {
    match GlobalHandler(command, button, m)
    case Some(h) => h
    case None => StateHandler(m, button, st)
  }

  /** Each handler is reached only by the kind of message it reads: the contact handler
      by a contact, the text-state handlers by a non-empty text. */
  lemma RouteMatchesMessageKind(m: Message, st: Option<UserState>, botUsername: string)
    ensures Route(m, st, botUsername) == Contact ==> m.ContactMessage?
    ensures Route(m, st, botUsername) in {TypePhoto, DmpBrand, CompetitorBrand, CompetitorCount} ==> HasText(m)
  {
    PickMatchesMessageKind(CommandOf(m, botUsername), ButtonOf(m), m, st);
  }

  lemma PickMatchesMessageKind(command: Option<string>, button: Button, m: Message, st: Option<UserState>)
    ensures Pick(command, button, m, st) == Contact ==> m.ContactMessage?
    ensures Pick(command, button, m, st) in {TypePhoto, DmpBrand, CompetitorBrand, CompetitorCount} ==> HasText(m)
  {
  }

  /** A shared contact reaches the contact handler in every state: no command filter and
      no text filter matches it. */
  lemma ContactInEveryState(phone: string, userId: Option<int>, st: Option<UserState>, botUsername: string)
    ensures Route(ContactMessage(phone, userId), st, botUsername) == Contact
  {
  }

  /** A text whose first non-blank character is not "/" is never a command. */
  lemma {:induction false} PlainTextIsNoCommand(t: string, botUsername: string)
    requires t != [] && !IsSpace(t[0]) && t[0] != '/'
    ensures CommandOf(TextMessage(t), botUsername) == None
  {
    assert SkipSpaces(t) == t;
    assert TakeWord(t)[0] == t[0];
  }

  /** No handler is filtered on `unauthorized`: in that state every message is routed
      exactly as in a conversation that has no state at all. */
  lemma UnauthorizedRoutesAsNoState(m: Message, botUsername: string)
    ensures Route(m, Some(Unauthorized), botUsername) == Route(m, None, botUsername)
    ensures forall h: Handler :: StateFilter(h) != Some(Unauthorized)
  {
    assert StateHandler(m, ButtonOf(m), Some(Unauthorized)) == Unknown == StateHandler(m, ButtonOf(m), None);
    assert Pick(CommandOf(m, botUsername), ButtonOf(m), m, Some(Unauthorized))
        == Pick(CommandOf(m, botUsername), ButtonOf(m), m, None);
  }

  /** A plain text (no command) is routed by the button it is, then by the state. */
  lemma {:induction false} PlainTextRoute(t: string, st: Option<UserState>, botUsername: string)
    requires t != [] && !IsSpace(t[0]) && t[0] != '/'
    ensures Route(TextMessage(t), st, botUsername)
         == match GlobalHandler(None, ButtonOf(TextMessage(t)), TextMessage(t))
            case Some(h) => h
            case None => StateHandler(TextMessage(t), ButtonOf(TextMessage(t)), st)
  {
    PlainTextIsNoCommand(t, botUsername);
  }

  /** The menu buttons are matched before any state filter: in every state they reach
      their own handler. */
  lemma ButtonsWinInEveryState(st: Option<UserState>, botUsername: string)
    ensures Route(TextMessage(HELP_BUTTON), st, botUsername) == Help
    ensures Route(TextMessage(PROFILE_BUTTON), st, botUsername) == Profile
    ensures Route(TextMessage(UPLOAD_BUTTON), st, botUsername) == Upload
  {
    HelpButtonWins(st, botUsername);
    ProfileButtonWins(st, botUsername);
    UploadButtonWins(st, botUsername);
  }

  /** Without a command, the three menu buttons are answered before the contact test. */
  lemma MenuButtonsAreGlobal(m: Message)
    ensures GlobalHandler(None, HelpButton, m) == Some(Help)
    ensures GlobalHandler(None, ProfileButton, m) == Some(Profile)
    ensures !m.ContactMessage? ==> GlobalHandler(None, UploadButton, m) == Some(Upload)
  {
  }

  lemma HelpButtonWins(st: Option<UserState>, botUsername: string)
    ensures Route(TextMessage(HELP_BUTTON), st, botUsername) == Help
  {
    var m := TextMessage(HELP_BUTTON);
    assert CommandOf(m, botUsername) == None by {
      PlainTextIsNoCommand(HELP_BUTTON, botUsername);
    }
    assert ButtonOf(m) == HelpButton by {
      ButtonOfMatchesText(m);
    }
    assert GlobalHandler(None, HelpButton, m) == Some(Help) by {
      MenuButtonsAreGlobal(m);
    }
  }

  lemma ProfileButtonWins(st: Option<UserState>, botUsername: string)
    ensures Route(TextMessage(PROFILE_BUTTON), st, botUsername) == Profile
  {
    var m := TextMessage(PROFILE_BUTTON);
    assert CommandOf(m, botUsername) == None by {
      PlainTextIsNoCommand(PROFILE_BUTTON, botUsername);
    }
    assert ButtonOf(m) == ProfileButton by {
      ButtonOfMatchesText(m);
    }
    assert GlobalHandler(None, ProfileButton, m) == Some(Profile) by {
      MenuButtonsAreGlobal(m);
    }
  }

  lemma UploadButtonWins(st: Option<UserState>, botUsername: string)
    ensures Route(TextMessage(UPLOAD_BUTTON), st, botUsername) == Upload
  {
    var m := TextMessage(UPLOAD_BUTTON);
    assert CommandOf(m, botUsername) == None by {
      PlainTextIsNoCommand(UPLOAD_BUTTON, botUsername);
    }
    assert ButtonOf(m) == UploadButton by {
      ButtonOfMatchesText(m);
    }
    assert GlobalHandler(None, UploadButton, m) == Some(Upload) by {
      MenuButtonsAreGlobal(m);
    }
  }

  /** "/start" reaches cmd_start in every state. */
  lemma {:induction false} StartInEveryState(st: Option<UserState>, botUsername: string)
    ensures Route(TextMessage("/start"), st, botUsername) == Start
  {
    FirstWordOfWord("/start");
    assert "/start"[1..] == "start";
    assert Before("start", '@') == "start";
    assert After("start", '@') == "";
  }

  /** In `waiting_for_photo` only documents reach the file handler: any other text that
      is neither a menu button nor a command, "🔙 Назад" included, falls through to the
      catch-all. */
  lemma PhotoStateTextFallsThrough(t: string, botUsername: string)
    requires t != [] && !IsSpace(t[0]) && t[0] != '/'
    requires t != HELP_BUTTON && t != PROFILE_BUTTON && t != UPLOAD_BUTTON
    ensures Route(TextMessage(t), Some(WaitingForPhoto), botUsername) == Unknown
  {
    var m := TextMessage(t);
    assert StateHandler(m, ButtonOf(m), Some(WaitingForPhoto)) == Unknown;
    PlainTextPassesGlobals(t, Some(WaitingForPhoto), botUsername);
  }

  /** A plain text that is none of the three menu buttons passes every global handler
      and is routed by the state. */
  lemma PlainTextPassesGlobals(t: string, st: Option<UserState>, botUsername: string)
    requires t != [] && !IsSpace(t[0]) && t[0] != '/'
    requires t != HELP_BUTTON && t != PROFILE_BUTTON && t != UPLOAD_BUTTON
    ensures Route(TextMessage(t), st, botUsername)
         == StateHandler(TextMessage(t), ButtonOf(TextMessage(t)), st)
  {
    var m := TextMessage(t);
    PlainTextIsNoCommand(t, botUsername);
    assert GlobalHandler(None, ButtonOf(m), m) == None;
  }

  /** "🔙 Назад" in the photo state reaches the catch-all. */
  lemma BackInPhotoStateIsUnknown(botUsername: string)
    ensures Route(TextMessage(BACK_BUTTON), Some(WaitingForPhoto), botUsername) == Unknown
  {
    PhotoStateTextFallsThrough(BACK_BUTTON, botUsername);
  }

  /** A plain text that is no button reaches the handler of the state's text filter. */
  lemma TextReachesStateHandler(t: string, st: UserState, botUsername: string)
    requires t != [] && !IsSpace(t[0]) && t[0] != '/'
    requires ButtonOf(TextMessage(t)) == NoButton
    ensures st == WaitingForShopName ==> Route(TextMessage(t), Some(st), botUsername) == ShopName
    ensures st == WaitingForTypePhoto ==> Route(TextMessage(t), Some(st), botUsername) == TypePhoto
    ensures st == WaitingForDmpBrand ==> Route(TextMessage(t), Some(st), botUsername) == DmpBrand
    ensures st == WaitingForCompetitorBrand ==> Route(TextMessage(t), Some(st), botUsername) == CompetitorBrand
    ensures st == WaitingForCompetitorCountAfterBrand ==>
      Route(TextMessage(t), Some(st), botUsername) == CompetitorCount
  {
    PlainTextPassesGlobals(t, Some(st), botUsername);
    TextStateHandler(TextMessage(t), st);
  }

  lemma TextStateHandler(m: Message, st: UserState)
    requires HasText(m)
    ensures st == WaitingForShopName ==> StateHandler(m, NoButton, Some(st)) == ShopName
    ensures st == WaitingForTypePhoto ==> StateHandler(m, NoButton, Some(st)) == TypePhoto
    ensures st == WaitingForDmpBrand ==> StateHandler(m, NoButton, Some(st)) == DmpBrand
    ensures st == WaitingForCompetitorBrand ==> StateHandler(m, NoButton, Some(st)) == CompetitorBrand
    ensures st == WaitingForCompetitorCountAfterBrand ==> StateHandler(m, NoButton, Some(st)) == CompetitorCount
  {
  }

  /** Every `waiting_for_*` state has a state-filtered handler that some message
      reaches: for the five text states, any plain text such as "12". */
  lemma TextStatesAreHandled(botUsername: string)
    ensures Route(TextMessage("12"), Some(WaitingForShopName), botUsername) == ShopName
    ensures Route(TextMessage("12"), Some(WaitingForTypePhoto), botUsername) == TypePhoto
    ensures Route(TextMessage("12"), Some(WaitingForDmpBrand), botUsername) == DmpBrand
    ensures Route(TextMessage("12"), Some(WaitingForCompetitorBrand), botUsername) == CompetitorBrand
    ensures Route(TextMessage("12"), Some(WaitingForCompetitorCountAfterBrand), botUsername) == CompetitorCount
  {
    assert ButtonOf(TextMessage("12")) == NoButton;
    TextReachesStateHandler("12", WaitingForShopName, botUsername);
    TextReachesStateHandler("12", WaitingForTypePhoto, botUsername);
    TextReachesStateHandler("12", WaitingForDmpBrand, botUsername);
    TextReachesStateHandler("12", WaitingForCompetitorBrand, botUsername);
    TextReachesStateHandler("12", WaitingForCompetitorCountAfterBrand, botUsername);
  }

  /** ... and for `waiting_for_location` a location or the back button, for
      `waiting_for_photo` a document. */
  lemma LocationAndPhotoStatesAreHandled(botUsername: string)
    ensures Route(LocationMessage(42.87, 74.59), Some(WaitingForLocation), botUsername) == SharedLocation
    ensures Route(TextMessage(BACK_BUTTON), Some(WaitingForLocation), botUsername) == BackFromLocation
    ensures Route(DocumentMessage(Some("shelf.jpg"), None), Some(WaitingForPhoto), botUsername) == File
  {
    LocationReachesLocationHandler(botUsername);
    BackInLocationStateIsBack(botUsername);
    DocumentReachesFileHandler(botUsername);
  }

  /** A shared location in the location state reaches handle_location. */
  lemma LocationReachesLocationHandler(botUsername: string)
    ensures Route(LocationMessage(42.87, 74.59), Some(WaitingForLocation), botUsername) == SharedLocation
  {
    assert CommandSource(LocationMessage(42.87, 74.59)) == None;
  }

  /** A document without caption in the photo state reaches handle_file. */
  lemma DocumentReachesFileHandler(botUsername: string)
    ensures Route(DocumentMessage(Some("shelf.jpg"), None), Some(WaitingForPhoto), botUsername) == File
  {
    assert CommandSource(DocumentMessage(Some("shelf.jpg"), None)) == None;
  }

  /** "🔙 Назад" in the location state reaches back_from_location. */
  lemma BackInLocationStateIsBack(botUsername: string)
    ensures Route(TextMessage(BACK_BUTTON), Some(WaitingForLocation), botUsername) == BackFromLocation
  {
    var m := TextMessage(BACK_BUTTON);
    assert StateHandler(m, ButtonOf(m), Some(WaitingForLocation)) == BackFromLocation;
    PlainTextPassesGlobals(BACK_BUTTON, Some(WaitingForLocation), botUsername);
  }

  /** The count state has no "back" case: "🔙 Назад" reaches the count handler. */
  lemma BackInCountStateIsCount(botUsername: string)
    ensures Route(TextMessage(BACK_BUTTON), Some(WaitingForCompetitorCountAfterBrand), botUsername)
         == CompetitorCount
  {
    var m := TextMessage(BACK_BUTTON);
    assert StateHandler(m, ButtonOf(m), Some(WaitingForCompetitorCountAfterBrand)) == CompetitorCount;
    PlainTextPassesGlobals(BACK_BUTTON, Some(WaitingForCompetitorCountAfterBrand), botUsername);
  }

  /** In `authorized`, every message that reaches no global handler reaches the
      authorized-menu handler, so the catch-all never runs there. */
  lemma AuthorizedNeverReachesCatchAll(m: Message, botUsername: string)
    ensures Route(m, Some(Authorized), botUsername) in {Start, Help, Profile, Contact, Upload, AuthorizedMenu}
  {
    PickInAuthorized(CommandOf(m, botUsername), ButtonOf(m), m);
  }

  lemma PickInAuthorized(command: Option<string>, button: Button, m: Message)
    ensures Pick(command, button, m, Some(Authorized)) in {Start, Help, Profile, Contact, Upload, AuthorizedMenu}
  {
  }
}
