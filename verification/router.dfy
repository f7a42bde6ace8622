/** The bot's handlers as far as they are logic: decoding callback data
    into an action, reading `auth:start` data, and attributing an upload. */
module Router {
  import opened Wrappers
  import opened Text
  import opened Utils
  import opened Records
  import opened Store
  import opened Ui

  /** What a callback query leads to. `Fail` is a Python exception
      (IndexError, ValueError) that the handler catches and logs. */
  datatype Action =
    | ShowStartMenu
    | ShowStatistics
    | NavigateLibrary(dayIndex: Option<int>)
    | ShowSession(day: int, session: int)
    | ShowFlight(day: int, session: int, flight: int, video: int)
    | DeleteMessage(chatId: int, messageId: int)
    | HandleAuth(authAction: string, data: Option<string>)
    | Ignore
    | Fail

  /** `int()` of every token; None as soon as one is not an integer. */
  function ParseAll(tokens: seq<string>): (r: Option<seq<int>>)
    ensures r.Some? <==> forall i :: 0 <= i < |tokens| ==> ParseInt(tokens[i]).Some?
    ensures r.Some? ==> |r.value| == |tokens|
    ensures r.Some? ==> forall i :: 0 <= i < |tokens| ==> r.value[i] == ParseInt(tokens[i]).value
  {
    if forall i :: 0 <= i < |tokens| ==> ParseInt(tokens[i]).Some? then
      Some(seq(|tokens|, i requires 0 <= i < |tokens| => ParseInt(tokens[i]).value))
    else None
  }

  /** `int(parts[from])`, ..., for `count` fields; None where a field is
      missing or not an integer. */
  function IntFields(parts: seq<string>, from: nat, count: nat): (r: Option<seq<int>>)
    ensures r.Some? ==> |r.value| == count
  {
    if from + count > |parts| then None else ParseAll(parts[from..from + count])
  }

  /** `callback_handler`: split the data on `:` and walk the if/elif
      ladder of the chat it came from. */
  function Route(inIflyChat: bool, data: string): (r: Action)
    ensures inIflyChat ==> r.HandleAuth? || r == Ignore || r == Fail
    ensures !inIflyChat ==> !r.HandleAuth?
    ensures r.HandleAuth? ==> (r.data.Some? <==> |Split(data, ':')| > 2)
  {
    var parts := Split(data, ':');
    if inIflyChat then RouteIfly(parts) else RoutePrivate(parts)
  }

  /** In the iFLY chat only `auth:<action>[:rest]` is acted on, with the
      rest rejoined by `:`. */
  function RouteIfly(parts: seq<string>): Action
    requires |parts| >= 1
  {
    if parts[0] == "auth" then
      if |parts| < 2 then Fail
      else HandleAuth(parts[1], if |parts| > 2 then Some(Join(parts[2..], ":")) else None)
    else Ignore
  }

  /** In a private chat: the start menu, statistics, navigation, a video,
      or closing a message. */
  function RoutePrivate(parts: seq<string>): Action
    requires |parts| >= 1
  {
    if parts[0] == "home" then ShowStartMenu
    else if parts[0] == "stats" then ShowStatistics
    else if parts[0] == "nav" then RouteNav(parts)
    else if parts[0] == "video" then
      var n := IntFields(parts, 1, 4);
      if n.None? then Fail else ShowFlight(n.value[0], n.value[1], n.value[2], n.value[3])
    else if parts[0] == "delete" then
      var n := IntFields(parts, 1, 2);
      if n.None? then Fail else DeleteMessage(n.value[0], n.value[1])
    else Ignore
  }

  /** `nav:<target>:...`: the library root, a day, a session or a flight
      (opened at its first video). */
  function RouteNav(parts: seq<string>): Action
  {
    if |parts| < 2 then Fail
    else if parts[1] == "library" then NavigateLibrary(None)
    else if parts[1] == "day" then
      var n := IntFields(parts, 2, 1);
      if n.None? then Fail else NavigateLibrary(Some(n.value[0]))
    else if parts[1] == "session" then
      var n := IntFields(parts, 2, 2);
      if n.None? then Fail else ShowSession(n.value[0], n.value[1])
    else if parts[1] == "flight" then
      var n := IntFields(parts, 2, 3);
      if n.None? then Fail else ShowFlight(n.value[0], n.value[1], n.value[2], 0)
    else Ignore
  }

  // Round trips with the view builders' callback data.

  lemma FieldsHaveNoColon(words: seq<string>, ints: seq<int>)
    requires forall i :: 0 <= i < |words| ==> ':' !in words[i]
    ensures forall i :: 0 <= i < |words + IntTexts(ints)| ==> ':' !in (words + IntTexts(ints))[i]
  {
    var parts := words + IntTexts(ints);
    forall i | 0 <= i < |parts|
      ensures ':' !in parts[i]
    {
      if i >= |words| { IntTextAvoids(ints[i - |words|], ':'); }
    }
  }

  lemma IntTextsParse(ints: seq<int>)
    ensures ParseAll(IntTexts(ints)) == Some(ints)
  {
    var texts := IntTexts(ints);
    forall i | 0 <= i < |ints|
      ensures ParseInt(texts[i]) == Some(ints[i])
    {
      ParseIntOfIntToString(ints[i]);
    }
    var r := ParseAll(texts);
    assert r.Some?;
    assert r.value == ints;
  }

  /** Splitting callback data gives its fields back, and the integer
      fields read back as the integers they are written from. */
  lemma FieldsRoundTrip(words: seq<string>, ints: seq<int>)
    requires |words| >= 1
    requires forall i :: 0 <= i < |words| ==> ':' !in words[i]
    ensures Split(CallbackData(words, ints), ':') == words + IntTexts(ints)
    ensures IntFields(words + IntTexts(ints), |words|, |ints|) == Some(ints)
  {
    var parts := words + IntTexts(ints);
    FieldsHaveNoColon(words, ints);
    SplitJoin(parts, ':');
    assert parts[|words|..|words| + |ints|] == IntTexts(ints);
    IntTextsParse(ints);
  }

  /** `nav:day:{d}` leads back to day `d` of the library. */
  lemma RouteDayCallback(day: int)
    ensures Route(false, DayCallback(day)) == NavigateLibrary(Some(day))
  {
    FieldsRoundTrip(["nav", "day"], [day]);
  }

  /** `nav:session:{d}:{s}` leads back to session `s` of day `d`. */
  lemma RouteSessionCallback(day: int, session: int)
    ensures Route(false, SessionCallback(day, session)) == ShowSession(day, session)
  {
    FieldsRoundTrip(["nav", "session"], [day, session]);
  }

  /** `nav:flight:{d}:{s}:{f}` opens that flight at its first video. */
  lemma RouteFlightCallback(day: int, session: int, flight: int)
    ensures Route(false, FlightCallback(day, session, flight)) == ShowFlight(day, session, flight, 0)
  {
    FieldsRoundTrip(["nav", "flight"], [day, session, flight]);
  }

  /** `video:{d}:{s}:{f}:{v}` opens that flight at video `v`. */
  lemma RouteVideoCallback(day: int, session: int, flight: int, video: int)
    ensures Route(false, VideoCallback(day, session, flight, video)) == ShowFlight(day, session, flight, video)
  {
    var ints := [day, session, flight, video];
    var parts := ["video"] + IntTexts(ints);
    FieldsRoundTrip(["video"], ints);
    assert parts[0] == "video";
    assert RoutePrivate(parts) == ShowFlight(ints[0], ints[1], ints[2], ints[3]);
  }

  /** The Delete button's `del:ask:...` data matches no branch. */
  lemma RouteDeleteAskCallback(day: int, session: int, flight: int, video: int, id: int)
    ensures Route(false, DeleteAskCallback(day, session, flight, video, id)) == Ignore
  {
    FieldsRoundTrip(["del", "ask"], [day, session, flight, video, id]);
  }

  /** `home` and `nav:library` go to the start menu and the library root. */
  lemma RouteFixedCallbacks()
    ensures Route(false, HomeCallback) == ShowStartMenu
    ensures Route(false, LibraryCallback) == NavigateLibrary(None)
  {
    SplitWithoutSep(HomeCallback, ':');
    FieldsRoundTrip(["nav", "library"], []);
  }

  /** The start menu's statistics button, `stats`, opens the statistics. */
  lemma RouteStatsCallback()
    ensures Route(false, "stats") == ShowStatistics
  {
    SplitWithoutSep("stats", ':');
  }

  /** The Close button's data, `delete:{chat_id}:{message_id}`. */
  function CloseCallback(chatId: int, messageId: int): string
  {
    CallbackData(["delete"], [chatId, messageId])
  }

  /** The Close button's data leads back to deleting that message. */
  lemma RouteCloseCallback(chatId: int, messageId: int)
    ensures Route(false, CloseCallback(chatId, messageId)) == DeleteMessage(chatId, messageId)
  {
    FieldsRoundTrip(["delete"], [chatId, messageId]);
  }

  /** A prefix outside the private-chat ladder, or a `nav:` target outside
      it, does nothing. */
  lemma RouteUnknownIgnored(data: string)
    ensures Split(data, ':')[0] !in {"home", "stats", "nav", "video", "delete"} ==> Route(false, data) == Ignore
    ensures var parts := Split(data, ':');
      parts[0] == "nav" && |parts| >= 2 && parts[1] !in {"library", "day", "session", "flight"} ==>
        Route(false, data) == Ignore
  {
  }

  /** The iFLY chat acts on nothing but `auth:` data. */
  lemma IflyChatOnlyAuth(data: string)
    requires Split(data, ':')[0] != "auth"
    ensures Route(true, data) == Ignore
  {
  }

  // Authentication.

  /** The Yes button's data, `auth:start:{chat_id}:{username}`. */
  function AuthStartCallback(chatId: int, username: string): string
  {
    Join(["auth", "start", IntToString(chatId), username], ":")
  }

  /** `auth:<action>:<rest>` reaches the auth handler with the rest
      unchanged, whatever colons it holds. */
  lemma RouteAuth(action: string, rest: string)
    requires ':' !in action
    ensures Route(true, Join(["auth", action, rest], ":")) == HandleAuth(action, Some(rest))
  {
    AuthDataSplit(action, rest);
    var parts := Split(Join(["auth", action, rest], ":"), ':');
    assert parts[0] == "auth" && parts[1] == action;
    assert parts[2..] == Split(rest, ':');
    JoinSplit(rest, ':');
  }

  /** `auth:<action>:<rest>` splits into `auth`, the action, and the split
      of the rest. */
  lemma AuthDataSplit(action: string, rest: string)
    requires ':' !in action
    ensures Split(Join(["auth", action, rest], ":"), ':') == ["auth", action] + Split(rest, ':')
  {
    JoinThree("auth", action, rest, ":");
    SplitAtFirstSep("auth", ':', action + [':'] + rest);
    SplitAtFirstSep(action, ':', rest);
  }

  /** `handle_auth_callback`'s reading of `start` data: `int()` of the
      first field and the second field as the username; None where Python
      raises. The username is cut at the next `:`. */
  function AuthStartArgs(data: Option<string>): (r: Option<(int, string)>)
    ensures r.Some? <==>
      data.Some? && |Split(data.value, ':')| >= 2 && ParseInt(Split(data.value, ':')[0]).Some?
    ensures r.Some? ==> ParseInt(Split(data.value, ':')[0]) == Some(r.value.0)
    ensures r.Some? ==> ':' !in r.value.1
  {
    if data.None? then None
    else
      var parts := Split(data.value, ':');
      var target := ParseInt(parts[0]);
      if target.None? || |parts| < 2 then None else Some((target.value, parts[1]))
  }

  /** The Yes button's data leads to a session for that chat id and
      username, when the username holds no `:`. */
  lemma AuthStartRoundTrip(chatId: int, username: string)
    requires ':' !in username
    ensures Route(true, AuthStartCallback(chatId, username)).HandleAuth?
    ensures Route(true, AuthStartCallback(chatId, username)).authAction == "start"
    ensures AuthStartArgs(Route(true, AuthStartCallback(chatId, username)).data) == Some((chatId, username))
  {
    var rest := Join([IntToString(chatId), username], ":");
    assert AuthStartCallback(chatId, username) == Join(["auth", "start", rest], ":") by {
      JoinAppend(["auth", "start"], [IntToString(chatId), username], ":");
      assert ["auth", "start"] + [IntToString(chatId), username] == ["auth", "start", IntToString(chatId), username];
      JoinAppend(["auth", "start"], [rest], ":");
      assert ["auth", "start"] + [rest] == ["auth", "start", rest];
    }
    RouteAuth("start", rest);
    IntTextAvoids(chatId, ':');
    SplitJoin([IntToString(chatId), username], ':');
    ParseIntOfIntToString(chatId);
  }

  /** `handle_auth_callback`'s table effects: `start` with readable data
      opens a session of `sessionMinutes` from `now`, `end` empties the
      sessions table, anything else leaves it. */
  method HandleAuthCallback(store: VideoStore, action: string, data: Option<string>, sessionMinutes: int, now: int)
    requires store.Valid()
    modifies store
    ensures store.Valid()
    ensures action == "start" && AuthStartArgs(data).Some? ==>
      store.sessions == old(store.sessions)
        + [SessionRow(old(store.nextSessionId), AuthStartArgs(data).value.0, AuthStartArgs(data).value.1, now + 60 * sessionMinutes)]
    ensures action == "end" ==> store.sessions == []
    ensures action != "end" && !(action == "start" && AuthStartArgs(data).Some?) ==> store.sessions == old(store.sessions)
    ensures store.videos == old(store.videos) && store.nextVideoId == old(store.nextVideoId)
  {
    if action == "start" {
      var args := AuthStartArgs(data);
      if args.Some? {
        var _ := store.CreateSession(args.value.0, args.value.1, sessionMinutes, now);
      }
    } else if action == "end" {
      var _ := store.EndSession();
    }
  }

  // Uploads.

  /** `round(d / 5) * 5` on an integer number of seconds: a fifth of an
      integer is never halfway between two integers, so this is the
      nearest multiple of 5. */
  function RoundToFive(d: int): (r: int)
    ensures r % 5 == 0 && -2 <= r - d <= 2
  {
    5 * ((d + 2) / 5)
  }

  /** No other multiple of 5 is as close. */
  lemma RoundToFiveIsNearest(d: int, m: int)
    requires m % 5 == 0 && m != RoundToFive(d)
    ensures m - d > 2 || d - m > 2
  {
    var r := RoundToFive(d);
    assert (m - r) % 5 == 0;
  }

  /** The user an upload is stored for: the active session's target in the
      iFLY chat (none without a session), the sender in a private chat. */
  function UploadTarget(inIflyChat: bool, active: Option<SessionRow>, senderChatId: int): (r: Option<int>)
    ensures r.None? <==> inIflyChat && active.None?
    ensures !inIflyChat ==> r == Some(senderChatId)
    ensures inIflyChat && r.Some? ==> r == Some(active.value.targetChatId)
  {
    if inIflyChat then (if active.None? then None else Some(active.value.targetChatId))
    else Some(senderChatId)
  }

  /** In the iFLY chat an upload has a target exactly while some session is
      unexpired, and the target is the chat of such a session. */
  lemma IflyUploadTarget(sessions: seq<SessionRow>, now: int, senderChatId: int)
    ensures var target := UploadTarget(true, ActiveSession(sessions, now), senderChatId);
      && (target.None? <==> forall s :: s in sessions ==> s.expiresAt <= now)
      && (target.Some? ==> exists s :: s in sessions && s.expiresAt > now && s.targetChatId == target.value)
  {
    var active := ActiveSession(sessions, now);
    if active.Some? {
      assert active.value in sessions && active.value.expiresAt > now;
    }
  }

  /** `upload_video`: picks the target, rounds the duration, parses the
      file name and adds the row; nothing is stored without a target or a
      parsable name. `dayStamp` stands for the timestamp of the parsed
      date's midnight. */
  method UploadVideo(store: VideoStore, inIflyChat: bool, senderChatId: int, fileId: string, fileName: string,
                     rawDuration: int, now: int, dayStamp: CalendarDate -> int)
    returns (stored: bool)
    requires store.Valid()
    modifies store
    ensures store.Valid()
    ensures var target := UploadTarget(inIflyChat, ActiveSession(old(store.sessions), now), senderChatId);
      var parsed := FilenameFields(fileName);
      && (stored <==> target.Some? && parsed.Some? && !HasVideoKey(old(store.videos), target.value, fileId))
      && (stored ==>
            store.videos == old(store.videos)
              + [VideoRow(old(store.nextVideoId), target.value, fileId, fileName, RoundToFive(rawDuration),
                          dayStamp(parsed.value.date), parsed.value.timeSlot, parsed.value.flightNumber, parsed.value.cameraName)])
    ensures !stored ==> store.videos == old(store.videos)
    ensures var target := UploadTarget(inIflyChat, ActiveSession(old(store.sessions), now), senderChatId);
      store.nextVideoId == old(store.nextVideoId) + (if target.Some? && FilenameFields(fileName).Some? then 1 else 0)
    ensures store.sessions == old(store.sessions) && store.systemData == old(store.systemData)
  {
    var active := store.GetActiveSession(now);
    var target := UploadTarget(inIflyChat, active, senderChatId);
    if target.None? {
      return false;
    }
    var duration := RoundToFive(rawDuration);
    var parsed := ParseFilename(fileName);
    if parsed.None? {
      return false;
    }
    var p := parsed.value;
    stored := store.AddVideo(target.value, fileId, fileName, duration, dayStamp(p.date), p.timeSlot, p.flightNumber, p.cameraName);
  }
}
