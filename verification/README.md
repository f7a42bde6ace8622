# iFLY videos bot — a verified model of its core

The iFLY videos bot is a Telegram bot for an indoor skydiving tunnel. The
tunnel's cameras upload flight recordings to a group chat (the "iFLY chat").
While an instructor has an active *session* open for a flyer, every upload is
filed under that flyer. A flyer can also send videos in a private chat. Each
video's file name carries the camera, the flight number, the date and the
time. The bot stores one row per video and shows a flyer's library as a tree:
days, then 30-minute time slots ("sessions"), then flights, then the cameras
of a flight. It is browsed with inline keyboards.

This project models the bot's logic in Dafny and proves properties of it:

- `text.dfy`: the Python primitives the code leans on. These are `int()` on
  text (`ParseInt`), `str()` on integers (`IntToString`), `str.split` and
  `str.join`, with their round trips.
- `utils.dfy`: `parse_filename` and its year-scanning loop, `get_time_slot`,
  `format_flight_time`, `format_days_count` and `escape_markdown`.
- `records.dfy`: a `videos` row, and the `ORDER BY` of `get_videos_by_user`
  (date, time slot, flight number, then camera rank) as a stable insertion
  sort.
- `keyed.dfy`: keyed lists, i.e. a Python dict or list looked up by key. It
  covers lookup, insert-or-replace, and sorting by key.
- `organizer.dfy`: `get_organized_videos`. Its grouping loop and its three
  sorts are methods proved against a specification function, and the tree
  they build is proved to file every row under its own keys.
- `store.dfy`: the `Database` class as a Dafny class whose fields are the
  `videos`, `sessions` and `system_data` tables and their autoincrement
  counters. It has one method per statement the bot uses.
- `ui.dfy`: `generate_tree_text` and the three keyboard builders, each a
  method with its loops, proved against specification functions.
- `router.dfy`: `callback_handler` as a function from callback data to an
  action, the `auth:` handling, and `upload_video`.

Three observations about the code, which the model follows:

- The `videos` table is created with `UNIQUE(file_name, user_chat_id)`
  (database.py:48), and a start-up migration turns it into
  `UNIQUE(file_id, user_chat_id)` (database.py:115). The model keeps the
  migrated key.
- `create_session` inserts a new row every time. The `sessions` table's only
  key is its autoincrement id, so `INSERT OR REPLACE` never replaces, although
  the `OR REPLACE` wording suggests a single replaceable session was meant.
  With several rows, `get_active_session` returns the one that expires last,
  and `end_session` deletes them all.
- The flight view's Delete button sends `del:ask:...` data (ui.py:148). No
  branch of `callback_handler` matches that prefix, so the data is ignored
  and `delete_video_by_id` is not reached from any handler.
  `RouteDeleteAskCallback` states this. `DeleteVideoById` is still modelled
  as the database defines it.

Callback data is built by `Ui.CallbackData`: fixed words and decimal
integers, joined by `:`. `Router.FieldsRoundTrip` shows that splitting it
gives the fields back. The `Route*Callback` lemmas then show that every
button the views build leads back to the view it names.

## Model

| member | source | states |
|---|---|---|
| Text.ParseIntOfIntToString | main.py:412-424 | `int(str(n)) == n` for every integer, which the callback handlers rely on |
| Text.SplitJoin | main.py:394 | splitting on `c` a join by `c` of `c`-free parts gives the parts back |
| Text.JoinSplit | main.py:400 | joining the split of a text by the same separator gives the text back |
| Utils.GetTimeSlot | utils.py:47-60 | a slot exists exactly when the input splits on `_` into two tokens that `int()` accepts, and it ends in `:00` or `:30`; otherwise the exception becomes None |
| Utils.TimeSlotKeepsHour | utils.py:54-57 | the slot is the hour, zero-padded to two digits and never rolled over, then `:00` below minute 30 and `:30` from minute 30 |
| Utils.TimeSlotOfIntegers | utils.py:47-60 | the slot of the text `h_m` for two integers is the slot of those integers |
| Utils.TimeSlotExample | utils.py:47-60 | `"14_30"` gives `"14:30"` |
| Utils.TimeSlotLateEvening | utils.py:54-57 | `"23_45"` gives `"23:30"`: minutes round down to the half hour |
| Utils.DashesToUnderscores | utils.py:13 | same length, no `-` left, each `-` turned into `_` and every other character kept |
| Utils.FirstYearIndex | utils.py:28-31 | the first token matching `20\d{2}`, with no year token before it; None when there is none |
| Utils.ParseDate | utils.py:39 | a date exactly when the year has four digits and is not `0000`, month and day are `%m`/`%d` tokens, and the day exists in that month; the result is a valid calendar date |
| Utils.ParseFilename | utils.py:7-45 | the loop over the tokens computes the specification `FilenameFields` |
| Utils.ParseIgnoresDashes | utils.py:13-14 | mapping `-` to `_` before parsing changes nothing |
| Utils.FilenameFields | utils.py:7-45 | fails when no token is a year, or when fewer than four tokens follow the year token it reads from (token 4 in the nine-token layout, else the first year token); otherwise it is the positional reading at that token; a result has a valid date and a slot ending in `:00` or `:30`, takes the camera from token 1 and the flight from token 2 or 3, and neither holds `_` or `-` |
| Utils.FieldsAtByPosition | utils.py:34-40 | reading at the anchor fails exactly when the date is invalid or the hour or minute is not an integer; otherwise camera is token 1, flight token 2 or 3, and the slot comes from the two time tokens |
| Utils.ParseExample | utils.py:7-45 | `ifly_Door_F001_2025_08_21_14_30_001.mp4` parses to camera `Door`, flight `F001`, 21 August 2025, slot `14:30` |
| Utils.FormatFlightTime | utils.py:66-76 | ends in `m` (hours) exactly from 3600 seconds, in ` min` exactly when below an hour with at least a minute past the hours, and in `s` otherwise |
| Utils.FlightTimeFormat | utils.py:66-76 | for `s = 3600h + 60m + r`: `{h}h {m}m` from an hour, `{m}:{rr} min` from a minute, `{s}s` below |
| Utils.FlightTimeExample | utils.py:66-76 | 3661 seconds show as `1h 1m` |
| Utils.FormatDaysCount | utils.py:78-89 | ends in ` year` from 365 days (` years` from 730), else in ` month` when 30 or more days remain (` months` from 60), else in ` day` for exactly one and ` days` otherwise |
| Utils.DaysCountFormat | utils.py:78-89 | for `d = 365y + 30m + r`: the largest non-zero unit, plural for more than one year or month and for any day count other than one |
| Utils.DaysCountExample | utils.py:78-89 | 45, 1 and 730 days show as `1 month`, `1 day`, `2 years` |
| Utils.EscapeMarkdown | utils.py:91-94 | the output is the input plus one character per special character, and never starts with a special character |
| Utils.UnescapeEscape | utils.py:91-94 | dropping the inserted backslashes gives the input back |
| Utils.EscapedSpecialsArePrefixed | utils.py:91-94 | every special character of the output has a backslash right before it |
| Records.CameraRank | database.py:223-229 | ranks 1 to 5, below 5 exactly for Door, Centerline, Firsttimer and Sideline |
| Records.SortRows | database.py:222-229 | the same rows, each as often as before (sortedness is in `SortRowsSorted`) |
| Records.SortRowsSorted | database.py:222-229 | the sort puts rows in `ORDER BY` order; `SortRows` keeps the same multiset of rows |
| Records.UserVideos | database.py:213-246 | exactly the user's rows, each as often as stored, in query order |
| Keyed.PutNamed | database.py:260-283 | after get-or-create, the key leads to the new node and every other key to what it led to before |
| Keyed.SortByKeyCorrect | database.py:287-291 | sorting by key gives strictly increasing keys and the same node under every key |
| Organizer.GroupVideos | database.py:255-284 | the grouping loop computes `GroupAll` of the rows |
| Organizer.LookupAfterAdd | database.py:260-284 | filing one row changes only the flight its keys name, by appending its entry or creating the flight with the row's duration |
| Organizer.GroupAllHolds | database.py:255-284 | after any prefix of the rows the tree has no empty or duplicate nodes, and every key triple leads to exactly the flight its rows make |
| Organizer.SortDays | database.py:287-291 | the sorting loop computes `SortTree` of the grouped days |
| Organizer.SortSessionsOf | database.py:289-291 | one day's sessions sorted by time slot, each with its flights sorted by flight number |
| Organizer.SortTreeShape | database.py:287-291 | sorting keeps the tree shaped and orders days by date, sessions by slot and flights by number |
| Organizer.SortTreeLookup | database.py:287-291 | sorting keeps every key triple's flight |
| Organizer.OrganizeVideos | database.py:248-293 | grouping followed by the sorts computes `OrganizedTree` |
| Organizer.OrganizedTreeOk | database.py:248-293 | the organized tree is shaped, sorted at every level, and files exactly the input's flights |
| Organizer.FlightNodeHoldsItsRows | database.py:267-284 | every flight node lists its rows' entries in input order, is non-empty, and has the first row's duration as its length |
| Organizer.EveryVideoIsFiled | database.py:255-284 | every input row is filed under its own date, slot and flight number |
| Organizer.EmptyInputEmptyTree | database.py:248-293 | no rows give no days |
| Organizer.FlightsKeepCameraOrder | database.py:222-229 | with the rows in query order, every flight lists its cameras in rank order |
| Store.DeleteMatching | database.py:202-206 | keeps exactly the rows that are not the user's row with that id |
| Store.DeleteRemovesAtMostOne | database.py:202-206 | with ids unique, one row is removed when one matches, and none otherwise |
| Store.DeleteKeepsOrder | database.py:202-206 | the remaining rows keep increasing ids and unique `(file_id, user_chat_id)` keys |
| Store.ActiveSession | database.py:337-359 | None exactly when every session has expired; otherwise an unexpired row that expires no earlier than any other |
| Store.CreatedSessionIsActive | database.py:319-359 | a session just created for a positive number of minutes is the active one when no other expires later |
| Store.VideoStore.constructor | database.py:19-80 | empty tables |
| Store.VideoStore.AddVideo | database.py:178-195 | inserts exactly when no row has the same `(file_id, user_chat_id)`, appends the row with the next id, advances the id counter by one even when the insert is ignored (`AUTOINCREMENT` uses up the id), and leaves the other tables alone |
| Store.VideoStore.DeleteVideoById | database.py:197-211 | true exactly when a row matched; the table becomes `DeleteMatching` of the old one, one row shorter when true |
| Store.VideoStore.GetVideosByUser | database.py:213-246 | returns `UserVideos` of the table |
| Store.VideoStore.GetOrganizedVideos | database.py:248-293 | returns the organized tree of the user's rows |
| Store.VideoStore.CreateSession | database.py:319-335 | appends a row for the target that expires `60 * minutes` seconds after `now` |
| Store.VideoStore.GetActiveSession | database.py:337-359 | returns `ActiveSession` of the table at `now` |
| Store.VideoStore.EndSession | database.py:361-373 | empties the sessions table and nothing else |
| Store.VideoStore.SetSystemValue | database.py:376-391 | sets the key's value, replacing any old one |
| Store.VideoStore.GetSystemValue | database.py:393-402 | the stored value, or None exactly when the key is absent |
| Store.LibraryShowsOwnVideos | database.py:213-293 | a flight of a user's library lists only that user's rows, in camera order |
| Store.LibraryFilesEveryOwnVideo | database.py:213-293 | every row the user owns appears in their library under its own keys |
| Ui.PyIndex | ui.py:145 | Python indexing of a list of length `n` succeeds exactly for `-n <= i < n`, negative indices counting from the end |
| Ui.InRowsOfTwoLayout | ui.py:76-78 | `(n+1)/2` rows; row `k` holds buttons `2k` and `2k+1`, only the last row may hold one, and the rows read in order give the buttons back |
| Ui.ArrangeInRows | ui.py:76-78 | the stepping loop computes the rows-of-two layout |
| Ui.SessionButtons | ui.py:67-73 | one button per session, calling back with the day and the session position |
| Ui.VideoButtons | ui.py:122-131 | one button per video, calling back with its own position; only the current video's text differs from its camera name, by the `● ` mark |
| Ui.CreateNavigationKeyboard | ui.py:43-86 | without a day, one row per day and a Back row to `home`; with a day, its sessions two per row then Back and Home, None when the index is out of range |
| Ui.CreateSessionViewKeyboard | ui.py:88-110 | one row per flight calling back with its position, then Back to the day and Home; None when an index is out of range |
| Ui.CreateFlightViewKeyboard | ui.py:112-151 | video buttons two per row, Back and Home, and a Delete row with the current video's id exactly when there are videos; None when an index is out of range |
| Ui.FlightsWord | ui.py:34 | `flight` exactly for a count of one |
| Ui.LineText | ui.py:15-34 | a day line starts with `└── ` exactly when it is the last day; a session line is indented and uses `└── ` exactly for its day's last session |
| Ui.TreeListingFrame | ui.py:11-38 | the separator and header first, the separator last, one line per day plus the selected day's sessions |
| Ui.TreeListingDays | ui.py:14-23 | each day's line sits after the earlier days and any open sessions before it, open exactly for the selected day |
| Ui.TreeListingSessions | ui.py:25-35 | the selected day's session lines follow its line directly, one per session in order |
| Ui.GenerateTreeText | ui.py:8-41 | the loops produce the listing's lines joined by newlines |
| Router.ParseAll | main.py:421 | the list of `int()` values exactly when every token is an integer |
| Router.Route | main.py:387-427 | the iFLY chat only acts on `auth:` data; a private chat never does; auth data is present exactly when the split has more than two fields |
| Router.FieldsRoundTrip | main.py:394 | splitting callback data gives its words and integer texts back, and the integers read back |
| Router.RouteDayCallback | main.py:411-413 | `nav:day:{d}` opens day `d` |
| Router.RouteSessionCallback | main.py:414-416 | `nav:session:{d}:{s}` opens that session |
| Router.RouteFlightCallback | main.py:417-419 | `nav:flight:{d}:{s}:{f}` opens that flight at video 0 |
| Router.RouteVideoCallback | main.py:420-422 | `video:{d}:{s}:{f}:{v}` opens that flight at video `v` |
| Router.RouteDeleteAskCallback | main.py:404-425 | the Delete button's `del:ask:...` data matches no branch |
| Router.RouteFixedCallbacks | main.py:404-410 | `home` opens the start menu and `nav:library` the library root |
| Router.RouteStatsCallback | main.py:406-407 | `stats` opens the statistics |
| Router.RouteCloseCallback | main.py:423-425 | the Close button's `delete:{chat}:{msg}` deletes that message |
| Router.RouteUnknownIgnored | main.py:404-425 | any other prefix, or any other `nav:` target, does nothing |
| Router.IflyChatOnlyAuth | main.py:396-401 | in the iFLY chat, data not starting with `auth` does nothing |
| Router.RouteAuth | main.py:398-401 | `auth:<action>:<rest>` reaches the auth handler with the rest unchanged, colons included |
| Router.AuthStartRoundTrip | main.py:331 | the Yes button's data reaches `start` with the chat id and the username it was built from |
| Router.AuthStartArgs | main.py:354-356 | arguments exactly when the data has at least two `:`-fields and the first is an integer; the chat id is that integer and the username holds no `:` |
| Router.HandleAuthCallback | main.py:349-384 | `start` with readable data appends a session, `end` empties the table, anything else changes nothing; videos untouched |
| Router.RoundToFive | main.py:269 | a multiple of 5 within 2 of the duration |
| Router.RoundToFiveIsNearest | main.py:269 | no other multiple of 5 is as close |
| Router.UploadTarget | main.py:253-264 | no target exactly in the iFLY chat without an active session; the sender in a private chat, the session's target chat otherwise |
| Router.IflyUploadTarget | main.py:254-260 | in the iFLY chat there is a target exactly while some session is unexpired, and it is the chat of such a session |
| Router.UploadVideo | main.py:250-292 | stores exactly when there is a target, the name parses and the key is new; the row holds the rounded duration and the parsed fields; otherwise the videos are unchanged; the id counter advances exactly when an insert is attempted (a target and a parsed name), duplicate or not |

## Left out

- Telegram I/O: sending, editing and deleting messages, answering callback queries, and the `show_*` handlers beyond the action they are routed to.
- The plain-text message handlers, `ask_for_username`'s message-id bookkeeping in `system_data`, and `get_user_stats`.
- The `users` table (`add_user`, `get_user_by_chat_id`, `get_user_by_username` with its `LOWER` match), the schema migration at start-up, and `config.py`.
- SQLite mechanics: the model keeps the tables as sequences and a map. Exceptions that the `Database` methods turn into `False` cannot happen in the model.
- Clocks and time zones: `now`, the local-midnight timestamp of a parsed date (`dayStamp`) and the date formatting of the views (`formatDate`) are parameters.
- `Store.VideoStore.GetVideosByUser`: rows that tie on every `ORDER BY` column come out in table order. SQLite does not promise that order.
- `Store.ActiveSession`: among sessions that tie on the latest `expires_at` (two sessions of the same length started in the same second), the model returns the earliest row. SQLite does not promise which tied row `LIMIT 1` returns; only the three properties in its `ensures` hold whatever the tie order.
- `Store.VideoStore.GetActiveSession`: inherits the tie choice of `Store.ActiveSession`.
- `Router.UploadVideo`: with tied sessions, the target chat named by its contract is the model's tie choice, not one SQLite guarantees.
- `Router.UploadVideo`: Telegram's `video.file_name` may be missing. `replace` on `None` then raises inside `parse_filename`, and the upload stores nothing, like any name that does not parse. The model takes the name as a string and does not model the missing case.
- `Text.ParseInt`: Unicode digits and non-ASCII whitespace, which Python's `int()` also accepts, are not modelled.
- `Utils.IsYearToken`: `\d` is taken as an ASCII digit only.
- `Utils.IsDayToken`: the `[12]\d` alternative of `strptime`'s `%d` is taken with an ASCII digit only.
- `Utils.ParseDate`: `%Y` is taken as four ASCII digits only.
- `Utils.FormatDaysCount`: works on an integer day count; the float division and `round` on fractional days before it are not modelled.
- `Router.RoundToFive`: exact for integer durations. Float rounding of `d / 5` for durations beyond 2^53 is not modelled.
- `Ui.GenerateTreeText`: the fallback text returned when the listing raises is not modelled.
- `Organizer.OrganizeVideos`: its `ensures` ties the result to `OrganizedTree`; that the tree is sorted and files every row is proved separately in `Organizer.OrganizedTreeOk`.
- Telegram's 64-byte limit on callback data is not checked.
