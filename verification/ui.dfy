/** The view builders: inline keyboards for the library, a day, a session
    and a flight, and the tree listing shown above them. A button is a
    (text, callback data) pair; a keyboard is its list of rows. */
module Ui {
  import opened Wrappers
  import opened Text
  import opened Utils
  import opened Organizer

  datatype Button = Button(text: string, callback: string)

  type Keyboard = seq<seq<Button>>

  const HomeCallback: string := "home"
  const LibraryCallback: string := CallbackData(["nav", "library"], [])
  const BackText: string := "\U{2190} Back"
  const HomeText: string := "\U{1F3E0} Home"
  const DeleteText: string := "\U{1F5D1}\U{FE0F} Delete"
  const CurrentMark: string := "\U{25CF} "

  /** Python's `xs[i]` on a list of length `n`: the position read, or None
      where it raises IndexError (negative indices count from the end). */
  function PyIndex(n: nat, i: int): (r: Option<nat>)
    ensures r.Some? <==> -(n as int) <= i < n
    ensures r.Some? ==> r.value < n && (r.value == i || r.value == n + i)
  {
    if 0 <= i < n then Some(i) else if -(n as int) <= i < 0 then Some(n + i) else None
  }

  // Callback data, as the f-strings build it: fixed words, then integer
  // fields, all joined by `:`.

  function IntTexts(ints: seq<int>): (texts: seq<string>)
    ensures |texts| == |ints| && forall i :: 0 <= i < |ints| ==> texts[i] == IntToString(ints[i])
  {
    seq(|ints|, i requires 0 <= i < |ints| => IntToString(ints[i]))
  }

  function CallbackData(words: seq<string>, ints: seq<int>): string
  {
    Join(words + IntTexts(ints), ":")
  }

  /** `nav:day:{d}` */
  function DayCallback(day: int): string
  {
    CallbackData(["nav", "day"], [day])
  }

  /** `nav:session:{d}:{s}` */
  function SessionCallback(day: int, session: int): string
  {
    CallbackData(["nav", "session"], [day, session])
  }

  /** `nav:flight:{d}:{s}:{f}` */
  function FlightCallback(day: int, session: int, flight: int): string
  {
    CallbackData(["nav", "flight"], [day, session, flight])
  }

  /** `video:{d}:{s}:{f}:{v}` */
  function VideoCallback(day: int, session: int, flight: int, video: int): string
  {
    CallbackData(["video"], [day, session, flight, video])
  }

  /** `del:ask:{d}:{s}:{f}:{v}:{video_id}` */
  function DeleteAskCallback(day: int, session: int, flight: int, video: int, id: int): string
  {
    CallbackData(["del", "ask"], [day, session, flight, video, id])
  }

  /** The Back/Home row that closes the day, session and flight views. */
  function NavigationRow(backCallback: string): seq<Button>
  {
    [Button(BackText, backCallback), Button(HomeText, HomeCallback)]
  }

  /** `[buttons[i:i+2] for i in range(0, len(buttons), 2)]`. */
  function InRowsOfTwo(buttons: seq<Button>): Keyboard
    decreases |buttons|
  {
    if |buttons| == 0 then []
    else if |buttons| <= 2 then [buttons]
    else [buttons[..2]] + InRowsOfTwo(buttons[2..])
  }

  function Flatten(rows: Keyboard): seq<Button>
    decreases |rows|
  {
    if |rows| == 0 then [] else rows[0] + Flatten(rows[1..])
  }

  /** Row `k` holds buttons `2k` and `2k + 1` (only the last row may hold
      one), and reading the rows in order gives the buttons back. */
  lemma InRowsOfTwoLayout(buttons: seq<Button>)
    ensures |InRowsOfTwo(buttons)| == (|buttons| + 1) / 2
    ensures forall k :: 0 <= k < |InRowsOfTwo(buttons)| ==>
      InRowsOfTwo(buttons)[k] == buttons[2 * k .. if 2 * k + 2 <= |buttons| then 2 * k + 2 else |buttons|]
    ensures forall k :: 0 <= k < |InRowsOfTwo(buttons)| ==>
      |InRowsOfTwo(buttons)[k]| == 2 || (|InRowsOfTwo(buttons)[k]| == 1 && k == |InRowsOfTwo(buttons)| - 1)
    ensures Flatten(InRowsOfTwo(buttons)) == buttons
  {
    InRowsOfTwoRows(buttons);
    InRowsOfTwoFlatten(buttons);
  }

  lemma {:induction false} InRowsOfTwoRows(buttons: seq<Button>)
    ensures |InRowsOfTwo(buttons)| == (|buttons| + 1) / 2
    ensures forall k :: 0 <= k < |InRowsOfTwo(buttons)| ==>
      InRowsOfTwo(buttons)[k] == buttons[2 * k .. if 2 * k + 2 <= |buttons| then 2 * k + 2 else |buttons|]
    decreases |buttons|
  {
    if |buttons| > 2 {
      var rest := buttons[2..];
      InRowsOfTwoRows(rest);
      var rows := InRowsOfTwo(buttons);
      forall k | 1 <= k < |rows|
        ensures rows[k] == buttons[2 * k .. if 2 * k + 2 <= |buttons| then 2 * k + 2 else |buttons|]
      {
        RowOfRest(buttons, k);
      }
    }
  }

  lemma RowOfRest(buttons: seq<Button>, k: nat)
    requires |buttons| > 2 && |InRowsOfTwo(buttons[2..])| == (|buttons| - 1) / 2
    requires 1 <= k < |InRowsOfTwo(buttons)|
    requires var rest := buttons[2..]; forall k' :: 0 <= k' < |InRowsOfTwo(rest)| ==>
      InRowsOfTwo(rest)[k'] == rest[2 * k' .. if 2 * k' + 2 <= |rest| then 2 * k' + 2 else |rest|]
    ensures InRowsOfTwo(buttons)[k] == buttons[2 * k .. if 2 * k + 2 <= |buttons| then 2 * k + 2 else |buttons|]
  {
    var rest := buttons[2..];
    assert InRowsOfTwo(buttons) == [buttons[..2]] + InRowsOfTwo(rest);
    assert InRowsOfTwo(buttons)[k] == InRowsOfTwo(rest)[k - 1];
    var lo := 2 * (k - 1);
    var hi := if lo + 2 <= |rest| then lo + 2 else |rest|;
    assert rest[lo..hi] == buttons[lo + 2 .. hi + 2];
  }

  lemma {:induction false} InRowsOfTwoFlatten(buttons: seq<Button>)
    ensures Flatten(InRowsOfTwo(buttons)) == buttons
    decreases |buttons|
  {
    if |buttons| > 2 {
      InRowsOfTwoFlatten(buttons[2..]);
      assert InRowsOfTwo(buttons)[1..] == InRowsOfTwo(buttons[2..]);
      assert buttons == buttons[..2] + buttons[2..];
    } else if |buttons| > 0 {
      assert Flatten([buttons]) == buttons + Flatten([]);
    }
  }

  /** The `range(0, len(buttons), 2)` loop that lays buttons out two per row. */
  method ArrangeInRows(buttons: seq<Button>) returns (rows: Keyboard)
    ensures rows == InRowsOfTwo(buttons)
  {
    rows := [];
    var i := 0;
    while i < |buttons|
      invariant 0 <= i <= |buttons|
      invariant rows + InRowsOfTwo(buttons[i..]) == InRowsOfTwo(buttons)
    {
      var end := if i + 2 <= |buttons| then i + 2 else |buttons|;
      assert InRowsOfTwo(buttons[i..]) == [buttons[i..end]] + InRowsOfTwo(buttons[end..]) by {
        if end < |buttons| {
          assert buttons[i..][..2] == buttons[i..end];
          assert buttons[i..][2..] == buttons[end..];
        } else {
          assert buttons[i..] == buttons[i..end];
          assert buttons[end..] == [];
        }
      }
      rows := rows + [buttons[i..end]];
      i := end;
    }
  }

  // Indexing into the tree as the builders do; None where Python raises.

  function DayAt(days: seq<DayNode>, dayIndex: int): Option<DayNode>
  {
    var d := PyIndex(|days|, dayIndex);
    if d.None? then None else Some(days[d.value])
  }

  function SessionAt(days: seq<DayNode>, dayIndex: int, sessionIndex: int): Option<SessionNode>
  {
    var day := DayAt(days, dayIndex);
    if day.None? then None
    else
      var s := PyIndex(|day.value.sessions|, sessionIndex);
      if s.None? then None else Some(day.value.sessions[s.value])
  }

  function FlightAt(days: seq<DayNode>, dayIndex: int, sessionIndex: int, flightIndex: int): Option<FlightNode>
  {
    var session := SessionAt(days, dayIndex, sessionIndex);
    if session.None? then None
    else
      var f := PyIndex(|session.value.flights|, flightIndex);
      if f.None? then None else Some(session.value.flights[f.value])
  }

  // Buttons of each view.

  function DayButton(day: DayNode, i: int, formatDate: int -> string): Button
  {
    Button("\U{1F4C1} " + formatDate(day.date) + " (" + IntToString(|day.sessions|) + " sessions)", DayCallback(i))
  }

  function SessionButton(session: SessionNode, dayIndex: int, i: int): Button
  {
    Button(session.timeSlot + " (" + IntToString(|session.flights|) + ")", SessionCallback(dayIndex, i))
  }

  /** The day's session buttons, in session order. */
  function SessionButtons(day: DayNode, dayIndex: int): (r: seq<Button>)
    ensures |r| == |day.sessions|
    ensures forall j :: 0 <= j < |r| ==> r[j].callback == SessionCallback(dayIndex, j)
  {
    seq(|day.sessions|, j requires 0 <= j < |day.sessions| => SessionButton(day.sessions[j], dayIndex, j))
  }

  function FlightButton(flight: FlightNode, dayIndex: int, sessionIndex: int, i: int): Button
  {
    Button("Flight " + flight.flightNumber + " (" + IntToString(|flight.videos|) + " videos)",
           FlightCallback(dayIndex, sessionIndex, i))
  }

  /** The flight's video buttons: each calls back with its own position,
      and a button's text differs from its camera name exactly at the
      current video, which carries the `● ` mark. */
  function VideoButtons(flight: FlightNode, dayIndex: int, sessionIndex: int, flightIndex: int, current: int): (r: seq<Button>)
    ensures |r| == |flight.videos|
    ensures forall j :: 0 <= j < |r| ==> r[j].callback == VideoCallback(dayIndex, sessionIndex, flightIndex, j)
    ensures forall j :: 0 <= j < |r| ==> (r[j].text == flight.videos[j].cameraName <==> j != current)
    ensures 0 <= current < |r| ==> r[current].text == CurrentMark + flight.videos[current].cameraName
  {
    seq(|flight.videos|, j requires 0 <= j < |flight.videos| =>
      Button(if j == current then CurrentMark + flight.videos[j].cameraName else flight.videos[j].cameraName,
             VideoCallback(dayIndex, sessionIndex, flightIndex, j)))
  }

  /** The library view's loop: one row per day. */
  method DayRows(days: seq<DayNode>, formatDate: int -> string) returns (rows: Keyboard)
    ensures |rows| == |days|
    ensures forall i :: 0 <= i < |days| ==> rows[i] == [DayButton(days[i], i, formatDate)]
  {
    rows := [];
    for i := 0 to |days|
      invariant |rows| == i
      invariant forall k :: 0 <= k < i ==> rows[k] == [DayButton(days[k], k, formatDate)]
    {
      rows := rows + [[DayButton(days[i], i, formatDate)]];
    }
  }

  /** The day view's loop over the sessions. */
  method SessionButtonsOf(day: DayNode, dayIndex: int) returns (buttons: seq<Button>)
    ensures buttons == SessionButtons(day, dayIndex)
  {
    buttons := [];
    for i := 0 to |day.sessions|
      invariant buttons == SessionButtons(day, dayIndex)[..i]
    {
      buttons := buttons + [SessionButton(day.sessions[i], dayIndex, i)];
    }
  }

  /** The session view's loop: one row per flight. */
  method FlightRows(flights: seq<FlightNode>, dayIndex: int, sessionIndex: int) returns (rows: Keyboard)
    ensures |rows| == |flights|
    ensures forall i :: 0 <= i < |flights| ==> rows[i] == [FlightButton(flights[i], dayIndex, sessionIndex, i)]
  {
    rows := [];
    for i := 0 to |flights|
      invariant |rows| == i
      invariant forall k :: 0 <= k < i ==> rows[k] == [FlightButton(flights[k], dayIndex, sessionIndex, k)]
    {
      rows := rows + [[FlightButton(flights[i], dayIndex, sessionIndex, i)]];
    }
  }

  /** The flight view's loop over the videos. */
  method VideoButtonsOf(flight: FlightNode, dayIndex: int, sessionIndex: int, flightIndex: int, current: int)
    returns (buttons: seq<Button>)
    ensures buttons == VideoButtons(flight, dayIndex, sessionIndex, flightIndex, current)
  {
    buttons := [];
    for i := 0 to |flight.videos|
      invariant buttons == VideoButtons(flight, dayIndex, sessionIndex, flightIndex, current)[..i]
    {
      var text := if i == current then CurrentMark + flight.videos[i].cameraName else flight.videos[i].cameraName;
      buttons := buttons + [Button(text, VideoCallback(dayIndex, sessionIndex, flightIndex, i))];
    }
  }

  /** `create_navigation_keyboard`. Without a day: one row per day calling
      back with its position, then a Back row to `home`. With a day: that
      day's sessions two per row, then Back (`nav:library`) and Home; None
      where the day index is out of range. */
  method CreateNavigationKeyboard(days: seq<DayNode>, dayIndex: Option<int>, formatDate: int -> string)
    returns (r: Option<Keyboard>)
    ensures dayIndex.None? ==>
      && r.Some? && |r.value| == |days| + 1
      && (forall i :: 0 <= i < |days| ==> r.value[i] == [DayButton(days[i], i, formatDate)])
      && r.value[|days|] == [Button(BackText, HomeCallback)]
    ensures dayIndex.Some? ==> (r.None? <==> DayAt(days, dayIndex.value).None?)
    ensures dayIndex.Some? && r.Some? ==>
      && |r.value| >= 1
      && r.value[..|r.value| - 1] == InRowsOfTwo(SessionButtons(DayAt(days, dayIndex.value).value, dayIndex.value))
      && r.value[|r.value| - 1] == NavigationRow(LibraryCallback)
  {
    if dayIndex.None? {
      var keyboard := DayRows(days, formatDate);
      keyboard := keyboard + [[Button(BackText, HomeCallback)]];
      return Some(keyboard);
    }
    var d := PyIndex(|days|, dayIndex.value);
    if d.None? {
      return None;
    }
    var sessionButtons := SessionButtonsOf(days[d.value], dayIndex.value);
    var keyboard := ArrangeInRows(sessionButtons);
    keyboard := keyboard + [NavigationRow(LibraryCallback)];
    return Some(keyboard);
  }

  /** `create_session_view_keyboard`: one row per flight of the session,
      calling back with day, session and flight position, then Back to the
      day and Home; None where an index is out of range. */
  method CreateSessionViewKeyboard(days: seq<DayNode>, dayIndex: int, sessionIndex: int)
    returns (r: Option<Keyboard>)
    ensures r.None? <==> SessionAt(days, dayIndex, sessionIndex).None?
    ensures r.Some? ==>
      var flights := SessionAt(days, dayIndex, sessionIndex).value.flights;
      && |r.value| == |flights| + 1
      && (forall i :: 0 <= i < |flights| ==> r.value[i] == [FlightButton(flights[i], dayIndex, sessionIndex, i)])
      && r.value[|flights|] == NavigationRow(DayCallback(dayIndex))
  {
    var session := SessionAt(days, dayIndex, sessionIndex);
    if session.None? {
      return None;
    }
    var keyboard := FlightRows(session.value.flights, dayIndex, sessionIndex);
    keyboard := keyboard + [NavigationRow(DayCallback(dayIndex))];
    return Some(keyboard);
  }

  /** `create_flight_view_keyboard`: the video buttons two per row, Back to
      the session and Home, and a Delete row for the current video (with
      its id) exactly when the flight has videos. None where an index is
      out of range, including the current video's in a non-empty flight. */
  method CreateFlightViewKeyboard(days: seq<DayNode>, dayIndex: int, sessionIndex: int, flightIndex: int, currentVideo: int)
    returns (r: Option<Keyboard>)
    ensures r.None? <==>
      || FlightAt(days, dayIndex, sessionIndex, flightIndex).None?
      || (var videos := FlightAt(days, dayIndex, sessionIndex, flightIndex).value.videos;
          |videos| > 0 && PyIndex(|videos|, currentVideo).None?)
    ensures r.Some? ==>
      var flight := FlightAt(days, dayIndex, sessionIndex, flightIndex).value;
      var rows := InRowsOfTwo(VideoButtons(flight, dayIndex, sessionIndex, flightIndex, currentVideo));
      && |r.value| == |rows| + (if |flight.videos| > 0 then 2 else 1)
      && r.value[..|rows|] == rows
      && r.value[|rows|] == NavigationRow(SessionCallback(dayIndex, sessionIndex))
      && (|flight.videos| > 0 ==>
            r.value[|rows| + 1] == [Button(DeleteText, DeleteAskCallback(dayIndex, sessionIndex, flightIndex, currentVideo,
                                                       flight.videos[PyIndex(|flight.videos|, currentVideo).value].id))])
  {
    var flight := FlightAt(days, dayIndex, sessionIndex, flightIndex);
    if flight.None? {
      return None;
    }
    var videos := flight.value.videos;
    var videoButtons := VideoButtonsOf(flight.value, dayIndex, sessionIndex, flightIndex, currentVideo);
    var keyboard := ArrangeInRows(videoButtons);
    keyboard := keyboard + [NavigationRow(SessionCallback(dayIndex, sessionIndex))];
    if |videos| > 0 {
      var c := PyIndex(|videos|, currentVideo);
      if c.None? {
        return None;
      }
      var current := videos[c.value];
      keyboard := keyboard + [[Button(DeleteText, DeleteAskCallback(dayIndex, sessionIndex, flightIndex, currentVideo, current.id))]];
    }
    return Some(keyboard);
  }

  // The tree listing.

  const Rule: string := "\U{2501}\U{2501}\U{2501}\U{2501}\U{2501}\U{2501}\U{2501}\U{2501}\U{2501}\U{2501}\U{2501}\U{2501}\U{2501}\U{2501}\U{2501}\U{2501}"
  const LibraryHeader: string := "\U{1F4E6} *Library*"
  const LastBranch: string := "\U{2514}\U{2500}\U{2500} "
  const MidBranch: string := "\U{251C}\U{2500}\U{2500} "

  function Branch(last: bool): string
  {
    if last then LastBranch else MidBranch
  }

  /** One line of the listing, before it is rendered to text. */
  datatype TreeLine =
    | RuleLine
    | HeaderLine
    | DayLine(dateText: string, last: bool, selected: bool)
    | SessionLine(timeSlot: string, flightCount: nat, lastDay: bool, lastSession: bool)

  /** `flight`, with an `s` unless there is exactly one. */
  function FlightsWord(count: int): (word: string)
    ensures word == "flight" <==> count == 1
  {
    "flight" + (if count != 1 then "s" else "")
  }

  /** A line's text: a day line opens with `└── ` exactly when it is the
      last day, and shows an open folder and a bold date when selected; a
      session line is indented under its day and counts its flights. */
  function LineText(line: TreeLine): (text: string)
    ensures line.DayLine? ==> |text| >= 4 && (text[..4] == LastBranch <==> line.last)
    ensures line.SessionLine? ==> |text| >= 8 && (text[4..8] == LastBranch <==> line.lastSession)
  {
    match line
    case RuleLine => Rule
    case HeaderLine => LibraryHeader
    case DayLine(dateText, last, selected) =>
      Branch(last) + (if selected then "\U{1F4C2} *" + EscapeMarkdown(dateText) + "*" else "\U{1F4C1} " + EscapeMarkdown(dateText))
    case SessionLine(timeSlot, flightCount, lastDay, lastSession) =>
      var indent := if lastDay then "    " else "\U{2502}   ";
      var rest := "\U{1F550} " + EscapeMarkdown(timeSlot)
        + " \\(" + IntToString(flightCount) + " " + FlightsWord(flightCount) + "\\)";
      assert (indent + Branch(lastSession) + rest)[4..8] == Branch(lastSession);
      indent + Branch(lastSession) + rest
  }

  /** The listing rendered line by line. */
  function Rendered(lines: seq<TreeLine>): (texts: seq<string>)
    ensures |texts| == |lines| && forall i :: 0 <= i < |lines| ==> texts[i] == LineText(lines[i])
  {
    seq(|lines|, i requires 0 <= i < |lines| => LineText(lines[i]))
  }

  function SessionLineOf(session: SessionNode, lastDay: bool, lastSession: bool): TreeLine
  {
    SessionLine(session.timeSlot, |session.flights|, lastDay, lastSession)
  }

  /** The day index that is shown open: `day_index == day_idx` for some
      position, so a negative or out-of-range index opens none. */
  function Selected(days: seq<DayNode>, dayIndex: Option<int>): (r: Option<nat>)
    ensures r.Some? <==> dayIndex.Some? && 0 <= dayIndex.value < |days|
    ensures r.Some? ==> r.value == dayIndex.value
  {
    if dayIndex.Some? && 0 <= dayIndex.value < |days| then Some(dayIndex.value) else None
  }

  /** The first `m` session lines of a day. */
  function SessionLines(day: DayNode, lastDay: bool, m: nat): (lines: seq<TreeLine>)
    requires m <= |day.sessions|
    ensures |lines| == m
    ensures forall j :: 0 <= j < m ==> lines[j] == SessionLineOf(day.sessions[j], lastDay, j + 1 == |day.sessions|)
  {
    if m == 0 then []
    else SessionLines(day, lastDay, m - 1) + [SessionLineOf(day.sessions[m - 1], lastDay, m == |day.sessions|)]
  }

  /** Day `i`'s line, followed by its session lines when it is the open one. */
  function DayBlock(days: seq<DayNode>, i: nat, open: Option<nat>, formatDate: int -> string): seq<TreeLine>
    requires i < |days|
  {
    [DayLine(formatDate(days[i].date), i + 1 == |days|, open == Some(i))]
      + (if open == Some(i) then SessionLines(days[i], i + 1 == |days|, |days[i].sessions|) else [])
  }

  /** The blocks of the first `k` days. */
  function DayBlocks(days: seq<DayNode>, k: nat, open: Option<nat>, formatDate: int -> string): seq<TreeLine>
    requires k <= |days|
  {
    if k == 0 then [] else DayBlocks(days, k - 1, open, formatDate) + DayBlock(days, k - 1, open, formatDate)
  }

  /** The lines of the listing, separator to separator. */
  function TreeListing(days: seq<DayNode>, dayIndex: Option<int>, formatDate: int -> string): seq<TreeLine>
  {
    [RuleLine, HeaderLine] + DayBlocks(days, |days|, Selected(days, dayIndex), formatDate) + [RuleLine]
  }

  /** Lines added by the open day's sessions before day `i`'s line. */
  function OpenLinesBefore(days: seq<DayNode>, open: Option<nat>, i: nat): nat
  {
    if open.Some? && open.value < i && open.value < |days| then |days[open.value].sessions| else 0
  }

  lemma {:induction false} DayBlocksLength(days: seq<DayNode>, k: nat, open: Option<nat>, formatDate: int -> string)
    requires k <= |days|
    ensures |DayBlocks(days, k, open, formatDate)| == k + OpenLinesBefore(days, open, k)
    decreases k
  {
    if k > 0 {
      DayBlocksLength(days, k - 1, open, formatDate);
    }
  }

  lemma {:induction false} DayBlocksDayLine(days: seq<DayNode>, k: nat, open: Option<nat>, formatDate: int -> string, i: nat)
    requires i < k <= |days|
    ensures |DayBlocks(days, k, open, formatDate)| == k + OpenLinesBefore(days, open, k)
    ensures DayBlocks(days, k, open, formatDate)[i + OpenLinesBefore(days, open, i)]
        == DayLine(formatDate(days[i].date), i + 1 == |days|, open == Some(i))
    decreases k
  {
    DayBlocksLength(days, k, open, formatDate);
    DayBlocksLength(days, k - 1, open, formatDate);
    if i < k - 1 {
      DayBlocksDayLine(days, k - 1, open, formatDate, i);
    }
  }

  lemma {:induction false} DayBlocksSessionLine(days: seq<DayNode>, k: nat, o: nat, formatDate: int -> string, j: nat)
    requires o < k <= |days| && j < |days[o].sessions|
    ensures |DayBlocks(days, k, Some(o), formatDate)| == k + OpenLinesBefore(days, Some(o), k)
    ensures DayBlocks(days, k, Some(o), formatDate)[o + 1 + j]
        == SessionLineOf(days[o].sessions[j], o + 1 == |days|, j + 1 == |days[o].sessions|)
    decreases k
  {
    DayBlocksLength(days, k, Some(o), formatDate);
    if o < k - 1 {
      DayBlocksLength(days, k - 1, Some(o), formatDate);
      DayBlocksSessionLine(days, k - 1, o, formatDate, j);
      var prev := DayBlocks(days, k - 1, Some(o), formatDate);
      assert DayBlocks(days, k, Some(o), formatDate) == prev + DayBlock(days, k - 1, Some(o), formatDate);
      assert o + 1 + j < |prev|;
    } else {
      OpenBlockSessionLine(days, o, formatDate, j);
    }
  }

  lemma OpenBlockSessionLine(days: seq<DayNode>, o: nat, formatDate: int -> string, j: nat)
    requires o < |days| && j < |days[o].sessions|
    ensures |DayBlocks(days, o + 1, Some(o), formatDate)| > o + 1 + j
    ensures DayBlocks(days, o + 1, Some(o), formatDate)[o + 1 + j]
        == SessionLineOf(days[o].sessions[j], o + 1 == |days|, j + 1 == |days[o].sessions|)
  {
    DayBlocksLength(days, o, Some(o), formatDate);
    var block := DayBlock(days, o, Some(o), formatDate);
    assert block[1 + j] == SessionLines(days[o], o + 1 == |days|, |days[o].sessions|)[j];
  }

  /** `generate_tree_text`'s lines: the separator and the header, one
      line per day, the selected day's session lines, and the separator
      last. */
  lemma TreeListingFrame(days: seq<DayNode>, dayIndex: Option<int>, formatDate: int -> string)
    ensures var lines := TreeListing(days, dayIndex, formatDate);
      var open := Selected(days, dayIndex);
      && |lines| == 3 + |days| + (if open.Some? then |days[open.value].sessions| else 0)
      && lines[0] == RuleLine && lines[1] == HeaderLine && lines[|lines| - 1] == RuleLine
  {
    DayBlocksLength(days, |days|, Selected(days, dayIndex), formatDate);
  }

  /** Day `i`'s line comes after the days before it and, when the selected
      day is one of them, its session lines; it is the open folder exactly
      for the selected day, and only the last day's line uses `└── `. */
  lemma TreeListingDays(days: seq<DayNode>, dayIndex: Option<int>, formatDate: int -> string)
    ensures forall i :: 0 <= i < |days| ==>
      var at := 2 + i + OpenLinesBefore(days, Selected(days, dayIndex), i);
      && at < |TreeListing(days, dayIndex, formatDate)|
      && TreeListing(days, dayIndex, formatDate)[at] == DayLine(formatDate(days[i].date), i + 1 == |days|, dayIndex == Some(i))
  {
    forall i | 0 <= i < |days|
      ensures var at := 2 + i + OpenLinesBefore(days, Selected(days, dayIndex), i);
        && at < |TreeListing(days, dayIndex, formatDate)|
        && TreeListing(days, dayIndex, formatDate)[at] == DayLine(formatDate(days[i].date), i + 1 == |days|, dayIndex == Some(i))
    {
      ListingDayLine(days, dayIndex, formatDate, i);
    }
  }

  /** The session lines follow the selected day's line directly, one per
      session in order, and only the last uses `└── `. */
  lemma TreeListingSessions(days: seq<DayNode>, dayIndex: Option<int>, formatDate: int -> string, o: nat)
    requires Selected(days, dayIndex) == Some(o)
    ensures |TreeListing(days, dayIndex, formatDate)| == 3 + |days| + |days[o].sessions|
    ensures forall j :: 0 <= j < |days[o].sessions| ==>
      TreeListing(days, dayIndex, formatDate)[3 + o + j]
        == SessionLineOf(days[o].sessions[j], o + 1 == |days|, j + 1 == |days[o].sessions|)
  {
    TreeListingFrame(days, dayIndex, formatDate);
    forall j | 0 <= j < |days[o].sessions|
      ensures TreeListing(days, dayIndex, formatDate)[3 + o + j]
        == SessionLineOf(days[o].sessions[j], o + 1 == |days|, j + 1 == |days[o].sessions|)
    {
      ListingSessionLine(days, dayIndex, formatDate, j);
    }
  }

  lemma ListingDayLine(days: seq<DayNode>, dayIndex: Option<int>, formatDate: int -> string, i: nat)
    requires i < |days|
    ensures var open := Selected(days, dayIndex);
      && |TreeListing(days, dayIndex, formatDate)| > 2 + i + OpenLinesBefore(days, open, i)
      && TreeListing(days, dayIndex, formatDate)[2 + i + OpenLinesBefore(days, open, i)]
           == DayLine(formatDate(days[i].date), i + 1 == |days|, dayIndex == Some(i))
  {
    var open := Selected(days, dayIndex);
    DayBlocksDayLine(days, |days|, open, formatDate, i);
    var blocks := DayBlocks(days, |days|, open, formatDate);
    assert TreeListing(days, dayIndex, formatDate)[2 + i + OpenLinesBefore(days, open, i)]
        == blocks[i + OpenLinesBefore(days, open, i)];
  }

  lemma ListingSessionLine(days: seq<DayNode>, dayIndex: Option<int>, formatDate: int -> string, j: nat)
    requires Selected(days, dayIndex).Some?
    requires j < |days[Selected(days, dayIndex).value].sessions|
    ensures var o := Selected(days, dayIndex).value;
      && |TreeListing(days, dayIndex, formatDate)| > 3 + o + j
      && TreeListing(days, dayIndex, formatDate)[3 + o + j]
           == SessionLineOf(days[o].sessions[j], o + 1 == |days|, j + 1 == |days[o].sessions|)
  {
    var o := Selected(days, dayIndex).value;
    DayBlocksSessionLine(days, |days|, o, formatDate, j);
    var blocks := DayBlocks(days, |days|, Some(o), formatDate);
    assert TreeListing(days, dayIndex, formatDate)[3 + o + j] == blocks[o + 1 + j];
  }

  /** The loop over the selected day's sessions. */
  method SessionLinesOf(day: DayNode, lastDay: bool) returns (lines: seq<TreeLine>)
    ensures lines == SessionLines(day, lastDay, |day.sessions|)
  {
    lines := [];
    for j := 0 to |day.sessions|
      invariant lines == SessionLines(day, lastDay, j)
    {
      lines := lines + [SessionLineOf(day.sessions[j], lastDay, j + 1 == |day.sessions|)];
    }
  }

  /** `generate_tree_text`: the listing's lines joined by newlines, built
      day by day and, under the selected day, session by session. */
  method GenerateTreeText(days: seq<DayNode>, dayIndex: Option<int>, formatDate: int -> string) returns (text: string)
    ensures text == Join(Rendered(TreeListing(days, dayIndex, formatDate)), "\n")
  {
    var open := Selected(days, dayIndex);
    var blocks := [];
    for i := 0 to |days|
      invariant blocks == DayBlocks(days, i, open, formatDate)
    {
      var selected := dayIndex == Some(i);
      var lastDay := i + 1 == |days|;
      var block := [DayLine(formatDate(days[i].date), lastDay, selected)];
      if selected {
        var sessionLines := SessionLinesOf(days[i], lastDay);
        block := block + sessionLines;
      }
      assert block == DayBlock(days, i, open, formatDate);
      blocks := blocks + block;
    }
    var lines := [RuleLine, HeaderLine] + blocks + [RuleLine];
    text := Join(Rendered(lines), "\n");
  }
}
