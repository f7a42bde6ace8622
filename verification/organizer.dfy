/** `get_organized_videos`: a user's rows, already in query order, grouped
    into days, sessions and flights, then every level sorted by its key. */
module Organizer {
  import opened Wrappers
  import opened Records
  import opened Keyed

  /** What a flight lists for one video. */
  datatype VideoEntry = VideoEntry(id: int, cameraName: string, fileId: string, fileName: string)

  datatype FlightNode = FlightNode(flightNumber: string, length: int, videos: seq<VideoEntry>)

  datatype SessionNode = SessionNode(timeSlot: string, flights: seq<FlightNode>)

  datatype DayNode = DayNode(date: int, sessions: seq<SessionNode>)

  function DayKey(d: DayNode): Key { IntKey(d.date) }

  function SessionKey(s: SessionNode): Key { TextKey(s.timeSlot) }

  function FlightKey(f: FlightNode): Key { TextKey(f.flightNumber) }

  function Entry(v: VideoRow): VideoEntry
  {
    VideoEntry(v.id, v.cameraName, v.fileId, v.fileName)
  }

  function Entries(rows: seq<VideoRow>): (es: seq<VideoEntry>)
    ensures |es| == |rows| && forall i :: 0 <= i < |rows| ==> es[i] == Entry(rows[i])
  {
    seq(|rows|, i requires 0 <= i < |rows| => Entry(rows[i]))
  }

  predicate InFlight(v: VideoRow, date: int, slot: string, number: string)
  {
    v.flightDate == date && v.timeSlot == slot && v.flightNumber == number
  }

  // ---------------------------------------------------------------------------
  // What the tree must hold
  // ---------------------------------------------------------------------------

  /** The input rows that belong under one flight, in input order. */
  function FlightRows(vs: seq<VideoRow>, date: int, slot: string, number: string): (rows: seq<VideoRow>)
    ensures forall v :: v in rows <==> v in vs && InFlight(v, date, slot, number)
    decreases |vs|
  {
    if |vs| == 0 then []
    else
      var last := vs[|vs| - 1];
      assert vs == vs[..|vs| - 1] + [last];
      FlightRows(vs[..|vs| - 1], date, slot, number) + (if InFlight(last, date, slot, number) then [last] else [])
  }

  /** The flight node a key triple should lead to: none when no row has
      those keys, otherwise the rows' entries in input order, with the
      first row's duration as the flight's length. */
  function ExpectedFlight(vs: seq<VideoRow>, date: int, slot: string, number: string): Option<FlightNode>
  {
    var rows := FlightRows(vs, date, slot, number);
    if |rows| == 0 then None else Some(FlightNode(number, rows[0].duration, Entries(rows)))
  }

  /** Following a date, a time slot and a flight number down the tree. */
  function Lookup(days: seq<DayNode>, date: int, slot: string, number: string): Option<FlightNode>
  {
    var day := Named(days, DayKey, IntKey(date));
    if day.None? then None
    else
      var session := Named(day.value.sessions, SessionKey, TextKey(slot));
      if session.None? then None
      else Named(session.value.flights, FlightKey, TextKey(number))
  }

  /** Every key triple leads to exactly the flight its rows make. */
  ghost predicate Holds(vs: seq<VideoRow>, days: seq<DayNode>)
  {
    forall date, slot, number :: Lookup(days, date, slot, number) == ExpectedFlight(vs, date, slot, number)
  }

  predicate SessionShaped(s: SessionNode)
  {
    |s.flights| > 0 && DistinctKeys(s.flights, FlightKey)
  }

  predicate DayShaped(d: DayNode)
  {
    && |d.sessions| > 0
    && DistinctKeys(d.sessions, SessionKey)
    && forall s :: s in d.sessions ==> SessionShaped(s)
  }

  /** No empty day or session, and no key twice at any level. */
  predicate TreeShaped(days: seq<DayNode>)
  {
    DistinctKeys(days, DayKey) && forall d :: d in days ==> DayShaped(d)
  }

  predicate DaySorted(d: DayNode)
  {
    && StrictlySorted(d.sessions, SessionKey)
    && forall s :: s in d.sessions ==> StrictlySorted(s.flights, FlightKey)
  }

  /** Days by date, sessions by time slot, flights by flight number. */
  predicate TreeSorted(days: seq<DayNode>)
  {
    StrictlySorted(days, DayKey) && forall d :: d in days ==> DaySorted(d)
  }

  ghost predicate TreeOk(vs: seq<VideoRow>, days: seq<DayNode>)
  {
    TreeShaped(days) && TreeSorted(days) && Holds(vs, days)
  }

  // ---------------------------------------------------------------------------
  // The grouping loop
  // ---------------------------------------------------------------------------

  /** A flight after a video is filed under it: a new flight takes the
      video's duration as its length. */
  function ExtendFlight(flight: Option<FlightNode>, v: VideoRow): FlightNode
  {
    if flight.Some? then flight.value.(videos := flight.value.videos + [Entry(v)])
    else FlightNode(v.flightNumber, v.duration, [Entry(v)])
  }

  /** One turn of the loop: get or create the day, the session and the
      flight, and append the video's entry. */
  function AddVideo(days: seq<DayNode>, v: VideoRow): seq<DayNode>
  {
    var day := Named(days, DayKey, IntKey(v.flightDate));
    var sessions := if day.Some? then day.value.sessions else [];
    var session := Named(sessions, SessionKey, TextKey(v.timeSlot));
    var flights := if session.Some? then session.value.flights else [];
    var flight := Named(flights, FlightKey, TextKey(v.flightNumber));
    var newFlights := Put(flights, FlightKey, ExtendFlight(flight, v));
    var newSessions := Put(sessions, SessionKey, SessionNode(v.timeSlot, newFlights));
    Put(days, DayKey, DayNode(v.flightDate, newSessions))
  }

  /** The days the loop has built after the given rows (before sorting). */
  function GroupAll(vs: seq<VideoRow>): seq<DayNode>
    decreases |vs|
  {
    if |vs| == 0 then [] else AddVideo(GroupAll(vs[..|vs| - 1]), vs[|vs| - 1])
  }

  lemma LookupAfterAdd(days: seq<DayNode>, v: VideoRow, date: int, slot: string, number: string)
    ensures Lookup(AddVideo(days, v), date, slot, number) ==
      if InFlight(v, date, slot, number) then Some(ExtendFlight(Lookup(days, date, slot, number), v))
      else Lookup(days, date, slot, number)
  {
    var day := Named(days, DayKey, IntKey(v.flightDate));
    var sessions := if day.Some? then day.value.sessions else [];
    var session := Named(sessions, SessionKey, TextKey(v.timeSlot));
    var flights := if session.Some? then session.value.flights else [];
    var flight := Named(flights, FlightKey, TextKey(v.flightNumber));
    var newFlights := Put(flights, FlightKey, ExtendFlight(flight, v));
    var newSessions := Put(sessions, SessionKey, SessionNode(v.timeSlot, newFlights));
    var newDay := DayNode(v.flightDate, newSessions);
    PutNamed(days, DayKey, newDay, IntKey(date));
    if date == v.flightDate {
      PutNamed(sessions, SessionKey, SessionNode(v.timeSlot, newFlights), TextKey(slot));
      if slot == v.timeSlot {
        PutNamed(flights, FlightKey, ExtendFlight(flight, v), TextKey(number));
      }
    }
  }

  lemma ExpectedAfterAdd(vs: seq<VideoRow>, v: VideoRow, date: int, slot: string, number: string)
    ensures ExpectedFlight(vs + [v], date, slot, number) ==
      if InFlight(v, date, slot, number) then Some(ExtendFlight(ExpectedFlight(vs, date, slot, number), v))
      else ExpectedFlight(vs, date, slot, number)
  {
    var ws := vs + [v];
    assert ws[..|ws| - 1] == vs;
    assert ws[|ws| - 1] == v;
    var rows := FlightRows(vs, date, slot, number);
    if InFlight(v, date, slot, number) {
      assert FlightRows(ws, date, slot, number) == rows + [v];
      assert Entries(rows + [v]) == Entries(rows) + [Entry(v)];
      if |rows| == 0 {
        assert rows + [v] == [v];
        assert Entries([v]) == [Entry(v)];
      } else {
        assert (rows + [v])[0] == rows[0];
      }
    } else {
      assert FlightRows(ws, date, slot, number) == rows;
    }
  }

  lemma AddKeepsShape(days: seq<DayNode>, v: VideoRow)
    requires TreeShaped(days)
    ensures TreeShaped(AddVideo(days, v))
  {
    var day := Named(days, DayKey, IntKey(v.flightDate));
    var sessions := if day.Some? then day.value.sessions else [];
    FiledDayShaped(sessions, v);
    var session := Named(sessions, SessionKey, TextKey(v.timeSlot));
    var flights := if session.Some? then session.value.flights else [];
    var flight := Named(flights, FlightKey, TextKey(v.flightNumber));
    var newFlights := Put(flights, FlightKey, ExtendFlight(flight, v));
    var newSessions := Put(sessions, SessionKey, SessionNode(v.timeSlot, newFlights));
    PutKeepsDistinct(days, DayKey, DayNode(v.flightDate, newSessions));
  }

  /** The day a video is filed under is shaped when its old sessions were. */
  lemma FiledDayShaped(sessions: seq<SessionNode>, v: VideoRow)
    requires DistinctKeys(sessions, SessionKey) && forall s :: s in sessions ==> SessionShaped(s)
    ensures
      var session := Named(sessions, SessionKey, TextKey(v.timeSlot));
      var flights := if session.Some? then session.value.flights else [];
      var flight := Named(flights, FlightKey, TextKey(v.flightNumber));
      var newFlights := Put(flights, FlightKey, ExtendFlight(flight, v));
      DayShaped(DayNode(v.flightDate, Put(sessions, SessionKey, SessionNode(v.timeSlot, newFlights))))
  {
    var session := Named(sessions, SessionKey, TextKey(v.timeSlot));
    var flights := if session.Some? then session.value.flights else [];
    var flight := Named(flights, FlightKey, TextKey(v.flightNumber));
    var newFlights := Put(flights, FlightKey, ExtendFlight(flight, v));
    PutKeepsDistinct(flights, FlightKey, ExtendFlight(flight, v));
    PutKeepsDistinct(sessions, SessionKey, SessionNode(v.timeSlot, newFlights));
  }

  /** After any prefix of the input, the loop's days are shaped and hold
      exactly that prefix's flights. */
  lemma {:induction false} GroupAllHolds(vs: seq<VideoRow>)
    ensures TreeShaped(GroupAll(vs)) && Holds(vs, GroupAll(vs))
    decreases |vs|
  {
    if |vs| > 0 {
      var prefix := vs[..|vs| - 1];
      var v := vs[|vs| - 1];
      GroupAllHolds(prefix);
      AddKeepsShape(GroupAll(prefix), v);
      assert vs == prefix + [v];
      forall date, slot, number
        ensures Lookup(GroupAll(vs), date, slot, number) == ExpectedFlight(vs, date, slot, number)
      {
        LookupAfterAdd(GroupAll(prefix), v, date, slot, number);
        ExpectedAfterAdd(prefix, v, date, slot, number);
      }
    }
  }

  // ---------------------------------------------------------------------------
  // The sorting step
  // ---------------------------------------------------------------------------

  /** `session['flights'].sort(key=flight_number)`. */
  function SortSession(s: SessionNode): SessionNode
  {
    s.(flights := SortByKey(s.flights, FlightKey))
  }

  /** `day['sessions'].sort(key=time_slot)`, then each session's flights. */
  function SortDay(d: DayNode): DayNode
  {
    d.(sessions := MapSeq(SortByKey(d.sessions, SessionKey), SortSession))
  }

  /** `sorted(days, key=date)`, then each day's sessions. */
  function SortTree(days: seq<DayNode>): seq<DayNode>
  {
    MapSeq(SortByKey(days, DayKey), SortDay)
  }

  lemma SortSessionCorrect(s: SessionNode)
    requires SessionShaped(s)
    ensures SessionShaped(SortSession(s)) && StrictlySorted(SortSession(s).flights, FlightKey)
    ensures forall number :: Named(SortSession(s).flights, FlightKey, TextKey(number)) == Named(s.flights, FlightKey, TextKey(number))
  {
    SortByKeyCorrect(s.flights, FlightKey);
    SortedKeysAreDistinct(SortSession(s).flights, FlightKey);
  }

  lemma SortDayShape(d: DayNode)
    requires DayShaped(d)
    ensures DayShaped(SortDay(d)) && DaySorted(SortDay(d))
  {
    var sorted := SortByKey(d.sessions, SessionKey);
    SortByKeyCorrect(d.sessions, SessionKey);
    assert forall x :: SessionKey(SortSession(x)) == SessionKey(x);
    MapSeqKeepsKeys(sorted, SessionKey, SortSession, TextKey(""));
    var mapped := SortDay(d).sessions;
    SortedKeysAreDistinct(mapped, SessionKey);
    forall t | t in mapped
      ensures SessionShaped(t) && StrictlySorted(t.flights, FlightKey)
    {
      var i :| 0 <= i < |mapped| && mapped[i] == t;
      assert sorted[i] in multiset(d.sessions);
      SortSessionCorrect(sorted[i]);
    }
  }

  lemma SortDayNamed(d: DayNode, slot: string)
    requires DayShaped(d)
    ensures var s := Named(d.sessions, SessionKey, TextKey(slot));
      Named(SortDay(d).sessions, SessionKey, TextKey(slot)) == if s.Some? then Some(SortSession(s.value)) else None
  {
    var sorted := SortByKey(d.sessions, SessionKey);
    SortByKeyCorrect(d.sessions, SessionKey);
    assert forall x :: SessionKey(SortSession(x)) == SessionKey(x);
    MapSeqKeepsKeys(sorted, SessionKey, SortSession, TextKey(slot));
  }

  lemma SortTreeShape(days: seq<DayNode>)
    requires TreeShaped(days)
    ensures TreeShaped(SortTree(days)) && TreeSorted(SortTree(days))
  {
    var sorted := SortByKey(days, DayKey);
    SortByKeyCorrect(days, DayKey);
    assert forall x :: DayKey(SortDay(x)) == DayKey(x);
    MapSeqKeepsKeys(sorted, DayKey, SortDay, IntKey(0));
    var tree := SortTree(days);
    SortedKeysAreDistinct(tree, DayKey);
    forall t | t in tree
      ensures DayShaped(t) && DaySorted(t)
    {
      var i :| 0 <= i < |tree| && tree[i] == t;
      assert sorted[i] in multiset(days);
      SortDayShape(sorted[i]);
    }
  }

  lemma SortTreeNamed(days: seq<DayNode>, date: int)
    requires TreeShaped(days)
    ensures var d := Named(days, DayKey, IntKey(date));
      Named(SortTree(days), DayKey, IntKey(date)) == if d.Some? then Some(SortDay(d.value)) else None
  {
    var sorted := SortByKey(days, DayKey);
    SortByKeyCorrect(days, DayKey);
    assert forall x :: DayKey(SortDay(x)) == DayKey(x);
    MapSeqKeepsKeys(sorted, DayKey, SortDay, IntKey(date));
  }

  /** Sorting keeps every key triple's flight. */
  lemma SortTreeLookup(days: seq<DayNode>, date: int, slot: string, number: string)
    requires TreeShaped(days)
    ensures Lookup(SortTree(days), date, slot, number) == Lookup(days, date, slot, number)
  {
    SortTreeNamed(days, date);
    var d := Named(days, DayKey, IntKey(date));
    if d.Some? {
      SortDayNamed(d.value, slot);
      var s := Named(d.value.sessions, SessionKey, TextKey(slot));
      if s.Some? {
        SortSessionCorrect(s.value);
      }
    }
  }

  /** The tree `get_organized_videos` returns, as a function of its input. */
  function OrganizedTree(vs: seq<VideoRow>): seq<DayNode>
  {
    SortTree(GroupAll(vs))
  }

  lemma OrganizedTreeOk(vs: seq<VideoRow>)
    ensures TreeOk(vs, OrganizedTree(vs))
  {
    var grouped := GroupAll(vs);
    GroupAllHolds(vs);
    SortTreeShape(grouped);
    forall date, slot, number
      ensures Lookup(SortTree(grouped), date, slot, number) == ExpectedFlight(vs, date, slot, number)
    {
      SortTreeLookup(grouped, date, slot, number);
    }
  }

  /** `get_organized_videos` on the rows `get_videos_by_user` returned: the
      grouping loop, then the three sorts. */
  method OrganizeVideos(videos: seq<VideoRow>) returns (days: seq<DayNode>)
    ensures days == OrganizedTree(videos)
  {
    var grouped := GroupVideos(videos);
    days := SortDays(grouped);
  }

  /** The grouping loop: get or create the day, the session and the flight
      of each row in turn, and append the row's entry. */
  method GroupVideos(videos: seq<VideoRow>) returns (grouped: seq<DayNode>)
    ensures grouped == GroupAll(videos)
  {
    grouped := [];
    for i := 0 to |videos|
      invariant grouped == GroupAll(videos[..i])
    {
      var v := videos[i];
      var day := Named(grouped, DayKey, IntKey(v.flightDate));
      var sessions := if day.Some? then day.value.sessions else [];
      var session := Named(sessions, SessionKey, TextKey(v.timeSlot));
      var flights := if session.Some? then session.value.flights else [];
      var flight := Named(flights, FlightKey, TextKey(v.flightNumber));
      var newFlights := Put(flights, FlightKey, ExtendFlight(flight, v));
      var newSessions := Put(sessions, SessionKey, SessionNode(v.timeSlot, newFlights));
      assert Put(grouped, DayKey, DayNode(v.flightDate, newSessions)) == AddVideo(grouped, v);
      GroupAllStep(videos, i);
      grouped := Put(grouped, DayKey, DayNode(v.flightDate, newSessions));
    }
    assert videos[..|videos|] == videos;
  }

  lemma GroupAllStep(videos: seq<VideoRow>, i: nat)
    requires i < |videos|
    ensures GroupAll(videos[..i + 1]) == AddVideo(GroupAll(videos[..i]), videos[i])
  {
    assert videos[..i + 1][..i] == videos[..i];
  }

  /** The sorting loop: days by date, then each day's sessions and flights. */
  method SortDays(grouped: seq<DayNode>) returns (days: seq<DayNode>)
    ensures days == SortTree(grouped)
  {
    var byDate := SortByKey(grouped, DayKey);
    days := byDate;
    for i := 0 to |days|
      invariant |days| == |byDate|
      invariant forall k :: 0 <= k < i ==> days[k] == SortDay(byDate[k])
      invariant forall k :: i <= k < |days| ==> days[k] == byDate[k]
    {
      var sessions := SortSessionsOf(days[i]);
      days := days[i := days[i].(sessions := sessions)];
    }
  }

  /** One day of the sorting loop: its sessions by time slot, then each
      session's flights by flight number. */
  method SortSessionsOf(day: DayNode) returns (sessions: seq<SessionNode>)
    ensures sessions == SortDay(day).sessions
  {
    var bySlot := SortByKey(day.sessions, SessionKey);
    sessions := bySlot;
    for j := 0 to |sessions|
      invariant |sessions| == |bySlot|
      invariant forall k :: 0 <= k < j ==> sessions[k] == SortSession(bySlot[k])
      invariant forall k :: j <= k < |sessions| ==> sessions[k] == bySlot[k]
    {
      sessions := sessions[j := sessions[j].(flights := SortByKey(sessions[j].flights, FlightKey))];
    }
  }

  // ---------------------------------------------------------------------------
  // What the tree promises
  // ---------------------------------------------------------------------------

  /** Every flight node in the tree is the flight its keys' rows make: a
      non-empty list of their entries, in input order, whose length is the
      first row's duration. */
  lemma FlightNodeHoldsItsRows(vs: seq<VideoRow>, days: seq<DayNode>, d: DayNode, s: SessionNode, f: FlightNode)
    requires TreeShaped(days) && Holds(vs, days)
    requires d in days && s in d.sessions && f in s.flights
    ensures var rows := FlightRows(vs, d.date, s.timeSlot, f.flightNumber);
      && |rows| > 0
      && f.videos == Entries(rows)
      && f.length == rows[0].duration
  {
    NamedFindsEach(days, DayKey, d);
    NamedFindsEach(d.sessions, SessionKey, s);
    NamedFindsEach(s.flights, FlightKey, f);
    assert Lookup(days, d.date, s.timeSlot, f.flightNumber) == Some(f);
  }

  /** Every input row is filed under the day, session and flight its own
      columns name. */
  lemma EveryVideoIsFiled(vs: seq<VideoRow>, days: seq<DayNode>, k: nat)
    requires Holds(vs, days) && k < |vs|
    ensures var v := vs[k];
      var f := Lookup(days, v.flightDate, v.timeSlot, v.flightNumber);
      f.Some? && Entry(v) in f.value.videos
  {
    var v := vs[k];
    var rows := FlightRows(vs, v.flightDate, v.timeSlot, v.flightNumber);
    assert v in rows;
    var i :| 0 <= i < |rows| && rows[i] == v;
    assert Entries(rows)[i] == Entry(v);
  }

  /** No rows, no days. */
  lemma EmptyInputEmptyTree(days: seq<DayNode>)
    requires TreeShaped(days) && Holds([], days)
    ensures days == []
  {
    if |days| > 0 {
      var d := days[0];
      assert d in days;
      assert d.sessions[0] in d.sessions;
      var s := d.sessions[0];
      assert s.flights[0] in s.flights;
      FlightNodeHoldsItsRows([], days, d, s, s.flights[0]);
    }
  }

  predicate CameraOrdered(es: seq<VideoEntry>)
  {
    forall i, j :: 0 <= i < j < |es| ==> CameraRank(es[i].cameraName) <= CameraRank(es[j].cameraName)
  }

  predicate RowsCameraOrdered(rows: seq<VideoRow>)
  {
    forall i, j :: 0 <= i < j < |rows| ==> CameraRank(rows[i].cameraName) <= CameraRank(rows[j].cameraName)
  }

  lemma {:induction false} FlightRowsKeepQueryOrder(vs: seq<VideoRow>, date: int, slot: string, number: string)
    requires RowsSorted(vs)
    ensures RowsCameraOrdered(FlightRows(vs, date, slot, number))
    decreases |vs|
  {
    if |vs| > 0 {
      var prefix := vs[..|vs| - 1];
      var last := vs[|vs| - 1];
      assert RowsSorted(prefix);
      FlightRowsKeepQueryOrder(prefix, date, slot, number);
      var before := FlightRows(prefix, date, slot, number);
      var rows := FlightRows(vs, date, slot, number);
      if InFlight(last, date, slot, number) {
        assert rows == before + [last];
        forall i, j | 0 <= i < j < |rows|
          ensures CameraRank(rows[i].cameraName) <= CameraRank(rows[j].cameraName)
        {
          assert rows[i] == before[i] && before[i] in before;
          if j == |before| {
            assert InFlight(before[i], date, slot, number);
            var m :| 0 <= m < |prefix| && prefix[m] == before[i];
            assert RowLe(vs[m], vs[|vs| - 1]);
          } else {
            assert rows[j] == before[j];
          }
        }
      } else {
        assert rows == before;
      }
    }
  }

  /** Fed the rows in query order, every flight lists its videos in camera
      order: Door, Centerline, Firsttimer, Sideline, then the rest. */
  lemma FlightsKeepCameraOrder(vs: seq<VideoRow>, days: seq<DayNode>, date: int, slot: string, number: string)
    requires RowsSorted(vs) && Holds(vs, days)
    requires Lookup(days, date, slot, number).Some?
    ensures CameraOrdered(Lookup(days, date, slot, number).value.videos)
  {
    FlightRowsKeepQueryOrder(vs, date, slot, number);
    var rows := FlightRows(vs, date, slot, number);
    assert Lookup(days, date, slot, number) == ExpectedFlight(vs, date, slot, number);
    var es := Lookup(days, date, slot, number).value.videos;
    assert es == Entries(rows);
    forall i, j | 0 <= i < j < |es|
      ensures CameraRank(es[i].cameraName) <= CameraRank(es[j].cameraName)
    {
      assert es[i].cameraName == rows[i].cameraName && es[j].cameraName == rows[j].cameraName;
      assert CameraRank(rows[i].cameraName) <= CameraRank(rows[j].cameraName);
    }
  }
}
