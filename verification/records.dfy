/** A row of the `videos` table, and the order `get_videos_by_user` returns
    a user's rows in. */
module Records {
  import opened Text

  datatype VideoRow = VideoRow(
    id: int,
    userChatId: int,
    fileId: string,
    fileName: string,
    duration: int,
    flightDate: int,
    timeSlot: string,
    flightNumber: string,
    cameraName: string)

  /** The `CASE camera_name` of the query: the four named cameras first. */
  function CameraRank(camera: string): (rank: int)
    ensures 1 <= rank <= 5
    ensures rank < 5 <==> camera in {"Door", "Centerline", "Firsttimer", "Sideline"}
  {
    if camera == "Door" then 1
    else if camera == "Centerline" then 2
    else if camera == "Firsttimer" then 3
    else if camera == "Sideline" then 4
    else 5
  }

  /** `a` may come before `b` under
      `ORDER BY flight_date, time_slot, flight_number, <camera rank>`;
      text columns compare code point by code point. */
  predicate RowLe(a: VideoRow, b: VideoRow)
  {
    if a.flightDate != b.flightDate then a.flightDate < b.flightDate
    else if a.timeSlot != b.timeSlot then StrLess(a.timeSlot, b.timeSlot)
    else if a.flightNumber != b.flightNumber then StrLess(a.flightNumber, b.flightNumber)
    else CameraRank(a.cameraName) <= CameraRank(b.cameraName)
  }

  lemma RowLeTotal(a: VideoRow, b: VideoRow)
    ensures RowLe(a, b) || RowLe(b, a)
  {
    StrLessTotal(a.timeSlot, b.timeSlot);
    StrLessTotal(a.flightNumber, b.flightNumber);
  }

  lemma RowLeTransitive(a: VideoRow, b: VideoRow, c: VideoRow)
    requires RowLe(a, b) && RowLe(b, c)
    ensures RowLe(a, c)
  {
    if a.flightDate == b.flightDate == c.flightDate {
      if a.timeSlot != b.timeSlot && b.timeSlot != c.timeSlot {
        StrLessTransitive(a.timeSlot, b.timeSlot, c.timeSlot);
        if a.timeSlot == c.timeSlot { StrLessIrreflexive(a.timeSlot); }
      } else if a.timeSlot == b.timeSlot == c.timeSlot {
        if a.flightNumber != b.flightNumber && b.flightNumber != c.flightNumber {
          StrLessTransitive(a.flightNumber, b.flightNumber, c.flightNumber);
          if a.flightNumber == c.flightNumber { StrLessIrreflexive(a.flightNumber); }
        }
      }
    }
  }

  /** Every row may come before every later one. */
  predicate RowsSorted(rows: seq<VideoRow>)
  {
    forall i, j :: 0 <= i < j < |rows| ==> RowLe(rows[i], rows[j])
  }

  /** Puts `row` in front of the first row it may precede, so that among
      rows the ordering ties, earlier table rows stay first. */
  function InsertRow(row: VideoRow, rows: seq<VideoRow>): (r: seq<VideoRow>)
    ensures multiset(r) == multiset(rows) + multiset{row}
    decreases |rows|
  {
    if |rows| == 0 then [row]
    else if RowLe(row, rows[0]) then [row] + rows
    else
      assert rows == [rows[0]] + rows[1..];
      [rows[0]] + InsertRow(row, rows[1..])
  }

  lemma {:induction false} InsertRowSorted(row: VideoRow, rows: seq<VideoRow>)
    requires RowsSorted(rows)
    ensures RowsSorted(InsertRow(row, rows))
    decreases |rows|
  {
    if |rows| > 0 {
      if RowLe(row, rows[0]) {
        forall j | 0 <= j < |rows|
          ensures RowLe(row, rows[j])
        {
          if j > 0 { RowLeTransitive(row, rows[0], rows[j]); }
        }
      } else {
        RowLeTotal(row, rows[0]);
        InsertRowSorted(row, rows[1..]);
        var tail := InsertRow(row, rows[1..]);
        forall j | 0 <= j < |tail|
          ensures RowLe(rows[0], tail[j])
        {
          assert tail[j] in multiset(tail);
          assert tail[j] in multiset(rows[1..]) + multiset{row};
          if tail[j] != row {
            assert tail[j] in rows[1..];
          }
        }
      }
    }
  }

  /** The rows in query order: a stable insertion sort. */
  function SortRows(rows: seq<VideoRow>): (r: seq<VideoRow>)
    ensures multiset(r) == multiset(rows)
    decreases |rows|
  {
    if |rows| == 0 then []
    else
      assert rows == [rows[0]] + rows[1..];
      InsertRow(rows[0], SortRows(rows[1..]))
  }

  lemma {:induction false} SortRowsSorted(rows: seq<VideoRow>)
    ensures RowsSorted(SortRows(rows))
    decreases |rows|
  {
    if |rows| > 0 {
      SortRowsSorted(rows[1..]);
      InsertRowSorted(rows[0], SortRows(rows[1..]));
    }
  }

  /** `WHERE user_chat_id = ?`, in table order. */
  function RowsOfUser(rows: seq<VideoRow>, chatId: int): (r: seq<VideoRow>)
    ensures forall row :: row in r <==> row in rows && row.userChatId == chatId
    ensures |r| <= |rows|
    decreases |rows|
  {
    if |rows| == 0 then []
    else
      var last := rows[|rows| - 1];
      assert rows == rows[..|rows| - 1] + [last];
      RowsOfUser(rows[..|rows| - 1], chatId) + (if last.userChatId == chatId then [last] else [])
  }

  /** `get_videos_by_user`: exactly the user's rows, each as often as it is
      stored, in query order. */
  function UserVideos(rows: seq<VideoRow>, chatId: int): (r: seq<VideoRow>)
    ensures RowsSorted(r)
    ensures multiset(r) == multiset(RowsOfUser(rows, chatId))
    ensures forall row :: row in r <==> row in rows && row.userChatId == chatId
  {
    SortRowsSorted(RowsOfUser(rows, chatId));
    var r := SortRows(RowsOfUser(rows, chatId));
    assert forall row :: row in r <==> row in multiset(r);
    r
  }
}
