/** The `Database` class over in-memory tables: the `videos`, `sessions`
    and `system_data` tables with the semantics of their SQL statements. */
module Store {
  import opened Wrappers
  import opened Records
  import opened Organizer

  /** A row of the `sessions` table. */
  datatype SessionRow = SessionRow(id: int, targetChatId: int, username: string, expiresAt: int)

  /** Two rows clash under the table's unique key `(file_id, user_chat_id)`. */
  predicate SameVideoKey(a: VideoRow, b: VideoRow)
  {
    a.fileId == b.fileId && a.userChatId == b.userChatId
  }

  predicate HasVideoKey(rows: seq<VideoRow>, userChatId: int, fileId: string)
  {
    exists i :: 0 <= i < |rows| && rows[i].userChatId == userChatId && rows[i].fileId == fileId
  }

  predicate MatchesDelete(row: VideoRow, userChatId: int, videoId: int)
  {
    row.userChatId == userChatId && row.id == videoId
  }

  /** `DELETE FROM videos WHERE user_chat_id = ? AND id = ?`: the other rows,
      in table order. */
  function DeleteMatching(rows: seq<VideoRow>, userChatId: int, videoId: int): (r: seq<VideoRow>)
    ensures forall row :: row in r <==> row in rows && !MatchesDelete(row, userChatId, videoId)
    ensures |r| <= |rows|
    decreases |rows|
  {
    if |rows| == 0 then []
    else
      var last := rows[|rows| - 1];
      assert rows == rows[..|rows| - 1] + [last];
      DeleteMatching(rows[..|rows| - 1], userChatId, videoId)
        + (if MatchesDelete(last, userChatId, videoId) then [] else [last])
  }

  predicate IdsIncreasing(rows: seq<VideoRow>)
  {
    forall i, j :: 0 <= i < j < |rows| ==> rows[i].id < rows[j].id
  }

  predicate AnyMatch(rows: seq<VideoRow>, userChatId: int, videoId: int)
  {
    exists row :: row in rows && MatchesDelete(row, userChatId, videoId)
  }

  predicate UniqueVideoKeys(rows: seq<VideoRow>)
  {
    forall i, j :: 0 <= i < j < |rows| ==> !SameVideoKey(rows[i], rows[j])
  }

  /** With ids unique, a delete removes exactly one row when one matches
      and none otherwise. */
  lemma {:induction false} DeleteRemovesAtMostOne(rows: seq<VideoRow>, userChatId: int, videoId: int)
    requires IdsIncreasing(rows)
    ensures |DeleteMatching(rows, userChatId, videoId)| == |rows| - (if AnyMatch(rows, userChatId, videoId) then 1 else 0)
    decreases |rows|
  {
    if |rows| > 0 {
      var prefix := rows[..|rows| - 1];
      var last := rows[|rows| - 1];
      assert IdsIncreasing(prefix);
      DeleteRemovesAtMostOne(prefix, userChatId, videoId);
      MatchInPrefixOrLast(rows, userChatId, videoId);
      assert |DeleteMatching(rows, userChatId, videoId)|
          == |DeleteMatching(prefix, userChatId, videoId)| + (if MatchesDelete(last, userChatId, videoId) then 0 else 1);
    }
  }

  /** A matching row is in the prefix or is the last row, and with ids
      increasing it cannot be both. */
  lemma MatchInPrefixOrLast(rows: seq<VideoRow>, userChatId: int, videoId: int)
    requires IdsIncreasing(rows) && |rows| > 0
    ensures AnyMatch(rows, userChatId, videoId)
        <==> AnyMatch(rows[..|rows| - 1], userChatId, videoId) || MatchesDelete(rows[|rows| - 1], userChatId, videoId)
    ensures MatchesDelete(rows[|rows| - 1], userChatId, videoId) ==> !AnyMatch(rows[..|rows| - 1], userChatId, videoId)
  {
    var prefix := rows[..|rows| - 1];
    assert rows == prefix + [rows[|rows| - 1]];
    if MatchesDelete(rows[|rows| - 1], userChatId, videoId) {
      forall row | row in prefix
        ensures !MatchesDelete(row, userChatId, videoId)
      {
        var m :| 0 <= m < |prefix| && prefix[m] == row;
        assert rows[m].id < rows[|rows| - 1].id;
      }
    }
  }

  /** `SELECT ... WHERE expires_at > ? ORDER BY expires_at DESC LIMIT 1`;
      among equal expiry times the earliest row is taken. */
  function ActiveSession(rows: seq<SessionRow>, now: int): (r: Option<SessionRow>)
    ensures r.None? <==> forall s :: s in rows ==> s.expiresAt <= now
    ensures r.Some? ==> r.value in rows && r.value.expiresAt > now
    ensures r.Some? ==> forall s :: s in rows ==> s.expiresAt <= r.value.expiresAt
    decreases |rows|
  {
    if |rows| == 0 then None
    else
      var rest := ActiveSession(rows[1..], now);
      assert forall s :: s in rows ==> s == rows[0] || s in rows[1..];
      if rows[0].expiresAt > now && (rest.None? || rest.value.expiresAt <= rows[0].expiresAt) then Some(rows[0])
      else rest
  }

  /** A session created for a positive number of minutes is active at the
      creation time, and it is the one returned when no other session
      expires later. */
  lemma CreatedSessionIsActive(rows: seq<SessionRow>, row: SessionRow, now: int, minutes: int)
    requires minutes > 0 && row.expiresAt == now + 60 * minutes
    requires forall s :: s in rows ==> s.expiresAt < row.expiresAt
    ensures ActiveSession(rows + [row], now) == Some(row)
  {
    assert row in rows + [row];
  }

  class VideoStore {
    var videos: seq<VideoRow>
    var nextVideoId: int
    var sessions: seq<SessionRow>
    var nextSessionId: int
    var systemData: map<string, string>

    /** Ids grow with insertion order and stay below the next one handed
        out; no two rows share `(file_id, user_chat_id)`. */
    ghost predicate Valid()
      reads this
    {
      && IdsIncreasing(videos)
      && (forall i :: 0 <= i < |videos| ==> videos[i].id < nextVideoId)
      && UniqueVideoKeys(videos)
      && (forall i, j :: 0 <= i < j < |sessions| ==> sessions[i].id < sessions[j].id)
      && (forall i :: 0 <= i < |sessions| ==> sessions[i].id < nextSessionId)
    }

    /** Empty tables; autoincrement ids start at 1. */
    constructor ()
      ensures Valid()
      ensures videos == [] && sessions == [] && systemData == map[]
    {
      videos := [];
      nextVideoId := 1;
      sessions := [];
      nextSessionId := 1;
      systemData := map[];
    }

    /** `add_video`: `INSERT OR IGNORE` under `(file_id, user_chat_id)`;
        true exactly when a row was added. `AUTOINCREMENT` hands out the
        next id before the unique key is checked, so an ignored insert
        still uses one up. */
    method AddVideo(userChatId: int, fileId: string, fileName: string, duration: int,
                    flightDate: int, timeSlot: string, flightNumber: string, cameraName: string)
      returns (inserted: bool)
      requires Valid()
      modifies this
      ensures Valid()
      ensures inserted <==> !HasVideoKey(old(videos), userChatId, fileId)
      ensures inserted ==> videos == old(videos) + [VideoRow(old(nextVideoId), userChatId, fileId, fileName,
                                                             duration, flightDate, timeSlot, flightNumber, cameraName)]
      ensures !inserted ==> videos == old(videos)
      ensures nextVideoId == old(nextVideoId) + 1
      ensures sessions == old(sessions) && nextSessionId == old(nextSessionId) && systemData == old(systemData)
    {
      if HasVideoKey(videos, userChatId, fileId) {
        nextVideoId := nextVideoId + 1;
        inserted := false;
      } else {
        var row := VideoRow(nextVideoId, userChatId, fileId, fileName, duration, flightDate, timeSlot, flightNumber, cameraName);
        videos := videos + [row];
        nextVideoId := nextVideoId + 1;
        inserted := true;
      }
    }

    /** `delete_video_by_id`: removes the user's row with that id; true
        exactly when one was removed. */
    method DeleteVideoById(userChatId: int, videoId: int) returns (deleted: bool)
      requires Valid()
      modifies this
      ensures Valid()
      ensures deleted <==> AnyMatch(old(videos), userChatId, videoId)
      ensures videos == DeleteMatching(old(videos), userChatId, videoId)
      ensures |videos| == |old(videos)| - (if deleted then 1 else 0)
      ensures nextVideoId == old(nextVideoId)
      ensures sessions == old(sessions) && nextSessionId == old(nextSessionId) && systemData == old(systemData)
    {
      DeleteRemovesAtMostOne(videos, userChatId, videoId);
      DeleteKeepsOrder(videos, userChatId, videoId);
      var remaining := DeleteMatching(videos, userChatId, videoId);
      deleted := |remaining| < |videos|;
      videos := remaining;
    }

    /** `get_videos_by_user`. */
    method GetVideosByUser(chatId: int) returns (rows: seq<VideoRow>)
      ensures rows == UserVideos(videos, chatId)
    {
      rows := UserVideos(videos, chatId);
    }

    /** `get_organized_videos`: the user's rows in query order, organized. */
    method GetOrganizedVideos(chatId: int) returns (days: seq<DayNode>)
      ensures days == OrganizedTree(UserVideos(videos, chatId))
    {
      var rows := GetVideosByUser(chatId);
      days := OrganizeVideos(rows);
    }

    /** `create_session`: a new row expiring `60 * durationMinutes` seconds
        after `now`; the table's only key is the autoincrement id, so no
        row is replaced. */
    method CreateSession(targetChatId: int, username: string, durationMinutes: int, now: int)
      returns (created: bool)
      requires Valid()
      modifies this
      ensures Valid() && created
      ensures sessions == old(sessions) + [SessionRow(old(nextSessionId), targetChatId, username, now + 60 * durationMinutes)]
      ensures videos == old(videos) && nextVideoId == old(nextVideoId) && systemData == old(systemData)
    {
      sessions := sessions + [SessionRow(nextSessionId, targetChatId, username, now + 60 * durationMinutes)];
      nextSessionId := nextSessionId + 1;
      created := true;
    }

    /** `get_active_session` at time `now`. */
    method GetActiveSession(now: int) returns (session: Option<SessionRow>)
      ensures session == ActiveSession(sessions, now)
    {
      session := ActiveSession(sessions, now);
    }

    /** `end_session`: `DELETE FROM sessions`. */
    method EndSession() returns (ended: bool)
      requires Valid()
      modifies this
      ensures Valid() && ended
      ensures sessions == [] && nextSessionId == old(nextSessionId)
      ensures videos == old(videos) && nextVideoId == old(nextVideoId) && systemData == old(systemData)
    {
      sessions := [];
      ended := true;
    }

    /** `set_system_value`: `INSERT OR REPLACE` on the key. */
    method SetSystemValue(key: string, value: string) returns (stored: bool)
      requires Valid()
      modifies this
      ensures Valid() && stored
      ensures systemData == old(systemData)[key := value]
      ensures videos == old(videos) && nextVideoId == old(nextVideoId)
      ensures sessions == old(sessions) && nextSessionId == old(nextSessionId)
    {
      systemData := systemData[key := value];
      stored := true;
    }

    /** `get_system_value`. */
    method GetSystemValue(key: string) returns (value: Option<string>)
      ensures value.Some? <==> key in systemData
      ensures value.Some? ==> value.value == systemData[key]
    {
      value := if key in systemData then Some(systemData[key]) else None;
    }
  }

  /** The rows a delete keeps stay in table order and keep distinct keys. */
  lemma {:induction false} DeleteKeepsOrder(rows: seq<VideoRow>, userChatId: int, videoId: int)
    requires IdsIncreasing(rows) && UniqueVideoKeys(rows)
    ensures IdsIncreasing(DeleteMatching(rows, userChatId, videoId))
    ensures UniqueVideoKeys(DeleteMatching(rows, userChatId, videoId))
    decreases |rows|
  {
    if |rows| > 0 {
      var prefix := rows[..|rows| - 1];
      var last := rows[|rows| - 1];
      assert IdsIncreasing(prefix) && UniqueVideoKeys(prefix);
      DeleteKeepsOrder(prefix, userChatId, videoId);
      var kept := DeleteMatching(prefix, userChatId, videoId);
      forall i | 0 <= i < |kept|
        ensures kept[i].id < last.id && !SameVideoKey(kept[i], last)
      {
        assert kept[i] in prefix;
        var m :| 0 <= m < |prefix| && prefix[m] == kept[i];
        assert rows[m].id < rows[|rows| - 1].id;
        assert !SameVideoKey(rows[m], rows[|rows| - 1]);
      }
    }
  }

  /** A flight of a user's library lists only that user's own rows, in
      camera order. */
  lemma LibraryShowsOwnVideos(rows: seq<VideoRow>, chatId: int, date: int, slot: string, number: string)
    requires Lookup(OrganizedTree(UserVideos(rows, chatId)), date, slot, number).Some?
    ensures var f := Lookup(OrganizedTree(UserVideos(rows, chatId)), date, slot, number).value;
      && CameraOrdered(f.videos)
      && forall e :: e in f.videos ==> exists row :: row in rows && row.userChatId == chatId && Entry(row) == e
  {
    var vs := UserVideos(rows, chatId);
    var days := OrganizedTree(vs);
    OrganizedTreeOk(vs);
    FlightsKeepCameraOrder(vs, days, date, slot, number);
    var flightRows := FlightRows(vs, date, slot, number);
    assert Lookup(days, date, slot, number) == ExpectedFlight(vs, date, slot, number);
    var f := Lookup(days, date, slot, number).value;
    forall e | e in f.videos
      ensures exists row :: row in rows && row.userChatId == chatId && Entry(row) == e
    {
      var i :| 0 <= i < |f.videos| && f.videos[i] == e;
      assert flightRows[i] in flightRows;
    }
  }

  /** Every row the user owns is filed in their library under its own day,
      time slot and flight number. */
  lemma LibraryFilesEveryOwnVideo(rows: seq<VideoRow>, chatId: int, row: VideoRow)
    requires row in rows && row.userChatId == chatId
    ensures var f := Lookup(OrganizedTree(UserVideos(rows, chatId)), row.flightDate, row.timeSlot, row.flightNumber);
      f.Some? && Entry(row) in f.value.videos
  {
    var vs := UserVideos(rows, chatId);
    OrganizedTreeOk(vs);
    var k :| 0 <= k < |vs| && vs[k] == row;
    EveryVideoIsFiled(vs, OrganizedTree(vs), k);
  }
}
