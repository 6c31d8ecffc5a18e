/** The tracker daemon's event handler (src/daemon/bin/main.rs:55-117): it watches the player's
    event stream and, on each track change, credits the previously playing song with one play
    when more than MIN_PLAYTIME seconds have passed since the previous track change. */
module Daemon {
  import opened Prelude
  import opened Lib
  import opened Store
  import opened Mpris

  /** An item of the player's event stream. A track change carries the clock readings the handler
      takes for it: the Unix time in seconds and the local calendar date. */
  datatype Event =
    | TrackChanged(data: Metadata, now: int, today: string)
    | Playing
    | OtherEvent
    | DbusError

  /** How handling ended: carry on, the loop broke on a stream error, or an `unwrap` panicked. */
  datatype Outcome = Continue | Aborted | Panicked

  /** The handler's two locals together with the database contents. */
  datatype HandlerState = HandlerState(trackLastChanged: int, songOption: Option<SongData>, db: Tables)

  /** A new event stream: nothing tracked and the last change at time 0. */
  function Initial(db: Tables): HandlerState
  {
    HandlerState(0, None, db)
  }

  /** The song a track change starts tracking; several artists are joined with " / ". */
  function SongOf(data: Metadata): SongData
    requires Complete(data)
  {
    SongData(JoinedArtists(data), data.album.value, data.title.value)
  }

  /** Credits one play of `id` on `date` in `song_plays`: one more on its row, or a new row of 1. */
  function Credit(rows: seq<PlayRow>, id: nat, date: string): seq<PlayRow>
  {
    match FindPlay(rows, id, date)
    case Some(j) => rows[j := rows[j].(plays := rows[j].plays + 1)]
    case None => rows + [PlayRow(id, date, 1)]
  }

  /** The net effect of committing one play of `song` on `date`: the song is catalogued once,
      under a fresh id if it is new, the AUTOINCREMENT counter advances either way, and the
      song's play count for the date rises by one. */
  function Commit(db: Tables, song: SongData, date: string): Tables
  {
    match FindSong(db.songData, song)
    case Some(i) => Tables(db.songData, db.nextId + 1, Credit(db.songPlays, db.songData[i].id, date))
    case None => Tables(db.songData + [SongRow(db.nextId, song)], db.nextId + 1, Credit(db.songPlays, db.nextId, date))
  }

  /** After the track change: the change time is recorded, then the new track's metadata is unwrapped. */
  function Track(h: HandlerState, data: Metadata, now: int): (HandlerState, Outcome)
  {
    var h1 := h.(trackLastChanged := now);
    if Complete(data) then (h1.(songOption := Some(SongOf(data))), Continue) else (h1, Panicked)
  }

  /** One event, as the body of the handler's `for` loop treats it. */
  function StepSpec(h: HandlerState, e: Event): (HandlerState, Outcome)
  {
    match e
    case TrackChanged(data, now, today) =>
      if now - h.trackLastChanged > MIN_PLAYTIME then
        var db := if h.songOption.Some? then Commit(h.db, h.songOption.value, today) else h.db;
        Track(h.(db := db), data, now)
      else if h.songOption.None? then
        (h, Panicked)
      else
        Track(h, data, now)
    case DbusError => (h, Aborted)
    case Playing => (h, Continue)
    case OtherEvent => (h, Continue)
  }

  /** The whole `for` loop over an event stream; it stops at the first error or panic. */
  function RunSpec(h: HandlerState, events: seq<Event>): (HandlerState, Outcome)
    decreases |events|
  {
    if events == [] then (h, Continue)
    else
      var (h1, o) := StepSpec(h, events[0]);
      if o == Continue then RunSpec(h1, events[1..]) else (h1, o)
  }

  /** `event_handler`'s locals and the connection it writes through. */
  class EventHandler {
    var trackLastChanged: int
    var songOption: Option<SongData>
    var db: Tables

    function State(): HandlerState
      reads this
    {
      HandlerState(trackLastChanged, songOption, db)
    }

    /** The start of `event_handler`: nothing tracked yet. */
    constructor (db: Tables)
      ensures State() == Initial(db)
    {
      trackLastChanged := 0;
      songOption := None;
      this.db := db;
    }

    /** The statements of the commit path, in the order the handler runs them. */
    method CommitSong(song: SongData, currentDate: string)
      requires Consistent(db)
      modifies this`db
      ensures db == Commit(old(db), song, currentDate)
    {
      ghost var db0 := db;
      db := InsertOrIgnoreSong(db, song);
      var row := SelectId(db, song);
      var id := row.value;
      var update := CountPlays(db.songPlays, id, currentDate);
      db := db.(songPlays := UpdatePlays(db.songPlays, id, currentDate));
      if update != 1 {
        match InsertPlay(db.songPlays, id, currentDate, 1)
        case Some(rows) => db := db.(songPlays := rows);
        case None =>
      }
      SqlCommitIsCommit(db0, song, currentDate);
    }

    /** One turn of the handler's loop. */
    method Step(e: Event) returns (o: Outcome)
      requires Consistent(db)
      modifies this
      ensures (State(), o) == StepSpec(old(State()), e)
      ensures Consistent(db)
    {
      match e
      case TrackChanged(data, currentTime, currentDate) =>
        if currentTime - trackLastChanged > MIN_PLAYTIME {
          if songOption.Some? {
            CommitPreservesConsistent(db, songOption.value, currentDate);
            CommitSong(songOption.value, currentDate);
          }
        } else if songOption.None? {
          return Panicked;
        }
        trackLastChanged := currentTime;
        if !Complete(data) {
          return Panicked;
        }
        songOption := Some(SongOf(data));
        o := Continue;
      case DbusError => o := Aborted;
      case Playing => o := Continue;
      case OtherEvent => o := Continue;
    }

    /** `for event_result in player.events()`, until the stream ends, errs or a panic stops it. */
    method Run(events: seq<Event>) returns (o: Outcome)
      requires Consistent(db)
      modifies this
      ensures (State(), o) == RunSpec(old(State()), events)
    {
      var i := 0;
      o := Continue;
      while i < |events|
        invariant 0 <= i <= |events|
        invariant Consistent(db) && o == Continue
        invariant RunSpec(old(State()), events) == RunSpec(State(), events[i..])
      {
        assert events[i..][0] == events[i] && events[i..][1..] == events[i + 1..];
        o := Step(events[i]);
        if o != Continue {
          return;
        }
        i := i + 1;
      }
    }
  }

  /** Under the table constraints, the handler's statements (insert-or-ignore, select the id,
      update, insert when no row was updated) have exactly the effect `Commit` describes. */
  lemma SqlCommitIsCommit(db: Tables, song: SongData, date: string)
    requires Consistent(db)
    ensures
      var db1 := InsertOrIgnoreSong(db, song);
      var id := SelectId(db1, song).value;
      var rows := UpdatePlays(db1.songPlays, id, date);
      var rows2 := if CountPlays(db1.songPlays, id, date) == 1 then rows
                   else match InsertPlay(rows, id, date, 1) case Some(r) => r case None => rows;
      db1.(songPlays := rows2) == Commit(db, song, date)
  {
    var db1 := InsertOrIgnoreSong(db, song);
    match FindSong(db.songData, song)
    case Some(i) =>
      assert db1 == db.(nextId := db.nextId + 1);
      SqlCreditIsCredit(db.songPlays, db.songData[i].id, date);
    case None =>
      assert db1.songData == db.songData + [SongRow(db.nextId, song)];
      assert FindSong(db1.songData, song) == Some(|db.songData|);
      SqlCreditIsCredit(db.songPlays, db.nextId, date);
  }

  /** The update-then-insert pair of statements credits exactly one play. */
  lemma SqlCreditIsCredit(rows: seq<PlayRow>, id: nat, date: string)
    requires forall i, j :: 0 <= i < j < |rows| ==> rows[i].id != rows[j].id || rows[i].date != rows[j].date
    ensures
      var updated := UpdatePlays(rows, id, date);
      (if CountPlays(rows, id, date) == 1 then updated
       else match InsertPlay(updated, id, date, 1) case Some(r) => r case None => updated)
      == Credit(rows, id, date)
  {
    var updated := UpdatePlays(rows, id, date);
    CountPlaysAtMostOne(rows, id, date);
    match FindPlay(rows, id, date)
    case Some(j) =>
      assert updated == rows[j := rows[j].(plays := rows[j].plays + 1)];
    case None =>
      assert updated == rows;
  }

  /** Committing keeps the table constraints. */
  lemma CommitPreservesConsistent(db: Tables, song: SongData, date: string)
    requires Consistent(db)
    ensures Consistent(Commit(db, song, date))
  {
    var id := match FindSong(db.songData, song) case Some(i) => db.songData[i].id case None => db.nextId;
    CreditKeepsKeysUnique(db.songPlays, id, date);
  }

  /** Committing keeps the daemon's invariant: play counts are positive and refer to catalogued songs. */
  lemma CommitPreservesValid(db: Tables, song: SongData, date: string)
    requires Valid(db)
    ensures Valid(Commit(db, song, date))
  {
    CommitPreservesConsistent(db, song, date);
    var c := Commit(db, song, date);
    var k: nat := match FindSong(db.songData, song) case Some(i) => i case None => |db.songData|;
    assert c.songData[k].song == song;
    var id := c.songData[k].id;
    assert c.songPlays == Credit(db.songPlays, id, date);
    forall i | 0 <= i < |c.songPlays|
      ensures c.songPlays[i].plays >= 1
      ensures exists k :: 0 <= k < |c.songData| && c.songData[k].id == c.songPlays[i].id
    {
      if i < |db.songPlays| && c.songPlays[i].id != id {
        assert c.songPlays[i] == db.songPlays[i];
        var k' :| 0 <= k' < |db.songData| && db.songData[k'].id == db.songPlays[i].id;
        assert c.songData[k'] == db.songData[k'];
      }
    }
  }

  lemma CreditKeepsKeysUnique(rows: seq<PlayRow>, id: nat, date: string)
    requires forall i, j :: 0 <= i < j < |rows| ==> rows[i].id != rows[j].id || rows[i].date != rows[j].date
    ensures var r := Credit(rows, id, date);
      forall i, j :: 0 <= i < j < |r| ==> r[i].id != r[j].id || r[i].date != r[j].date
  {
  }

  /** `Credit` raises the count of `(id, date)` by exactly one and leaves every other key alone;
      rows keep their places and at most one row is appended. */
  lemma CreditCountsOne(rows: seq<PlayRow>, id: nat, date: string, id': nat, date': string)
    requires forall i, j :: 0 <= i < j < |rows| ==> rows[i].id != rows[j].id || rows[i].date != rows[j].date
    ensures var r := Credit(rows, id, date);
      && |rows| <= |r| <= |rows| + 1
      && (forall j :: 0 <= j < |rows| && (rows[j].id != id || rows[j].date != date) ==> r[j] == rows[j])
      && PlaysOf(Tables([], 0, r), id', date') ==
         PlaysOf(Tables([], 0, rows), id', date') + (if id' == id && date' == date then 1 else 0)
  {
    var r := Credit(rows, id, date);
    CreditKeepsKeysUnique(rows, id, date);
    var f := FindPlay(rows, id', date');
    var g := FindPlay(r, id', date');
    if f.Some? {
      assert r[f.value].id == id' && r[f.value].date == date';
      FindPlayUnique(r, id', date', f.value);
    } else if id' == id && date' == date {
      assert r[|r| - 1].id == id && r[|r| - 1].date == date;
      FindPlayUnique(r, id', date', |r| - 1);
    } else {
      assert g.None?;
    }
  }

  /** Under UNIQUE(id, date), the row holding a key is the one `FindPlay` finds. */
  lemma FindPlayUnique(rows: seq<PlayRow>, id: nat, date: string, k: nat)
    requires forall i, j :: 0 <= i < j < |rows| ==> rows[i].id != rows[j].id || rows[i].date != rows[j].date
    requires k < |rows| && rows[k].id == id && rows[k].date == date
    ensures FindPlay(rows, id, date) == Some(k)
  {
  }

  /** The catalogue is insert-or-ignore: after a commit exactly one row holds the song, an id it
      already had is kept, a new song gets the counter's value, no earlier row changes, and the
      counter advances in both cases. */
  lemma CommitCatalog(db: Tables, song: SongData, date: string)
    requires Consistent(db)
    ensures var c := Commit(db, song, date);
      && db.songData <= c.songData
      && c.nextId == db.nextId + 1
      && (SelectId(db, song).Some? ==> c.songData == db.songData)
      && (SelectId(db, song).None? ==> c.songData == db.songData + [SongRow(db.nextId, song)])
      && SelectId(c, song) == (if SelectId(db, song).Some? then SelectId(db, song) else Some(db.nextId))
      && (forall i, j :: 0 <= i < j < |c.songData| ==> c.songData[i].song != c.songData[j].song)
  {
    CommitPreservesConsistent(db, song, date);
    var c := Commit(db, song, date);
    if FindSong(db.songData, song).None? {
      assert c.songData[|db.songData|].song == song;
    }
  }

  /** A commit raises the plays of the song on the commit date by exactly one (a new row starts
      at one) and leaves every other (id, date) count as it was. */
  lemma CommitCreditsOnePlay(db: Tables, song: SongData, date: string, id': nat, date': string)
    requires Consistent(db)
    ensures var c := Commit(db, song, date);
      && SelectId(c, song).Some?
      && PlaysOf(c, id', date') == PlaysOf(db, id', date') + (if SelectId(c, song) == Some(id') && date' == date then 1 else 0)
  {
    CommitCatalog(db, song, date);
    var c := Commit(db, song, date);
    var id := SelectId(c, song).value;
    assert c.songPlays == Credit(db.songPlays, id, date);
    CreditCountsOne(db.songPlays, id, date, id', date');
  }

  /** `n` commits of one song on one date. */
  function CommitRepeated(db: Tables, song: SongData, date: string, n: nat): Tables
  {
    if n == 0 then db else Commit(CommitRepeated(db, song, date, n - 1), song, date)
  }

  /** Committing one song `n` times on one date, starting from an empty file, leaves one catalogue
      row and one play row whose count is `n`. */
  lemma {:induction false} CommitSameDate(song: SongData, date: string, n: nat)
    requires n >= 1
    ensures var c := CommitRepeated(Empty, song, date, n);
      && c.songData == [SongRow(1, song)]
      && c.songPlays == [PlayRow(1, date, n)]
      && c.nextId == n + 1
  {
    if n > 1 {
      CommitSameDate(song, date, n - 1);
    }
  }

  /** Committing one song on two different dates leaves one catalogue row and two play rows of one play each. */
  lemma CommitTwoDates(song: SongData, d1: string, d2: string)
    requires d1 != d2
    ensures var c := Commit(Commit(Empty, song, d1), song, d2);
      && c.songData == [SongRow(1, song)]
      && c.songPlays == [PlayRow(1, d1, 1), PlayRow(1, d2, 1)]
  {
    var c1 := Commit(Empty, song, d1);
    assert c1.songPlays == [PlayRow(1, d1, 1)];
    assert FindPlay(c1.songPlays, 1, d2) == None;
  }

  /** The file after the first commit into an empty one: the song under id 1, one play of it. */
  lemma FirstCommitFromEmpty(song: SongData, date: string)
    ensures Commit(Empty, song, date) == Tables([SongRow(1, song)], 2, [PlayRow(1, date, 1)])
  {
  }

  /** An ignored insert still uses up an AUTOINCREMENT value: after committing `s` twice, a new
      song `t` is catalogued under id 3, not 2, and its play row carries that id. */
  lemma IgnoredInsertUsesAnId(s: SongData, t: SongData, date: string)
    requires s != t
    ensures var c := Commit(Commit(Commit(Empty, s, date), s, date), t, date);
      && c.songData == [SongRow(1, s), SongRow(3, t)]
      && c.songPlays == [PlayRow(1, date, 2), PlayRow(3, date, 1)]
  {
    var c2 := Commit(Commit(Empty, s, date), s, date);
    assert c2.songData == [SongRow(1, s)] && c2.nextId == 3;
    assert c2.songPlays == [PlayRow(1, date, 2)];
    assert FindSong(c2.songData, t) == None;
    assert FindPlay(c2.songPlays, 3, date) == None;
  }

  /** The first track change of a stream commits nothing and only starts tracking; it panics when
      the clock reads at most MIN_PLAYTIME, because the skip branch then unwraps an empty song. */
  lemma FirstTrackChange(db: Tables, data: Metadata, now: int, today: string)
    ensures var (h, o) := StepSpec(Initial(db), TrackChanged(data, now, today));
      && h.db == db
      && (now <= MIN_PLAYTIME ==> h == Initial(db) && o == Panicked)
      && (now > MIN_PLAYTIME && Complete(data) ==>
            o == Continue && h == HandlerState(now, Some(SongOf(data)), db))
  {
  }

  /** A tracked song is committed, on the date read at this change, exactly when strictly more
      than MIN_PLAYTIME seconds have passed since the previous change; otherwise nothing is written. */
  lemma CommitIffGap(h: HandlerState, data: Metadata, now: int, today: string)
    requires h.songOption.Some?
    ensures StepSpec(h, TrackChanged(data, now, today)).0.db ==
      if now - h.trackLastChanged > MIN_PLAYTIME then Commit(h.db, h.songOption.value, today) else h.db
  {
  }

  /** After a track change whose metadata is complete, the change time is recorded and the new
      track, artists joined with " / ", is the one tracked. */
  lemma TrackChangeTracksNewSong(h: HandlerState, data: Metadata, now: int, today: string)
    requires Complete(data)
    requires h.songOption.Some? || now - h.trackLastChanged > MIN_PLAYTIME
    ensures var (h', o) := StepSpec(h, TrackChanged(data, now, today));
      && o == Continue
      && h'.trackLastChanged == now
      && h'.songOption == Some(SongData(Join(data.artists.value, " / "), data.album.value, data.title.value))
  {
  }

  /** Events other than a track change change nothing; an error ends the handler. */
  lemma OtherEventsChangeNothing(h: HandlerState, e: Event)
    requires !e.TrackChanged?
    ensures StepSpec(h, e) == (h, if e == DbusError then Aborted else Continue)
  {
  }

  /** A stream error ends the handler without committing the tracked song, whatever follows. */
  lemma ErrorEndsWithoutCommit(h: HandlerState, rest: seq<Event>)
    ensures RunSpec(h, [DbusError] + rest) == (h, Aborted)
  {
  }

  /** The play is credited to the date read when the NEXT track starts, not to the date on which
      the committed song started playing. */
  lemma CreditedAtNextChange(db: Tables, x: Metadata, y: Metadata, t0: int, d0: string, t1: int, d1: string)
    requires Complete(x) && Complete(y)
    requires t0 > MIN_PLAYTIME && t1 - t0 > MIN_PLAYTIME
    ensures RunSpec(Initial(db), [TrackChanged(x, t0, d0), TrackChanged(y, t1, d1)]) ==
      (HandlerState(t1, Some(SongOf(y)), Commit(db, SongOf(x), d1)), Continue)
  {
    var events := [TrackChanged(x, t0, d0), TrackChanged(y, t1, d1)];
    var h1 := HandlerState(t0, Some(SongOf(x)), db);
    var h2 := HandlerState(t1, Some(SongOf(y)), Commit(db, SongOf(x), d1));
    assert StepSpec(Initial(db), events[0]) == (h1, Continue);
    assert StepSpec(h1, events[1]) == (h2, Continue);
    assert events[1..] == [TrackChanged(y, t1, d1)];
    assert RunSpec(h1, events[1..]) == (h2, Continue) by {
      assert events[1..][1..] == [];
    }
  }

  /** The handler keeps the daemon's invariant on the database across a whole stream. */
  lemma {:induction false} RunPreservesValid(h: HandlerState, events: seq<Event>)
    requires Valid(h.db)
    ensures Valid(RunSpec(h, events).0.db)
    decreases |events|
  {
    if events != [] {
      var s := StepSpec(h, events[0]);
      if events[0].TrackChanged? && events[0].now - h.trackLastChanged > MIN_PLAYTIME && h.songOption.Some? {
        CommitPreservesValid(h.db, h.songOption.value, events[0].today);
      }
      if s.1 == Continue {
        RunPreservesValid(s.0, events[1..]);
      }
    }
  }
}
