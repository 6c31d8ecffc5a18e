/** The first, single-table recorder (src/main.rs): every track change immediately counts one
    play of the NEW track for today in `song_data(date, artist, album, title, count)`, a table
    without any UNIQUE constraint, by looking the row up first and then inserting or updating. */
module Legacy {
  import opened Prelude
  import opened Mpris

  /** A row of the legacy `song_data` table. */
  datatype Song = Song(date: string, artist: string, album: string, title: string, count: nat)

  /** The columns the lookup and the update match on. */
  datatype Key = Key(date: string, artist: string, album: string, title: string)

  /** An item of the player's event stream; a track change carries today's date as read then. */
  datatype Event = TrackChanged(data: Metadata, today: string) | OtherEvent | DbusError

  /** How the loop ended: the stream ran out, it broke on an error, or an `unwrap` panicked. */
  datatype Outcome = Ended | Aborted | Panicked

  function KeyOf(s: Song): Key
  {
    Key(s.date, s.artist, s.album, s.title)
  }

  /** The key of the row a track change records. */
  function KeyFor(data: Metadata, today: string): Key
    requires Complete(data)
  {
    Key(today, JoinedArtists(data), data.album.value, data.title.value)
  }

  /** At most one row per key: what lookup-before-insert maintains. */
  ghost predicate UniqueKeys(rows: seq<Song>)
  {
    forall i, j :: 0 <= i < j < |rows| ==> KeyOf(rows[i]) != KeyOf(rows[j])
  }

  /** Position of the first row with `key`: the row `SELECT * ... LIMIT 1` returns. */
  function FindKey(rows: seq<Song>, key: Key): (r: Option<nat>)
    ensures r.Some? ==> r.value < |rows| && KeyOf(rows[r.value]) == key
    ensures r.Some? ==> forall j :: 0 <= j < r.value ==> KeyOf(rows[j]) != key
    ensures r.None? ==> forall j :: 0 <= j < |rows| ==> KeyOf(rows[j]) != key
  {
    if rows == [] then None
    else if KeyOf(rows[0]) == key then Some(0)
    else match FindKey(rows[1..], key)
      case None => None
      case Some(k) => Some(k + 1)
  }

  /** `UPDATE song_data SET count = count + 1 WHERE date = ? AND artist = ? AND album = ? AND title = ?`. */
  function IncrementAll(rows: seq<Song>, key: Key): (r: seq<Song>)
    ensures |r| == |rows|
    ensures forall j :: 0 <= j < |rows| ==>
      r[j] == if KeyOf(rows[j]) == key then rows[j].(count := rows[j].count + 1) else rows[j]
  {
    if rows == [] then []
    else [if KeyOf(rows[0]) == key then rows[0].(count := rows[0].count + 1) else rows[0]]
         + IncrementAll(rows[1..], key)
  }

  /** One recorded play: insert a row with count 1 when the lookup found none, else increment. */
  function RecordSpec(rows: seq<Song>, key: Key): seq<Song>
  {
    if FindKey(rows, key).None? then rows + [Song(key.date, key.artist, key.album, key.title, 1)]
    else IncrementAll(rows, key)
  }

  /** The plays counted for `key`: the count of its row, or 0 when there is none. */
  function CountOf(rows: seq<Song>, key: Key): nat
  {
    match FindKey(rows, key)
    case None => 0
    case Some(i) => rows[i].count
  }

  /** The whole event loop, from the given table contents. */
  function LoopSpec(rows: seq<Song>, events: seq<Event>): (seq<Song>, Outcome)
    decreases |events|
  {
    if events == [] then (rows, Ended)
    else match events[0]
      case DbusError => (rows, Aborted)
      case OtherEvent => LoopSpec(rows, events[1..])
      case TrackChanged(data, today) =>
        if Complete(data) then LoopSpec(RecordSpec(rows, KeyFor(data, today)), events[1..])
        else (rows, Panicked)
  }

  /** The database connection of `event_loop`. */
  class Recorder {
    var rows: seq<Song>

    constructor (rows: seq<Song>)
      ensures this.rows == rows
    {
      this.rows := rows;
    }

    /** The prepared `SELECT ... LIMIT 1` and the `while let` loop that clears `is_empty` on the first row. */
    method Lookup(key: Key) returns (isEmpty: bool)
      ensures isEmpty <==> forall j :: 0 <= j < |rows| ==> KeyOf(rows[j]) != key
      ensures isEmpty <==> FindKey(rows, key).None?
    {
      isEmpty := true;
      var i := 0;
      while i < |rows|
        invariant 0 <= i <= |rows|
        invariant forall j :: 0 <= j < i ==> KeyOf(rows[j]) != key
      {
        if KeyOf(rows[i]) == key {
          isEmpty := false;
          break;
        }
        i := i + 1;
      }
    }

    /** The body of the `TrackChanged` arm once the new row is built. */
    method Record(key: Key)
      modifies this
      ensures rows == RecordSpec(old(rows), key)
    {
      var isEmpty := Lookup(key);
      if isEmpty {
        rows := rows + [Song(key.date, key.artist, key.album, key.title, 1)];
      } else {
        rows := IncrementAll(rows, key);
      }
    }

    /** `for event in events`: record every track change until the stream errs. */
    method EventLoop(events: seq<Event>) returns (o: Outcome)
      modifies this
      ensures (rows, o) == LoopSpec(old(rows), events)
    {
      var i := 0;
      while i < |events|
        invariant 0 <= i <= |events|
        invariant LoopSpec(old(rows), events) == LoopSpec(rows, events[i..])
      {
        assert events[i..][0] == events[i] && events[i..][1..] == events[i + 1..];
        match events[i] {
          case DbusError => return Aborted;
          case OtherEvent =>
          case TrackChanged(data, today) =>
            if !Complete(data) {
              return Panicked;
            }
            Record(KeyFor(data, today));
        }
        i := i + 1;
      }
      o := Ended;
    }
  }

  /** Recording counts exactly one more play for the key (a new row starts at one) and leaves the
      count of every other key, and every row of another key, as it was; the table grows by at
      most one row. */
  lemma RecordCountsOne(rows: seq<Song>, key: Key, other: Key)
    requires UniqueKeys(rows)
    ensures var r := RecordSpec(rows, key);
      && |rows| <= |r| <= |rows| + 1
      && (forall j :: 0 <= j < |rows| && KeyOf(rows[j]) != key ==> r[j] == rows[j])
      && CountOf(r, other) == CountOf(rows, other) + (if other == key then 1 else 0)
  {
    var r := RecordSpec(rows, key);
    RecordKeepsUniqueKeys(rows, key);
    var f := FindKey(rows, other);
    if f.Some? {
      assert KeyOf(r[f.value]) == other;
      FindKeyUnique(r, other, f.value);
    } else if other == key {
      assert KeyOf(r[|r| - 1]) == key;
      FindKeyUnique(r, other, |r| - 1);
    }
  }

  /** A key not yet present gets a new row with count one, appended at the end. */
  lemma RecordInsertsNew(rows: seq<Song>, key: Key)
    requires FindKey(rows, key).None?
    ensures RecordSpec(rows, key) == rows + [Song(key.date, key.artist, key.album, key.title, 1)]
  {
  }

  /** A key already present has its one row's count increased by exactly one, in place. */
  lemma RecordIncrementsExisting(rows: seq<Song>, key: Key, i: nat)
    requires UniqueKeys(rows)
    requires i < |rows| && KeyOf(rows[i]) == key
    ensures RecordSpec(rows, key) == rows[i := rows[i].(count := rows[i].count + 1)]
  {
  }

  /** Lookup-before-insert keeps at most one row per (date, artist, album, title), although the
      table itself declares no UNIQUE constraint. */
  lemma RecordKeepsUniqueKeys(rows: seq<Song>, key: Key)
    requires UniqueKeys(rows)
    ensures UniqueKeys(RecordSpec(rows, key))
  {
  }

  lemma FindKeyUnique(rows: seq<Song>, key: Key, k: nat)
    requires UniqueKeys(rows)
    requires k < |rows| && KeyOf(rows[k]) == key
    ensures FindKey(rows, key) == Some(k)
  {
  }

  /** Over a whole event stream, the table keeps at most one row per key. */
  lemma {:induction false} LoopKeepsUniqueKeys(rows: seq<Song>, events: seq<Event>)
    requires UniqueKeys(rows)
    ensures UniqueKeys(LoopSpec(rows, events).0)
    decreases |events|
  {
    if events != [] {
      match events[0]
      case DbusError =>
      case OtherEvent => LoopKeepsUniqueKeys(rows, events[1..]);
      case TrackChanged(data, today) =>
        if Complete(data) {
          RecordKeepsUniqueKeys(rows, KeyFor(data, today));
          LoopKeepsUniqueKeys(RecordSpec(rows, KeyFor(data, today)), events[1..]);
        }
    }
  }

  /** A track change records one play of the new track at once, under today's date and the
      artists joined with " / "; a stream error stops the loop with nothing written; other events
      do nothing. */
  lemma TrackChangeRecordsNewTrack(rows: seq<Song>, data: Metadata, today: string, rest: seq<Event>)
    requires Complete(data)
    ensures LoopSpec(rows, [TrackChanged(data, today)] + rest) ==
      LoopSpec(RecordSpec(rows, Key(today, Join(data.artists.value, " / "), data.album.value, data.title.value)), rest)
    ensures LoopSpec(rows, [DbusError] + rest) == (rows, Aborted)
    ensures LoopSpec(rows, [OtherEvent] + rest) == LoopSpec(rows, rest)
  {
    assert ([TrackChanged(data, today)] + rest)[1..] == rest;
    assert ([OtherEvent] + rest)[1..] == rest;
  }
}
