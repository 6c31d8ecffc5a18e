/** The database file the daemon writes and the viewer reads: the two tables created by the
    daemon (src/daemon/bin/main.rs:14-28) and the SQLite statements the daemon runs on them.
    Each table is a sequence of rows in rowid order; an INSERT appends, an UPDATE rewrites in place. */
module Store {
  import opened Prelude
  import opened Lib

  /** A row of `song_data(id INTEGER PRIMARY KEY AUTOINCREMENT, artist, album, title)`. */
  datatype SongRow = SongRow(id: nat, song: SongData)

  /** A row of `song_plays(id, date, plays)`. */
  datatype PlayRow = PlayRow(id: nat, date: string, plays: nat)

  /** Both tables, and the AUTOINCREMENT counter (`sqlite_sequence`, plus one): every insert into
      `song_data` draws this value and advances it, even one the UNIQUE constraint then ignores,
      so a new song receives it and no id is ever handed out twice. */
  datatype Tables = Tables(songData: seq<SongRow>, nextId: nat, songPlays: seq<PlayRow>)

  /** A freshly created database file. */
  const Empty: Tables := Tables([], 1, [])

  /** What SQLite itself guarantees for these tables: ids are primary keys below the
      AUTOINCREMENT counter, UNIQUE(artist, album, title) and UNIQUE(id, date). */
  ghost predicate Consistent(t: Tables)
  {
    && t.nextId >= 1
    && (forall i :: 0 <= i < |t.songData| ==> 1 <= t.songData[i].id < t.nextId)
    && (forall i, j :: 0 <= i < j < |t.songData| ==> t.songData[i].id != t.songData[j].id)
    && (forall i, j :: 0 <= i < j < |t.songData| ==> t.songData[i].song != t.songData[j].song)
    && (forall i, j :: 0 <= i < j < |t.songPlays| ==>
          t.songPlays[i].id != t.songPlays[j].id || t.songPlays[i].date != t.songPlays[j].date)
  }

  /** What the daemon adds on top: every play row counts at least one play of a catalogued song. */
  ghost predicate Valid(t: Tables)
  {
    && Consistent(t)
    && (forall i :: 0 <= i < |t.songPlays| ==>
          t.songPlays[i].plays >= 1 && exists k :: 0 <= k < |t.songData| && t.songData[k].id == t.songPlays[i].id)
  }

  /** Position of the first catalogue row holding `song`. */
  function FindSong(rows: seq<SongRow>, song: SongData): (r: Option<nat>)
    ensures r.Some? ==> r.value < |rows| && rows[r.value].song == song
    ensures r.Some? ==> forall j :: 0 <= j < r.value ==> rows[j].song != song
    ensures r.None? ==> forall j :: 0 <= j < |rows| ==> rows[j].song != song
  {
    if rows == [] then None
    else if rows[0].song == song then Some(0)
    else match FindSong(rows[1..], song)
      case None => None
      case Some(k) => Some(k + 1)
  }

  /** Position of the first play row for `(id, date)`. */
  function FindPlay(rows: seq<PlayRow>, id: nat, date: string): (r: Option<nat>)
    ensures r.Some? ==> r.value < |rows| && rows[r.value].id == id && rows[r.value].date == date
    ensures r.Some? ==> forall j :: 0 <= j < r.value ==> rows[j].id != id || rows[j].date != date
    ensures r.None? ==> forall j :: 0 <= j < |rows| ==> rows[j].id != id || rows[j].date != date
  {
    if rows == [] then None
    else if rows[0].id == id && rows[0].date == date then Some(0)
    else match FindPlay(rows[1..], id, date)
      case None => None
      case Some(k) => Some(k + 1)
  }

  /** `SELECT ID FROM song_data WHERE artist = ? AND album = ? AND title = ? LIMIT 1`. */
  function SelectId(t: Tables, song: SongData): (r: Option<nat>)
    ensures r.Some? <==> exists k :: 0 <= k < |t.songData| && t.songData[k].song == song
    ensures r.Some? ==> exists k :: 0 <= k < |t.songData| && t.songData[k] == SongRow(r.value, song)
  {
    match FindSong(t.songData, song)
    case None => None
    case Some(k) => Some(t.songData[k].id)
  }

  /** `INSERT OR IGNORE INTO song_data (artist, album, title)`: a new row with the next id,
      unless the UNIQUE(artist, album, title) constraint already holds the triple. Either way the
      insert has drawn an id, so the AUTOINCREMENT counter advances. */
  function InsertOrIgnoreSong(t: Tables, song: SongData): (r: Tables)
    ensures r.songPlays == t.songPlays
    ensures r.nextId == t.nextId + 1
    ensures SelectId(t, song).Some? ==> r.songData == t.songData
    ensures SelectId(t, song).None? ==> r.songData == t.songData + [SongRow(t.nextId, song)]
    ensures SelectId(r, song).Some?
  {
    if FindSong(t.songData, song).Some? then t.(nextId := t.nextId + 1)
    else
      var r := Tables(t.songData + [SongRow(t.nextId, song)], t.nextId + 1, t.songPlays);
      assert r.songData[|t.songData|].song == song;
      r
  }

  /** Number of play rows an `UPDATE ... WHERE id = ? AND date = ?` touches. */
  function CountPlays(rows: seq<PlayRow>, id: nat, date: string): (n: nat)
    ensures n <= |rows|
    ensures n == 0 <==> FindPlay(rows, id, date).None?
  {
    if rows == [] then 0
    else (if rows[0].id == id && rows[0].date == date then 1 else 0) + CountPlays(rows[1..], id, date)
  }

  /** `UPDATE song_plays SET plays = plays + 1 WHERE id = ? AND date = ?`. */
  function UpdatePlays(rows: seq<PlayRow>, id: nat, date: string): (r: seq<PlayRow>)
    ensures |r| == |rows|
    ensures forall j :: 0 <= j < |rows| ==>
      r[j] == if rows[j].id == id && rows[j].date == date then rows[j].(plays := rows[j].plays + 1) else rows[j]
  {
    if rows == [] then []
    else [if rows[0].id == id && rows[0].date == date then rows[0].(plays := rows[0].plays + 1) else rows[0]]
         + UpdatePlays(rows[1..], id, date)
  }

  /** `INSERT INTO song_plays (id, date, plays)`: a constraint error (`None`) when UNIQUE(id, date)
      already holds the pair. */
  function InsertPlay(rows: seq<PlayRow>, id: nat, date: string, plays: nat): (r: Option<seq<PlayRow>>)
    ensures r.None? <==> FindPlay(rows, id, date).Some?
    ensures r.Some? ==> r.value == rows + [PlayRow(id, date, plays)]
  {
    if FindPlay(rows, id, date).Some? then None else Some(rows + [PlayRow(id, date, plays)])
  }

  /** Plays recorded for `(id, date)`: those of its row, or 0 when there is none. */
  function PlaysOf(t: Tables, id: nat, date: string): nat
  {
    match FindPlay(t.songPlays, id, date)
    case None => 0
    case Some(j) => t.songPlays[j].plays
  }

  /** Under UNIQUE(id, date) a key is held by at most one row, so an UPDATE touches at most one. */
  lemma {:induction false} CountPlaysAtMostOne(rows: seq<PlayRow>, id: nat, date: string)
    requires forall i, j :: 0 <= i < j < |rows| ==> rows[i].id != rows[j].id || rows[i].date != rows[j].date
    ensures CountPlays(rows, id, date) <= 1
  {
    if rows != [] {
      CountPlaysAtMostOne(rows[1..], id, date);
      if rows[0].id == id && rows[0].date == date {
        var f := FindPlay(rows[1..], id, date);
        if f.Some? {
          assert rows[f.value + 1] == rows[1..][f.value];
        }
      }
    }
  }
}
