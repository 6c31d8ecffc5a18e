/** What the viewer reads from the database (src/client/bin/main.rs:273-315, 344-353) and the
    artist filter it applies to the ungrouped table (src/client/bin/main.rs:359-377).
    Each `SELECT ..., SUM(plays) ... GROUP BY g ORDER BY SUM(plays) DESC` is `Aggregate` over the
    `(g, plays)` pairs of the rows it reads: one entry per distinct `g`, holding the sum of its
    plays, in non-increasing order of that sum. */
module ClientQueries {
  import opened Prelude
  import opened Lib
  import opened Store
  import opened ClientRows

  // ---- SUM ... GROUP BY ... ORDER BY SUM DESC, for any grouping column ----

  /** `SUM(plays)` over the pairs whose group is `k`. */
  function Total<K(==,!new)>(pairs: seq<(K, nat)>, k: K): nat
  {
    if pairs == [] then 0 else (if pairs[0].0 == k then pairs[0].1 else 0) + Total(pairs[1..], k)
  }

  /** Some entry has group `k`. */
  ghost predicate HasKey<K(!new)>(s: seq<(K, nat)>, k: K)
  {
    exists i :: 0 <= i < |s| && s[i].0 == k
  }

  /** Every key occurs at most once. */
  ghost predicate DistinctKeys<K>(s: seq<(K, nat)>)
  {
    forall i, j :: 0 <= i < j < |s| ==> s[i].0 != s[j].0
  }

  ghost predicate NonIncreasing<K>(s: seq<(K, nat)>)
  {
    forall i, j :: 0 <= i < j < |s| ==> s[i].1 >= s[j].1
  }

  /** The groups of `pairs`, in order of first appearance. */
  function GroupKeys<K(==,!new)>(pairs: seq<(K, nat)>): (ks: seq<K>)
    ensures forall i, j :: 0 <= i < j < |ks| ==> ks[i] != ks[j]
    ensures forall k :: k in ks <==> HasKey(pairs, k)
  {
    if pairs == [] then []
    else
      var init := pairs[..|pairs| - 1];
      var rest := GroupKeys(init);
      var k := pairs[|pairs| - 1].0;
      assert forall j :: 0 <= j < |init| ==> init[j] == pairs[j];
      assert forall k' :: HasKey(pairs, k') <==> HasKey(init, k') || k' == k by {
        forall k' | HasKey(pairs, k')
          ensures HasKey(init, k') || k' == k
        {
          var j :| 0 <= j < |pairs| && pairs[j].0 == k';
          if j < |init| {
            assert init[j].0 == k';
          }
        }
      }
      if k in rest then rest else rest + [k]
  }

  /** One `(group, SUM(plays))` entry per group, before ordering. */
  function Grouped<K(==,!new)>(pairs: seq<(K, nat)>): (g: seq<(K, nat)>)
    ensures DistinctKeys(g)
    ensures forall k :: HasKey(g, k) <==> HasKey(pairs, k)
    ensures forall i :: 0 <= i < |g| ==> g[i].1 == Total(pairs, g[i].0)
  {
    var ks := GroupKeys(pairs);
    var g := seq(|ks|, i requires 0 <= i < |ks| => (ks[i], Total(pairs, ks[i])));
    assert forall k :: HasKey(g, k) <==> k in ks by {
      forall k | k in ks
        ensures HasKey(g, k)
      {
        var i :| 0 <= i < |ks| && ks[i] == k;
        assert g[i].0 == k;
      }
      forall k | HasKey(g, k)
        ensures k in ks
      {
        var i :| 0 <= i < |g| && g[i].0 == k;
        assert ks[i] == k;
      }
    }
    g
  }

  /** Places `e` in front of the first entry with a total not above its own: a stable
      descending insertion. */
  function InsertDesc<K(!new)>(e: (K, nat), s: seq<(K, nat)>): (r: seq<(K, nat)>)
    ensures |r| == |s| + 1
    ensures multiset(r) == multiset(s) + multiset{e}
    ensures forall x :: x in r <==> x == e || x in s
    ensures NonIncreasing(s) ==> NonIncreasing(r)
  {
    if s == [] then [e]
    else if e.1 >= s[0].1 then
      InsertDescFront(e, s);
      [e] + s
    else
      var t := InsertDesc(e, s[1..]);
      InsertDescBehind(e, s, t);
      [s[0]] + t
  }

  /** `e` goes in front: no entry of `s` has a larger total. */
  lemma InsertDescFront<K>(e: (K, nat), s: seq<(K, nat)>)
    requires s != [] && e.1 >= s[0].1
    ensures multiset([e] + s) == multiset(s) + multiset{e}
    ensures forall x :: x in [e] + s <==> x == e || x in s
    ensures NonIncreasing(s) ==> NonIncreasing([e] + s)
  {
    var r := [e] + s;
    if NonIncreasing(s) {
      forall i, j | 0 <= i < j < |r|
        ensures r[i].1 >= r[j].1
      {
        if i == 0 {
          assert r[j] == s[j - 1];
          assert s[0].1 >= s[j - 1].1 || j - 1 == 0;
        } else {
          assert r[i] == s[i - 1] && r[j] == s[j - 1];
        }
      }
    }
  }

  /** `e` goes behind the head of `s`, into the insertion `t` into the tail. */
  lemma InsertDescBehind<K>(e: (K, nat), s: seq<(K, nat)>, t: seq<(K, nat)>)
    requires s != [] && e.1 < s[0].1
    requires |t| == |s[1..]| + 1
    requires multiset(t) == multiset(s[1..]) + multiset{e}
    requires forall x :: x in t <==> x == e || x in s[1..]
    requires NonIncreasing(s[1..]) ==> NonIncreasing(t)
    ensures multiset([s[0]] + t) == multiset(s) + multiset{e}
    ensures forall x :: x in [s[0]] + t <==> x == e || x in s
    ensures NonIncreasing(s) ==> NonIncreasing([s[0]] + t)
  {
    assert s == [s[0]] + s[1..];
    var r := [s[0]] + t;
    if NonIncreasing(s) {
      assert NonIncreasing(s[1..]) by {
        forall i, j | 0 <= i < j < |s[1..]|
          ensures s[1..][i].1 >= s[1..][j].1
        {
          assert s[1..][i] == s[i + 1] && s[1..][j] == s[j + 1];
        }
      }
      forall i, j | 0 <= i < j < |r|
        ensures r[i].1 >= r[j].1
      {
        assert r[j] == t[j - 1];
        if i == 0 {
          var x := t[j - 1];
          assert x in t;
          if x != e {
            var k :| 0 <= k < |s[1..]| && s[1..][k] == x;
            assert s[k + 1] == x;
          }
        } else {
          assert r[i] == t[i - 1];
        }
      }
    }
  }

  /** `ORDER BY SUM(plays) DESC`: a stable sort on the totals, largest first. */
  function SortDesc<K(!new)>(s: seq<(K, nat)>): (r: seq<(K, nat)>)
    ensures |r| == |s|
    ensures multiset(r) == multiset(s)
    ensures forall x :: x in r <==> x in s
    ensures NonIncreasing(r)
  {
    if s == [] then []
    else
      assert forall x :: x in s <==> x == s[0] || x in s[1..] by {
        assert s == [s[0]] + s[1..];
      }
      InsertDesc(s[0], SortDesc(s[1..]))
  }

  /** The whole query. SQLite leaves the order of equal totals open; this model lists them in
      the order their groups first appear in the rows read. */
  function Aggregate<K(==,!new)>(pairs: seq<(K, nat)>): seq<(K, nat)>
  {
    SortDesc(Grouped(pairs))
  }

  /** What the query promises: one entry per group that occurs, each with its exact total,
      largest totals first. */
  ghost predicate IsAggregation<K(!new)>(r: seq<(K, nat)>, pairs: seq<(K, nat)>)
  {
    && DistinctKeys(r)
    && (forall k :: HasKey(r, k) <==> HasKey(pairs, k))
    && (forall i :: 0 <= i < |r| ==> r[i].1 == Total(pairs, r[i].0))
    && NonIncreasing(r)
  }

  lemma {:induction false} InsertDescDistinct<K(!new)>(e: (K, nat), s: seq<(K, nat)>)
    requires DistinctKeys(s) && forall j :: 0 <= j < |s| ==> s[j].0 != e.0
    ensures DistinctKeys(InsertDesc(e, s))
  {
    if s != [] && e.1 < s[0].1 {
      var t := s[1..];
      assert DistinctKeys(t) by {
        assert forall j :: 0 <= j < |t| ==> t[j] == s[j + 1];
      }
      InsertDescDistinct(e, t);
      var r := InsertDesc(e, s);
      assert r == [s[0]] + InsertDesc(e, t);
      forall j | 1 <= j < |r|
        ensures r[j].0 != s[0].0
      {
        assert r[j] in InsertDesc(e, t);
        if r[j] != e {
          assert r[j] in t;
          var k :| 0 <= k < |t| && t[k] == r[j];
          assert t[k] == s[k + 1];
        }
      }
    } else if s != [] {
      var r := [e] + s;
      assert forall j :: 0 <= j < |s| ==> r[j + 1] == s[j];
    }
  }

  lemma {:induction false} SortDescDistinct<K(!new)>(s: seq<(K, nat)>)
    requires DistinctKeys(s)
    ensures DistinctKeys(SortDesc(s))
  {
    if s != [] {
      var t := s[1..];
      assert DistinctKeys(t) by {
        assert forall j :: 0 <= j < |t| ==> t[j] == s[j + 1];
      }
      SortDescDistinct(t);
      forall j | 0 <= j < |SortDesc(t)|
        ensures SortDesc(t)[j].0 != s[0].0
      {
        assert SortDesc(t)[j] in t;
        var k :| 0 <= k < |t| && t[k] == SortDesc(t)[j];
        assert t[k] == s[k + 1];
      }
      InsertDescDistinct(s[0], SortDesc(t));
    }
  }

  /** `Aggregate` computes what the query promises. */
  lemma AggregateIsAggregation<K(!new)>(pairs: seq<(K, nat)>)
    ensures IsAggregation(Aggregate(pairs), pairs)
  {
    var g := Grouped(pairs);
    var r := SortDesc(g);
    SortDescDistinct(g);
    forall i | 0 <= i < |r|
      ensures r[i].1 == Total(pairs, r[i].0)
    {
      assert r[i] in g;
    }
    forall k
      ensures HasKey(r, k) <==> HasKey(g, k)
    {
      if HasKey(g, k) {
        var j :| 0 <= j < |g| && g[j].0 == k;
        assert g[j] in r;
      }
      if HasKey(r, k) {
        var i :| 0 <= i < |r| && r[i].0 == k;
        assert r[i] in g;
      }
    }
  }

  // ---- the rows each query reads ----

  /** The pairs of `song_data JOIN song_plays ON song_data.id = song_plays.id` that involve `p`. */
  function MatchesOf(songs: seq<SongRow>, p: PlayRow): (r: seq<(SongRow, PlayRow)>)
    ensures forall e :: e in r <==> e.0 in songs && e.1 == p && e.0.id == p.id
    ensures forall e :: multiset(r)[e] == if e.1 == p && e.0.id == p.id then multiset(songs)[e.0] else 0
  {
    if songs == [] then []
    else
      assert songs == [songs[0]] + songs[1..];
      assert forall s :: s in songs <==> s == songs[0] || s in songs[1..];
      assert forall s :: multiset(songs)[s] == multiset([songs[0]])[s] + multiset(songs[1..])[s];
      (if songs[0].id == p.id then [(songs[0], p)] else []) + MatchesOf(songs[1..], p)
  }

  /** `song_data JOIN song_plays ON song_data.id = song_plays.id`: every pair of rows with equal
      ids, each as many times as the two rows occur in their tables. */
  function Joined(songs: seq<SongRow>, plays: seq<PlayRow>): (r: seq<(SongRow, PlayRow)>)
    ensures forall e :: e in r <==> e.0 in songs && e.1 in plays && e.0.id == e.1.id
    ensures forall e :: multiset(r)[e] == (if e.0.id == e.1.id then multiset(songs)[e.0] * multiset(plays)[e.1] else 0)
  {
    if plays == [] then []
    else
      assert plays == [plays[0]] + plays[1..];
      assert forall p :: p in plays <==> p == plays[0] || p in plays[1..];
      var m := MatchesOf(songs, plays[0]);
      var rest := Joined(songs, plays[1..]);
      JoinedCountStep(songs, plays, m, rest);
      m + rest
  }

  /** The counting step of `Joined`: the matches of the first play row, then the join of the rest. */
  lemma JoinedCountStep(songs: seq<SongRow>, plays: seq<PlayRow>, m: seq<(SongRow, PlayRow)>, rest: seq<(SongRow, PlayRow)>)
    requires plays != []
    requires forall e :: multiset(m)[e] == if e.1 == plays[0] && e.0.id == plays[0].id then multiset(songs)[e.0] else 0
    requires forall e :: multiset(rest)[e] == (if e.0.id == e.1.id then multiset(songs)[e.0] * multiset(plays[1..])[e.1] else 0)
    ensures forall e :: multiset(m + rest)[e] == (if e.0.id == e.1.id then multiset(songs)[e.0] * multiset(plays)[e.1] else 0)
  {
    assert multiset(plays) == multiset([plays[0]]) + multiset(plays[1..]) by {
      assert plays == [plays[0]] + plays[1..];
    }
    assert multiset(m + rest) == multiset(m) + multiset(rest);
    forall e: (SongRow, PlayRow)
      ensures multiset(m + rest)[e] == (if e.0.id == e.1.id then multiset(songs)[e.0] * multiset(plays)[e.1] else 0)
    {
      var a := multiset(songs)[e.0];
      var b := multiset(plays[1..])[e.1];
      var d := if e.1 == plays[0] then 1 else 0;
      assert multiset(plays)[e.1] == d + b;
      assert multiset(m + rest)[e] == multiset(m)[e] + multiset(rest)[e];
      if e.0.id == e.1.id {
        assert multiset(m)[e] == a * d;
        assert multiset(rest)[e] == a * b;
        Distribute(a, d, b);
      }
    }
  }

  /** Multiplication distributes over the two sources of a pair's occurrences. */
  lemma Distribute(a: nat, d: nat, b: nat)
    ensures a * (d + b) == a * d + a * b
  {
  }

  /** `(song, plays)` for every joined pair: the rows `GROUP BY song_data.id` groups. */
  function SongPairs(db: Tables): (r: seq<(SongData, nat)>)
  {
    var j := Joined(db.songData, db.songPlays);
    seq(|j|, i requires 0 <= i < |j| => (j[i].0.song, j[i].1.plays))
  }

  /** `(date, plays)` for every row of `song_plays`: the date query reads no catalogue. */
  function DatePairs(db: Tables): (r: seq<(string, nat)>)
  {
    seq(|db.songPlays|, i requires 0 <= i < |db.songPlays| => (db.songPlays[i].date, db.songPlays[i].plays))
  }

  /** `(artist, plays)` for every joined pair. */
  function ArtistPairs(db: Tables): (r: seq<(string, nat)>)
  {
    var j := Joined(db.songData, db.songPlays);
    seq(|j|, i requires 0 <= i < |j| => (j[i].0.song.artist, j[i].1.plays))
  }

  /** `(album, plays)` for every joined pair. */
  function AlbumPairs(db: Tables): (r: seq<(string, nat)>)
  {
    var j := Joined(db.songData, db.songPlays);
    seq(|j|, i requires 0 <= i < |j| => (j[i].0.song.album, j[i].1.plays))
  }

  /** A catalogued song that has at least one play row. */
  ghost predicate SongPlayed(db: Tables, song: SongData)
  {
    exists s, p :: s in db.songData && p in db.songPlays && s.id == p.id && s.song == song
  }

  /** An artist of a catalogued song that has at least one play row. */
  ghost predicate ArtistPlayed(db: Tables, artist: string)
  {
    exists s, p :: s in db.songData && p in db.songPlays && s.id == p.id && s.song.artist == artist
  }

  /** An album of a catalogued song that has at least one play row. */
  ghost predicate AlbumPlayed(db: Tables, album: string)
  {
    exists s, p :: s in db.songData && p in db.songPlays && s.id == p.id && s.song.album == album
  }

  /** A date that has at least one play row. */
  ghost predicate DatePlayed(db: Tables, date: string)
  {
    exists p :: p in db.songPlays && p.date == date
  }

  // ---- the four views ----

  /** The `(song, plays)` a row of the ungrouped view shows. */
  function NoneTotals(r: seq<SongDataNone>): seq<(SongData, nat)>
  {
    seq(|r|, i requires 0 <= i < |r| => (SongData(r[i].artist, r[i].album, r[i].title), r[i].plays))
  }

  function DateTotals(r: seq<SongDataDate>): seq<(string, nat)>
  {
    seq(|r|, i requires 0 <= i < |r| => (r[i].date, r[i].plays))
  }

  function ArtistTotals(r: seq<SongDataArtist>): seq<(string, nat)>
  {
    seq(|r|, i requires 0 <= i < |r| => (r[i].artist, r[i].plays))
  }

  function AlbumTotals(r: seq<SongDataAlbum>): seq<(string, nat)>
  {
    seq(|r|, i requires 0 <= i < |r| => (r[i].album, r[i].plays))
  }

  /** `get_data_vec_none`: one row per played song with its total plays, most played first. */
  function GetDataVecNone(db: Tables): (r: seq<SongDataNone>)
    ensures IsAggregation(NoneTotals(r), SongPairs(db))
    ensures forall i :: 0 <= i < |r| ==> Digits(r[i].playsString) && ParseDecimal(r[i].playsString) == r[i].plays
  {
    var g := Aggregate(SongPairs(db));
    AggregateIsAggregation(SongPairs(db));
    var r := seq(|g|, i requires 0 <= i < |g| => NewSongDataNone(g[i].0.artist, g[i].0.album, g[i].0.title, g[i].1));
    assert NoneTotals(r) == g;
    r
  }

  /** `get_data_vec_date`: one row per date with its total plays, busiest first. */
  function GetDataVecDate(db: Tables): (r: seq<SongDataDate>)
    ensures IsAggregation(DateTotals(r), DatePairs(db))
    ensures forall i :: 0 <= i < |r| ==> Digits(r[i].playsString) && ParseDecimal(r[i].playsString) == r[i].plays
  {
    var g := Aggregate(DatePairs(db));
    AggregateIsAggregation(DatePairs(db));
    var r := seq(|g|, i requires 0 <= i < |g| => NewSongDataDate(g[i].0, g[i].1));
    assert DateTotals(r) == g;
    r
  }

  /** `get_data_vec_artist`: one row per played artist with its total plays, most played first. */
  function GetDataVecArtist(db: Tables): (r: seq<SongDataArtist>)
    ensures IsAggregation(ArtistTotals(r), ArtistPairs(db))
    ensures forall i :: 0 <= i < |r| ==> Digits(r[i].playsString) && ParseDecimal(r[i].playsString) == r[i].plays
  {
    var g := Aggregate(ArtistPairs(db));
    AggregateIsAggregation(ArtistPairs(db));
    var r := seq(|g|, i requires 0 <= i < |g| => NewSongDataArtist(g[i].0, g[i].1));
    assert ArtistTotals(r) == g;
    r
  }

  /** `get_data_vec_album`: one row per played album with its total plays, most played first. */
  function GetDataVecAlbum(db: Tables): (r: seq<SongDataAlbum>)
    ensures IsAggregation(AlbumTotals(r), AlbumPairs(db))
    ensures forall i :: 0 <= i < |r| ==> Digits(r[i].playsString) && ParseDecimal(r[i].playsString) == r[i].plays
  {
    var g := Aggregate(AlbumPairs(db));
    AggregateIsAggregation(AlbumPairs(db));
    var r := seq(|g|, i requires 0 <= i < |g| => NewSongDataAlbum(g[i].0, g[i].1));
    assert AlbumTotals(r) == g;
    r
  }

  /** The ungrouped view lists exactly the catalogued songs that have a play row. */
  lemma NoneViewRows(db: Tables)
    ensures forall song :: HasKey(NoneTotals(GetDataVecNone(db)), song) <==> SongPlayed(db, song)
  {
    var j := Joined(db.songData, db.songPlays);
    var pairs := SongPairs(db);
    forall song
      ensures HasKey(pairs, song) <==> SongPlayed(db, song)
    {
      if SongPlayed(db, song) {
        var s, p :| s in db.songData && p in db.songPlays && s.id == p.id && s.song == song;
        assert (s, p) in j;
        var k :| 0 <= k < |j| && j[k] == (s, p);
        assert pairs[k].0 == song;
      }
      if HasKey(pairs, song) {
        var k :| 0 <= k < |pairs| && pairs[k].0 == song;
        assert j[k] in j;
      }
    }
  }

  /** The date view lists exactly the dates that have a play row, catalogued or not. */
  lemma DateViewRows(db: Tables)
    ensures forall d :: HasKey(DateTotals(GetDataVecDate(db)), d) <==> DatePlayed(db, d)
  {
    var pairs := DatePairs(db);
    forall d
      ensures HasKey(pairs, d) <==> DatePlayed(db, d)
    {
      if DatePlayed(db, d) {
        var p :| p in db.songPlays && p.date == d;
        var k :| 0 <= k < |db.songPlays| && db.songPlays[k] == p;
        assert pairs[k].0 == d;
      }
      if HasKey(pairs, d) {
        var k :| 0 <= k < |pairs| && pairs[k].0 == d;
        assert db.songPlays[k] in db.songPlays;
      }
    }
  }

  /** The artist view lists exactly the artists of catalogued songs that have a play row. */
  lemma ArtistViewRows(db: Tables)
    ensures forall a :: HasKey(ArtistTotals(GetDataVecArtist(db)), a) <==> ArtistPlayed(db, a)
  {
    var j := Joined(db.songData, db.songPlays);
    var pairs := ArtistPairs(db);
    forall a
      ensures HasKey(pairs, a) <==> ArtistPlayed(db, a)
    {
      if ArtistPlayed(db, a) {
        var s, p :| s in db.songData && p in db.songPlays && s.id == p.id && s.song.artist == a;
        assert (s, p) in j;
        var k :| 0 <= k < |j| && j[k] == (s, p);
        assert pairs[k].0 == a;
      }
      if HasKey(pairs, a) {
        var k :| 0 <= k < |pairs| && pairs[k].0 == a;
        assert j[k] in j;
      }
    }
  }

  /** The album view lists exactly the albums of catalogued songs that have a play row. */
  lemma AlbumViewRows(db: Tables)
    ensures forall a :: HasKey(AlbumTotals(GetDataVecAlbum(db)), a) <==> AlbumPlayed(db, a)
  {
    var j := Joined(db.songData, db.songPlays);
    var pairs := AlbumPairs(db);
    forall a
      ensures HasKey(pairs, a) <==> AlbumPlayed(db, a)
    {
      if AlbumPlayed(db, a) {
        var s, p :| s in db.songData && p in db.songPlays && s.id == p.id && s.song.album == a;
        assert (s, p) in j;
        var k :| 0 <= k < |j| && j[k] == (s, p);
        assert pairs[k].0 == a;
      }
      if HasKey(pairs, a) {
        var k :| 0 <= k < |pairs| && pairs[k].0 == a;
        assert j[k] in j;
      }
    }
  }

  // ---- the artist filter ----

  /** `SELECT artist FROM song_data` collected into a map, each artist to `true`. */
  function FilterArtistOf(songs: seq<SongRow>): (m: map<string, bool>)
    ensures forall a :: a in m <==> exists k :: 0 <= k < |songs| && songs[k].song.artist == a
    ensures forall a :: a in m ==> m[a]
  {
    if songs == [] then map[]
    else
      var rest := FilterArtistOf(songs[1..]);
      assert forall k :: 0 <= k < |songs[1..]| ==> songs[1..][k] == songs[k + 1];
      rest[songs[0].song.artist := true]
  }

  /** `get_filter_artist`: every catalogued artist, switched on. */
  function GetFilterArtist(db: Tables): (m: map<string, bool>)
    ensures forall a :: a in m <==> exists k :: 0 <= k < |db.songData| && db.songData[k].song.artist == a
    ensures forall a :: a in m ==> m[a]
  {
    FilterArtistOf(db.songData)
  }

  /** Whether the filter lets a row's artist through: present in the map and mapped to `true`. */
  predicate Allowed(fa: map<string, bool>, artist: string)
  {
    artist in fa && fa[artist]
  }

  /** `filter`: the rows whose artist the map switches on, in their order. */
  function FilterRows(rows: seq<SongDataNone>, fa: map<string, bool>): (r: seq<SongDataNone>)
    ensures |r| <= |rows|
    ensures forall x :: x in r <==> x in rows && Allowed(fa, x.artist)
  {
    if rows == [] then []
    else
      assert forall x :: x in rows <==> x == rows[0] || x in rows[1..] by {
        assert rows == [rows[0]] + rows[1..];
      }
      (if Allowed(fa, rows[0].artist) then [rows[0]] else []) + FilterRows(rows[1..], fa)
  }

  /** Filtering distributes over concatenation, so kept rows keep their relative order. */
  lemma {:induction false} FilterAppend(a: seq<SongDataNone>, b: seq<SongDataNone>, fa: map<string, bool>)
    ensures FilterRows(a + b, fa) == FilterRows(a, fa) + FilterRows(b, fa)
  {
    if a == [] {
      assert a + b == b;
    } else {
      assert (a + b)[0] == a[0] && (a + b)[1..] == a[1..] + b;
      FilterAppend(a[1..], b, fa);
    }
  }

  /** Filtering twice with the same map is filtering once. */
  lemma {:induction false} FilterIdempotent(rows: seq<SongDataNone>, fa: map<string, bool>)
    ensures FilterRows(FilterRows(rows, fa), fa) == FilterRows(rows, fa)
  {
    if rows != [] {
      FilterIdempotent(rows[1..], fa);
      var head := if Allowed(fa, rows[0].artist) then [rows[0]] else [];
      FilterAppend(head, FilterRows(rows[1..], fa), fa);
    }
  }

  /** Rows whose artists are all switched on pass unchanged. */
  lemma {:induction false} FilterKeepsAllowed(rows: seq<SongDataNone>, fa: map<string, bool>)
    requires forall i :: 0 <= i < |rows| ==> Allowed(fa, rows[i].artist)
    ensures FilterRows(rows, fa) == rows
  {
    if rows != [] {
      assert forall i :: 0 <= i < |rows[1..]| ==> rows[1..][i] == rows[i + 1];
      FilterKeepsAllowed(rows[1..], fa);
      assert rows == [rows[0]] + rows[1..];
    }
  }

  /** With the map built at start-up, the filter removes nothing from the ungrouped view, in any
      order: every played song's artist is in the catalogue. */
  lemma InitialFilterKeepsAll(db: Tables, rows: seq<SongDataNone>)
    requires multiset(rows) == multiset(GetDataVecNone(db))
    ensures FilterRows(rows, GetFilterArtist(db)) == rows
  {
    var fa := GetFilterArtist(db);
    var v := GetDataVecNone(db);
    NoneViewRows(db);
    forall i | 0 <= i < |rows|
      ensures Allowed(fa, rows[i].artist)
    {
      assert rows[i] in multiset(v);
      var k :| 0 <= k < |v| && v[k] == rows[i];
      CataloguedArtist(db, v, k);
    }
    FilterKeepsAllowed(rows, fa);
  }

  lemma CataloguedArtist(db: Tables, v: seq<SongDataNone>, k: nat)
    requires v == GetDataVecNone(db) && k < |v|
    requires forall song :: HasKey(NoneTotals(v), song) <==> SongPlayed(db, song)
    ensures Allowed(GetFilterArtist(db), v[k].artist)
  {
    var song := SongData(v[k].artist, v[k].album, v[k].title);
    assert NoneTotals(v)[k].0 == song;
    assert SongPlayed(db, song);
    var s, p :| s in db.songData && p in db.songPlays && s.id == p.id && s.song == song;
    var n :| 0 <= n < |db.songData| && db.songData[n] == s;
    assert db.songData[n].song.artist == v[k].artist;
  }

  /** Some catalogue row of `db` has this artist. */
  ghost predicate Catalogued(db: Tables, artist: string)
  {
    exists k :: 0 <= k < |db.songData| && db.songData[k].song.artist == artist
  }

  /** The map is built once, from the file as it was at start-up (`db0`), and never rebuilt: applied
      to any rows, it keeps exactly those whose artist that file already catalogued. */
  lemma StaleFilterKeepsKnownArtists(db0: Tables, rows: seq<SongDataNone>)
    ensures forall x :: x in FilterRows(rows, GetFilterArtist(db0)) <==> x in rows && Catalogued(db0, x.artist)
  {
  }

  /** A refresh from a later file (`db1`) loses nothing to the start-up map as long as the later
      file catalogues no artist the start-up file did not. */
  lemma RefreshedFilterKeepsAll(db0: Tables, db1: Tables, rows: seq<SongDataNone>)
    requires multiset(rows) == multiset(GetDataVecNone(db1))
    requires forall a :: Catalogued(db1, a) ==> Catalogued(db0, a)
    ensures FilterRows(rows, GetFilterArtist(db0)) == rows
  {
    var fa := GetFilterArtist(db0);
    var v := GetDataVecNone(db1);
    NoneViewRows(db1);
    forall i | 0 <= i < |rows|
      ensures Allowed(fa, rows[i].artist)
    {
      assert rows[i] in multiset(v);
      var k :| 0 <= k < |v| && v[k] == rows[i];
      CataloguedArtist(db1, v, k);
      assert Catalogued(db1, rows[i].artist);
    }
    FilterKeepsAllowed(rows, fa);
  }

  /** Otherwise rows are lost: starting from an empty file, the daemon's first commit gives the
      file `db1` (`Daemon.FirstCommitFromEmpty`), the refreshed view has one row, and the map
      built at start-up, which is empty, filters it out. */
  lemma NewArtistFilteredAfterRefresh(song: SongData, date: string)
    ensures var db1 := Tables([SongRow(1, song)], 2, [PlayRow(1, date, 1)]);
      && |GetDataVecNone(db1)| == 1
      && FilterRows(GetDataVecNone(db1), GetFilterArtist(Empty)) == []
  {
    var db1 := Tables([SongRow(1, song)], 2, [PlayRow(1, date, 1)]);
    var v := GetDataVecNone(db1);
    assert Joined(db1.songData, db1.songPlays) == [(SongRow(1, song), PlayRow(1, date, 1))];
    assert SongPairs(db1) == [(song, 1)];
    assert GroupKeys(SongPairs(db1)) == [song];
    assert Total(SongPairs(db1), song) == 1 by {
      assert SongPairs(db1)[1..] == [];
    }
    assert Grouped(SongPairs(db1))[0] == (song, 1);
    assert Grouped(SongPairs(db1)) == [(song, 1)];
    assert Aggregate(SongPairs(db1)) == [(song, 1)];
  }

  /** An artist switched off, or missing from the map, loses every one of its rows. */
  lemma FilterDropsDisallowed(rows: seq<SongDataNone>, fa: map<string, bool>, artist: string)
    requires !Allowed(fa, artist)
    ensures forall x :: x in FilterRows(rows, fa) ==> x.artist != artist
  {
  }
}
