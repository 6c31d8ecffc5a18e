/** The row types of the viewer's four tables (src/client/bin/main.rs:21-127): each keeps its
    play total both as a number, for sorting, and as the text shown in the table. */
module ClientRows {
  import opened Prelude

  /** A row of the ungrouped view. */
  datatype SongDataNone = SongDataNone(artist: string, album: string, title: string, playsString: string, plays: nat)

  /** A row of the per-date view. */
  datatype SongDataDate = SongDataDate(date: string, playsString: string, plays: nat)

  /** A row of the per-artist view. */
  datatype SongDataArtist = SongDataArtist(artist: string, playsString: string, plays: nat)

  /** A row of the per-album view. */
  datatype SongDataAlbum = SongDataAlbum(album: string, playsString: string, plays: nat)

  /** `SongDataNone::new`: the text column is the decimal form of the count, which reads back as the count. */
  function NewSongDataNone(artist: string, album: string, title: string, plays: nat): (r: SongDataNone)
    ensures r.artist == artist && r.album == album && r.title == title && r.plays == plays
    ensures Digits(r.playsString) && ParseDecimal(r.playsString) == plays
  {
    DecimalRoundTrip(plays);
    SongDataNone(artist, album, title, DecimalString(plays), plays)
  }

  /** `SongDataDate::new`. */
  function NewSongDataDate(date: string, plays: nat): (r: SongDataDate)
    ensures r.date == date && r.plays == plays
    ensures Digits(r.playsString) && ParseDecimal(r.playsString) == plays
  {
    DecimalRoundTrip(plays);
    SongDataDate(date, DecimalString(plays), plays)
  }

  /** `SongDataArtist::new`. */
  function NewSongDataArtist(artist: string, plays: nat): (r: SongDataArtist)
    ensures r.artist == artist && r.plays == plays
    ensures Digits(r.playsString) && ParseDecimal(r.playsString) == plays
  {
    DecimalRoundTrip(plays);
    SongDataArtist(artist, DecimalString(plays), plays)
  }

  /** `SongDataAlbum::new`. */
  function NewSongDataAlbum(album: string, plays: nat): (r: SongDataAlbum)
    ensures r.album == album && r.plays == plays
    ensures Digits(r.playsString) && ParseDecimal(r.playsString) == plays
  {
    DecimalRoundTrip(plays);
    SongDataAlbum(album, DecimalString(plays), plays)
  }
}
