/** The types and the constant shared by the daemon and the viewer (src/lib.rs). */
module Lib {

  /** Minimum number of seconds between two track changes for the earlier track to count as played. */
  const MIN_PLAYTIME: int := 10

  type u32 = x: int | 0 <= x < 0x1_0000_0000

  /** A track identity: artists (already joined), album and title. */
  datatype SongData = SongData(artist: string, album: string, title: string)

  /** `SongData::default()`: every string field empty. */
  function DefaultSongData(): (d: SongData)
    ensures |d.artist| == |d.album| == |d.title| == 0
  {
    SongData("", "", "")
  }

  /** A song with its play count, both as text and as a number. */
  datatype SongDataPlays = SongDataPlays(songData: SongData, plays: string, playsU32: u32) {

    function Artist(): string { songData.artist }
    function Album(): string { songData.album }
    function Title(): string { songData.title }
    function Plays(): string { plays }

    /** `ref_array_date`: the four cells artist, album, title and play text, in that order. */
    function RefArrayDate(): (cells: seq<string>)
      ensures cells == [songData.artist, songData.album, songData.title, plays]
    {
      [Artist(), Album(), Title(), Plays()]
    }

    /** `ref_array_artist`: the two cells artist and play text, in that order. */
    function RefArrayArtist(): (cells: seq<string>)
      ensures cells == [songData.artist, plays]
    {
      [Artist(), Plays()]
    }

    /** `ref_array_album`: the two cells album and play text, in that order. */
    function RefArrayAlbum(): (cells: seq<string>)
      ensures cells == [songData.album, plays]
    {
      [Album(), Plays()]
    }
  }

  /** The accessors read exactly the nested fields: rebuilding from them gives the value back. */
  lemma AccessorsRebuild(p: SongDataPlays)
    ensures SongDataPlays(SongData(p.Artist(), p.Album(), p.Title()), p.Plays(), p.playsU32) == p
  {
  }

  /** The four cells determine song and play text, and are determined by them. */
  lemma RefArrayDateFaithful(p: SongDataPlays, q: SongDataPlays)
    ensures p.RefArrayDate() == q.RefArrayDate() <==> p.songData == q.songData && p.plays == q.plays
  {
    if p.RefArrayDate() == q.RefArrayDate() {
      assert p.RefArrayDate()[0] == q.RefArrayDate()[0];
      assert p.RefArrayDate()[1] == q.RefArrayDate()[1];
      assert p.RefArrayDate()[2] == q.RefArrayDate()[2];
      assert p.RefArrayDate()[3] == q.RefArrayDate()[3];
    }
  }

  /** The two artist cells determine artist and play text, and are determined by them. */
  lemma RefArrayArtistFaithful(p: SongDataPlays, q: SongDataPlays)
    ensures p.RefArrayArtist() == q.RefArrayArtist() <==> p.Artist() == q.Artist() && p.plays == q.plays
  {
    if p.RefArrayArtist() == q.RefArrayArtist() {
      assert p.RefArrayArtist()[0] == q.RefArrayArtist()[0];
      assert p.RefArrayArtist()[1] == q.RefArrayArtist()[1];
    }
  }

  /** The two album cells determine album and play text, and are determined by them. */
  lemma RefArrayAlbumFaithful(p: SongDataPlays, q: SongDataPlays)
    ensures p.RefArrayAlbum() == q.RefArrayAlbum() <==> p.Album() == q.Album() && p.plays == q.plays
  {
    if p.RefArrayAlbum() == q.RefArrayAlbum() {
      assert p.RefArrayAlbum()[0] == q.RefArrayAlbum()[0];
      assert p.RefArrayAlbum()[1] == q.RefArrayAlbum()[1];
    }
  }
}
