/** What both binaries read from a media player's `TrackChanged` event: the track metadata,
    whose accessors (`artists()`, `album_name()`, `title()`) may each come back empty. */
module Mpris {
  import opened Prelude

  datatype Metadata = Metadata(artists: Option<seq<string>>, album: Option<string>, title: Option<string>)

  /** Whether every accessor has a value, so that unwrapping them does not panic. */
  predicate Complete(data: Metadata)
  {
    data.artists.Some? && data.album.Some? && data.title.Some?
  }

  /** The artist string both binaries store: the performers joined with " / ". */
  function JoinedArtists(data: Metadata): string
    requires data.artists.Some?
  {
    Join(data.artists.value, " / ")
  }
}
