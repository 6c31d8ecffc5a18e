# mpressed: a Dafny model of the play tracker and its viewer

mpressed records which songs an MPRIS media player plays, in a SQLite file, and shows the totals in a terminal viewer.
This project models the logic of the three programs and of their shared types.

- **The tracker daemon** (`Daemon`, over `Store` and `Mpris`).
  - It watches the player's event stream.
  - On every track change, it credits the *previous* track with one play, on the date read at that change.
  - A track is credited only when strictly more than `MIN_PLAYTIME` (10) seconds of wall-clock time have passed since the previous track change.
  - The catalogue table `song_data` is insert-or-ignore under UNIQUE(artist, album, title).
  - The play table `song_plays` is update-then-insert under UNIQUE(id, date).
  - The model has two forms: a class, `Daemon.EventHandler`, whose methods run the SQL statements in the source's order, and the pure step function `Daemon.StepSpec`. The methods are proved equal to `StepSpec`.
  - The lemmas prove the table invariants, one play per commit, and the scenarios below.
- **The legacy recorder** (`Legacy`). It uses one table without constraints and counts the *new* track at once, by lookup-then-insert-or-increment. It is proved to keep one row per (date, artist, album, title).
- **The viewer's non-rendering state** (`ClientRows`, `ClientSort`, `ClientQueries`, `ClientState`):
  - the four aggregated views (`SUM … GROUP BY … ORDER BY SUM DESC`);
  - the artist filter;
  - the cyclic tab cursor and the clamped group cursor;
  - the sort priority list and its two edits;
  - the `sort_data` procedure. It runs one stable `sort_by` per priority entry. It is proved equal to a single sort by the compound key in which the *last* entry dominates.
- **The shared types** (`Lib`), with their accessors and cell projections.

Both tables are sequences of rows in rowid order. An INSERT appends and an UPDATE rewrites a row in place. The UNIQUE constraints SQLite enforces are the predicate `Store.Consistent`. The clock and the date are read by the handler at each track change, so each `TrackChanged` event carries them. An `unwrap` that fails in the source is the outcome `Panicked`.

Behaviour of the code worth noting:
- The 10-second threshold measures the time between two track-change events, not accumulated playing time.
- The play is credited to the date of the *next* track change (`Daemon.CreditedAtNextChange`).
- `TuiState::new` does not sort the ungrouped view; only `update_data`, `sort_select` and `sort_reverse` do.
- `filter` does not reset the selection or the scroll bar.
- The artist filter map is built once, in `TuiState::new`. Neither `update_data` nor the empty `update_filter_artist` rebuilds it, so after a refresh `filter` drops every row whose artist was catalogued after start-up (`ClientQueries.NewArtistFilteredAfterRefresh`).

A consequence of the code shows up in the model:
- When nothing is tracked yet (the start of a stream) and the clock reads at most 10 seconds, the skip branch unwraps an empty `song_option` and panics (`Daemon.FirstTrackChange`).
- Also, any track-change event whose metadata lacks artists, album or title panics, after `track_last_changed` is updated.

## Model

| member | source | states |
|---|---|---|
| Lib.DefaultSongData | src/lib.rs:4-9 | the default song has all three fields empty |
| Lib.AccessorsRebuild | src/lib.rs:31-45 | `artist()`, `album()`, `title()` read the nested song fields and `plays()` the play text: rebuilding from them gives the value back |
| Lib.SongDataPlays.RefArrayDate | src/lib.rs:19-21 | the cells are artist, album, title and play text, in that order |
| Lib.SongDataPlays.RefArrayArtist | src/lib.rs:23-25 | the cells are artist and play text, in that order |
| Lib.SongDataPlays.RefArrayAlbum | src/lib.rs:27-29 | the cells are album and play text, in that order |
| Lib.RefArrayDateFaithful | src/lib.rs:19-21 | two values give equal cells exactly when their songs and play texts are equal |
| Lib.RefArrayArtistFaithful | src/lib.rs:23-25 | two values give equal artist cells exactly when their artists and play texts are equal |
| Lib.RefArrayAlbumFaithful | src/lib.rs:27-29 | two values give equal album cells exactly when their albums and play texts are equal |
| Prelude.CmpStr | src/client/bin/main.rs:321-323 | string comparison is `Equal` exactly for equal strings |
| Prelude.CmpStrFlip | src/client/bin/main.rs:321-323 | swapping the operands of a string comparison reverses the answer |
| Prelude.CmpStrTrans | src/client/bin/main.rs:321-323 | "not greater" on strings is transitive |
| Prelude.Join | src/daemon/bin/main.rs:107 | joining no artists gives the empty string; otherwise the length is the parts plus separators, and the first artist comes first |
| Prelude.DecimalString | src/client/bin/main.rs:35 | `to_string` of a count is one or more decimal digits without a leading zero |
| Prelude.DecimalRoundTrip | src/client/bin/main.rs:35 | parsing the printed count gives the count back |
| Prelude.DecimalStringInjective | src/client/bin/main.rs:35 | two counts print alike exactly when they are equal |
| Store.FindSong | src/daemon/bin/main.rs:78-81 | the first catalogue row holding the song, or none when no row holds it |
| Store.SelectId | src/daemon/bin/main.rs:78-81 | `SELECT ID … LIMIT 1` is some id exactly when a catalogue row holds the song, and that id is such a row's |
| Store.InsertOrIgnoreSong | src/daemon/bin/main.rs:74-76 | a catalogued song leaves the rows as they are, a new one is appended under the counter's value; the AUTOINCREMENT counter advances either way, the select then finds the song, play rows are untouched |
| Store.FindPlay | src/daemon/bin/main.rs:83-86 | the first play row of (id, date), or none |
| Store.CountPlays | src/daemon/bin/main.rs:83-87 | the UPDATE's row count is zero exactly when no row holds (id, date) |
| Store.UpdatePlays | src/daemon/bin/main.rs:83-86 | exactly the rows of (id, date) gain one play; all others are unchanged |
| Store.InsertPlay | src/daemon/bin/main.rs:88-95 | the INSERT fails exactly when UNIQUE(id, date) already holds the pair, and otherwise appends a row |
| Store.CountPlaysAtMostOne | src/daemon/bin/main.rs:23-28 | under UNIQUE(id, date) an UPDATE touches at most one row |
| Daemon.EventHandler.constructor | src/daemon/bin/main.rs:56-57 | the handler starts with nothing tracked and the last change at 0 |
| Daemon.EventHandler.CommitSong | src/daemon/bin/main.rs:71-97 | the four SQL statements, run in order, have exactly the effect of `Commit` |
| Daemon.EventHandler.Step | src/daemon/bin/main.rs:59-116 | one loop turn changes the locals and tables as `StepSpec` says, and keeps the table constraints |
| Daemon.EventHandler.Run | src/daemon/bin/main.rs:59-116 | the whole `for` loop ends in the state and outcome `RunSpec` gives |
| Daemon.SqlCommitIsCommit | src/daemon/bin/main.rs:74-96 | under the constraints, insert-or-ignore, select, update and conditional insert equal `Commit` |
| Daemon.SqlCreditIsCredit | src/daemon/bin/main.rs:83-96 | the update, then the insert when no row was updated, credit exactly one play |
| Daemon.CommitPreservesConsistent | src/daemon/bin/main.rs:14-28 | a commit keeps ids below the AUTOINCREMENT counter and distinct, songs distinct, (id, date) distinct |
| Daemon.CommitPreservesValid | src/daemon/bin/main.rs:74-96 | a commit keeps every play count positive and tied to a catalogued song |
| Daemon.CreditKeepsKeysUnique | src/daemon/bin/main.rs:88-95 | crediting keeps (id, date) unique |
| Daemon.CreditCountsOne | src/daemon/bin/main.rs:83-96 | crediting raises the plays of (id, date) by exactly one and leaves every other key and row as it was |
| Daemon.FindPlayUnique | src/daemon/bin/main.rs:23-28 | under UNIQUE(id, date) the row holding a key is the one the lookup finds |
| Daemon.CommitCatalog | src/daemon/bin/main.rs:74-81 | after a commit exactly one row holds the song; an existing id is reused, a new song gets the counter's value, no earlier row changes, and the counter advances even when the insert is ignored |
| Daemon.CommitCreditsOnePlay | src/daemon/bin/main.rs:83-96 | a commit raises the song's plays on the commit date by one and changes no other (id, date) count |
| Daemon.CommitSameDate | src/daemon/bin/main.rs:74-96 | committing one song n times on one date gives one catalogue row and one play row with n plays, and uses up n ids |
| Daemon.FirstCommitFromEmpty | src/daemon/bin/main.rs:74-96 | the first commit into an empty file catalogues the song under id 1 with one play row of one play |
| Daemon.IgnoredInsertUsesAnId | src/daemon/bin/main.rs:74-76 | after one song is committed twice, a new song receives id 3, because the ignored insert used up id 2 |
| Daemon.CommitTwoDates | src/daemon/bin/main.rs:74-96 | one song committed on two dates gives one catalogue row and two play rows of one play each |
| Daemon.FirstTrackChange | src/daemon/bin/main.rs:56-111 | the first track change commits nothing and starts tracking; it panics when the clock reads at most 10 s |
| Daemon.CommitIffGap | src/daemon/bin/main.rs:70-101 | a tracked song is committed, on this change's date, exactly when more than MIN_PLAYTIME seconds have passed; otherwise the tables are unchanged |
| Daemon.TrackChangeTracksNewSong | src/daemon/bin/main.rs:103-111 | after a track change the change time is recorded and the new track, artists joined with " / ", is tracked |
| Daemon.OtherEventsChangeNothing | src/daemon/bin/main.rs:113-114 | events other than a track change change nothing; a stream error aborts |
| Daemon.ErrorEndsWithoutCommit | src/daemon/bin/main.rs:60-63 | a stream error ends the handler with the tracked song uncommitted |
| Daemon.CreditedAtNextChange | src/daemon/bin/main.rs:66-111 | the play of a song is credited to the date read when the next track starts |
| Daemon.RunPreservesValid | src/daemon/bin/main.rs:59-116 | the handler keeps the database invariant across a whole stream |
| Legacy.FindKey | src/main.rs:63-64 | the first row with the (date, artist, album, title) key, or none |
| Legacy.IncrementAll | src/main.rs:79-81 | the UPDATE raises the count of exactly the rows of the key |
| Legacy.Recorder.Lookup | src/main.rs:63-72 | `is_empty` stays true exactly when no row has the key |
| Legacy.Recorder.Record | src/main.rs:74-82 | insert with count 1 when the lookup found nothing, else increment, as `RecordSpec` |
| Legacy.Recorder.EventLoop | src/main.rs:51-91 | the loop's table and outcome are `LoopSpec`'s |
| Legacy.RecordCountsOne | src/main.rs:63-82 | recording raises the key's count by exactly one, leaves other keys and rows alone, and grows the table by at most one row |
| Legacy.RecordInsertsNew | src/main.rs:74-77 | a new key is appended with count one |
| Legacy.RecordIncrementsExisting | src/main.rs:78-82 | an existing key's row gains exactly one, in place |
| Legacy.RecordKeepsUniqueKeys | src/main.rs:63-82 | lookup-before-insert keeps one row per key although the table declares no UNIQUE constraint |
| Legacy.FindKeyUnique | src/main.rs:63-64 | with unique keys the row holding a key is the one the lookup finds |
| Legacy.LoopKeepsUniqueKeys | src/main.rs:51-91 | over a whole stream the table keeps one row per key |
| Legacy.TrackChangeRecordsNewTrack | src/main.rs:54-89 | a track change records the new track under today's date and artists joined " / "; an error stops; other events do nothing |
| ClientRows.NewSongDataNone | src/client/bin/main.rs:31-39 | the row keeps its fields and its play text is decimal digits that read back as the count |
| ClientRows.NewSongDataDate | src/client/bin/main.rs:74-80 | the same for a date row |
| ClientRows.NewSongDataArtist | src/client/bin/main.rs:95-101 | the same for an artist row |
| ClientRows.NewSongDataAlbum | src/client/bin/main.rs:116-122 | the same for an album row |
| ClientSort.KeyCmpFlip | src/client/bin/main.rs:320-328 | swapping the operands of one priority entry's comparison reverses it |
| ClientSort.KeyCmpTrans | src/client/bin/main.rs:320-328 | one entry's comparison is a transitive preorder |
| ClientSort.ReversedFlagSwapsOperands | src/client/bin/main.rs:327 | a `true` flag compares as the swapped operands do, i.e. sorts that column descending |
| ClientSort.LexTrans | src/client/bin/main.rs:317-330 | the compound comparison is transitive |
| ClientSort.SortPerm | src/client/bin/main.rs:320 | a stable sort pass is a permutation of its input |
| ClientSort.SortSorted | src/client/bin/main.rs:320 | a stable sort pass leaves the rows ordered by its key |
| ClientSort.ClsSort | src/client/bin/main.rs:320 | a stable sort keeps the order of the rows that compare equal |
| ClientSort.StableSortUnique | src/client/bin/main.rs:320 | two ordered sequences with the same equal-element orders are equal, so Rust's choice of stable algorithm does not matter |
| ClientSort.StablePass | src/client/bin/main.rs:318-329 | a stable pass by d after a sort by R equals the sort by d then R |
| ClientSort.SortPassesIsCompound | src/client/bin/main.rs:317-330 | the passes over the priority list equal one sort by the reversed list: the last entry dominates, the first is the weakest tie-break |
| ClientSort.SortPassesSortsAndPermutes | src/client/bin/main.rs:317-330 | `sort_data` yields a permutation, lexicographically ordered by the reversed priority list, stable on ties |
| ClientQueries.Grouped | src/client/bin/main.rs:276 | one entry per distinct group, with `SUM(plays)` of that group |
| ClientQueries.SortDesc | src/client/bin/main.rs:276 | `ORDER BY SUM(plays) DESC` is a permutation of the entries (same multiset) with non-increasing totals |
| ClientQueries.AggregateIsAggregation | src/client/bin/main.rs:276 | the query result has distinct groups, exactly the groups that occur, each with its exact total, largest first |
| ClientQueries.Joined | src/client/bin/main.rs:276 | the JOIN holds exactly the pairs of rows with equal ids, each as many times as the product of the two rows' occurrences |
| ClientQueries.GetDataVecNone | src/client/bin/main.rs:273-282 | the ungrouped view is an aggregation of the joined (song, plays) pairs, with decimal play text |
| ClientQueries.GetDataVecDate | src/client/bin/main.rs:284-293 | the date view is an aggregation of the (date, plays) pairs of `song_plays`, with no join |
| ClientQueries.GetDataVecArtist | src/client/bin/main.rs:295-304 | the artist view is an aggregation of the joined (artist, plays) pairs |
| ClientQueries.GetDataVecAlbum | src/client/bin/main.rs:306-315 | the album view is an aggregation of the joined (album, plays) pairs |
| ClientQueries.NoneViewRows | src/client/bin/main.rs:273-282 | the ungrouped view lists exactly the catalogued songs that have a play row |
| ClientQueries.DateViewRows | src/client/bin/main.rs:284-293 | the date view lists exactly the dates with a play row |
| ClientQueries.ArtistViewRows | src/client/bin/main.rs:295-304 | the artist view lists exactly the artists of played catalogued songs |
| ClientQueries.AlbumViewRows | src/client/bin/main.rs:306-315 | the album view lists exactly the albums of played catalogued songs |
| ClientQueries.GetFilterArtist | src/client/bin/main.rs:344-353 | the filter map has exactly the catalogued artists as keys, all switched on |
| ClientQueries.FilterRows | src/client/bin/main.rs:373-376 | a row is kept exactly when its artist is in the map and maps to `true` |
| ClientQueries.FilterAppend | src/client/bin/main.rs:373-376 | filtering distributes over concatenation, so the order of kept rows is preserved |
| ClientQueries.FilterIdempotent | src/client/bin/main.rs:373-376 | filtering twice equals filtering once |
| ClientQueries.FilterKeepsAllowed | src/client/bin/main.rs:373-376 | rows whose artists are all switched on pass unchanged |
| ClientQueries.InitialFilterKeepsAll | src/client/bin/main.rs:344-353 | with the start-up map, filtering any ordering of the ungrouped view removes nothing |
| ClientQueries.FilterDropsDisallowed | src/client/bin/main.rs:374 | an artist that is absent or switched off loses all its rows |
| ClientQueries.StaleFilterKeepsKnownArtists | src/client/bin/main.rs:373-376 | with the map built once from the start-up file, filtering keeps exactly the rows whose artist that file catalogued |
| ClientQueries.RefreshedFilterKeepsAll | src/client/bin/main.rs:247 | the start-up map removes nothing from any ordering of a view refreshed from a later file, when that file catalogues no new artist |
| ClientQueries.NewArtistFilteredAfterRefresh | src/client/bin/main.rs:247 | from an empty start-up file, after the daemon's first commit the refreshed view has one row and the stale, empty map filters it out |
| ClientState.SelectedTabCycle | src/client/bin/main.rs:159-177 | `next` steps round a cycle of four, `prev` is its inverse, four `next`s return to the start |
| ClientState.SelectedTabOrder | src/client/bin/main.rs:168-175 | `next` visits Table, Group, Sort, Filter, Table |
| ClientState.GroupClamped | src/client/bin/main.rs:179-197 | `next`/`prev` are an increment/decrement clamped to None..Album, inverse away from the ends |
| ClientState.GroupOrder | src/client/bin/main.rs:179-197 | `next` walks None, Date, Artist, Album and stays at Album; `prev` stays at None |
| ClientState.Display | src/client/bin/main.rs:451-455 | panel row i shows priority entry len-1-i |
| ClientState.MoveToEnd | src/client/bin/main.rs:762-764 | `remove` then `push`: a permutation with the entry last and the others in their order |
| ClientState.Toggle | src/client/bin/main.rs:770-771 | only the chosen entry's flag flips |
| ClientState.InitialIsPriorityList | src/client/bin/main.rs:234 | the initial list has four entries with distinct columns |
| ClientState.PriorityListNamesAll | src/client/bin/main.rs:234 | such a list names every column |
| ClientState.SortSelectMovesToTop | src/client/bin/main.rs:760-766 | selecting row `selected` moves entry len-selected-1 to the end, where it shows first and dominates; the list stays a permutation of four distinct columns |
| ClientState.SortReverseFlipsOne | src/client/bin/main.rs:768-773 | reversing flips the flag of the selected row only and keeps every column |
| ClientState.TuiState.constructor | src/client/bin/main.rs:220-250 | the four views as queried, the initial priorities, no grouping, Table tab, first row, scroll length of the ungrouped view, the start-up filter map |
| ClientState.TuiState.SortData | src/client/bin/main.rs:317-330 | the loop of passes, which equals the compound sort by the reversed priority list and is a permutation |
| ClientState.TuiState.SortSelect | src/client/bin/main.rs:760-766 | the entry moves to the end and the rows are re-sorted; the priority list invariant is kept |
| ClientState.TuiState.SortReverse | src/client/bin/main.rs:768-773 | the flag flips and the rows are re-sorted; the invariant is kept |
| ClientState.TuiState.Filter | src/client/bin/main.rs:359-377 | the ungrouped view keeps the rows the map allows |
| ClientState.TuiState.ScrollReset | src/client/bin/main.rs:789-798 | the scroll length is the row count of the current group's view |
| ClientState.TuiState.UpdateData | src/client/bin/main.rs:332-342 | only the current group's view is reloaded, the ungrouped view is sorted, the first row is selected and the scroll length reset |
| ClientState.TuiState.Reload | src/client/bin/main.rs:333-338 | exactly the current group's vector is re-queried; the other three keep their contents |
| ClientState.TuiState.GroupPrev | src/client/bin/main.rs:775-780 | previous group, first row, scroll length reset |
| ClientState.TuiState.GroupNext | src/client/bin/main.rs:782-787 | next group, first row, scroll length reset |
| ClientState.TuiState.SelectedTabPrev | src/client/bin/main.rs:724-726 | the tab moves back one step |
| ClientState.TuiState.SelectedTabNext | src/client/bin/main.rs:728-730 | the tab moves on one step |
| ClientState.TuiState.Exit | src/client/bin/main.rs:720-722 | the exit flag is set |
| ClientState.RefreshedViewSortedAndComplete | src/client/bin/main.rs:332-342 | a view refreshed from the current file is a permutation of its played songs, ordered by the reversed priority list; the filter map built from the start-up file keeps all of it when the current file catalogues no artist the start-up file did not |

## Left out

- The D-Bus connection, player discovery and reconnection (`player_loop`, `PlayerFinder`) are left out: they are I/O. The event stream is an input sequence.
- Reading the clock and the date (`Local::now`) is left out: the values are carried by each track-change event.
- rusqlite connection handling, schema creation and the `expect` panics on SQL errors are left out: the statements are modelled by their effect on the tables and assumed to succeed.
- Daemon.EventHandler.Step: does not model the `i64` overflow of `current_time - track_last_changed`, because the clock values are unbounded integers here.
- ClientQueries.GetDataVecNone: does not model the `u32` conversion of `SUM(plays)`, which would err and panic when a total exceeds 4294967295. The same holds for the date, artist and album views; totals are unbounded.
- ClientQueries.Aggregate: SQLite leaves the order of equal totals unspecified; the model lists them in order of first appearance. The properties proved hold for any order of ties.
- ClientQueries.GetDataVecNone: `GROUP BY song_data.id` is modelled as grouping by the (artist, album, title) triple. Under UNIQUE(artist, album, title) and distinct ids the two groupings are the same.
- Rendering, layout, the charts (`render_*`, `render_line_chart_date`, `render_bar_chart`), terminal setup and key decoding (`handle_events`) are left out: they are UI. `date_to_unix` and `get_db_path` are not part of this model.
- The widget-state internals are left out: `ListState`, `TableState`, `ScrollbarState`. This covers `table_up/down/start/end`, `sort_prev/next` and `group_state`. The selected table row is a plain index, and only its reset to 0 is modelled. The scroll bar is its content length. The sort panel's selected row is a parameter of `SortSelect` and `SortReverse`.
- ClientState.TuiState.SortSelect: requires the selected row to be within the list. The list widget clamps its selection to the four rows when drawing, so the source relies on this too. Outside it, the `usize` subtraction or `remove` panics.
- `update_filter_artist` is left out: its body is empty.
- The daemon's console logging (the `println!` calls for errors, commits, new songs and skipped songs) is left out: it is output only and changes no state.
- The legacy recorder's `count` column is an unbounded count; SQLite's INTEGER overflow is not modelled.
