/** The viewer's state (src/client/bin/main.rs:129-213) and the methods that change it
    (src/client/bin/main.rs:220-250, 317-377, 720-798), without rendering and key decoding.
    Widget cursors are reduced to what these methods set: the selected table row and the length
    of the scroll bar. The selected entry of the sort panel is passed to the methods that read it. */
module ClientState {
  import opened Prelude
  import opened Store
  import opened ClientRows
  import opened ClientSort
  import opened ClientQueries

  /** The focused panel; `next` visits them in the on-screen order Table, Group, Sort, Filter. */
  datatype SelectedTab = Table | Sort | Group | Filter {

    /** `SelectedTab::prev`. */
    function Prev(): SelectedTab
    {
      match this
      case Table => SelectedTab.Filter
      case Group => SelectedTab.Table
      case Sort => SelectedTab.Group
      case Filter => SelectedTab.Sort
    }

    /** `SelectedTab::next`. */
    function Next(): SelectedTab
    {
      match this
      case Table => SelectedTab.Group
      case Group => SelectedTab.Sort
      case Sort => SelectedTab.Filter
      case Filter => SelectedTab.Table
    }

    /** Position in the cycle of `next`. */
    function Position(): nat
    {
      match this
      case Table => 0
      case Group => 1
      case Sort => 2
      case Filter => 3
    }
  }

  /** The grouping of the table. */
  datatype Group = None | Date | Artist | Album {

    /** `Group::prev`: one step towards `None`, staying there. */
    function Prev(): Group
    {
      match this
      case None => Group.None
      case Date => Group.None
      case Artist => Group.Date
      case Album => Group.Artist
    }

    /** `Group::next`: one step towards `Album`, staying there. */
    function Next(): Group
    {
      match this
      case None => Group.Date
      case Date => Group.Artist
      case Artist => Group.Album
      case Album => Group.Album
    }

    /** Position in the group list shown on screen. */
    function Index(): nat
    {
      match this
      case None => 0
      case Date => 1
      case Artist => 2
      case Album => 3
    }
  }

  /** `next` moves one step round a cycle of four, and `prev` one step back. */
  lemma SelectedTabCycle(t: SelectedTab)
    ensures t.Next().Position() == (t.Position() + 1) % 4
    ensures t.Prev().Position() == (t.Position() + 3) % 4
    ensures t.Next().Prev() == t && t.Prev().Next() == t
    ensures t.Next().Next().Next().Next() == t
    ensures t != t.Next() && t != t.Next().Next() && t != t.Next().Next().Next()
  {
  }

  /** The tab cycle from the initial tab: Table, Group, Sort, Filter, Table. */
  lemma SelectedTabOrder()
    ensures SelectedTab.Table.Next() == SelectedTab.Group
    ensures SelectedTab.Group.Next() == SelectedTab.Sort
    ensures SelectedTab.Sort.Next() == SelectedTab.Filter
    ensures SelectedTab.Filter.Next() == SelectedTab.Table
  {
  }

  /** The group cursor is clamped: no wrap-around at either end. */
  lemma GroupClamped(g: Group)
    ensures g.Next().Index() == if g.Index() == 3 then 3 else g.Index() + 1
    ensures g.Prev().Index() == if g.Index() == 0 then 0 else g.Index() - 1
    ensures g != Group.Album ==> g.Next().Prev() == g
    ensures g != Group.None ==> g.Prev().Next() == g
  {
  }

  /** From the start, `next` walks None, Date, Artist, Album and then stays at Album. */
  lemma GroupOrder()
    ensures Group.None.Next() == Group.Date && Group.Date.Next() == Group.Artist
    ensures Group.Artist.Next() == Group.Album && Group.Album.Next() == Group.Album
    ensures Group.None.Prev() == Group.None
  {
  }

  // ---- the sort priority list ----

  /** The list `new` starts with: title, album and artist ascending, plays descending. */
  const InitialPriority: seq<SortDirection> := [
    SortDirection(Sort.Title, false), SortDirection(Sort.Album, false),
    SortDirection(Sort.Artist, false), SortDirection(Sort.Plays, true)]

  /** Four entries with pairwise different columns, hence every column exactly once. */
  ghost predicate IsPriorityList(p: seq<SortDirection>)
  {
    |p| == 4 && forall i, j :: 0 <= i < j < |p| ==> p[i].field != p[j].field
  }

  /** The sort panel lists the priorities last to first: its row `i` is entry `|p| - 1 - i`. */
  function Display(p: seq<SortDirection>): (d: seq<SortDirection>)
    ensures |d| == |p| && forall i :: 0 <= i < |p| ==> d[i] == p[|p| - 1 - i]
  {
    Reverse(p)
  }

  /** The entry a selected panel row stands for. */
  function EntryIndex(p: seq<SortDirection>, selected: nat): nat
    requires selected < |p|
  {
    |p| - selected - 1
  }

  /** `sort_priority.remove(s)` followed by `push`: entry `s` moves to the end, the others close up
      in their order. */
  function MoveToEnd(p: seq<SortDirection>, s: nat): (r: seq<SortDirection>)
    requires s < |p|
    ensures |r| == |p| && multiset(r) == multiset(p)
    ensures r[|r| - 1] == p[s]
    ensures forall i :: 0 <= i < |r| - 1 ==> r[i] == p[if i < s then i else i + 1]
  {
    assert p == p[..s] + [p[s]] + p[s + 1..];
    p[..s] + p[s + 1..] + [p[s]]
  }

  /** Flipping the flag of entry `s`. */
  function Toggle(p: seq<SortDirection>, s: nat): (r: seq<SortDirection>)
    requires s < |p|
    ensures |r| == |p| && r[s].field == p[s].field && r[s].reversed == !p[s].reversed
    ensures forall i :: 0 <= i < |p| && i != s ==> r[i] == p[i]
  {
    p[s := SortDirection(p[s].field, !p[s].reversed)]
  }

  /** A priority list names every column. */
  lemma PriorityListNamesAll(p: seq<SortDirection>, f: Sort)
    requires IsPriorityList(p)
    ensures exists i :: 0 <= i < |p| && p[i].field == f
  {
    if p[0].field != f && p[1].field != f && p[2].field != f {
      assert p[3].field == f;
    }
  }

  /** The initial list names every column once. */
  lemma InitialIsPriorityList()
    ensures IsPriorityList(InitialPriority)
  {
  }

  /** Selecting a panel row moves its entry to the end of the list, where it dominates the
      sort and shows first in the panel; the others keep their order, and the list still names
      every column once. */
  lemma SortSelectMovesToTop(p: seq<SortDirection>, selected: nat)
    requires IsPriorityList(p) && selected < |p|
    ensures var r := MoveToEnd(p, EntryIndex(p, selected));
      && IsPriorityList(r)
      && Display(r)[0] == Display(p)[selected]
      && multiset(r) == multiset(p)
  {
    var s := EntryIndex(p, selected);
    var r := MoveToEnd(p, s);
    forall i, j | 0 <= i < j < |r|
      ensures r[i].field != r[j].field
    {
      var pi := if i < s then i else i + 1;
      var pj := if j == |r| - 1 then s else if j < s then j else j + 1;
      assert r[i] == p[pi] && r[j] == p[pj] && pi != pj;
    }
  }

  /** Reversing a panel row flips exactly that entry's direction, so the list still names every
      column once. */
  lemma SortReverseFlipsOne(p: seq<SortDirection>, selected: nat)
    requires IsPriorityList(p) && selected < |p|
    ensures var r := Toggle(p, EntryIndex(p, selected));
      && IsPriorityList(r)
      && (forall i :: 0 <= i < |p| ==> r[i].field == p[i].field)
      && Display(r)[selected].reversed == !Display(p)[selected].reversed
      && forall i :: 0 <= i < |p| && i != selected ==> Display(r)[i] == Display(p)[i]
  {
  }

  // ---- the state object ----

  class TuiState {
    var dataVecNone: seq<SongDataNone>
    var dataVecDate: seq<SongDataDate>
    var dataVecArtist: seq<SongDataArtist>
    var dataVecAlbum: seq<SongDataAlbum>
    var sortPriority: seq<SortDirection>
    var group: Group
    var selectedTab: SelectedTab
    /** The selected row of the table. */
    var tableSelected: nat
    /** The content length of the scroll bar. */
    var scrollLength: nat
    var filterArtist: map<string, bool>
    var exit: bool

    /** The priority list always names every column once. */
    ghost predicate Valid()
      reads this
    {
      IsPriorityList(sortPriority)
    }

    /** Rows of the vector the current group shows. */
    function RowCount(): nat
      reads this
    {
      match group
      case None => |dataVecNone|
      case Date => |dataVecDate|
      case Artist => |dataVecArtist|
      case Album => |dataVecAlbum|
    }

    /** `TuiState::new`: all four views as the database holds them (the ungrouped one is not
        sorted yet), the initial priorities, no grouping, the first row selected. */
    constructor (db: Tables)
      ensures dataVecNone == GetDataVecNone(db) && dataVecDate == GetDataVecDate(db)
      ensures dataVecArtist == GetDataVecArtist(db) && dataVecAlbum == GetDataVecAlbum(db)
      ensures sortPriority == InitialPriority && group == Group.None && selectedTab == SelectedTab.Table
      ensures tableSelected == 0 && scrollLength == |dataVecNone|
      ensures filterArtist == GetFilterArtist(db) && !exit
      ensures Valid()
    {
      var none := GetDataVecNone(db);
      dataVecNone := none;
      dataVecDate := GetDataVecDate(db);
      dataVecArtist := GetDataVecArtist(db);
      dataVecAlbum := GetDataVecAlbum(db);
      scrollLength := |none|;
      selectedTab := SelectedTab.Table;
      sortPriority := InitialPriority;
      group := Group.None;
      tableSelected := 0;
      filterArtist := GetFilterArtist(db);
      exit := false;
      InitialIsPriorityList();
    }

    /** `sort_data`: one stable pass per priority entry, first to last, which sorts the rows by
        the priorities read backwards. */
    method SortData()
      modifies this`dataVecNone
      ensures dataVecNone == SortPasses(old(dataVecNone), sortPriority)
      ensures dataVecNone == InsertionSort(old(dataVecNone), Reverse(sortPriority))
      ensures multiset(dataVecNone) == multiset(old(dataVecNone))
    {
      ghost var start := dataVecNone;
      var i := 0;
      while i < |sortPriority|
        invariant 0 <= i <= |sortPriority|
        invariant dataVecNone == SortPasses(start, sortPriority[..i])
      {
        dataVecNone := InsertionSort(dataVecNone, [sortPriority[i]]);
        assert sortPriority[..i + 1][..i] == sortPriority[..i];
        i := i + 1;
      }
      assert sortPriority[..i] == sortPriority;
      SortPassesIsCompound(start, sortPriority);
      SortPassesSortsAndPermutes(start, sortPriority);
    }

    /** `sort_select`: the entry of the selected panel row moves to the end, then the rows are
        sorted again. */
    method SortSelect(selected: nat)
      requires Valid() && selected < |sortPriority|
      modifies this`sortPriority, this`dataVecNone
      ensures Valid()
      ensures sortPriority == MoveToEnd(old(sortPriority), EntryIndex(old(sortPriority), selected))
      ensures dataVecNone == SortPasses(old(dataVecNone), sortPriority)
    {
      var s := |sortPriority| - selected - 1;
      var temp := sortPriority[s];
      sortPriority := sortPriority[..s] + sortPriority[s + 1..];
      sortPriority := sortPriority + [temp];
      SortSelectMovesToTop(old(sortPriority), selected);
      SortData();
    }

    /** `sort_reverse`: the selected panel row's direction flips, then the rows are sorted again. */
    method SortReverse(selected: nat)
      requires Valid() && selected < |sortPriority|
      modifies this`sortPriority, this`dataVecNone
      ensures Valid()
      ensures sortPriority == Toggle(old(sortPriority), EntryIndex(old(sortPriority), selected))
      ensures dataVecNone == SortPasses(old(dataVecNone), sortPriority)
    {
      var s := |sortPriority| - selected - 1;
      sortPriority := sortPriority[s := SortDirection(sortPriority[s].field, !sortPriority[s].reversed)];
      SortReverseFlipsOne(old(sortPriority), selected);
      SortData();
    }

    /** `filter`: keeps the rows of the ungrouped view whose artist the map switches on. */
    method Filter()
      modifies this`dataVecNone
      ensures dataVecNone == FilterRows(old(dataVecNone), filterArtist)
    {
      dataVecNone := FilterRows(dataVecNone, filterArtist);
    }

    /** `scroll_reset`: the scroll bar covers the rows of the current group's vector. */
    method ScrollReset()
      modifies this`scrollLength
      ensures scrollLength == RowCount()
    {
      match group {
        case None => scrollLength := |dataVecNone|;
        case Date => scrollLength := |dataVecDate|;
        case Artist => scrollLength := |dataVecArtist|;
        case Album => scrollLength := |dataVecAlbum|;
      }
    }

    /** `update_data`: reloads only the current group's vector, sorts the ungrouped one, selects
        the first row and resets the scroll bar. */
    method UpdateData(db: Tables)
      modifies this`dataVecNone, this`dataVecDate, this`dataVecArtist, this`dataVecAlbum,
        this`tableSelected, this`scrollLength
      ensures group == Group.None ==> dataVecNone == SortPasses(GetDataVecNone(db), sortPriority)
      ensures group != Group.None ==> dataVecNone == SortPasses(old(dataVecNone), sortPriority)
      ensures dataVecDate == if group == Group.Date then GetDataVecDate(db) else old(dataVecDate)
      ensures dataVecArtist == if group == Group.Artist then GetDataVecArtist(db) else old(dataVecArtist)
      ensures dataVecAlbum == if group == Group.Album then GetDataVecAlbum(db) else old(dataVecAlbum)
      ensures tableSelected == 0 && scrollLength == RowCount()
    {
      Reload(db);
      ghost var loaded := dataVecNone;
      SortData();
      assert dataVecNone == SortPasses(loaded, sortPriority);
      tableSelected := 0;
      ScrollReset();
    }

    /** The `match self.group` of `update_data`: re-queries the current group's vector only. */
    method Reload(db: Tables)
      modifies this`dataVecNone, this`dataVecDate, this`dataVecArtist, this`dataVecAlbum
      ensures dataVecNone == if group == Group.None then GetDataVecNone(db) else old(dataVecNone)
      ensures dataVecDate == if group == Group.Date then GetDataVecDate(db) else old(dataVecDate)
      ensures dataVecArtist == if group == Group.Artist then GetDataVecArtist(db) else old(dataVecArtist)
      ensures dataVecAlbum == if group == Group.Album then GetDataVecAlbum(db) else old(dataVecAlbum)
    {
      match group {
        case None => dataVecNone := GetDataVecNone(db);
        case Date => dataVecDate := GetDataVecDate(db);
        case Artist => dataVecArtist := GetDataVecArtist(db);
        case Album => dataVecAlbum := GetDataVecAlbum(db);
      }
    }

    /** `group_prev`: the previous grouping, the first row selected, the scroll bar reset. */
    method GroupPrev()
      modifies this`group, this`tableSelected, this`scrollLength
      ensures group == old(group).Prev()
      ensures tableSelected == 0 && scrollLength == RowCount()
    {
      group := group.Prev();
      tableSelected := 0;
      ScrollReset();
    }

    /** `group_next`: the next grouping, the first row selected, the scroll bar reset. */
    method GroupNext()
      modifies this`group, this`tableSelected, this`scrollLength
      ensures group == old(group).Next()
      ensures tableSelected == 0 && scrollLength == RowCount()
    {
      group := group.Next();
      tableSelected := 0;
      ScrollReset();
    }

    /** `selected_tab_prev`. */
    method SelectedTabPrev()
      modifies this`selectedTab
      ensures selectedTab == old(selectedTab).Prev()
    {
      selectedTab := selectedTab.Prev();
    }

    /** `selected_tab_next`. */
    method SelectedTabNext()
      modifies this`selectedTab
      ensures selectedTab == old(selectedTab).Next()
    {
      selectedTab := selectedTab.Next();
    }

    /** `exit`: the main loop stops after this key. */
    method Exit()
      modifies this`exit
      ensures exit
    {
      exit := true;
    }
  }

  /** Refreshing the ungrouped view from the file as it now is (`db1`) shows the played songs in
      the order of the priority list, last entry dominant. The filter map was built from the file
      at start-up (`db0`) and is not rebuilt; it filters nothing out as long as `db1` catalogues no
      artist that `db0` did not (`NewArtistFilteredAfterRefresh` shows the other case). */
  lemma RefreshedViewSortedAndComplete(db0: Tables, db1: Tables, priority: seq<SortDirection>)
    requires forall a :: Catalogued(db1, a) ==> Catalogued(db0, a)
    ensures var rows := SortPasses(GetDataVecNone(db1), priority);
      && multiset(rows) == multiset(GetDataVecNone(db1))
      && SortedBy(rows, Reverse(priority))
      && FilterRows(rows, GetFilterArtist(db0)) == rows
  {
    SortPassesSortsAndPermutes(GetDataVecNone(db1), priority);
    RefreshedFilterKeepsAll(db0, db1, SortPasses(GetDataVecNone(db1), priority));
  }
}
