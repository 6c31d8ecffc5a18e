/** The viewer's ordering of the ungrouped table (src/client/bin/main.rs:138-148, 317-330):
    `sort_data` runs one stable `sort_by` per entry of the priority list, first entry first.
    The model states one stable sort as `InsertionSort` (any stable sort gives the same answer:
    `StableSortUnique`) and proves that the passes together sort by one compound key in which
    the LAST priority entry dominates (`SortPassesIsCompound`). */
module ClientSort {
  import opened Prelude
  import opened ClientRows

  /** The column a priority entry sorts by. */
  datatype Sort = Artist | Album | Title | Plays

  /** `SortDirection(field, reversed)`: a `true` flag reverses the comparison. */
  datatype SortDirection = SortDirection(field: Sort, reversed: bool)

  /** The comparison on one column: strings lexicographically, `plays` numerically. */
  function FieldCmp(f: Sort, a: SongDataNone, b: SongDataNone): Ordering
  {
    match f
    case Artist => CmpStr(a.artist, b.artist)
    case Album => CmpStr(a.album, b.album)
    case Title => CmpStr(a.title, b.title)
    case Plays => CmpNat(a.plays, b.plays)
  }

  /** The closure handed to `sort_by` for one priority entry. */
  function KeyCmp(d: SortDirection, a: SongDataNone, b: SongDataNone): Ordering
  {
    var order := FieldCmp(d.field, a, b);
    if d.reversed then order.Reverse() else order
  }

  /** The compound order: `keys[0]` decides, later entries break its ties. */
  function LexCmp(keys: seq<SortDirection>, a: SongDataNone, b: SongDataNone): Ordering
    decreases |keys|
  {
    if keys == [] then Equal
    else
      var order := KeyCmp(keys[0], a, b);
      if order == Equal then LexCmp(keys[1..], a, b) else order
  }

  /** `s` is in non-decreasing order under `keys`. */
  ghost predicate SortedBy(s: seq<SongDataNone>, keys: seq<SortDirection>)
  {
    forall i, j :: 0 <= i < j < |s| ==> LexCmp(keys, s[i], s[j]) != Greater
  }

  /** `y` is not after any element of `s`. */
  ghost predicate LeAll(y: SongDataNone, s: seq<SongDataNone>, keys: seq<SortDirection>)
  {
    forall j :: 0 <= j < |s| ==> LexCmp(keys, y, s[j]) != Greater
  }

  /** Places `x` before the first element it is not after: in front of its equals. */
  function Insert(x: SongDataNone, s: seq<SongDataNone>, keys: seq<SortDirection>): seq<SongDataNone>
  {
    if s == [] then [x]
    else if LexCmp(keys, x, s[0]) != Greater then [x] + s
    else [s[0]] + Insert(x, s[1..], keys)
  }

  /** A stable sort: equal elements keep their relative order. */
  function InsertionSort(s: seq<SongDataNone>, keys: seq<SortDirection>): seq<SongDataNone>
  {
    if s == [] then [] else Insert(s[0], InsertionSort(s[1..], keys), keys)
  }

  /** The elements of `s` equal to `v` under `keys`, in their order in `s`: what a stable sort keeps. */
  function Cls(s: seq<SongDataNone>, keys: seq<SortDirection>, v: SongDataNone): seq<SongDataNone>
  {
    if s == [] then [] else (if LexCmp(keys, s[0], v) == Equal then [s[0]] else []) + Cls(s[1..], keys, v)
  }

  /** The `for` loop of `sort_data`: one stable pass per entry, in list order. */
  function SortPasses(s: seq<SongDataNone>, priority: seq<SortDirection>): seq<SongDataNone>
  {
    if priority == [] then s
    else InsertionSort(SortPasses(s, priority[..|priority| - 1]), [priority[|priority| - 1]])
  }

  // ---- the comparators are total preorders ----

  lemma FieldCmpFlip(f: Sort, a: SongDataNone, b: SongDataNone)
    ensures FieldCmp(f, b, a) == FieldCmp(f, a, b).Reverse()
  {
    match f
    case Artist => CmpStrFlip(a.artist, b.artist);
    case Album => CmpStrFlip(a.album, b.album);
    case Title => CmpStrFlip(a.title, b.title);
    case Plays =>
  }

  lemma FieldCmpTrans(f: Sort, a: SongDataNone, b: SongDataNone, c: SongDataNone)
    requires FieldCmp(f, a, b) != Greater && FieldCmp(f, b, c) != Greater
    ensures FieldCmp(f, a, c) != Greater
  {
    match f
    case Artist => CmpStrTrans(a.artist, b.artist, c.artist);
    case Album => CmpStrTrans(a.album, b.album, c.album);
    case Title => CmpStrTrans(a.title, b.title, c.title);
    case Plays =>
  }

  /** Swapping the operands of one priority entry's comparison reverses it. */
  lemma KeyCmpFlip(d: SortDirection, a: SongDataNone, b: SongDataNone)
    ensures KeyCmp(d, b, a) == KeyCmp(d, a, b).Reverse()
  {
    FieldCmpFlip(d.field, a, b);
  }

  lemma KeyCmpTrans(d: SortDirection, a: SongDataNone, b: SongDataNone, c: SongDataNone)
    requires KeyCmp(d, a, b) != Greater && KeyCmp(d, b, c) != Greater
    ensures KeyCmp(d, a, c) != Greater
  {
    if d.reversed {
      FieldCmpFlip(d.field, a, b);
      FieldCmpFlip(d.field, b, c);
      FieldCmpFlip(d.field, a, c);
      FieldCmpTrans(d.field, c, b, a);
    } else {
      FieldCmpTrans(d.field, a, b, c);
    }
  }

  /** A `true` flag sorts that column descending: it compares exactly as the swapped operands do. */
  lemma ReversedFlagSwapsOperands(f: Sort, a: SongDataNone, b: SongDataNone)
    ensures KeyCmp(SortDirection(f, true), a, b) == KeyCmp(SortDirection(f, false), b, a)
    ensures KeyCmp(SortDirection(f, false), a, b) == FieldCmp(f, a, b)
  {
    FieldCmpFlip(f, a, b);
  }

  lemma {:induction false} LexFlip(keys: seq<SortDirection>, a: SongDataNone, b: SongDataNone)
    ensures LexCmp(keys, b, a) == LexCmp(keys, a, b).Reverse()
    decreases |keys|
  {
    if keys != [] {
      KeyCmpFlip(keys[0], a, b);
      LexFlip(keys[1..], a, b);
    }
  }

  lemma LexRefl(keys: seq<SortDirection>, a: SongDataNone)
    ensures LexCmp(keys, a, a) == Equal
  {
    LexFlip(keys, a, a);
  }

  lemma {:induction false} LexTrans(keys: seq<SortDirection>, a: SongDataNone, b: SongDataNone, c: SongDataNone)
    requires LexCmp(keys, a, b) != Greater && LexCmp(keys, b, c) != Greater
    ensures LexCmp(keys, a, c) != Greater
    decreases |keys|
  {
    if keys != [] {
      var k := keys[0];
      KeyCmpTrans(k, a, b, c);
      if KeyCmp(k, a, c) == Equal {
        KeyCmpFlip(k, a, c);
        if KeyCmp(k, a, b) == Less {
          KeyCmpTrans(k, b, c, a);
          KeyCmpFlip(k, a, b);
        } else if KeyCmp(k, b, c) == Less {
          KeyCmpTrans(k, c, a, b);
          KeyCmpFlip(k, b, c);
        } else {
          LexTrans(keys[1..], a, b, c);
        }
      }
    }
  }

  lemma LexEqTrans(keys: seq<SortDirection>, a: SongDataNone, b: SongDataNone, c: SongDataNone)
    requires LexCmp(keys, a, b) == Equal && LexCmp(keys, b, c) == Equal
    ensures LexCmp(keys, a, c) == Equal
  {
    LexTrans(keys, a, b, c);
    LexFlip(keys, a, b);
    LexFlip(keys, b, c);
    LexTrans(keys, c, b, a);
    LexFlip(keys, a, c);
  }

  /** Prepending an entry: it decides first, the rest breaks its ties. */
  lemma LexCons(d: SortDirection, rest: seq<SortDirection>, a: SongDataNone, b: SongDataNone)
    ensures LexCmp([d], a, b) == KeyCmp(d, a, b)
    ensures LexCmp([d] + rest, a, b) == if KeyCmp(d, a, b) == Equal then LexCmp(rest, a, b) else KeyCmp(d, a, b)
  {
    assert ([d] + rest)[1..] == rest;
    assert [d][1..] == [];
  }

  // ---- insertion sort: permutation, order, stability ----

  lemma {:induction false} InsertPerm(x: SongDataNone, s: seq<SongDataNone>, keys: seq<SortDirection>)
    ensures multiset(Insert(x, s, keys)) == multiset(s) + multiset{x}
  {
    if s != [] && LexCmp(keys, x, s[0]) == Greater {
      InsertPerm(x, s[1..], keys);
      assert s == [s[0]] + s[1..];
    }
  }

  /** A stable sort only rearranges: the result is a permutation of its input. */
  lemma {:induction false} SortPerm(s: seq<SongDataNone>, keys: seq<SortDirection>)
    ensures multiset(InsertionSort(s, keys)) == multiset(s)
  {
    if s != [] {
      SortPerm(s[1..], keys);
      InsertPerm(s[0], InsertionSort(s[1..], keys), keys);
      assert s == [s[0]] + s[1..];
    }
  }

  lemma SortedCons(y: SongDataNone, t: seq<SongDataNone>, keys: seq<SortDirection>)
    requires LeAll(y, t, keys) && SortedBy(t, keys)
    ensures SortedBy([y] + t, keys)
  {
    var s := [y] + t;
    forall i, j | 0 <= i < j < |s|
      ensures LexCmp(keys, s[i], s[j]) != Greater
    {
      if i == 0 {
        assert s[j] == t[j - 1];
      } else {
        assert s[i] == t[i - 1] && s[j] == t[j - 1];
      }
    }
  }

  /** Membership is all `LeAll` looks at, so a permutation keeps it. */
  lemma LeAllPerm(y: SongDataNone, s1: seq<SongDataNone>, s2: seq<SongDataNone>, keys: seq<SortDirection>)
    requires multiset(s1) == multiset(s2) && LeAll(y, s1, keys)
    ensures LeAll(y, s2, keys)
  {
    forall j | 0 <= j < |s2|
      ensures LexCmp(keys, y, s2[j]) != Greater
    {
      assert s2[j] in multiset(s2);
      assert s2[j] in multiset(s1);
      var i :| 0 <= i < |s1| && s1[i] == s2[j];
    }
  }

  lemma {:induction false} InsertSorted(x: SongDataNone, s: seq<SongDataNone>, keys: seq<SortDirection>)
    requires SortedBy(s, keys)
    ensures SortedBy(Insert(x, s, keys), keys)
  {
    if s == [] {
    } else if LexCmp(keys, x, s[0]) != Greater {
      forall j | 0 <= j < |s|
        ensures LexCmp(keys, x, s[j]) != Greater
      {
        if j > 0 {
          LexTrans(keys, x, s[0], s[j]);
        }
      }
      SortedCons(x, s, keys);
    } else {
      var t := s[1..];
      InsertSorted(x, t, keys);
      LexFlip(keys, x, s[0]);
      assert LeAll(s[0], [x] + t, keys) by {
        forall j | 0 <= j < |[x] + t|
          ensures LexCmp(keys, s[0], ([x] + t)[j]) != Greater
        {
          if j > 0 {
            assert ([x] + t)[j] == s[j];
          }
        }
      }
      InsertPerm(x, t, keys);
      LeAllPerm(s[0], [x] + t, Insert(x, t, keys), keys);
      SortedCons(s[0], Insert(x, t, keys), keys);
    }
  }

  /** The result of a stable sort is ordered. */
  lemma {:induction false} SortSorted(s: seq<SongDataNone>, keys: seq<SortDirection>)
    ensures SortedBy(InsertionSort(s, keys), keys)
  {
    if s != [] {
      SortSorted(s[1..], keys);
      InsertSorted(s[0], InsertionSort(s[1..], keys), keys);
    }
  }

  lemma {:induction false} ClsInsert(x: SongDataNone, s: seq<SongDataNone>, keys: seq<SortDirection>, v: SongDataNone)
    ensures Cls(Insert(x, s, keys), keys, v) == (if LexCmp(keys, x, v) == Equal then [x] else []) + Cls(s, keys, v)
  {
    if s == [] {
    } else if LexCmp(keys, x, s[0]) != Greater {
      var r := [x] + s;
      assert r[0] == x && r[1..] == s;
    } else {
      var r := [s[0]] + Insert(x, s[1..], keys);
      assert r[0] == s[0] && r[1..] == Insert(x, s[1..], keys);
      ClsInsert(x, s[1..], keys, v);
      if LexCmp(keys, x, v) == Equal && LexCmp(keys, s[0], v) == Equal {
        LexFlip(keys, s[0], v);
        LexEqTrans(keys, x, v, s[0]);
        assert false;
      }
    }
  }

  /** Stability: the elements of every equivalence class come out in their input order. */
  lemma {:induction false} ClsSort(s: seq<SongDataNone>, keys: seq<SortDirection>, v: SongDataNone)
    ensures Cls(InsertionSort(s, keys), keys, v) == Cls(s, keys, v)
  {
    if s != [] {
      ClsSort(s[1..], keys, v);
      ClsInsert(s[0], InsertionSort(s[1..], keys), keys, v);
    }
  }

  /** Filtering by two equivalences in turn filters by their intersection. */
  lemma {:induction false} ClsOfCls(s: seq<SongDataNone>, k1: seq<SortDirection>, k2: seq<SortDirection>,
                                    k: seq<SortDirection>, v: SongDataNone)
    requires forall x :: (LexCmp(k, x, v) == Equal) == (LexCmp(k1, x, v) == Equal && LexCmp(k2, x, v) == Equal)
    ensures Cls(Cls(s, k1, v), k2, v) == Cls(s, k, v)
  {
    if s != [] {
      ClsOfCls(s[1..], k1, k2, k, v);
      var head := if LexCmp(k1, s[0], v) == Equal then [s[0]] else [];
      ClsAppend(head, Cls(s[1..], k1, v), k2, v);
    }
  }

  lemma {:induction false} ClsAppend(a: seq<SongDataNone>, b: seq<SongDataNone>, keys: seq<SortDirection>, v: SongDataNone)
    ensures Cls(a + b, keys, v) == Cls(a, keys, v) + Cls(b, keys, v)
  {
    if a != [] {
      assert (a + b)[0] == a[0] && (a + b)[1..] == a[1..] + b;
      ClsAppend(a[1..], b, keys, v);
      var head := if LexCmp(keys, a[0], v) == Equal then [a[0]] else [];
      calc {
        Cls(a + b, keys, v);
        head + Cls(a[1..] + b, keys, v);
        head + (Cls(a[1..], keys, v) + Cls(b, keys, v));
        (head + Cls(a[1..], keys, v)) + Cls(b, keys, v);
        Cls(a, keys, v) + Cls(b, keys, v);
      }
    } else {
      assert a + b == b;
    }
  }

  lemma {:induction false} ClsHasMember(s: seq<SongDataNone>, keys: seq<SortDirection>, v: SongDataNone)
    requires Cls(s, keys, v) != []
    ensures exists j :: 0 <= j < |s| && LexCmp(keys, s[j], v) == Equal
  {
    if LexCmp(keys, s[0], v) != Equal {
      ClsHasMember(s[1..], keys, v);
      var j :| 0 <= j < |s[1..]| && LexCmp(keys, s[1..][j], v) == Equal;
      assert s[j + 1] == s[1..][j];
    }
  }

  lemma ClsOfHeadNonEmpty(s: seq<SongDataNone>, keys: seq<SortDirection>)
    requires s != []
    ensures Cls(s, keys, s[0]) != [] && Cls([], keys, s[0]) == []
  {
    LexRefl(keys, s[0]);
  }

  /** When the heads of two ordered sequences with the same classes are equivalent. */
  lemma HeadsEquivalent(a: seq<SongDataNone>, b: seq<SongDataNone>, keys: seq<SortDirection>)
    requires a != [] && b != [] && SortedBy(b, keys)
    requires Cls(a, keys, a[0]) == Cls(b, keys, a[0])
    ensures LexCmp(keys, b[0], a[0]) != Greater
  {
    LexRefl(keys, a[0]);
    ClsHasMember(b, keys, a[0]);
    var j :| 0 <= j < |b| && LexCmp(keys, b[j], a[0]) == Equal;
    if j > 0 {
      LexTrans(keys, b[0], b[j], a[0]);
    }
  }

  /** Uniqueness: two ordered sequences with the same equivalence classes, each in the same order,
      are equal. So every stable sort of `s` is `InsertionSort(s, keys)`. */
  lemma {:induction false} StableSortUnique(a: seq<SongDataNone>, b: seq<SongDataNone>, keys: seq<SortDirection>)
    requires SortedBy(a, keys) && SortedBy(b, keys)
    requires forall v :: Cls(a, keys, v) == Cls(b, keys, v)
    ensures a == b
    decreases |a| + |b|
  {
    if a == [] && b != [] {
      ClsOfHeadNonEmpty(b, keys);
      assert false;
    } else if a != [] && b == [] {
      ClsOfHeadNonEmpty(a, keys);
      assert false;
    } else if a != [] {
      HeadsEquivalent(a, b, keys);
      HeadsEquivalent(b, a, keys);
      LexFlip(keys, a[0], b[0]);
      LexRefl(keys, a[0]);
      assert LexCmp(keys, b[0], a[0]) == Equal;
      assert Cls(a, keys, a[0])[0] == a[0] && Cls(b, keys, a[0])[0] == b[0];
      forall v
        ensures Cls(a[1..], keys, v) == Cls(b[1..], keys, v)
      {
        var head := if LexCmp(keys, a[0], v) == Equal then [a[0]] else [];
        assert Cls(a, keys, v) == head + Cls(a[1..], keys, v);
        assert Cls(b, keys, v) == head + Cls(b[1..], keys, v);
        assert (head + Cls(a[1..], keys, v))[|head|..] == Cls(a[1..], keys, v);
        assert (head + Cls(b[1..], keys, v))[|head|..] == Cls(b[1..], keys, v);
      }
      assert SortedBy(a[1..], keys) by {
        forall i, j | 0 <= i < j < |a[1..]|
          ensures LexCmp(keys, a[1..][i], a[1..][j]) != Greater
        {
          assert a[1..][i] == a[i + 1] && a[1..][j] == a[j + 1];
        }
      }
      assert SortedBy(b[1..], keys) by {
        forall i, j | 0 <= i < j < |b[1..]|
          ensures LexCmp(keys, b[1..][i], b[1..][j]) != Greater
        {
          assert b[1..][i] == b[i + 1] && b[1..][j] == b[j + 1];
        }
      }
      StableSortUnique(a[1..], b[1..], keys);
      assert a == [a[0]] + a[1..] && b == [b[0]] + b[1..];
    }
  }

  /** One stable pass by `d` over a sequence ordered by `rest` leaves it ordered by `[d] + rest`. */
  lemma {:induction false} PassInsertSorted(x: SongDataNone, u: seq<SongDataNone>, d: SortDirection, rest: seq<SortDirection>)
    requires SortedBy(u, [d] + rest) && LeAll(x, u, rest)
    ensures SortedBy(Insert(x, u, [d]), [d] + rest)
  {
    var k := [d] + rest;
    if u == [] {
    } else if LexCmp([d], x, u[0]) != Greater {
      LexCons(d, rest, x, u[0]);
      forall j | 0 <= j < |u|
        ensures LexCmp(k, x, u[j]) != Greater
      {
        LexCons(d, rest, x, u[j]);
        if j > 0 {
          LexCons(d, rest, u[0], u[j]);
          KeyCmpTrans(d, x, u[0], u[j]);
        }
      }
      SortedCons(x, u, k);
    } else {
      var t := u[1..];
      assert SortedBy(t, k) by {
        forall i, j | 0 <= i < j < |t|
          ensures LexCmp(k, t[i], t[j]) != Greater
        {
          assert t[i] == u[i + 1] && t[j] == u[j + 1];
        }
      }
      assert LeAll(x, t, rest) by {
        forall j | 0 <= j < |t|
          ensures LexCmp(rest, x, t[j]) != Greater
        {
          assert t[j] == u[j + 1];
        }
      }
      PassInsertSorted(x, t, d, rest);
      LexCons(d, rest, x, u[0]);
      LexCons(d, rest, u[0], x);
      KeyCmpFlip(d, x, u[0]);
      assert LeAll(u[0], [x] + t, k) by {
        forall j | 0 <= j < |[x] + t|
          ensures LexCmp(k, u[0], ([x] + t)[j]) != Greater
        {
          if j > 0 {
            assert ([x] + t)[j] == u[j];
          }
        }
      }
      InsertPerm(x, t, [d]);
      LeAllPerm(u[0], [x] + t, Insert(x, t, [d]), k);
      SortedCons(u[0], Insert(x, t, [d]), k);
    }
  }

  lemma {:induction false} PassSorted(t: seq<SongDataNone>, d: SortDirection, rest: seq<SortDirection>)
    requires SortedBy(t, rest)
    ensures SortedBy(InsertionSort(t, [d]), [d] + rest)
  {
    if t != [] {
      var tail := t[1..];
      assert SortedBy(tail, rest) by {
        forall i, j | 0 <= i < j < |tail|
          ensures LexCmp(rest, tail[i], tail[j]) != Greater
        {
          assert tail[i] == t[i + 1] && tail[j] == t[j + 1];
        }
      }
      PassSorted(tail, d, rest);
      assert LeAll(t[0], tail, rest) by {
        forall j | 0 <= j < |tail|
          ensures LexCmp(rest, t[0], tail[j]) != Greater
        {
          assert tail[j] == t[j + 1];
        }
      }
      SortPerm(tail, [d]);
      LeAllPerm(t[0], tail, InsertionSort(tail, [d]), rest);
      PassInsertSorted(t[0], InsertionSort(tail, [d]), d, rest);
    }
  }

  lemma ConsEquivalence(d: SortDirection, rest: seq<SortDirection>, v: SongDataNone)
    ensures forall x :: (LexCmp([d] + rest, x, v) == Equal) == (LexCmp([d], x, v) == Equal && LexCmp(rest, x, v) == Equal)
    ensures forall x :: (LexCmp([d] + rest, x, v) == Equal) == (LexCmp(rest, x, v) == Equal && LexCmp([d], x, v) == Equal)
  {
    forall x
      ensures (LexCmp([d] + rest, x, v) == Equal) == (LexCmp([d], x, v) == Equal && LexCmp(rest, x, v) == Equal)
    {
      LexCons(d, rest, x, v);
    }
  }

  /** The key step: a stable pass by `d` after a sort by `rest` is the sort by `[d] + rest`. */
  lemma StablePass(s: seq<SongDataNone>, rest: seq<SortDirection>, d: SortDirection)
    ensures InsertionSort(InsertionSort(s, rest), [d]) == InsertionSort(s, [d] + rest)
  {
    var k := [d] + rest;
    var t := InsertionSort(s, rest);
    var x := InsertionSort(t, [d]);
    var y := InsertionSort(s, k);
    SortSorted(s, rest);
    PassSorted(t, d, rest);
    SortSorted(s, k);
    forall v
      ensures Cls(x, k, v) == Cls(y, k, v)
    {
      ConsEquivalence(d, rest, v);
      ClsOfCls(x, [d], rest, k, v);
      ClsSort(t, [d], v);
      ClsOfCls(t, [d], rest, k, v);
      ClsOfCls(t, rest, [d], k, v);
      ClsSort(s, rest, v);
      ClsOfCls(s, rest, [d], k, v);
      ClsSort(s, k, v);
    }
    StableSortUnique(x, y, k);
  }

  /** With no key every element is equivalent, and a stable sort changes nothing. */
  lemma {:induction false} SortNoKeys(s: seq<SongDataNone>)
    ensures InsertionSort(s, []) == s
  {
    if s != [] {
      SortNoKeys(s[1..]);
      assert s == [s[0]] + s[1..];
    }
  }

  /** `sort_data`'s passes sort by the priority list read backwards: the last entry dominates,
      the first is the weakest tie-break. */
  lemma {:induction false} SortPassesIsCompound(s: seq<SongDataNone>, priority: seq<SortDirection>)
    ensures SortPasses(s, priority) == InsertionSort(s, Reverse(priority))
  {
    if priority == [] {
      SortNoKeys(s);
    } else {
      var n := |priority|;
      var init := priority[..n - 1];
      SortPassesIsCompound(s, init);
      StablePass(s, Reverse(init), priority[n - 1]);
    }
  }

  /** Hence the result is a permutation of the rows, ordered by the compound key. */
  lemma SortPassesSortsAndPermutes(s: seq<SongDataNone>, priority: seq<SortDirection>)
    ensures multiset(SortPasses(s, priority)) == multiset(s)
    ensures SortedBy(SortPasses(s, priority), Reverse(priority))
    ensures forall v :: Cls(SortPasses(s, priority), Reverse(priority), v) == Cls(s, Reverse(priority), v)
  {
    SortPassesIsCompound(s, priority);
    SortPerm(s, Reverse(priority));
    SortSorted(s, Reverse(priority));
    forall v
      ensures Cls(SortPasses(s, priority), Reverse(priority), v) == Cls(s, Reverse(priority), v)
    {
      ClsSort(s, Reverse(priority), v);
    }
  }
}
