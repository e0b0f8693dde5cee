/**
 * The category hierarchy search (app/services/category_hierarchy_search.rb):
 * one recursive query over the categories table, stated here as functions
 * over a sequence of categories.
 *
 *  - `matched`: the categories whose lowercased name starts with the
 *    lowercased term, and those that contain every whitespace-separated
 *    piece of it and pass `only_ids` and `except_ids` when those are given.
 *    In the WHERE clause AND binds tighter than OR, so the id filters apply
 *    to the piece test only and a prefix match escapes them. `Precedence`
 *    selects between that reading and the intended one, where the filters
 *    narrow every match;
 *  - `ancestors`: every matched category and each category reached from it
 *    by following parent links;
 *  - `category_tree`: every category reachable from a root (a category
 *    without a parent), with its lowercased root-to-node name path and its
 *    depth;
 *  - the result: the tree rows whose id is among the ancestors, ordered by
 *    name path, then id.
 *
 * The `after_validation` block only assigns a local variable, so the term
 * reaches the query as given: neither stripped nor quoted.
 */
module CategorySearch {
  import opened Wrappers
  import opened Text

  /** A row of the categories table, with the columns the query reads. */
  datatype Category = Category(id: int, parentId: Option<int>, name: string)

  /** The service's parameters; an empty id list is no filter (`present?`). */
  datatype Params = Params(term: Option<string>, onlyIds: seq<int>, exceptIds: seq<int>)

  /** A result row: the category, its depth and its name path. */
  datatype Row = Row(category: Category, depth: nat, namePath: seq<string>)

  /** Ids are the table's primary key. */
  predicate UniqueIds(cats: seq<Category>) {
    forall i, j :: 0 <= i < j < |cats| ==> cats[i].id != cats[j].id
  }

  // ---------------------------------------------------------------------------
  // matched

  /** Every piece occurs in `s`. */
  predicate AllOccur(s: string, pieces: seq<string>) {
    forall k :: 0 <= k < |pieces| ==> Contains(s, pieces[k])
  }

  /** The prefix test; a missing term makes it NULL, which selects nothing. */
  predicate PrefixMatch(name: string, term: Option<string>) {
    term.Some? && StartsWith(Lower(name), Lower(term.value))
  }

  /** The piece test. A missing term makes it NULL, and COALESCE turns that
      into true. The empty pieces a split at the ends of the term produces
      occur in every name, so only the non-empty ones, the fields, decide. */
  predicate PiecesMatch(name: string, term: Option<string>) {
    term.None? || AllOccur(Lower(name), Fields(Lower(term.value)))
  }

  /** Either term test. */
  predicate Matches(name: string, term: Option<string>) {
    PrefixMatch(name, term) || PiecesMatch(name, term)
  }

  /** The id filters; an empty list is no filter. */
  predicate Passes(c: Category, p: Params) {
    && (p.onlyIds != [] ==> c.id in p.onlyIds)
    && (p.exceptIds != [] ==> c.id !in p.exceptIds)
  }

  /** How the id filters bind in `matched`'s WHERE clause: as written, to the
      piece test alone (`prefix OR (pieces AND filters)`); as intended, to
      both term tests. */
  datatype Precedence = AsWritten | Intended

  /** The `matched` conditions. */
  predicate Selected(c: Category, p: Params, how: Precedence) {
    match how
    case AsWritten => PrefixMatch(c.name, p.term) || (PiecesMatch(c.name, p.term) && Passes(c, p))
    case Intended => Matches(c.name, p.term) && Passes(c, p)
  }

  lemma OccursShift(s: string, d: nat, piece: string, i: int)
    requires d <= |s| && OccursAt(s[d..], piece, i)
    ensures OccursAt(s, piece, d + i)
  {
    assert s[d + i..d + i + |piece|] == s[d..][i..i + |piece|];
  }

  /** Every field of a string occurs in it. */
  lemma {:induction false} FieldsOccur(s: string)
    ensures AllOccur(s, Fields(s))
    decreases |s|
  {
    if s != [] {
      var fs := Fields(s);
      if IsSpace(s[0]) {
        FieldsOccur(s[1..]);
        forall k | 0 <= k < |fs| ensures Contains(s, fs[k]) {
          var i :| 0 <= i <= |s[1..]| - |fs[k]| && OccursAt(s[1..], fs[k], i);
          OccursShift(s, 1, fs[k], i);
        }
      } else {
        var n := SpanNonSpace(s);
        var rest := Fields(s[n..]);
        assert fs == [s[..n]] + rest;
        FieldsOccur(s[n..]);
        forall k | 0 <= k < |fs| ensures Contains(s, fs[k]) {
          if k == 0 {
            assert OccursAt(s, fs[0], 0);
          } else {
            assert fs[k] == rest[k - 1];
            var i :| 0 <= i <= |s[n..]| - |rest[k - 1]| && OccursAt(s[n..], rest[k - 1], i);
            OccursShift(s, n, rest[k - 1], i);
          }
        }
      }
    }
  }

  /** What occurs in a prefix occurs in the whole. */
  lemma PrefixCarries(s: string, t: string, piece: string)
    requires StartsWith(s, t) && Contains(t, piece)
    ensures Contains(s, piece)
  {
    var i :| 0 <= i <= |t| - |piece| && OccursAt(t, piece, i);
    assert s[i..i + |piece|] == t[i..i + |piece|];
    assert OccursAt(s, piece, i);
  }

  /** Taken on its own the prefix test adds nothing to the piece test: a
      name matches a term exactly when every piece of the term occurs in
      it. */
  lemma MatchesIffPieces(name: string, term: string)
    ensures Matches(name, Some(term)) <==> AllOccur(Lower(name), Fields(Lower(term)))
  {
    if PrefixMatch(name, Some(term)) {
      var pieces := Fields(Lower(term));
      FieldsOccur(Lower(term));
      forall k | 0 <= k < |pieces| ensures Contains(Lower(name), pieces[k]) {
        PrefixCarries(Lower(name), Lower(term), pieces[k]);
      }
    }
  }

  /** The two readings differ exactly on a prefix match the id filters
      reject. */
  lemma SelectionsDiffer(c: Category, p: Params)
    ensures Selected(c, p, AsWritten) != Selected(c, p, Intended)
            <==> PrefixMatch(c.name, p.term) && !Passes(c, p)
  {
  }

  /** As intended, a category is matched exactly when it passes the id
      filters and every piece of the term occurs in its name. */
  lemma IntendedHonoursFilters(c: Category, p: Params)
    ensures Selected(c, p, Intended) <==> Passes(c, p) && PiecesMatch(c.name, p.term)
  {
    if p.term.Some? {
      MatchesIffPieces(c.name, p.term.value);
    }
  }

  /** Without a term both readings select exactly the categories that pass
      the id filters. */
  lemma NoTermSelectsFiltered(c: Category, p: Params, how: Precedence)
    requires p.term.None?
    ensures Selected(c, p, how) <==> Passes(c, p)
  {
  }

  // ---------------------------------------------------------------------------
  // ancestors and category_tree

  /** The category with id `id`, if the table has one. */
  function Find(cats: seq<Category>, id: int): (r: Option<Category>)
    ensures r.Some? ==> r.value in cats && r.value.id == id
    ensures r.None? ==> forall i :: 0 <= i < |cats| ==> cats[i].id != id
  {
    if cats == [] then None
    else if cats[0].id == id then Some(cats[0])
    else Find(cats[1..], id)
  }

  /** `ancestors` seeded with `c`: `c`, then each parent found in the table,
      for at most `fuel` steps. */
  function Chain(all: seq<Category>, c: Category, fuel: nat): (r: seq<Category>)
    ensures |r| >= 1 && r[0] == c
    ensures forall k :: 1 <= k < |r| ==> r[k] in all
    decreases fuel
  {
    if c.parentId.None? || fuel == 0 then [c]
    else
      match Find(all, c.parentId.value)
      case None => [c]
      case Some(parent) => [c] + Chain(all, parent, fuel - 1)
  }

  /** `category_tree` at `c`: the root-to-node path, when `c` is reached
      from a root within `fuel` steps. */
  function Placement(all: seq<Category>, c: Category, fuel: nat): (r: Option<seq<Category>>)
    ensures r.Some? ==> && |r.value| >= 1 && r.value[|r.value| - 1] == c
                        && r.value[0].parentId.None? && |r.value| <= fuel + 1
                        && forall k :: 0 <= k < |r.value| - 1 ==> r.value[k] in all
    decreases fuel
  {
    if c.parentId.None? then Some([c])
    else if fuel == 0 then None
    else
      match Find(all, c.parentId.value)
      case None => None
      case Some(parent) =>
        match Placement(all, parent, fuel - 1)
        case None => None
        case Some(path) => Some(path + [c])
  }

  /** The lowercased names along a path: the `name_path` column. */
  function NamePath(path: seq<Category>): (r: seq<string>)
    ensures |r| == |path|
    ensures forall k :: 0 <= k < |path| ==> r[k] == Lower(path[k].name)
  {
    seq(|path|, k requires 0 <= k < |path| => Lower(path[k].name))
  }

  /** More fuel changes nothing once a root has been reached. */
  lemma {:induction false} PlacementMonotone(all: seq<Category>, c: Category, fuel: nat, more: nat)
    requires fuel <= more && Placement(all, c, fuel).Some?
    ensures Placement(all, c, more) == Placement(all, c, fuel)
    decreases fuel
  {
    if c.parentId.Some? {
      var parent := Find(all, c.parentId.value).value;
      PlacementMonotone(all, parent, fuel - 1, more - 1);
    }
  }

  /** Each category on a path is placed at the path's prefix ending with it. */
  lemma {:induction false} PlacementOfAncestor(all: seq<Category>, c: Category, fuel: nat, k: nat)
    requires Placement(all, c, fuel).Some? && k < |Placement(all, c, fuel).value|
    ensures var path := Placement(all, c, fuel).value;
            Placement(all, path[k], fuel) == Some(path[..k + 1])
    decreases fuel
  {
    var path := Placement(all, c, fuel).value;
    if k == |path| - 1 {
      assert path[..k + 1] == path;
    } else {
      var parent := Find(all, c.parentId.value).value;
      var prefix := Placement(all, parent, fuel - 1).value;
      assert path == prefix + [c];
      PlacementOfAncestor(all, parent, fuel - 1, k);
      assert path[k] == prefix[k] && path[..k + 1] == prefix[..k + 1];
      PlacementMonotone(all, path[k], fuel - 1, fuel);
    }
  }

  /** For a category in the tree the `ancestors` walk is its path read
      backwards: it stops at the root, not at the fuel bound. */
  lemma {:induction false} ChainMirrorsPlacement(all: seq<Category>, c: Category, fuel: nat)
    requires Placement(all, c, fuel).Some?
    ensures var path := Placement(all, c, fuel).value;
            var chain := Chain(all, c, fuel);
            |chain| == |path| && forall k :: 0 <= k < |path| ==> chain[k] == path[|path| - 1 - k]
    decreases fuel
  {
    if c.parentId.Some? {
      var parent := Find(all, c.parentId.value).value;
      ChainMirrorsPlacement(all, parent, fuel - 1);
    }
  }

  /** The ids in a sequence of categories. */
  function Ids(cs: seq<Category>): set<int> {
    set c | c in cs :: c.id
  }

  /** The ids `ancestors` collects from the selected categories among `ms`. */
  function AncestorIds(all: seq<Category>, ms: seq<Category>, p: Params, how: Precedence): (r: set<int>)
    ensures forall x :: x in r <==> exists i :: 0 <= i < |ms| && Selected(ms[i], p, how) && x in Ids(Chain(all, ms[i], |all|))
  {
    if ms == [] then {}
    else
      (if Selected(ms[0], p, how) then Ids(Chain(all, ms[0], |all|)) else {})
      + AncestorIds(all, ms[1..], p, how)
  }

  /** The result row for a category in the tree; its depth is its path's
      length less one. */
  function RowOf(all: seq<Category>, c: Category): Row
    requires Placement(all, c, |all|).Some?
  {
    var path := Placement(all, c, |all|).value;
    Row(c, |path| - 1, NamePath(path))
  }

  /** The joined rows, in table order. */
  function Rows(all: seq<Category>, cs: seq<Category>, ids: set<int>): (r: seq<Row>)
    ensures forall x :: x in r ==> x.category in cs && x.category.id in ids
                                   && Placement(all, x.category, |all|).Some? && x == RowOf(all, x.category)
  {
    if cs == [] then []
    else
      (if cs[0].id in ids && Placement(all, cs[0], |all|).Some? then [RowOf(all, cs[0])] else [])
      + Rows(all, cs[1..], ids)
  }

  // ---------------------------------------------------------------------------
  // ordering

  /** Text order, character by character, a proper prefix first. */
  predicate TextLe(a: string, b: string)
    decreases |a|
  {
    a == [] || (b != [] && (a[0] < b[0] || (a[0] == b[0] && TextLe(a[1..], b[1..]))))
  }

  /** Array order on name paths, element by element, a proper prefix first. */
  predicate PathLe(a: seq<string>, b: seq<string>)
    decreases |a|
  {
    a == [] || (b != [] && ((a[0] != b[0] && TextLe(a[0], b[0])) || (a[0] == b[0] && PathLe(a[1..], b[1..]))))
  }

  /** `ORDER BY ct.name_path, ct.id`. */
  predicate RowLe(x: Row, y: Row) {
    PathLe(x.namePath, y.namePath) && (x.namePath == y.namePath ==> x.category.id <= y.category.id)
  }

  lemma {:induction false} TextLeTotal(a: string, b: string)
    ensures TextLe(a, b) || TextLe(b, a)
    decreases |a|
  {
    if a != [] && b != [] && a[0] == b[0] {
      TextLeTotal(a[1..], b[1..]);
    }
  }

  lemma {:induction false} TextLeAntisymmetric(a: string, b: string)
    requires TextLe(a, b) && TextLe(b, a)
    ensures a == b
    decreases |a|
  {
    if a != [] {
      TextLeAntisymmetric(a[1..], b[1..]);
      assert a == [a[0]] + a[1..] && b == [b[0]] + b[1..];
    }
  }

  lemma {:induction false} TextLeTransitive(a: string, b: string, c: string)
    requires TextLe(a, b) && TextLe(b, c)
    ensures TextLe(a, c)
    decreases |a|
  {
    if a != [] && a[0] == b[0] && b[0] == c[0] {
      TextLeTransitive(a[1..], b[1..], c[1..]);
    }
  }

  lemma {:induction false} PathLeTotal(a: seq<string>, b: seq<string>)
    ensures PathLe(a, b) || PathLe(b, a)
    decreases |a|
  {
    if a != [] && b != [] {
      if a[0] == b[0] {
        PathLeTotal(a[1..], b[1..]);
      } else {
        TextLeTotal(a[0], b[0]);
      }
    }
  }

  lemma {:induction false} PathLeAntisymmetric(a: seq<string>, b: seq<string>)
    requires PathLe(a, b) && PathLe(b, a)
    ensures a == b
    decreases |a|
  {
    if a != [] {
      if a[0] != b[0] {
        TextLeAntisymmetric(a[0], b[0]);
      }
      PathLeAntisymmetric(a[1..], b[1..]);
      assert a == [a[0]] + a[1..] && b == [b[0]] + b[1..];
    }
  }

  lemma {:induction false} PathLeTransitive(a: seq<string>, b: seq<string>, c: seq<string>)
    requires PathLe(a, b) && PathLe(b, c)
    ensures PathLe(a, c)
    decreases |a|
  {
    if a != [] {
      if a[0] == b[0] && b[0] == c[0] {
        PathLeTransitive(a[1..], b[1..], c[1..]);
      } else if a[0] != b[0] && b[0] != c[0] {
        TextLeTransitive(a[0], b[0], c[0]);
        if a[0] == c[0] {
          TextLeAntisymmetric(a[0], b[0]);
        }
      }
    }
  }

  /** A proper prefix comes first. */
  lemma {:induction false} PathPrefixFirst(a: seq<string>, t: seq<string>)
    ensures PathLe(a, a + t)
    decreases |a|
  {
    if a != [] {
      assert (a + t)[1..] == a[1..] + t;
      PathPrefixFirst(a[1..], t);
    }
  }

  lemma RowLeTotal(x: Row, y: Row)
    ensures RowLe(x, y) || RowLe(y, x)
  {
    PathLeTotal(x.namePath, y.namePath);
    if PathLe(x.namePath, y.namePath) && PathLe(y.namePath, x.namePath) {
      PathLeAntisymmetric(x.namePath, y.namePath);
    }
  }

  lemma RowLeTransitive(x: Row, y: Row, z: Row)
    requires RowLe(x, y) && RowLe(y, z)
    ensures RowLe(x, z)
  {
    PathLeTransitive(x.namePath, y.namePath, z.namePath);
    if x.namePath == z.namePath {
      PathLeAntisymmetric(x.namePath, y.namePath);
    }
  }

  predicate Sorted(rs: seq<Row>) {
    forall i, j :: 0 <= i < j < |rs| ==> RowLe(rs[i], rs[j])
  }

  /** No two rows share an id. */
  predicate DistinctIds(rs: seq<Row>) {
    forall i, j :: 0 <= i < j < |rs| ==> rs[i].category.id != rs[j].category.id
  }

  function Insert(x: Row, rs: seq<Row>): (r: seq<Row>)
    ensures multiset(r) == multiset(rs) + multiset{x}
  {
    if rs == [] then [x]
    else if RowLe(x, rs[0]) then [x] + rs
    else
      assert rs == [rs[0]] + rs[1..];
      [rs[0]] + Insert(x, rs[1..])
  }

  /** The final ordering, as an insertion sort. */
  function Sort(rs: seq<Row>): (r: seq<Row>)
    ensures multiset(r) == multiset(rs)
  {
    if rs == [] then []
    else
      assert rs == [rs[0]] + rs[1..];
      Insert(rs[0], Sort(rs[1..]))
  }

  lemma {:induction false} InsertSorted(x: Row, rs: seq<Row>)
    requires Sorted(rs)
    ensures Sorted(Insert(x, rs))
  {
    if rs != [] {
      if RowLe(x, rs[0]) {
        forall j | 0 <= j < |rs| ensures RowLe(x, rs[j]) {
          if j > 0 {
            RowLeTransitive(x, rs[0], rs[j]);
          }
        }
      } else {
        RowLeTotal(x, rs[0]);
        var tail := Insert(x, rs[1..]);
        InsertSorted(x, rs[1..]);
        forall j | 0 <= j < |tail| ensures RowLe(rs[0], tail[j]) {
          assert tail[j] in multiset(rs[1..]) + multiset{x};
        }
      }
    }
  }

  lemma {:induction false} InsertDistinct(x: Row, rs: seq<Row>)
    requires DistinctIds(rs)
    requires forall k :: 0 <= k < |rs| ==> rs[k].category.id != x.category.id
    ensures DistinctIds(Insert(x, rs))
  {
    if rs != [] && !RowLe(x, rs[0]) {
      var tail := Insert(x, rs[1..]);
      InsertDistinct(x, rs[1..]);
      forall j | 0 <= j < |tail| ensures rs[0].category.id != tail[j].category.id {
        assert tail[j] in multiset(rs[1..]) + multiset{x};
      }
    }
  }

  lemma {:induction false} SortSorted(rs: seq<Row>)
    ensures Sorted(Sort(rs))
  {
    if rs != [] {
      SortSorted(rs[1..]);
      InsertSorted(rs[0], Sort(rs[1..]));
    }
  }

  lemma {:induction false} SortDistinct(rs: seq<Row>)
    requires DistinctIds(rs)
    ensures DistinctIds(Sort(rs))
  {
    if rs != [] {
      var sorted := Sort(rs[1..]);
      SortDistinct(rs[1..]);
      forall k | 0 <= k < |sorted| ensures sorted[k].category.id != rs[0].category.id {
        assert sorted[k] in multiset(rs[1..]);
      }
      InsertDistinct(rs[0], sorted);
    }
  }

  // ---------------------------------------------------------------------------
  // the query

  /** `execute_query`: the joined rows, in `ORDER BY` order. */
  function Search(all: seq<Category>, p: Params, how: Precedence): (r: seq<Row>)
    ensures multiset(r) == multiset(Rows(all, all, AncestorIds(all, all, p, how)))
    ensures Sorted(r)
  {
    var rows := Rows(all, all, AncestorIds(all, all, p, how));
    SortSorted(rows);
    Sort(rows)
  }

  /** With no term and no filters every category matches. */
  lemma NoTermSelectsAll(c: Category, how: Precedence)
    ensures Selected(c, Params(None, [], []), how)
  {
  }

  lemma {:induction false} RowsInclude(all: seq<Category>, cs: seq<Category>, ids: set<int>, c: Category)
    requires c in cs && c.id in ids && Placement(all, c, |all|).Some?
    ensures RowOf(all, c) in Rows(all, cs, ids)
  {
    if cs[0] != c {
      RowsInclude(all, cs[1..], ids, c);
    }
  }

  lemma {:induction false} RowsDistinct(all: seq<Category>, cs: seq<Category>, ids: set<int>)
    requires UniqueIds(cs)
    ensures DistinctIds(Rows(all, cs, ids))
  {
    if cs != [] {
      var tail := Rows(all, cs[1..], ids);
      RowsDistinct(all, cs[1..], ids);
      forall k | 0 <= k < |tail| ensures tail[k].category.id != cs[0].id {
        var i :| 0 <= i < |cs[1..]| && cs[1..][i] == tail[k].category;
        assert cs[i + 1] == tail[k].category;
      }
    }
  }

  /** A category the walk from a selected category reaches is among the
      ancestors. */
  lemma CollectedId(all: seq<Category>, p: Params, how: Precedence, i: nat, a: Category)
    requires i < |all| && Selected(all[i], p, how) && a in Chain(all, all[i], |all|)
    ensures a.id in AncestorIds(all, all, p, how)
  {
    assert a.id in Ids(Chain(all, all[i], |all|));
  }

  /** A selected category in the tree appears, and so does every category on
      its path from the root: an id that `except_ids` drops from `matched`
      still appears when it is an ancestor of a match. */
  lemma MatchesAndAncestorsAppear(all: seq<Category>, p: Params, how: Precedence, m: Category, k: nat)
    requires m in all && Selected(m, p, how)
    requires Placement(all, m, |all|).Some? && k < |Placement(all, m, |all|).value|
    ensures var a := Placement(all, m, |all|).value[k];
            Placement(all, a, |all|).Some? && RowOf(all, a) in Search(all, p, how)
  {
    var path := Placement(all, m, |all|).value;
    var a := path[k];
    PlacementOfAncestor(all, m, |all|, k);
    ChainMirrorsPlacement(all, m, |all|);
    var chain := Chain(all, m, |all|);
    assert chain[|path| - 1 - k] == a;
    var i :| 0 <= i < |all| && all[i] == m;
    CollectedId(all, p, how, i, a);
    var ids := AncestorIds(all, all, p, how);
    assert a in all;
    RowsInclude(all, all, ids, a);
    assert RowOf(all, a) in multiset(Rows(all, all, ids));
  }

  /** Every row is the row of a category in the tree, reached by the
      ancestor walk from some selected category; with unique ids no
      category appears twice. */
  lemma SearchRowsAreAncestors(all: seq<Category>, p: Params, how: Precedence)
    ensures forall x :: x in Search(all, p, how) ==>
              && x.category in all && Placement(all, x.category, |all|).Some? && x == RowOf(all, x.category)
              && exists i :: 0 <= i < |all| && Selected(all[i], p, how) && x.category.id in Ids(Chain(all, all[i], |all|))
    ensures UniqueIds(all) ==> DistinctIds(Search(all, p, how))
  {
    var rows := Rows(all, all, AncestorIds(all, all, p, how));
    forall x | x in Search(all, p, how)
      ensures x in rows
    {
      assert x in multiset(Search(all, p, how));
    }
    if UniqueIds(all) {
      RowsDistinct(all, all, AncestorIds(all, all, p, how));
      SortDistinct(rows);
    }
  }

  /** A row's depth is the number of ancestors the parent walk finds for
      it, and its name path starts at a root. */
  lemma DepthCountsAncestors(all: seq<Category>, c: Category)
    requires Placement(all, c, |all|).Some?
    ensures RowOf(all, c).depth == |Chain(all, c, |all|)| - 1
    ensures Chain(all, c, |all|)[RowOf(all, c).depth].parentId.None?
  {
    ChainMirrorsPlacement(all, c, |all|);
  }

  /** An ancestor `a` of `c`: a category on `c`'s path other than `c`. */
  predicate IsAncestor(all: seq<Category>, a: Category, c: Category) {
    && Placement(all, c, |all|).Some?
    && a in Placement(all, c, |all|).value[..|Placement(all, c, |all|).value| - 1]
  }

  /** An ancestor's name path is a proper prefix of its descendant's, so it
      sorts strictly before it. */
  lemma AncestorPathFirst(all: seq<Category>, a: Category, c: Category)
    requires IsAncestor(all, a, c)
    ensures Placement(all, a, |all|).Some?
    ensures PathLe(RowOf(all, a).namePath, RowOf(all, c).namePath)
    ensures !PathLe(RowOf(all, c).namePath, RowOf(all, a).namePath)
  {
    var path := Placement(all, c, |all|).value;
    var k :| 0 <= k < |path| - 1 && path[k] == a;
    PlacementOfAncestor(all, c, |all|, k);
    var long := RowOf(all, c).namePath;
    NamePathPrefix(path, k + 1);
    assert RowOf(all, a).namePath == long[..k + 1];
    ProperPrefixFirst(long, k + 1);
  }

  lemma NamePathPrefix(path: seq<Category>, n: nat)
    requires n <= |path|
    ensures NamePath(path[..n]) == NamePath(path)[..n]
  {
  }

  /** A proper prefix of a path sorts strictly before it. */
  lemma ProperPrefixFirst(long: seq<string>, n: nat)
    requires n < |long|
    ensures PathLe(long[..n], long) && !PathLe(long, long[..n])
  {
    assert long == long[..n] + long[n..];
    PathPrefixFirst(long[..n], long[n..]);
    if PathLe(long, long[..n]) {
      PathLeAntisymmetric(long[..n], long);
    }
  }

  /** A result row is the row of its category. */
  lemma SearchRowIsRowOf(all: seq<Category>, p: Params, how: Precedence, x: Row)
    requires x in Search(all, p, how)
    ensures Placement(all, x.category, |all|).Some? && x == RowOf(all, x.category)
  {
    assert x in multiset(Search(all, p, how));
  }

  /** Every ancestor comes before its descendants in the result. */
  lemma AncestorsFirst(all: seq<Category>, p: Params, how: Precedence, i: nat, j: nat)
    requires i < |Search(all, p, how)| && j < |Search(all, p, how)|
    requires IsAncestor(all, Search(all, p, how)[i].category, Search(all, p, how)[j].category)
    ensures i < j
  {
    var r := Search(all, p, how);
    SearchRowIsRowOf(all, p, how, r[i]);
    SearchRowIsRowOf(all, p, how, r[j]);
    AncestorPathFirst(all, r[i].category, r[j].category);
    PathLeTotal(r[i].namePath, r[i].namePath);
    assert !RowLe(r[j], r[i]) && RowLe(r[i], r[i]);
  }

  // ---------------------------------------------------------------------------
  // the precedence of the id filters

  lemma RowsOfNoIds(all: seq<Category>, cs: seq<Category>)
    ensures Rows(all, cs, {}) == []
  {
  }

  /** A search in which no category is matched returns nothing. */
  lemma NothingMatchedNothingFound(all: seq<Category>, p: Params, how: Precedence)
    requires forall i :: 0 <= i < |all| ==> !Selected(all[i], p, how)
    ensures Search(all, p, how) == []
  {
    assert AncestorIds(all, all, p, how) == {};
    RowsOfNoIds(all, all);
    assert multiset(Search(all, p, how)) == multiset{};
  }

  /** The term "a" selects "Ab" by prefix and not "C". */
  lemma TermTests(name: string, other: string, term: Option<string>)
    requires name == "Ab" && other == "C" && term == Some("a")
    ensures PrefixMatch(name, term)
    ensures !Matches(other, term)
  {
    var t := Lower(term.value);
    assert Lower(name)[..1] == t;
    assert Lower(other)[0] == 'c' && t[0] == 'a';
    FieldsSingle(t);
    assert !Contains(Lower(other), t) by {
      assert !OccursAt(Lower(other), t, 0);
    }
    assert !AllOccur(Lower(other), Fields(t)) by {
      assert Fields(t)[0] == t;
    }
  }

  /** The selections behind `PrefixBypassesFilters`. */
  lemma PrefixSelections(all: seq<Category>, p: Params)
    requires all == [Category(1, None, "Ab"), Category(2, None, "C")]
    requires p == Params(Some("a"), [2], [])
    ensures !Passes(all[0], p) && Selected(all[0], p, AsWritten)
    ensures forall i :: 0 <= i < |all| ==> !Selected(all[i], p, Intended)
  {
    TermTests(all[0].name, all[1].name, p.term);
    assert !Selected(all[0], p, Intended);
    assert !Selected(all[1], p, Intended);
  }

  /** A prefix match escapes `only_ids`: with categories 1 "Ab" and 2 "C",
      the term "a" and `only_ids` [2], category 1 is matched and returned
      as written, though the filter excludes it; as intended nothing is
      returned. */
  lemma PrefixBypassesFilters(all: seq<Category>, p: Params)
    requires all == [Category(1, None, "Ab"), Category(2, None, "C")]
    requires p == Params(Some("a"), [2], [])
    ensures !Passes(all[0], p) && Selected(all[0], p, AsWritten)
    ensures Placement(all, all[0], |all|).Some? && RowOf(all, all[0]) in Search(all, p, AsWritten)
    ensures Search(all, p, Intended) == []
  {
    PrefixSelections(all, p);
    MatchesAndAncestorsAppear(all, p, AsWritten, all[0], 0);
    NothingMatchedNothingFound(all, p, Intended);
  }
}
