/**
 * Folding flat join rows into nested records (`group_rows` and its
 * grouping closures).
 *
 * A row is a dict from column name to value.  `group_init` picks the row's
 * group by its id, creating the group on first appearance, and copies the
 * listed columns into it; each grouping then adds to the group in place:
 *  - RelManyScalar: a list of the non-None values of one column;
 *  - RelMany: a list of sub-dicts of the listed columns, skipping rows in
 *    which all of them are None;
 *  - RelOne: the sub-dict of the listed columns that are not None, replaced
 *    on every row.
 * The result is the groups in order of the first appearance of their id.
 */
module RowGrouping {
  import opened Collections
  import opened Values

  type Row = map<string, Value>
  type Group = map<string, Value>

  /** `group_init(id_fn, *keys)`. */
  datatype GroupInit = GroupInit(idOf: Row -> Value, keys: seq<string>)

  /** The grouping closures `group_rel_many_scalar`, `group_rel_one` and `group_rel_many`. */
  datatype Grouping =
    | RelManyScalar(groupKey: string, key: string)
    | RelOne(groupKey: string, keys: seq<string>)
    | RelMany(groupKey: string, keys: seq<string>)
  {
    /** The columns the closure reads from a row. */
    function Columns(): seq<string>
    {
      match this
      case RelManyScalar(_, key) => [key]
      case RelOne(_, keys) => keys
      case RelMany(_, keys) => keys
    }
  }

  /** Every column the grouping reads is in the row (otherwise the lookup fails). */
  predicate Readable(init: GroupInit, gs: seq<Grouping>, row: Row)
  {
    (forall k :: k in init.keys ==> k in row) && ColumnsIn(gs, row)
  }

  /** Every column the closures read is in the row. */
  predicate ColumnsIn(gs: seq<Grouping>, row: Row)
  {
    forall j :: 0 <= j < |gs| ==> forall k :: k in gs[j].Columns() ==> k in row
  }

  /**
   * Each grouping writes its own key: the group keys are distinct and none is
   * a column copied by `group_init`.
   */
  predicate WellFormed(init: GroupInit, gs: seq<Grouping>)
  {
    (forall j :: 0 <= j < |gs| ==> gs[j].groupKey !in init.keys) && DistinctGroupKeys(gs)
  }

  // ---------------------------------------------------------------------
  // One row

  /** `groups.setdefault(row_id, dict()).update((key, row[key]) for key in keys)`. */
  function InitGroup(init: GroupInit, group: Group, row: Row): (r: Group)
    requires forall k :: k in init.keys ==> k in row
    ensures r.Keys == group.Keys + (set k | k in init.keys)
    ensures forall k :: k in init.keys ==> r[k] == row[k]
    ensures forall k :: k in group && k !in init.keys ==> r[k] == group[k]
  {
    group + map k | k in init.keys :: row[k]
  }

  /** `group.setdefault(group_key, list())`: the list at `key`, or a new empty one. */
  function ListAt(group: Group, key: string): seq<Value>
  {
    if key in group && group[key].VList? then group[key].items else []
  }

  /** `{key: row[key] for key in keys if row[key] is not None}`. */
  function PresentColumns(row: Row, keys: seq<string>): map<string, Value>
    requires forall k :: k in keys ==> k in row
  {
    map k | k in keys && row[k] != VNone :: row[k]
  }

  /** `{key: row[key] for key in keys}`. */
  function ColumnsOf(row: Row, keys: seq<string>): map<string, Value>
    requires forall k :: k in keys ==> k in row
  {
    map k | k in keys :: row[k]
  }

  /** `all(row[key] is None for key in keys)`; true for no keys. */
  predicate AllNone(row: Row, keys: seq<string>)
    requires forall k :: k in keys ==> k in row
  {
    forall k :: k in keys ==> row[k] == VNone
  }

  /** What one grouping closure does to the group for one row. */
  function ApplyGrouping(g: Grouping, group: Group, row: Row): (r: Group)
    requires forall k :: k in g.Columns() ==> k in row
    ensures r.Keys == group.Keys + {g.groupKey}
    ensures forall k :: k in group && k != g.groupKey ==> r[k] == group[k]
  {
    match g
    case RelManyScalar(gk, key) =>
      var list := ListAt(group, gk);
      group[gk := VList(if row[key] == VNone then list else list + [row[key]])]
    case RelOne(gk, keys) =>
      group[gk := VDict(PresentColumns(row, keys))]
    case RelMany(gk, keys) =>
      var list := ListAt(group, gk);
      group[gk := VList(if AllNone(row, keys) then list else list + [VDict(ColumnsOf(row, keys))])]
  }

  /** The keys the closures write. */
  function GroupKeys(gs: seq<Grouping>): set<string>
  {
    set j | 0 <= j < |gs| :: gs[j].groupKey
  }

  /** No two closures write the same key. */
  predicate DistinctGroupKeys(gs: seq<Grouping>)
  {
    forall i, j :: 0 <= i < j < |gs| ==> gs[i].groupKey != gs[j].groupKey
  }

  /** The closures in order. */
  function ApplyAll(gs: seq<Grouping>, group: Group, row: Row): Group
    requires ColumnsIn(gs, row)
  {
    if gs == [] then group
    else ApplyGrouping(gs[|gs| - 1], ApplyAll(gs[..|gs| - 1], group, row), row)
  }

  /** The closures add their group keys and leave every other key alone. */
  lemma {:induction false} ApplyAllKeys(gs: seq<Grouping>, group: Group, row: Row)
    requires ColumnsIn(gs, row)
    ensures ApplyAll(gs, group, row).Keys == group.Keys + GroupKeys(gs)
    ensures forall k :: k in group && k !in GroupKeys(gs) ==> ApplyAll(gs, group, row)[k] == group[k]
  {
    if gs != [] {
      var p := gs[..|gs| - 1];
      assert GroupKeys(gs) == GroupKeys(p) + {gs[|gs| - 1].groupKey} by {
        assert forall j :: 0 <= j < |p| ==> p[j] == gs[j];
      }
      ApplyAllKeys(p, group, row);
    }
  }

  /**
   * With distinct group keys, a closure's key ends up as the closure alone
   * made it: the closures before and after it do not touch it.
   */
  lemma {:induction false} ApplyAllAt(gs: seq<Grouping>, j: nat, group: Group, row: Row)
    requires j < |gs| && ColumnsIn(gs, row) && DistinctGroupKeys(gs)
    ensures gs[j].groupKey in ApplyAll(gs, group, row)
    ensures ApplyAll(gs, group, row)[gs[j].groupKey] == ApplyGrouping(gs[j], group, row)[gs[j].groupKey]
  {
    var n := |gs| - 1;
    if j == n {
      ApplyAllAtLast(gs, group, row);
    } else {
      var p := gs[..n];
      assert p[j] == gs[j];
      assert gs[n].groupKey != gs[j].groupKey;
      ApplyAllAt(p, j, group, row);
    }
  }

  /** The last closure's key: the closures before it do not touch it. */
  lemma ApplyAllAtLast(gs: seq<Grouping>, group: Group, row: Row)
    requires |gs| > 0 && ColumnsIn(gs, row) && DistinctGroupKeys(gs)
    ensures var g := gs[|gs| - 1];
      && g.groupKey in ApplyAll(gs, group, row)
      && ApplyAll(gs, group, row)[g.groupKey] == ApplyGrouping(g, group, row)[g.groupKey]
  {
    var n := |gs| - 1;
    var p := gs[..n];
    var gk := gs[n].groupKey;
    assert gk !in GroupKeys(p) by {
      forall i | 0 <= i < n ensures p[i].groupKey != gk {
        assert p[i] == gs[i];
      }
    }
    ApplyAllKeys(p, group, row);
    SameListSameResult(gs[n], ApplyAll(p, group, row), group, row);
  }

  /** What a closure leaves at its key depends only on the list already there. */
  lemma SameListSameResult(g: Grouping, a: Group, b: Group, row: Row)
    requires forall k :: k in g.Columns() ==> k in row
    requires ListAt(a, g.groupKey) == ListAt(b, g.groupKey)
    ensures ApplyGrouping(g, a, row)[g.groupKey] == ApplyGrouping(g, b, row)[g.groupKey]
  {
  }

  /** The first `j + 1` closures are the first `j`, then closure `j`. */
  lemma ApplyAllNext(gs: seq<Grouping>, j: nat, group: Group, row: Row)
    requires j < |gs| && ColumnsIn(gs, row)
    ensures ColumnsIn(gs[..j], row) && ColumnsIn(gs[..j + 1], row)
    ensures ApplyAll(gs[..j + 1], group, row) == ApplyGrouping(gs[j], ApplyAll(gs[..j], group, row), row)
  {
    assert gs[..j + 1][..j] == gs[..j];
  }

  // ---------------------------------------------------------------------
  // All rows

  /** The rows whose id is `id`, in order. */
  function RowsWithId(idOf: Row -> Value, rows: seq<Row>, id: Value): (rs: seq<Row>)
    ensures |rs| <= |rows|
    ensures forall r :: 0 <= r < |rs| ==> idOf(rs[r]) == id && rs[r] in rows
  {
    if rows == [] then []
    else
      var rs := RowsWithId(idOf, rows[..|rows| - 1], id);
      if idOf(rows[|rows| - 1]) == id then rs + [rows[|rows| - 1]] else rs
  }

  /** A group built from its rows, starting from the empty dict. */
  function Fold(init: GroupInit, gs: seq<Grouping>, rs: seq<Row>): Group
    requires forall r :: 0 <= r < |rs| ==> Readable(init, gs, rs[r])
  {
    if rs == [] then map[]
    else
      var row := rs[|rs| - 1];
      assert Readable(init, gs, row);
      Step(init, gs, Fold(init, gs, rs[..|rs| - 1]), row)
  }

  /** One row on its group: `init_fn`, then each grouping closure. */
  function Step(init: GroupInit, gs: seq<Grouping>, group: Group, row: Row): Group
    requires Readable(init, gs, row)
  {
    ApplyAll(gs, InitGroup(init, group, row), row)
  }

  /** The row ids, one per row. */
  function RowIds(idOf: Row -> Value, rows: seq<Row>): (ids: seq<Value>)
    ensures |ids| == |rows| && forall r :: 0 <= r < |rows| ==> ids[r] == idOf(rows[r])
  {
    seq(|rows|, r requires 0 <= r < |rows| => idOf(rows[r]))
  }

  /** The keys of the ordered dict of groups: each row id once, by first appearance. */
  function GroupIds(idOf: Row -> Value, rows: seq<Row>): seq<Value>
  {
    Distinct(RowIds(idOf, rows))
  }

  /** `list(groups.values())` after all rows. */
  function Grouped(init: GroupInit, gs: seq<Grouping>, rows: seq<Row>): (r: seq<Group>)
    requires forall k :: 0 <= k < |rows| ==> Readable(init, gs, rows[k])
    ensures |r| <= |rows|
    ensures r == [] <==> rows == []
  {
    var ids := GroupIds(init.idOf, rows);
    seq(|ids|, i requires 0 <= i < |ids| => Fold(init, gs, RowsWithId(init.idOf, rows, ids[i])))
  }

  // ---------------------------------------------------------------------
  // What each closure leaves in a group

  /** `group_rel_many_scalar`: the non-None values of `key`, in row order. */
  function PresentValues(rs: seq<Row>, key: string): (vs: seq<Value>)
    requires forall r :: 0 <= r < |rs| ==> key in rs[r]
    ensures |vs| <= |rs| && VNone !in vs
  {
    if rs == [] then []
    else
      var vs := PresentValues(rs[..|rs| - 1], key);
      var v := rs[|rs| - 1][key];
      if v == VNone then vs else vs + [v]
  }

  /** `group_rel_many`: one sub-dict per row in which not all the columns are None. */
  function SubRecords(rs: seq<Row>, keys: seq<string>): (vs: seq<Value>)
    requires forall r :: 0 <= r < |rs| ==> forall k :: k in keys ==> k in rs[r]
    ensures |vs| <= |rs|
  {
    if rs == [] then []
    else
      var vs := SubRecords(rs[..|rs| - 1], keys);
      var row := rs[|rs| - 1];
      if AllNone(row, keys) then vs else vs + [VDict(ColumnsOf(row, keys))]
  }

  /**
   * Every group holds exactly the columns `group_init` copies and the keys
   * the closures write; a copied column that no closure writes holds the
   * value of the group's last row.
   */
  lemma {:induction false} GroupShape(init: GroupInit, gs: seq<Grouping>, rs: seq<Row>)
    requires forall r :: 0 <= r < |rs| ==> Readable(init, gs, rs[r])
    requires rs != []
    ensures Fold(init, gs, rs).Keys == (set k | k in init.keys) + GroupKeys(gs)
    ensures forall k :: k in init.keys && k !in GroupKeys(gs) ==> Fold(init, gs, rs)[k] == rs[|rs| - 1][k]
  {
    var p := rs[..|rs| - 1];
    var row := rs[|rs| - 1];
    assert Readable(init, gs, row);
    ApplyAllKeys(gs, InitGroup(init, Fold(init, gs, p), row), row);
    if p != [] {
      GroupShape(init, gs, p);
    }
  }

  /** The one-step view of a closure's key: what `Step` leaves there depends only on the closure and the key's old value. */
  lemma StepAt(init: GroupInit, gs: seq<Grouping>, j: nat, group: Group, row: Row)
    requires WellFormed(init, gs) && j < |gs| && Readable(init, gs, row)
    ensures var gk := gs[j].groupKey;
      && gk in Step(init, gs, group, row)
      && Step(init, gs, group, row)[gk] == ApplyGrouping(gs[j], group, row)[gk]
      && ListAt(InitGroup(init, group, row), gk) == ListAt(group, gk)
  {
    var g0 := InitGroup(init, group, row);
    InitGroupListAt(init, group, row, gs[j].groupKey);
    ApplyAllAt(gs, j, g0, row);
    SameListSameResult(gs[j], g0, group, row);
  }

  /** `group_init` does not touch a key it does not copy. */
  lemma InitGroupListAt(init: GroupInit, group: Group, row: Row, key: string)
    requires forall k :: k in init.keys ==> k in row
    requires key !in init.keys
    ensures ListAt(InitGroup(init, group, row), key) == ListAt(group, key)
  {
  }

  /**
   * A `group_rel_many_scalar` key always holds a list, empty when every value
   * was None, of the non-None values of its column over the group's rows.
   */
  lemma {:induction false} ScalarList(init: GroupInit, gs: seq<Grouping>, rs: seq<Row>, j: nat)
    requires WellFormed(init, gs) && j < |gs| && gs[j].RelManyScalar?
    requires forall r :: 0 <= r < |rs| ==> Readable(init, gs, rs[r])
    ensures forall r :: 0 <= r < |rs| ==> gs[j].key in rs[r]
    ensures rs != [] ==> gs[j].groupKey in Fold(init, gs, rs)
    ensures rs != [] ==> Fold(init, gs, rs)[gs[j].groupKey] == VList(PresentValues(rs, gs[j].key))
  {
    assert gs[j].Columns() == [gs[j].key];
    if rs != [] {
      var p := rs[..|rs| - 1];
      StepAt(init, gs, j, Fold(init, gs, p), rs[|rs| - 1]);
      ScalarList(init, gs, p, j);
    }
  }

  /**
   * A `group_rel_many` key always holds a list of the sub-dicts of the
   * group's rows, skipping the rows whose listed columns are all None.
   */
  lemma {:induction false} ManyList(init: GroupInit, gs: seq<Grouping>, rs: seq<Row>, j: nat)
    requires WellFormed(init, gs) && j < |gs| && gs[j].RelMany?
    requires forall r :: 0 <= r < |rs| ==> Readable(init, gs, rs[r])
    ensures forall r :: 0 <= r < |rs| ==> forall k :: k in gs[j].keys ==> k in rs[r]
    ensures rs != [] ==> gs[j].groupKey in Fold(init, gs, rs)
    ensures rs != [] ==> Fold(init, gs, rs)[gs[j].groupKey] == VList(SubRecords(rs, gs[j].keys))
  {
    if rs != [] {
      var p := rs[..|rs| - 1];
      StepAt(init, gs, j, Fold(init, gs, p), rs[|rs| - 1]);
      ManyList(init, gs, p, j);
    }
  }

  /**
   * A `group_rel_one` key holds the non-None listed columns of the group's
   * last row.
   */
  lemma OneFromLastRow(init: GroupInit, gs: seq<Grouping>, rs: seq<Row>, j: nat)
    requires WellFormed(init, gs) && j < |gs| && gs[j].RelOne?
    requires forall r :: 0 <= r < |rs| ==> Readable(init, gs, rs[r])
    requires rs != []
    ensures gs[j].groupKey in Fold(init, gs, rs)
    ensures Fold(init, gs, rs)[gs[j].groupKey] == VDict(PresentColumns(rs[|rs| - 1], gs[j].keys))
  {
    StepAt(init, gs, j, Fold(init, gs, rs[..|rs| - 1]), rs[|rs| - 1]);
  }

  /**
   * `group_rows` yields one group per distinct row id, in order of each id's
   * first row, no more groups than rows, and each group folded from exactly
   * the (non-empty) rows with its id.
   */
  lemma GroupsByFirstAppearance(init: GroupInit, gs: seq<Grouping>, rows: seq<Row>)
    requires forall k :: 0 <= k < |rows| ==> Readable(init, gs, rows[k])
    ensures var ids := GroupIds(init.idOf, rows);
      var groups := Grouped(init, gs, rows);
      && |groups| == |ids| <= |rows|
      && NoDuplicates(ids)
      && (forall r :: 0 <= r < |rows| ==> init.idOf(rows[r]) in ids)
      && (forall i :: 0 <= i < |ids| ==>
            RowsWithId(init.idOf, rows, ids[i]) != []
            && groups[i] == Fold(init, gs, RowsWithId(init.idOf, rows, ids[i])))
      && forall i, i' :: 0 <= i < i' < |ids| ==>
            FirstIndex(RowIds(init.idOf, rows), ids[i]) < FirstIndex(RowIds(init.idOf, rows), ids[i'])
  {
    var ids := GroupIds(init.idOf, rows);
    forall i | 0 <= i < |ids| ensures RowsWithId(init.idOf, rows, ids[i]) != [] {
      RowsWithIdEmpty(init.idOf, rows, ids[i]);
    }
    forall i, i' | 0 <= i < i' < |ids|
      ensures FirstIndex(RowIds(init.idOf, rows), ids[i]) < FirstIndex(RowIds(init.idOf, rows), ids[i'])
    {
      DistinctFirstAppearance(RowIds(init.idOf, rows), i, i');
    }
    assert forall r :: 0 <= r < |rows| ==> RowIds(init.idOf, rows)[r] == init.idOf(rows[r]);
  }

  // ---------------------------------------------------------------------
  // The ordered dict of groups

  /** The `OrderedDict` that `group_rows` fills: the ids in insertion order and each id's group. */
  class GroupTable {
    var ids: seq<Value>
    var groups: map<Value, Group>

    ghost predicate Valid()
      reads this
    {
      NoDuplicates(ids) && forall id :: id in groups <==> id in ids
    }

    constructor()
      ensures Valid() && ids == [] && groups == map[]
    {
      ids := [];
      groups := map[];
    }

    /** The group of `id` so far, or the empty dict. */
    function GroupOr(id: Value): Group
      reads this
    {
      if id in groups then groups[id] else map[]
    }

    /** `group_init`: creates the row's group on first appearance and copies the listed columns. */
    method Init(init: GroupInit, row: Row) returns (id: Value)
      requires Valid() && forall k :: k in init.keys ==> k in row
      modifies this
      ensures Valid()
      ensures id == init.idOf(row)
      ensures ids == old(ids) + (if id in old(groups) then [] else [id])
      ensures groups == old(groups)[id := InitGroup(init, old(GroupOr(id)), row)]
    {
      id := init.idOf(row);
      if id !in groups {
        groups := groups[id := map[]];
        ids := ids + [id];
      }
      groups := groups[id := InitGroup(init, groups[id], row)];
    }

    /** Each grouping closure in turn on the group of `id`. */
    method ApplyEach(gs: seq<Grouping>, id: Value, row: Row)
      requires Valid() && id in groups && ColumnsIn(gs, row)
      modifies this
      ensures Valid()
      ensures ids == old(ids) && groups == old(groups)[id := ApplyAll(gs, old(groups)[id], row)]
    {
      var group := groups[id];
      var j := 0;
      while j < |gs|
        invariant 0 <= j <= |gs|
        invariant group == ApplyAll(gs[..j], old(groups)[id], row)
        invariant ids == old(ids) && groups == old(groups)
      {
        ApplyAllNext(gs, j, old(groups)[id], row);
        group := ApplyGrouping(gs[j], group, row);
        j := j + 1;
      }
      assert gs[..j] == gs;
      groups := groups[id := group];
    }

    /** One iteration of `group_rows`: `init_fn` picks the row's group, then each closure updates it. */
    method Add(init: GroupInit, gs: seq<Grouping>, row: Row) returns (id: Value)
      requires Valid() && Readable(init, gs, row)
      modifies this
      ensures Valid()
      ensures id == init.idOf(row)
      ensures ids == old(ids) + (if id in old(groups) then [] else [id])
      ensures groups == old(groups)[id := Step(init, gs, if id in old(groups) then old(groups)[id] else map[], row)]
    {
      id := Init(init, row);
      ApplyEach(gs, id, row);
    }

    /** `list(groups.values())`. */
    function Values(): (r: seq<Group>)
      reads this
      requires Valid()
      ensures |r| == |ids| && forall i :: 0 <= i < |ids| ==> r[i] == groups[ids[i]]
    {
      seq(|ids|, i requires 0 <= i < |ids| && Valid() reads this => groups[ids[i]])
    }
  }

  /**
   * `group_rows(init_fn, *grouping_fns)(rows)`, for closures that each write
   * a key of their own.
   */
  method GroupRows(init: GroupInit, gs: seq<Grouping>, rows: seq<Row>) returns (result: seq<Group>)
    requires WellFormed(init, gs)
    requires forall k :: 0 <= k < |rows| ==> Readable(init, gs, rows[k])
    ensures result == Grouped(init, gs, rows)
  {
    var table := new GroupTable();
    var i := 0;
    while i < |rows|
      invariant 0 <= i <= |rows|
      invariant table.Valid()
      invariant Tracks(init, gs, rows[..i], table.ids, table.groups)
    {
      ghost var ids, groups := table.ids, table.groups;
      var id := table.Add(init, gs, rows[i]);
      TracksNext(init, gs, rows, i, ids, groups);
      i := i + 1;
    }
    assert rows[..i] == rows;
    result := table.Values();
    TrackedGroups(init, gs, rows, table.ids, table.groups, result);
  }

  /** A table that tracks all the rows lists their groups in order. */
  lemma TrackedGroups(init: GroupInit, gs: seq<Grouping>, rows: seq<Row>, ids: seq<Value>, groups: map<Value, Group>,
                      r: seq<Group>)
    requires forall k :: 0 <= k < |rows| ==> Readable(init, gs, rows[k])
    requires Tracks(init, gs, rows, ids, groups) && forall id :: id in groups <==> id in ids
    requires |r| == |ids| && forall i :: 0 <= i < |ids| ==> r[i] == groups[ids[i]]
    ensures r == Grouped(init, gs, rows)
  {
    assert forall k :: 0 <= k < |r| ==> r[k] == Grouped(init, gs, rows)[k];
  }

  /** The table holds the groups of the rows seen so far. */
  ghost predicate Tracks(init: GroupInit, gs: seq<Grouping>, rows: seq<Row>, ids: seq<Value>, groups: map<Value, Group>)
    requires forall k :: 0 <= k < |rows| ==> Readable(init, gs, rows[k])
  {
    && ids == GroupIds(init.idOf, rows)
    && forall id :: id in groups ==> groups[id] == Fold(init, gs, RowsWithId(init.idOf, rows, id))
  }

  lemma TracksNext(init: GroupInit, gs: seq<Grouping>, rows: seq<Row>, i: nat, ids: seq<Value>, groups: map<Value, Group>)
    requires i < |rows| && forall k :: 0 <= k < |rows| ==> Readable(init, gs, rows[k])
    requires Tracks(init, gs, rows[..i], ids, groups)
    requires forall id :: id in groups <==> id in ids
    ensures var id := init.idOf(rows[i]);
      Tracks(init, gs, rows[..i + 1], ids + (if id in groups then [] else [id]),
             groups[id := Step(init, gs, if id in groups then groups[id] else map[], rows[i])])
  {
    var id := init.idOf(rows[i]);
    var groups' := groups[id := Step(init, gs, if id in groups then groups[id] else map[], rows[i])];
    NextRow(init, gs, rows, i);
    forall id' | id' in groups'
      ensures groups'[id'] == Fold(init, gs, RowsWithId(init.idOf, rows[..i + 1], id'))
    {
      if id' != id {
        assert RowsWithId(init.idOf, rows[..i + 1], id') == RowsWithId(init.idOf, rows[..i], id');
      }
    }
  }

  /** Adding row `i`: its id joins the ids if new; only its own group's rows grow. */
  lemma NextRow(init: GroupInit, gs: seq<Grouping>, rows: seq<Row>, i: nat)
    requires i < |rows| && forall k :: 0 <= k < |rows| ==> Readable(init, gs, rows[k])
    ensures var id := init.idOf(rows[i]);
      var ids := GroupIds(init.idOf, rows[..i]);
      && GroupIds(init.idOf, rows[..i + 1]) == ids + (if id in ids then [] else [id])
      && RowsWithId(init.idOf, rows[..i + 1], id) == RowsWithId(init.idOf, rows[..i], id) + [rows[i]]
      && (RowsWithId(init.idOf, rows[..i], id) == [] <==> id !in ids)
      && Fold(init, gs, RowsWithId(init.idOf, rows[..i + 1], id))
         == Step(init, gs, Fold(init, gs, RowsWithId(init.idOf, rows[..i], id)), rows[i])
      && forall id' :: id' != id ==> RowsWithId(init.idOf, rows[..i + 1], id') == RowsWithId(init.idOf, rows[..i], id')
  {
    var idOf := init.idOf;
    NextIds(idOf, rows, i);
    NextRowsWithId(idOf, rows, i);
    RowsWithIdEmpty(idOf, rows[..i], idOf(rows[i]));
    FoldSnoc(init, gs, RowsWithId(idOf, rows[..i], idOf(rows[i])), rows[i]);
  }

  lemma NextIds(idOf: Row -> Value, rows: seq<Row>, i: nat)
    requires i < |rows|
    ensures var id := idOf(rows[i]);
      var ids := GroupIds(idOf, rows[..i]);
      GroupIds(idOf, rows[..i + 1]) == ids + (if id in ids then [] else [id])
  {
    var s := RowIds(idOf, rows[..i + 1]);
    assert s[..i] == RowIds(idOf, rows[..i]);
    assert s[i] == idOf(rows[i]);
  }

  lemma NextRowsWithId(idOf: Row -> Value, rows: seq<Row>, i: nat)
    requires i < |rows|
    ensures forall id ::
      RowsWithId(idOf, rows[..i + 1], id) == RowsWithId(idOf, rows[..i], id) + (if idOf(rows[i]) == id then [rows[i]] else [])
  {
    assert rows[..i + 1][..i] == rows[..i];
  }

  lemma FoldSnoc(init: GroupInit, gs: seq<Grouping>, rs: seq<Row>, row: Row)
    requires forall r :: 0 <= r < |rs| ==> Readable(init, gs, rs[r])
    requires Readable(init, gs, row)
    ensures Fold(init, gs, rs + [row]) == Step(init, gs, Fold(init, gs, rs), row)
  {
    assert (rs + [row])[..|rs|] == rs;
  }

  /** No row has `id` exactly when `id` is not among the group ids. */
  lemma {:induction false} RowsWithIdEmpty(idOf: Row -> Value, rows: seq<Row>, id: Value)
    ensures RowsWithId(idOf, rows, id) == [] <==> id !in GroupIds(idOf, rows)
  {
    if rows != [] {
      var p := rows[..|rows| - 1];
      RowsWithIdEmpty(idOf, p, id);
      assert RowIds(idOf, rows)[..|rows| - 1] == RowIds(idOf, p);
    }
  }
}
