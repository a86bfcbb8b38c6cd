/** Child tables with an ordering column, read back with `where parent in (..) order by parent,
    ordinal, id`. Row ids are arbitrary distinct numbers. */
module ReportTables {
  import opened Prelude

  type Id = nat

  datatype Row<T> = Row(parent: Id, ordinal: nat, data: T)
  type Table<T> = map<Id, Row<T>>

  datatype Key = Key(parent: Id, ordinal: nat, id: Id)

  predicate Before(a: Key, b: Key) {
    || a.parent < b.parent
    || (a.parent == b.parent && a.ordinal < b.ordinal)
    || (a.parent == b.parent && a.ordinal == b.ordinal && a.id < b.id)
  }

  predicate Sorted(s: seq<Key>) {
    forall i, j :: 0 <= i < j < |s| ==> Before(s[i], s[j])
  }

  // ------------------------------------------------------------ order by

  lemma {:induction false} HasFirst(keys: set<Key>)
    requires keys != {}
    ensures exists k :: k in keys && forall j :: j in keys && j != k ==> Before(k, j)
  {
    var k :| k in keys;
    if keys - {k} != {} {
      HasFirst(keys - {k});
      var m :| m in keys - {k} && forall j :: j in keys - {k} && j != m ==> Before(m, j);
      var first := if Before(k, m) then k else m;
      forall j | j in keys && j != first ensures Before(first, j) {
        assert j == k || j in keys - {k};
      }
    } else {
      assert keys == {k};
    }
  }

  function Ordered(keys: set<Key>): (s: seq<Key>)
    ensures Sorted(s)
    ensures forall k :: k in s <==> k in keys
  {
    if keys == {} then []
    else
      HasFirst(keys);
      var k :| k in keys && forall j :: j in keys && j != k ==> Before(k, j);
      [k] + Ordered(keys - {k})
  }

  function Head(s: seq<Key>): (k: Key)
    ensures s != [] ==> k == s[0] && k in s
  {
    if s == [] then Key(0, 0, 0) else s[0]
  }

  /** A set has one sorted listing. */
  lemma {:induction false} SortedUnique(a: seq<Key>, b: seq<Key>)
    requires Sorted(a) && Sorted(b) && forall k :: k in a <==> k in b
    ensures a == b
  {
    assert Head(a) in a <==> Head(a) in b;
    assert Head(b) in a <==> Head(b) in b;
    if a != [] && b != [] {
      assert a[0] == b[0];
      forall k ensures k in a[1..] <==> k in b[1..] {
        assert k in a <==> k == a[0] || k in a[1..];
        assert k in b <==> k == b[0] || k in b[1..];
        assert a[0] !in a[1..] && b[0] !in b[1..];
      }
      SortedUnique(a[1..], b[1..]);
    }
  }

  // ------------------------------------------------------------ select

  function KeyOf<T>(t: Table<T>, id: Id): Key
    requires id in t
  {
    Key(t[id].parent, t[id].ordinal, id)
  }

  function Keys<T>(t: Table<T>, parents: set<Id>): set<Key> {
    set id | id in t && t[id].parent in parents :: KeyOf(t, id)
  }

  function Select<T>(t: Table<T>, parents: set<Id>): (ids: seq<Id>)
    ensures forall id :: id in ids <==> id in t && t[id].parent in parents
  {
    var keys := Ordered(Keys(t, parents));
    var ids := seq(|keys|, i requires 0 <= i < |keys| => keys[i].id);
    assert forall id :: id in t && t[id].parent in parents ==> id in ids by {
      forall id | id in t && t[id].parent in parents ensures id in ids {
        assert KeyOf(t, id) in keys;
        var i :| 0 <= i < |keys| && keys[i] == KeyOf(t, id);
        assert ids[i] == id;
      }
    }
    assert forall i :: 0 <= i < |ids| ==> keys[i] in Keys(t, parents);
    ids
  }

  function Children<T>(t: Table<T>, parent: Id): (ids: seq<Id>)
    ensures forall id :: id in ids <==> id in t && t[id].parent == parent
  {
    Select(t, {parent})
  }

  ghost predicate Listed<T>(t: Table<T>, parents: set<Id>, ids: seq<Id>) {
    && (forall id :: id in ids <==> id in t && t[id].parent in parents)
    && InOrder(t, ids)
  }

  predicate InOrder<T>(t: Table<T>, ids: seq<Id>)
    requires forall id :: id in ids ==> id in t
  {
    forall i, j :: 0 <= i < j < |ids| ==> Before(KeyOf(t, ids[i]), KeyOf(t, ids[j]))
  }

  lemma SelectListed<T>(t: Table<T>, parents: set<Id>)
    ensures Listed(t, parents, Select(t, parents))
  {
    var keys, ids := Ordered(Keys(t, parents)), Select(t, parents);
    assert forall i :: 0 <= i < |ids| ==> keys[i] in Keys(t, parents);
    assert forall i :: 0 <= i < |ids| ==> KeyOf(t, ids[i]) == keys[i];
  }

  /** A select is the one listing of its rows by parent, ordinal and id. */
  lemma SelectUnique<T>(t: Table<T>, parents: set<Id>, ids: seq<Id>)
    requires Listed(t, parents, ids)
    ensures ids == Select(t, parents)
  {
    SelectListed(t, parents);
    var other := Select(t, parents);
    var a := seq(|ids|, i requires 0 <= i < |ids| => KeyOf(t, ids[i]));
    var b := seq(|other|, i requires 0 <= i < |other| => KeyOf(t, other[i]));
    forall k ensures k in a <==> k in b {
      assert k in a ==> k.id in ids && k == KeyOf(t, k.id);
      assert k in b ==> k.id in other && k == KeyOf(t, k.id);
      if k in a {
        var i :| 0 <= i < |other| && other[i] == k.id;
        assert b[i] == k;
      }
      if k in b {
        var i :| 0 <= i < |ids| && ids[i] == k.id;
        assert a[i] == k;
      }
    }
    SortedUnique(a, b);
    assert |ids| == |a| == |b| == |other|;
    forall i | 0 <= i < |ids| ensures ids[i] == other[i] {
      assert a[i].id == b[i].id;
    }
  }

  // ------------------------------------------------------------ inserting

  /** A new last child is listed last; nobody else's children change. */
  lemma ChildAppended<T>(t: Table<T>, id: Id, row: Row<T>)
    requires id !in t
    requires forall j :: j in t && t[j].parent == row.parent ==> t[j].ordinal < row.ordinal
    ensures Children(t[id := row], row.parent) == Children(t, row.parent) + [id]
  {
    SelectListed(t, {row.parent});
    var t', ids := t[id := row], Children(t, row.parent) + [id];
    forall k ensures k in ids <==> k in t' && t'[k].parent in {row.parent} {
      assert k in ids <==> k == id || k in Children(t, row.parent);
    }
    assert forall i :: 0 <= i < |ids| - 1 ==> ids[i] in Children(t, row.parent);
    SelectUnique(t', {row.parent}, ids);
  }

  /** Rows are only added, none of them under the given parents. */
  ghost predicate Grown<T>(t: Table<T>, t': Table<T>, kept: set<Id>) {
    && (forall id :: id in t ==> id in t' && t'[id] == t[id])
    && (forall id :: id in t' && id !in t ==> t'[id].parent !in kept)
  }

  lemma GrownKeepsChildren<T>(t: Table<T>, t': Table<T>, kept: set<Id>, parent: Id)
    requires Grown(t, t', kept) && parent in kept
    ensures Children(t', parent) == Children(t, parent)
  {
    SelectListed(t, {parent});
    SelectUnique(t', {parent}, Children(t, parent));
  }

  /** The payloads of a parent's rows, in order. */
  function Data<T>(t: Table<T>, parent: Id): (r: seq<T>)
    ensures |r| == |Children(t, parent)|
  {
    var ids := Children(t, parent);
    assert forall i :: 0 <= i < |ids| ==> ids[i] in ids;
    seq(|ids|, i requires 0 <= i < |ids| => t[ids[i]].data)
  }

  lemma DataAppended<T>(t: Table<T>, id: Id, row: Row<T>)
    requires id !in t
    requires forall j :: j in t && t[j].parent == row.parent ==> t[j].ordinal < row.ordinal
    ensures Data(t[id := row], row.parent) == Data(t, row.parent) + [row.data]
  {
    ChildAppended(t, id, row);
    var ids := Children(t, row.parent);
    assert forall i :: 0 <= i < |ids| ==> ids[i] in ids;
  }

  lemma GrownKeepsData<T>(t: Table<T>, t': Table<T>, kept: set<Id>, parent: Id)
    requires Grown(t, t', kept) && parent in kept
    ensures Data(t', parent) == Data(t, parent)
  {
    GrownKeepsChildren(t, t', kept, parent);
    var ids := Children(t, parent);
    assert forall i :: 0 <= i < |ids| ==> ids[i] in ids;
  }

  lemma GrownTwice<T>(a: Table<T>, b: Table<T>, c: Table<T>, kept: set<Id>, more: set<Id>)
    requires Grown(a, b, kept) && Grown(b, c, more) && kept <= more
    ensures Grown(a, c, kept)
  {
  }

  lemma NoChildren<T>(t: Table<T>, parent: Id)
    requires forall id :: id in t ==> t[id].parent != parent
    ensures Children(t, parent) == []
  {
    SelectUnique(t, {parent}, []);
  }

  lemma AboveAll(s: set<Id>) returns (bound: Id)
    ensures forall id :: id in s ==> id < bound
  {
    bound := 0;
    var left := s;
    while left != {}
      invariant forall id :: id in s ==> id in left || id < bound
      decreases left
    {
      var id :| id in left;
      bound := if id < bound then bound else id + 1;
      left := left - {id};
    }
  }

  /** The database hands out an unused row id, any one. */
  method NewId(used: set<Id>) returns (id: Id)
    ensures id !in used
  {
    ghost var bound := AboveAll(used);
    assert bound !in used;
    id :| id !in used;
  }

  // ------------------------------------------------------------ grouping

  /** The rows of one parent, in the order given. */
  function OfParent<T>(t: Table<T>, ids: seq<Id>, parent: Id): (own: seq<Id>)
    requires forall id :: id in ids ==> id in t
    ensures forall id :: id in own ==> id in ids
  {
    if ids == [] then []
    else
      var rest := OfParent(t, ids[..|ids| - 1], parent);
      if t[ids[|ids| - 1]].parent == parent then rest + [ids[|ids| - 1]] else rest
  }

  lemma OfParentNext<T>(t: Table<T>, ids: seq<Id>, k: nat, parent: Id)
    requires k < |ids| && forall id :: id in ids ==> id in t
    ensures ids[k] in ids
    ensures OfParent(t, ids[..k + 1], parent) ==
            if t[ids[k]].parent == parent then OfParent(t, ids[..k], parent) + [ids[k]]
            else OfParent(t, ids[..k], parent)
  {
    assert ids[..k + 1][..k] == ids[..k];
  }

  lemma {:induction false} OfParentListed<T>(t: Table<T>, ids: seq<Id>, parent: Id)
    requires forall id :: id in ids ==> id in t
    requires InOrder(t, ids)
    ensures forall id :: id in OfParent(t, ids, parent) <==> id in ids && t[id].parent == parent
    ensures InOrder(t, OfParent(t, ids, parent))
  {
    if ids != [] {
      var front, last := ids[..|ids| - 1], ids[|ids| - 1];
      OfParentListed(t, front, parent);
      assert forall id :: id in ids <==> id in front || id == last;
      forall id | id in front ensures Before(KeyOf(t, id), KeyOf(t, last)) {
        var i :| 0 <= i < |front| && front[i] == id;
        assert Before(KeyOf(t, ids[i]), KeyOf(t, ids[|ids| - 1]));
      }
    }
  }

  /** Splitting one ordered select by parent gives each parent's own ordered children. */
  lemma GroupsAreChildren<T>(t: Table<T>, parents: set<Id>, parent: Id)
    requires parent in parents
    ensures OfParent(t, Select(t, parents), parent) == Children(t, parent)
  {
    SelectListed(t, parents);
    OfParentListed(t, Select(t, parents), parent);
    var out := OfParent(t, Select(t, parents), parent);
    SelectUnique(t, {parent}, out);
  }

  function Get<T>(groups: map<Id, seq<T>>, key: Id): seq<T> {
    if key in groups then groups[key] else []
  }

  /** One pass over an ordered select, appending each row to its parent's list. */
  method Group<T>(t: Table<T>, parents: set<Id>) returns (groups: map<Id, seq<Id>>)
    ensures forall p :: p in parents ==> Get(groups, p) == Children(t, p)
  {
    var rows := Select(t, parents);
    groups := map[];
    for i := 0 to |rows|
      invariant forall p :: Get(groups, p) == OfParent(t, rows[..i], p)
    {
      assert rows[..i + 1][..i] == rows[..i];
      var parent := t[rows[i]].parent;
      groups := groups[parent := Get(groups, parent) + [rows[i]]];
    }
    assert rows[..|rows|] == rows;
    forall p | p in parents ensures Get(groups, p) == Children(t, p) {
      GroupsAreChildren(t, parents, p);
    }
  }
}
