/**
 * In-memory tables standing in for the database: a table is a sequence of
 * rows in insertion order, each row carrying its primary key.
 */
module Tables {
  import opened Common

  datatype Row<T> = Row(id: nat, data: T)

  /** Primary keys are unique within a table. */
  predicate IdsUnique<T>(rows: seq<Row<T>>) {
    forall i, j :: 0 <= i < j < |rows| ==> rows[i].id != rows[j].id
  }

  /** Every primary key of the table is below the next key to be handed out. */
  predicate IdsBelow<T>(rows: seq<Row<T>>, next: nat) {
    forall i :: 0 <= i < |rows| ==> rows[i].id < next
  }

  predicate HasId<T>(rows: seq<Row<T>>, id: nat) {
    exists i :: 0 <= i < |rows| && rows[i].id == id
  }

  /** The position of the row with primary key `id`, if there is one. */
  function IndexOf<T>(rows: seq<Row<T>>, id: nat): (r: Option<nat>)
    ensures r.Some? ==> r.value < |rows| && rows[r.value].id == id
    ensures r.Some? ==> forall j :: 0 <= j < r.value ==> rows[j].id != id
    ensures r.None? <==> !HasId(rows, id)
  {
    if rows == [] then None
    else if rows[0].id == id then Some(0)
    else match IndexOf(rows[1..], id)
      case None => assert forall j :: 1 <= j < |rows| ==> rows[j] == rows[1..][j - 1]; None
      case Some(k) => Some(k + 1)
  }

  /** `objects.get(pk=id)`: the data of the row with primary key `id`. */
  function Lookup<T>(rows: seq<Row<T>>, id: nat): (r: Option<T>)
    ensures r.Some? <==> HasId(rows, id)
    ensures r.Some? ==> Row(id, r.value) in rows
    ensures IdsUnique(rows) ==> forall i :: 0 <= i < |rows| && rows[i].id == id ==> r == Some(rows[i].data)
  {
    match IndexOf(rows, id)
    case None => None
    case Some(k) => Some(rows[k].data)
  }

  /** An UPDATE of the row with primary key `id`; every other row is kept. */
  function Replace<T>(rows: seq<Row<T>>, id: nat, d: T): (r: seq<Row<T>>)
    ensures |r| == |rows|
    ensures forall i :: 0 <= i < |rows| ==> r[i].id == rows[i].id
    ensures forall i :: 0 <= i < |rows| && rows[i].id == id ==> r[i].data == d
    ensures forall i :: 0 <= i < |rows| && rows[i].id != id ==> r[i] == rows[i]
    ensures forall x :: HasId(r, x) <==> HasId(rows, x)
  {
    seq(|rows|, i requires 0 <= i < |rows| => if rows[i].id == id then Row(id, d) else rows[i])
  }

  /** A DELETE of the row with primary key `id`; the other rows keep their order. */
  function Without<T(!new)>(rows: seq<Row<T>>, id: nat): (r: seq<Row<T>>)
    ensures forall x :: x in r <==> x in rows && x.id != id
    ensures |r| <= |rows|
    ensures !HasId(rows, id) ==> r == rows
    ensures forall x :: HasId(r, x) <==> HasId(rows, x) && x != id
  {
    if rows == [] then []
    else if rows[0].id == id then Without(rows[1..], id)
    else [rows[0]] + Without(rows[1..], id)
  }

  /** A DELETE of every row whose data fails `keep`; the other rows keep their order. */
  function Keep<T(!new)>(rows: seq<Row<T>>, keep: T -> bool): (r: seq<Row<T>>)
    ensures forall x :: x in r <==> x in rows && keep(x.data)
  {
    if rows == [] then []
    else if keep(rows[0].data) then [rows[0]] + Keep(rows[1..], keep)
    else Keep(rows[1..], keep)
  }

  lemma {:induction false} KeepKeepsIdsUnique<T(!new)>(rows: seq<Row<T>>, keep: T -> bool)
    requires IdsUnique(rows)
    ensures IdsUnique(Keep(rows, keep))
  {
    if rows != [] {
      assert IdsUnique(rows[1..]);
      KeepKeepsIdsUnique(rows[1..], keep);
      var rest := Keep(rows[1..], keep);
      if keep(rows[0].data) {
        forall x | x in rest ensures x.id != rows[0].id {
          var j :| 0 <= j < |rows[1..]| && rows[1..][j] == x;
          assert rows[j + 1] == x;
        }
      }
    }
  }

  lemma KeepKeepsIdsBelow<T(!new)>(rows: seq<Row<T>>, keep: T -> bool, next: nat)
    requires IdsBelow(rows, next)
    ensures IdsBelow(Keep(rows, keep), next)
  {
    var r := Keep(rows, keep);
    forall i | 0 <= i < |r| ensures r[i].id < next {
      assert r[i] in rows;
    }
  }

  lemma HasIdAppend<T>(rows: seq<Row<T>>, more: seq<Row<T>>)
    ensures forall x :: HasId(rows, x) ==> HasId(rows + more, x)
  {
    forall x | HasId(rows, x) ensures HasId(rows + more, x) {
      var i :| 0 <= i < |rows| && rows[i].id == x;
      assert (rows + more)[i] == rows[i];
    }
  }

  lemma {:induction false} WithoutKeepsIdsUnique<T(!new)>(rows: seq<Row<T>>, id: nat)
    requires IdsUnique(rows)
    ensures IdsUnique(Without(rows, id))
  {
    if rows != [] {
      assert IdsUnique(rows[1..]);
      WithoutKeepsIdsUnique(rows[1..], id);
      var rest := Without(rows[1..], id);
      if rows[0].id != id {
        forall x | x in rest ensures x.id != rows[0].id {
          var j :| 0 <= j < |rows[1..]| && rows[1..][j] == x;
          assert rows[j + 1] == x;
        }
      }
    }
  }

  lemma ReplaceKeepsIdsUnique<T>(rows: seq<Row<T>>, id: nat, d: T, next: nat)
    requires IdsUnique(rows) && IdsBelow(rows, next)
    ensures IdsUnique(Replace(rows, id, d)) && IdsBelow(Replace(rows, id, d), next)
  {
  }

  lemma WithoutKeepsIdsBelow<T(!new)>(rows: seq<Row<T>>, id: nat, next: nat)
    requires IdsBelow(rows, next)
    ensures IdsBelow(Without(rows, id), next)
  {
    var r := Without(rows, id);
    forall i | 0 <= i < |r| ensures r[i].id < next {
      assert r[i] in rows;
    }
  }

  /** Appending a row with a fresh key keeps the table's keys unique and bounded. */
  lemma AppendFresh<T>(rows: seq<Row<T>>, next: nat, d: T)
    requires IdsUnique(rows) && IdsBelow(rows, next)
    ensures IdsUnique(rows + [Row(next, d)]) && IdsBelow(rows + [Row(next, d)], next + 1)
  {
  }

  /** An UPDATE of the row just inserted under a fresh key rewrites only that last row. */
  lemma ReplaceLast<T>(rows: seq<Row<T>>, id: nat, d0: T, d: T)
    requires !HasId(rows, id)
    ensures Replace(rows + [Row(id, d0)], id, d) == rows + [Row(id, d)]
  {
    var r := Replace(rows + [Row(id, d0)], id, d);
    forall i | 0 <= i < |rows| ensures r[i] == rows[i] {
      assert (rows + [Row(id, d0)])[i] == rows[i];
    }
  }
  /** After an UPDATE of row `id`, looking up `id` gives the new data and every other key gives what it gave before. */
  lemma LookupReplace<T>(rows: seq<Row<T>>, id: nat, d: T, x: nat)
    requires IdsUnique(rows)
    ensures Lookup(Replace(rows, id, d), x) == if x == id && HasId(rows, id) then Some(d) else Lookup(rows, x)
  {
    var r := Replace(rows, id, d);
    if HasId(rows, x) {
      var i :| 0 <= i < |rows| && rows[i].id == x;
      assert r[i].id == x;
    }
  }

  /** After a DELETE of row `id` every other key looks up what it did before. */
  lemma LookupWithout<T(!new)>(rows: seq<Row<T>>, id: nat, x: nat)
    requires IdsUnique(rows) && x != id
    ensures Lookup(Without(rows, id), x) == Lookup(rows, x)
  {
    var r := Without(rows, id);
    WithoutKeepsIdsUnique(rows, id);
    if HasId(rows, x) {
      var i :| 0 <= i < |rows| && rows[i].id == x;
      var j :| 0 <= j < |r| && r[j].id == x;
      assert r[j] in rows;
    }
  }
}
