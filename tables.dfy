/** The Spring Data repositories as in-memory tables: a sequence of rows in
    insertion order, each row identified by a key (its generated id). Saving a
    new entity appends it, saving a loaded one replaces the row with its id,
    deleteById removes it, and a paged query returns one page of the rows. */
module Tables {
  import opened Common

  /** Generated ids grow with every insert, so the rows are in ascending id order. */
  ghost predicate IdsAscending<T>(rows: seq<T>, key: T -> int)
  {
    forall i, j :: 0 <= i < j < |rows| ==> key(rows[i]) < key(rows[j])
  }

  /** Every id in the table is below the next id the sequence hands out. */
  ghost predicate IdsBelow<T>(rows: seq<T>, key: T -> int, bound: int)
  {
    forall i :: 0 <= i < |rows| ==> key(rows[i]) < bound
  }

  predicate HasId<T>(rows: seq<T>, key: T -> int, id: int)
  {
    exists i :: 0 <= i < |rows| && key(rows[i]) == id
  }

  /** findById: the row with that id, or nothing. */
  function FindById<T(==)>(rows: seq<T>, key: T -> int, id: int): (r: Option<T>)
    ensures r.Some? ==> r.value in rows && key(r.value) == id
    ensures r.None? <==> !HasId(rows, key, id)
  {
    if rows == [] then None
    else if key(rows[0]) == id then Some(rows[0])
    else
      var r := FindById(rows[1..], key, id);
      assert HasId(rows, key, id) ==> HasId(rows[1..], key, id) by {
        if HasId(rows, key, id) {
          var i :| 0 <= i < |rows| && key(rows[i]) == id;
          assert i > 0 && key(rows[1..][i - 1]) == id;
        }
      }
      assert HasId(rows[1..], key, id) ==> HasId(rows, key, id) by {
        if HasId(rows[1..], key, id) {
          var i :| 0 <= i < |rows[1..]| && key(rows[1..][i]) == id;
          assert key(rows[i + 1]) == id;
        }
      }
      r
  }

  /** save of an entity that is already stored: its row is overwritten. */
  function ReplaceById<T>(rows: seq<T>, key: T -> int, x: T): (r: seq<T>)
    ensures |r| == |rows|
    ensures forall i :: 0 <= i < |rows| ==> r[i] == (if key(rows[i]) == key(x) then x else rows[i])
  {
    if rows == [] then []
    else [if key(rows[0]) == key(x) then x else rows[0]] + ReplaceById(rows[1..], key, x)
  }

  /** deleteById: every row with that id goes, the others stay in order. */
  function RemoveById<T(==)>(rows: seq<T>, key: T -> int, id: int): (r: seq<T>)
    ensures forall i :: 0 <= i < |r| ==> r[i] in rows && key(r[i]) != id
    ensures forall i :: 0 <= i < |rows| && key(rows[i]) != id ==> rows[i] in r
    ensures |r| <= |rows|
    ensures !HasId(r, key, id)
  {
    if rows == [] then []
    else if key(rows[0]) == id then RemoveById(rows[1..], key, id)
    else [rows[0]] + RemoveById(rows[1..], key, id)
  }

  /** A query's WHERE clause: the rows that satisfy p, in table order. */
  function Filter<T(==)>(rows: seq<T>, p: T -> bool): (r: seq<T>)
    ensures forall i :: 0 <= i < |r| ==> r[i] in rows && p(r[i])
    ensures forall i :: 0 <= i < |rows| && p(rows[i]) ==> rows[i] in r
    ensures |r| <= |rows|
    ensures multiset(r) <= multiset(rows)
  {
    if rows == [] then []
    else
      assert rows == [rows[0]] + rows[1..];
      if p(rows[0]) then [rows[0]] + Filter(rows[1..], p)
      else Filter(rows[1..], p)
  }

  /** A WHERE clause keeps the table's id order. */
  lemma {:induction false} FilterKeepsAscending<T>(rows: seq<T>, key: T -> int, p: T -> bool)
    ensures IdsAscending(rows, key) ==> IdsAscending(Filter(rows, p), key)
  {
    if rows != [] && IdsAscending(rows, key) {
      var tail := rows[1..];
      assert IdsAscending(tail, key);
      FilterKeepsAscending(tail, key, p);
      if p(rows[0]) {
        forall i | 0 <= i < |tail| ensures key(tail[i]) > key(rows[0]) {
          assert tail[i] == rows[i + 1];
        }
        FilterKeepsLarger(tail, key, p, key(rows[0]));
        PrependKeepsAscending(rows[0], Filter(tail, p), key);
      }
    }
  }

  lemma FilterKeepsLarger<T>(rows: seq<T>, key: T -> int, p: T -> bool, low: int)
    requires forall i :: 0 <= i < |rows| ==> key(rows[i]) > low
    ensures forall i :: 0 <= i < |Filter(rows, p)| ==> key(Filter(rows, p)[i]) > low
  {
    var r := Filter(rows, p);
    forall i | 0 <= i < |r|
      ensures key(r[i]) > low
    {
      assert r[i] in rows;
    }
  }

  /** PageRequest.of(from / size, size) starts at the first row of page from / size. */
  function PageStart(from: nat, size: nat): (start: nat)
    requires size > 0
    ensures start <= from < start + size
    ensures start == from - from % size
  {
    var q := from / size;
    assert from == q * size + from % size;
    q * size
  }

  /** The content of the page that PageRequest.of(from / size, size) selects:
      at most size rows, taken consecutively from PageStart(from, size). */
  function Page<T>(rows: seq<T>, from: nat, size: nat): (page: seq<T>)
    requires size > 0
    ensures |page| <= size
    ensures |page| == if PageStart(from, size) < |rows| then Min(size, |rows| - PageStart(from, size)) else 0
    ensures forall k :: 0 <= k < |page| ==> PageStart(from, size) + k < |rows| && page[k] == rows[PageStart(from, size) + k]
  {
    var start := PageStart(from, size);
    if start >= |rows| then [] else rows[start..start + Min(size, |rows| - start)]
  }

  function Min(a: int, b: int): int
  {
    if a <= b then a else b
  }

  /** Only an offset that is a multiple of the page size is honoured exactly:
      the page then begins with row number from. */
  lemma {:induction false} PageAtAlignedOffset<T>(rows: seq<T>, from: nat, size: nat)
    requires size > 0 && from % size == 0 && from < |rows|
    ensures Page(rows, from, size) == rows[from..from + Min(size, |rows| - from)]
  {
  }

  /** Any other offset is rounded down to its page: the rows between the page
      start and from are returned although the caller asked to skip them. */
  lemma {:induction false} PageAtMisalignedOffset<T>(rows: seq<T>, from: nat, size: nat)
    requires size > 0 && from % size != 0 && from < |rows|
    ensures Page(rows, from, size) != []
    ensures Page(rows, from, size)[0] == rows[from - from % size]
    ensures from - from % size < from
  {
  }

  /** A row of a page is a row of the table. */
  lemma {:induction false} PageMembers<T>(rows: seq<T>, from: nat, size: nat, x: T)
    requires size > 0 && x in Page(rows, from, size)
    ensures x in rows
  {
    var page := Page(rows, from, size);
    var k :| 0 <= k < |page| && page[k] == x;
    assert rows[PageStart(from, size) + k] == x;
  }

  /** Inserting a row with a fresh id: the new row is found by its id and
      every other lookup is unaffected. */
  lemma {:induction false} FindAfterAppend<T>(rows: seq<T>, key: T -> int, x: T, bound: int)
    requires IdsBelow(rows, key, bound) && key(x) >= bound
    ensures FindById(rows + [x], key, key(x)) == Some(x)
    ensures forall id :: id != key(x) ==> FindById(rows + [x], key, id) == FindById(rows, key, id)
  {
    if rows == [] {
      assert FindById([x], key, key(x)) == Some(x);
    } else {
      assert (rows + [x])[1..] == rows[1..] + [x];
      assert key(rows[0]) < bound;
      FindAfterAppend(rows[1..], key, x, bound);
    }
  }

  lemma {:induction false} AppendKeepsIds<T>(rows: seq<T>, key: T -> int, x: T, bound: int)
    requires IdsAscending(rows, key) && IdsBelow(rows, key, bound) && key(x) == bound
    ensures IdsAscending(rows + [x], key) && IdsBelow(rows + [x], key, bound + 1)
  {
  }

  /** Overwriting a stored row: it is found with its new content, every other
      lookup is unaffected, and the ids stay as they were. */
  lemma {:induction false} FindAfterReplace<T>(rows: seq<T>, key: T -> int, x: T)
    requires HasId(rows, key, key(x))
    ensures FindById(ReplaceById(rows, key, x), key, key(x)) == Some(x)
    ensures forall id :: id != key(x) ==> FindById(ReplaceById(rows, key, x), key, id) == FindById(rows, key, id)
  {
    if key(rows[0]) != key(x) {
      var i :| 0 <= i < |rows| && key(rows[i]) == key(x);
      assert key(rows[1..][i - 1]) == key(x);
      assert ReplaceById(rows, key, x)[1..] == ReplaceById(rows[1..], key, x);
      FindAfterReplace(rows[1..], key, x);
    } else if |rows| > 1 {
      assert ReplaceById(rows, key, x)[1..] == ReplaceById(rows[1..], key, x);
      forall id | id != key(x)
        ensures FindById(ReplaceById(rows, key, x), key, id) == FindById(rows, key, id)
      {
        FindAfterReplaceOthers(rows[1..], key, x, id);
      }
    }
  }

  lemma {:induction false} FindAfterReplaceOthers<T>(rows: seq<T>, key: T -> int, x: T, id: int)
    requires id != key(x)
    ensures FindById(ReplaceById(rows, key, x), key, id) == FindById(rows, key, id)
  {
    if rows != [] {
      assert ReplaceById(rows, key, x)[1..] == ReplaceById(rows[1..], key, x);
      FindAfterReplaceOthers(rows[1..], key, x, id);
    }
  }

  lemma ReplaceKeepsIds<T>(rows: seq<T>, key: T -> int, x: T, bound: int)
    requires IdsAscending(rows, key) && IdsBelow(rows, key, bound) && HasId(rows, key, key(x))
    ensures IdsAscending(ReplaceById(rows, key, x), key) && IdsBelow(ReplaceById(rows, key, x), key, bound)
  {
    var r := ReplaceById(rows, key, x);
    assert forall i :: 0 <= i < |rows| ==> key(r[i]) == key(rows[i]);
  }

  /** Deleting a stored row of a table with unique ids: exactly one row goes. */
  lemma {:induction false} RemoveOne<T>(rows: seq<T>, key: T -> int, id: int)
    requires IdsAscending(rows, key) && HasId(rows, key, id)
    ensures |RemoveById(rows, key, id)| == |rows| - 1
  {
    var tail := rows[1..];
    assert IdsAscending(tail, key);
    if key(rows[0]) == id {
      forall i | 0 <= i < |tail| ensures key(tail[i]) > id {
        assert tail[i] == rows[i + 1];
      }
      RemoveAbsent(tail, key, id);
    } else {
      var i :| 0 <= i < |rows| && key(rows[i]) == id;
      assert tail[i - 1] == rows[i];
      RemoveOne(tail, key, id);
    }
  }

  /** Deleting keeps the remaining ids ascending. */
  lemma {:induction false} RemoveKeepsAscending<T>(rows: seq<T>, key: T -> int, id: int)
    requires IdsAscending(rows, key)
    ensures IdsAscending(RemoveById(rows, key, id), key)
  {
    if rows != [] {
      var tail := rows[1..];
      assert IdsAscending(tail, key);
      RemoveKeepsAscending(tail, key, id);
      if key(rows[0]) == id {
        assert RemoveById(rows, key, id) == RemoveById(tail, key, id);
      } else {
        forall i | 0 <= i < |tail| ensures key(tail[i]) > key(rows[0]) {
          assert tail[i] == rows[i + 1];
        }
        RemoveKeepsLarger(tail, key, id, key(rows[0]));
        PrependKeepsAscending(rows[0], RemoveById(tail, key, id), key);
      }
    }
  }

  lemma PrependKeepsAscending<T>(x: T, rows: seq<T>, key: T -> int)
    requires IdsAscending(rows, key)
    requires forall i :: 0 <= i < |rows| ==> key(rows[i]) > key(x)
    ensures IdsAscending([x] + rows, key)
  {
    var r := [x] + rows;
    forall i, j | 0 <= i < j < |r| ensures key(r[i]) < key(r[j]) {
      assert r[j] == rows[j - 1];
      if i > 0 {
        assert r[i] == rows[i - 1];
      }
    }
  }

  lemma {:induction false} RemoveAbsent<T>(rows: seq<T>, key: T -> int, id: int)
    requires IdsAscending(rows, key)
    requires forall i :: 0 <= i < |rows| ==> key(rows[i]) > id
    ensures RemoveById(rows, key, id) == rows
  {
    if rows != [] {
      RemoveAbsent(rows[1..], key, id);
    }
  }

  lemma RemoveKeepsLarger<T>(rows: seq<T>, key: T -> int, id: int, low: int)
    requires forall i :: 0 <= i < |rows| ==> key(rows[i]) > low
    ensures forall i :: 0 <= i < |RemoveById(rows, key, id)| ==> key(RemoveById(rows, key, id)[i]) > low
  {
    var r := RemoveById(rows, key, id);
    forall i | 0 <= i < |r|
      ensures key(r[i]) > low
    {
      assert r[i] in rows;
    }
  }

  lemma RemoveKeepsBelow<T>(rows: seq<T>, key: T -> int, id: int, bound: int)
    requires IdsBelow(rows, key, bound)
    ensures IdsBelow(RemoveById(rows, key, id), key, bound)
  {
    var r := RemoveById(rows, key, id);
    forall i | 0 <= i < |r|
      ensures key(r[i]) < bound
    {
      assert r[i] in rows;
    }
  }
}
