/** The three ways the route handlers pick a row of a table by a filter: all matches
    in table order, `.limit(1)` (the first match) and `.single()` (a row only when
    exactly one matches; none or several give `null`). A row's id is its position. */
module Query {
  import opened Wrappers

  /** Positions of the rows satisfying `p`, in table order. */
  function Matching<T>(rows: seq<T>, p: T -> bool): (ids: seq<nat>)
    ensures forall k :: 0 <= k < |ids| ==> ids[k] < |rows| && p(rows[ids[k]])
    ensures forall i :: 0 <= i < |rows| && p(rows[i]) ==> i in ids
    ensures forall k, l :: 0 <= k < l < |ids| ==> ids[k] < ids[l]
  {
    if rows == [] then []
    else
      var init := Matching(rows[..|rows| - 1], p);
      if p(rows[|rows| - 1]) then init + [|rows| - 1] else init
  }

  /** Every position moved one row down. */
  function Shifted(ids: seq<nat>): (r: seq<nat>)
    ensures |r| == |ids| && forall k :: 0 <= k < |ids| ==> r[k] == ids[k] + 1
  {
    seq(|ids|, k requires 0 <= k < |ids| => ids[k] + 1)
  }

  lemma ShiftedAppend(a: seq<nat>, b: seq<nat>)
    ensures Shifted(a + b) == Shifted(a) + Shifted(b)
  {
    assert forall k :: 0 <= k < |a| + |b| ==> (a + b)[k] == if k < |a| then a[k] else b[k - |a|];
  }

  /** The last row's position, if it matches, follows the positions of the others. */
  lemma MatchingSnoc<T>(rows: seq<T>, p: T -> bool)
    requires rows != []
    ensures Matching(rows, p) == Matching(rows[..|rows| - 1], p)
      + (if p(rows[|rows| - 1]) then [|rows| - 1] else [])
  {
  }

  /** The matching positions of a table with one more row in front: the front row's
      position if it matches, then the positions of the other rows moved down by one. */
  lemma {:induction false} MatchingCons<T>(row: T, rows: seq<T>, p: T -> bool)
    ensures Matching([row] + rows, p) == (if p(row) then [0] else []) + Shifted(Matching(rows, p))
    decreases |rows|
  {
    if rows == [] {
      MatchingSnoc([row], p);
      assert [row][..0] == [];
    } else {
      var init := rows[..|rows| - 1];
      MatchingCons(row, init, p);
      MatchingConsStep(row, rows, p);
    }
  }

  /** The same, for a list split into its first row and the rest. */
  lemma MatchingFront<T>(rows: seq<T>, p: T -> bool)
    requires rows != []
    ensures Matching(rows, p) == (if p(rows[0]) then [0] else []) + Shifted(Matching(rows[1..], p))
  {
    assert rows == [rows[0]] + rows[1..];
    MatchingCons(rows[0], rows[1..], p);
  }

  lemma MatchingConsStep<T>(row: T, rows: seq<T>, p: T -> bool)
    requires rows != []
    requires Matching([row] + rows[..|rows| - 1], p)
      == (if p(row) then [0] else []) + Shifted(Matching(rows[..|rows| - 1], p))
    ensures Matching([row] + rows, p) == (if p(row) then [0] else []) + Shifted(Matching(rows, p))
  {
    var front: seq<nat> := if p(row) then [0] else [];
    var allBack: seq<nat> := if p(rows[|rows| - 1]) then [|rows|] else [];
    var si := Shifted(Matching(rows[..|rows| - 1], p));
    FrontMatching(row, rows, p);
    ShiftedMatching(rows, p);
    AppendAssoc(front, si, allBack);
  }

  lemma FrontMatching<T>(row: T, rows: seq<T>, p: T -> bool)
    requires rows != []
    ensures Matching([row] + rows, p) == Matching([row] + rows[..|rows| - 1], p)
      + (if p(rows[|rows| - 1]) then [|rows|] else [])
  {
    var all := [row] + rows;
    assert all[..|all| - 1] == [row] + rows[..|rows| - 1];
    MatchingSnoc(all, p);
  }

  lemma ShiftedMatching<T>(rows: seq<T>, p: T -> bool)
    requires rows != []
    ensures Shifted(Matching(rows, p)) == Shifted(Matching(rows[..|rows| - 1], p))
      + (if p(rows[|rows| - 1]) then [|rows|] else [])
  {
    var back: seq<nat> := if p(rows[|rows| - 1]) then [|rows| - 1] else [];
    MatchingSnoc(rows, p);
    ShiftedAppend(Matching(rows[..|rows| - 1], p), back);
  }

  lemma AppendAssoc<T>(a: seq<T>, b: seq<T>, c: seq<T>)
    ensures (a + b) + c == a + (b + c)
  {
  }

  /** `.limit(1)`: the first matching row. */
  function First<T>(rows: seq<T>, p: T -> bool): (r: Option<nat>)
    ensures r.None? <==> forall i :: 0 <= i < |rows| ==> !p(rows[i])
    ensures r.Some? ==> r.value < |rows| && p(rows[r.value])
    ensures r.Some? ==> forall i :: 0 <= i < r.value ==> !p(rows[i])
  {
    var ids := Matching(rows, p);
    if ids == [] then None
    else
      assert forall i :: 0 <= i < |rows| && p(rows[i]) ==> ids[0] <= i;
      Some(ids[0])
  }

  /** `.single()`: the matching row when it is the only one. */
  function Single<T>(rows: seq<T>, p: T -> bool): (r: Option<nat>)
    ensures r.Some? ==> r.value < |rows| && p(rows[r.value])
    ensures r.Some? ==> forall i :: 0 <= i < |rows| && p(rows[i]) ==> i == r.value
    ensures (forall i :: 0 <= i < |rows| ==> !p(rows[i])) ==> r.None?
  {
    var ids := Matching(rows, p);
    if |ids| == 1 then Some(ids[0]) else None
  }

  /** At most one row matches. */
  ghost predicate AtMostOne<T>(rows: seq<T>, p: T -> bool) {
    forall i, j :: 0 <= i < j < |rows| && p(rows[i]) ==> !p(rows[j])
  }

  lemma {:induction false} NoneMatching<T>(rows: seq<T>, p: T -> bool)
    requires forall i :: 0 <= i < |rows| ==> !p(rows[i])
    ensures Matching(rows, p) == []
  {
    if rows != [] {
      NoneMatching(rows[..|rows| - 1], p);
    }
  }

  lemma {:induction false} AtMostOneMatching<T>(rows: seq<T>, p: T -> bool)
    requires AtMostOne(rows, p)
    ensures |Matching(rows, p)| <= 1
  {
    if rows != [] {
      var last := |rows| - 1;
      var init := rows[..last];
      assert forall i :: 0 <= i < |init| ==> init[i] == rows[i];
      AtMostOneMatching(init, p);
      if p(rows[last]) {
        NoneMatching(init, p);
      }
    }
  }

  /** Once at most one row can match, `.single()` and `.limit(1)` pick the same row,
      and `.single()` finds a row whenever one matches. */
  lemma SingleIsFirst<T>(rows: seq<T>, p: T -> bool)
    requires AtMostOne(rows, p)
    ensures Single(rows, p) == First(rows, p)
  {
    AtMostOneMatching(rows, p);
  }

  /** With two matching rows `.single()` finds nothing, though `.limit(1)` does. */
  lemma SingleMissesDuplicates<T>(rows: seq<T>, p: T -> bool, i: nat, j: nat)
    requires i < j < |rows| && p(rows[i]) && p(rows[j])
    ensures Single(rows, p).None?
    ensures First(rows, p).Some?
  {
    var ids := Matching(rows, p);
    var a :| 0 <= a < |ids| && ids[a] == i;
    var b :| 0 <= b < |ids| && ids[b] == j;
    assert a != b;
  }
}
