/** The fixed-capacity `int` arrays of the shared record
    (`spy_member_ids[MAX_SPYS]`, `suspected_spies[MAX_SUSPECTS]`), each with
    its live-element count. Removal shifts the tail left by one, leaving the
    last old cell in place as a stale copy; cells at or beyond the count are
    never read as members. */
module IdArrays {

  datatype IdArray = IdArray(cells: seq<int>, count: int)

  /** The array has exactly `capacity` cells and a count within them. */
  predicate Wf(a: IdArray, capacity: nat)
  {
    |a.cells| == capacity && 0 <= a.count <= capacity
  }

  predicate Counted(a: IdArray)
  {
    0 <= a.count <= |a.cells|
  }

  /** The members: the cells below the count, in array order. */
  function Live(a: IdArray): seq<int>
    requires Counted(a)
  {
    a.cells[..a.count]
  }

  predicate NoDuplicates(s: seq<int>)
  {
    forall i, j :: 0 <= i < j < |s| ==> s[i] != s[j]
  }

  /** An all-zero array with no members (the `memset` at start-up). */
  function Zeroed(capacity: nat): (a: IdArray)
    ensures Wf(a, capacity)
    ensures Live(a) == []
    ensures forall i :: 0 <= i < capacity ==> a.cells[i] == 0
  {
    IdArray(seq(capacity, _ => 0), 0)
  }

  /** The scan `for (i = from; i < count; i++) if (cells[i] == id) break;`:
      the first index at or after `from` holding `id`, or -1. */
  function Find(a: IdArray, id: int, from: int): (r: int)
    requires Counted(a)
    requires 0 <= from <= a.count
    ensures r == -1 || from <= r < a.count
    ensures r >= 0 ==> a.cells[r] == id
    ensures r >= 0 ==> forall j :: from <= j < r ==> a.cells[j] != id
    ensures r == -1 ==> forall j :: from <= j < a.count ==> a.cells[j] != id
    decreases a.count - from
  {
    if from == a.count then -1
    else if a.cells[from] == id then from
    else Find(a, id, from + 1)
  }

  /** `id` is among the members. */
  function Contains(a: IdArray, id: int): (b: bool)
    requires Counted(a)
    ensures b <==> id in Live(a)
  {
    var k := Find(a, id, 0);
    assert k >= 0 ==> Live(a)[k] == id;
    k >= 0
  }

  /** `cells[count++] = id`. */
  function Append(a: IdArray, id: int): (r: IdArray)
    requires Counted(a) && a.count < |a.cells|
    ensures Counted(r) && |r.cells| == |a.cells|
    ensures r.count == a.count + 1
    ensures Live(r) == Live(a) + [id]
  {
    var r := IdArray(a.cells[a.count := id], a.count + 1);
    assert Live(r) == Live(a) + [id];
    r
  }

  /** The shift-left removal of the member at index `i`. */
  function RemoveAt(a: IdArray, i: int): (r: IdArray)
    requires Counted(a) && 0 <= i < a.count
    ensures Counted(r) && |r.cells| == |a.cells|
    ensures r.count == a.count - 1
    ensures Live(r) == Live(a)[..i] + Live(a)[i + 1..]
  {
    var r := IdArray(a.cells[..i] + a.cells[i + 1..a.count] + a.cells[a.count - 1..], a.count - 1);
    assert Live(r) == Live(a)[..i] + Live(a)[i + 1..];
    r
  }

  /** The C removal loop `for (j = i; j < count - 1; j++) cells[j] = cells[j + 1]; count--;`
      computes exactly `RemoveAt`. */
  method ShiftRemove(a: IdArray, i: int) returns (r: IdArray)
    requires Counted(a) && 0 <= i < a.count
    ensures r == RemoveAt(a, i)
  {
    var cells := a.cells;
    var j := i;
    while j < a.count - 1
      invariant i <= j <= a.count - 1
      invariant |cells| == |a.cells|
      invariant cells[..i] == a.cells[..i]
      invariant forall t :: i <= t < j ==> cells[t] == a.cells[t + 1]
      invariant cells[j..] == a.cells[j..]
    {
      cells := cells[j := cells[j + 1]];
      j := j + 1;
    }
    r := IdArray(cells, a.count - 1);
    assert cells == a.cells[..i] + a.cells[i + 1..a.count] + a.cells[a.count - 1..];
  }

  /** Removing the element at index `k` of a sequence takes one copy of it
      out of the multiset, and keeps a duplicate-free sequence duplicate-free
      without that element. */
  lemma RemoveIndexMultiset(s: seq<int>, k: int)
    requires 0 <= k < |s|
    ensures multiset(s[..k] + s[k + 1..]) == multiset(s) - multiset{s[k]}
    ensures NoDuplicates(s) ==> NoDuplicates(s[..k] + s[k + 1..]) && s[k] !in s[..k] + s[k + 1..]
  {
    assert s == s[..k] + [s[k]] + s[k + 1..];
    assert multiset(s) == multiset(s[..k]) + multiset{s[k]} + multiset(s[k + 1..]);
    var t := s[..k] + s[k + 1..];
    assert forall i :: 0 <= i < |t| ==> t[i] == s[if i < k then i else i + 1];
    if NoDuplicates(s) {
      assert forall i, j :: 0 <= i < j < |t| ==> t[i] != t[j] by {
        forall i, j | 0 <= i < j < |t| ensures t[i] != t[j] {
          assert t[i] == s[if i < k then i else i + 1];
          assert t[j] == s[if j < k then j else j + 1];
        }
      }
      forall i | 0 <= i < |t| ensures t[i] != s[k] {
        assert t[i] == s[if i < k then i else i + 1];
      }
    }
  }

  /** Remove the first member equal to `id` (the scan-and-shift with `break`);
      the array is unchanged when `id` is not a member. */
  function RemoveFirst(a: IdArray, id: int): (r: IdArray)
    requires Counted(a)
    ensures Counted(r) && |r.cells| == |a.cells|
    ensures id !in Live(a) ==> r == a
    ensures id in Live(a) ==> r.count == a.count - 1
    ensures multiset(Live(r)) == multiset(Live(a)) - multiset{id}
    ensures NoDuplicates(Live(a)) ==> NoDuplicates(Live(r)) && id !in Live(r)
  {
    var k := Find(a, id, 0);
    if k < 0 then
      assert multiset(Live(a))[id] == 0;
      a
    else
      RemoveIndexMultiset(Live(a), k);
      RemoveAt(a, k)
  }

  /** Removing `ids` one after another, first to last. */
  function RemoveEach(a: IdArray, ids: seq<int>): (r: IdArray)
    requires Counted(a)
    ensures Counted(r) && |r.cells| == |a.cells|
    ensures ids == [] ==> r == a
    ensures forall x :: x in Live(r) ==> x in Live(a)
    decreases |ids|
  {
    if ids == [] then a else RemoveFirst(RemoveEach(a, ids[..|ids| - 1]), ids[|ids| - 1])
  }

  /** Removing one more id after a batch is removing the longer batch. */
  lemma RemoveEachSnoc(a: IdArray, ids: seq<int>, id: int)
    requires Counted(a)
    ensures RemoveEach(a, ids + [id]) == RemoveFirst(RemoveEach(a, ids), id)
  {
    assert (ids + [id])[..|ids|] == ids;
  }
}
