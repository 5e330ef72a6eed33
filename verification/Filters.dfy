/** Packet filters by PID (src/demultiplex.rs `Filters`, `FilterChange`, `FilterChangeset`): a
    growing vector of slots that stands for a partial map, and queued changes to it. */
module Filters {
  import opened Bytes

  const PID_COUNT := 8192

  datatype Change<+F> =
    | Insert(pid: Pid, filter: F)
    | Remove(pid: Pid)

  /** What one change does to the map that the vector stands for. */
  function ApplyChange<F>(m: map<Pid, F>, c: Change<F>): map<Pid, F> {
    match c
    case Insert(pid, filter) => m[pid := filter]
    case Remove(pid) => m - {pid}
  }

  /** The changes of a set, in the order they were queued. */
  function ApplyAll<F>(m: map<Pid, F>, cs: seq<Change<F>>): map<Pid, F>
    decreases |cs|
  {
    if cs == [] then m else ApplyAll(ApplyChange(m, cs[0]), cs[1..])
  }

  lemma {:induction false} ApplyConcat<F>(m: map<Pid, F>, a: seq<Change<F>>, b: seq<Change<F>>)
    ensures ApplyAll(m, a + b) == ApplyAll(ApplyAll(m, a), b)
    decreases |a|
  {
    hide ApplyChange;
    if a == [] {
      assert a + b == b;
    } else {
      assert (a + b)[0] == a[0] && (a + b)[1..] == a[1..] + b;
      ApplyConcat(ApplyChange(m, a[0]), a[1..], b);
    }
  }

  /** A filter in its slot, updated in place as it consumes packets. */
  class Cell<F> {
    var state: F

    constructor (f: F)
      ensures state == f
    {
      state := f;
    }
  }

  class FilterTable<F> {
    var slots: seq<Cell?<F>>

    ghost function Cells(): set<object>
      reads this
    {
      set i | 0 <= i < |slots| && slots[i] != null :: slots[i]
    }

    /** At most one slot per PID, and no two slots share a filter. */
    ghost predicate Valid()
      reads this
    {
      && |slots| <= PID_COUNT
      && forall i, j :: 0 <= i < j < |slots| && slots[i] != null ==> slots[i] != slots[j]
    }

    /** The partial map that the vector stands for. */
    ghost function View(): map<Pid, F>
      requires Valid()
      reads this, Cells()
    {
      map p: nat | p < |slots| && slots[p] != null :: slots[p].state
    }

    constructor ()
      ensures Valid() && View() == map[] && Cells() == {}
    {
      slots := [];
    }

    method Contains(pid: Pid) returns (found: bool)
      requires Valid()
      ensures found <==> pid in View()
    {
      found := pid < |slots| && slots[pid] != null;
    }

    method Get(pid: Pid) returns (cell: Cell?<F>)
      requires Valid()
      ensures cell != null <==> pid in View()
      ensures cell != null ==> cell in Cells() && pid < |slots| && slots[pid] == cell && cell.state == View()[pid]
    {
      if pid >= |slots| {
        cell := null;
      } else {
        cell := slots[pid];
      }
    }

    method Put(pid: Pid, filter: F)
      requires Valid()
      modifies this
      ensures Valid() && View() == old(View())[pid := filter]
      ensures fresh(Cells() - old(Cells()))
      ensures forall p :: 0 <= p < |slots| && slots[p] != null && p != pid ==> p < |old(slots)| && slots[p] == old(slots)[p]
    {
      if pid >= |slots| {
        slots := slots + seq(pid + 1 - |slots|, _ => null);
      }
      var cell := new Cell(filter);
      slots := slots[pid := cell];
    }

    method Drop(pid: Pid)
      requires Valid()
      modifies this
      ensures Valid() && View() == old(View()) - {pid}
      ensures Cells() <= old(Cells())
    {
      if pid < |slots| {
        slots := slots[pid := null];
      }
    }

    /** `FilterChangeset::apply`: drain the queue into the table. */
    method ApplyQueue(queue: seq<Change<F>>)
      requires Valid()
      modifies this
      ensures Valid() && View() == ApplyAll(old(View()), queue)
      ensures fresh(Cells() - old(Cells()))
    {
      var i := 0;
      while i < |queue|
        invariant 0 <= i <= |queue|
        invariant Valid()
        invariant ApplyAll(View(), queue[i..]) == ApplyAll(old(View()), queue)
        invariant fresh(Cells() - old(Cells()))
      {
        assert queue[i..][0] == queue[i] && queue[i..][1..] == queue[i + 1..];
        match queue[i] {
          case Insert(pid, filter) => Put(pid, filter);
          case Remove(pid) => Drop(pid);
        }
        i := i + 1;
      }
    }
  }
}
