/** The fixed-size object pool: a store of blocks, a free flag for each, and the index of the next
    block to hand out, found by searching onwards and round. */
module Pool {
  import opened Common

  /** The block `d` steps onwards from `a`, counting round. */
  function Onward(a: nat, d: nat, n: nat): nat
    requires a < n && d <= n
  {
    if a + d < n then a + d else a + d - n
  }

  /** The blocks that are handed out. */
  ghost function InUse(flags: seq<bool>): (s: set<nat>)
    ensures forall i: nat :: i in s <==> i < |flags| && !flags[i]
  {
    set i: nat | i < |flags| && !flags[i]
  }

  ghost function Upto(n: nat): (s: set<nat>)
    ensures |s| == n && forall i: nat :: i in s <==> i < n
  {
    if n == 0 then {} else Upto(n - 1) + {n - 1}
  }

  /** The search for a free block starts one short of a full pool, so with `n` blocks at most `n - 1`
      objects are ever live, and that many exactly when no second block is free. */
  lemma OneBlockStaysFree(flags: seq<bool>, k: nat)
    requires k < |flags| && flags[k]
    ensures |InUse(flags)| <= |flags| - 1
    ensures |InUse(flags)| == |flags| - 1 <==> forall j :: 0 <= j < |flags| && j != k ==> !flags[j]
  {
    var most := Upto(|flags|) - {k};
    SubsetSize(InUse(flags), most);
    if forall j :: 0 <= j < |flags| && j != k ==> !flags[j] {
      assert InUse(flags) == most;
    } else {
      var j :| 0 <= j < |flags| && j != k && flags[j];
      SubsetSize(InUse(flags), most - {j});
    }
  }

  lemma {:induction false} SubsetSize<T>(a: set<T>, b: set<T>)
    requires a <= b
    ensures |a| <= |b|
  {
    if a != {} {
      var x :| x in a;
      SubsetSize(a - {x}, b - {x});
    }
  }

  lemma AllVisited(flags: seq<bool>, a: nat)
    requires a < |flags| && forall d :: 0 <= d < |flags| ==> !flags[Onward(a, d, |flags|)]
    ensures forall j :: 0 <= j < |flags| ==> !flags[j]
  {
    forall j | 0 <= j < |flags|
      ensures !flags[j]
    {
      assert Onward(a, if a <= j then j - a else j + |flags| - a, |flags|) == j;
    }
  }

  class MemPool<T> {
    const store: array<T>
    const isFree: array<bool>
    var nextFreeIndex: nat
    ghost var contents: seq<T>
    ghost var flags: seq<bool>

    ghost predicate Valid()
      reads this, store, isFree
    {
      && store as object != isFree
      && contents == store[..] && flags == isFree[..] && |flags| == |contents|
      && nextFreeIndex < |flags| && flags[nextFreeIndex]
    }

    constructor (numElems: nat, initial: T)
      requires numElems > 0
      ensures Valid() && fresh(store) && fresh(isFree) && |contents| == numElems
      ensures nextFreeIndex == 0 && forall i :: 0 <= i < numElems ==> flags[i]
    {
      store := new T[numElems](_ => initial);
      isFree := new bool[numElems](_ => true);
      nextFreeIndex := 0;
      new;
      contents, flags := store[..], isFree[..];
    }

    /** Takes the next free block, and finds the one after it by searching onwards and round. The
        search gives up, and the process exits, exactly when only one block was free. */
    method Allocate(v: T) returns (r: Option<nat>)
      requires Valid()
      modifies this, store, isFree
      ensures r.None? <==> |InUse(old(flags))| == |old(flags)| - 1
      ensures r.Some? ==>
                && Valid() && r.value == old(nextFreeIndex) != nextFreeIndex
                && contents == old(contents)[r.value := v]
                && flags == old(flags)[r.value := false]
      ensures r.Some? ==>
                exists steps :: 0 <= steps < |flags| && nextFreeIndex == Onward(r.value, steps, |flags|) &&
                  forall d :: 0 <= d < steps ==> !flags[Onward(r.value, d, |flags|)]
    {
      var taken := nextFreeIndex;
      OneBlockStaysFree(flags, taken);
      store[taken] := v;
      isFree[taken] := false;
      contents, flags := contents[taken := v], flags[taken := false];
      ghost var steps := 0;
      while !isFree[nextFreeIndex]
        invariant flags == old(flags)[taken := false] == isFree[..]
        invariant contents == old(contents)[taken := v] == store[..]
        invariant steps < |flags| && nextFreeIndex == Onward(taken, steps, |flags|)
        invariant forall d :: 0 <= d < steps ==> !flags[Onward(taken, d, |flags|)]
        decreases |flags| - steps
      {
        nextFreeIndex := nextFreeIndex + 1;
        if nextFreeIndex == isFree.Length {
          nextFreeIndex := 0;
        }
        steps := steps + 1;
        if nextFreeIndex == taken {
          AllVisited(flags, taken);
          assert forall j :: 0 <= j < |flags| && j != taken ==> old(flags)[j] == flags[j];
          return None;
        }
      }
      assert old(flags)[nextFreeIndex] == flags[nextFreeIndex];
      return Some(taken);
    }

    /** Hands a block back. The source exits on a block that is foreign or already free. */
    method Deallocate(index: nat)
      requires Valid() && index < |flags| && !flags[index]
      modifies this`flags, isFree
      ensures Valid() && flags == old(flags)[index := true]
    {
      isFree[index] := true;
      flags := flags[index := true];
    }

    /** Writes through a pointer into a block. */
    method Put(index: nat, v: T)
      requires Valid() && index < |contents|
      modifies this`contents, store
      ensures Valid() && contents == old(contents)[index := v]
    {
      store[index] := v;
      contents := contents[index := v];
    }
  }
}
