// ListPool<T>: a stack of spare lists. Get pops one (or makes a new one when
// the stack is empty); Add clears a list and pushes it back.
module ListPools {

  /** A System.Collections.Generic.List<T> as a mutable object. */
  class PooledList<T> {
    var items: seq<T>

    constructor ()
      ensures items == []
    {
      items := [];
    }

    /** List.Clear. */
    method Clear()
      modifies this
      ensures items == []
    {
      items := [];
    }
  }

  class ListPool<T> {
    var stack: seq<PooledList<T>>

    /** Only Add pushes, and it clears first: every pooled list is empty. */
    ghost predicate Valid()
      reads this, stack
    {
      forall k :: 0 <= k < |stack| ==> stack[k].items == []
    }

    constructor ()
      ensures Valid() && stack == []
    {
      stack := [];
    }

    /** Get: the most recently added list, or a new empty list when none is pooled.
        Either way the caller receives an empty list. */
    method Get() returns (list: PooledList<T>)
      requires Valid()
      modifies this
      ensures Valid()
      ensures list.items == []
      ensures old(|stack|) > 0 ==> list == old(stack[|stack| - 1]) && stack == old(stack[..|stack| - 1])
      ensures old(|stack|) == 0 ==> fresh(list) && stack == []
    {
      if |stack| > 0 {
        list := stack[|stack| - 1];
        stack := stack[..|stack| - 1];
      } else {
        list := new PooledList<T>();
      }
    }

    /** Add: clears the list and pushes it on top of the stack. */
    method Add(list: PooledList<T>)
      requires Valid()
      modifies this, list
      ensures Valid()
      ensures list.items == []
      ensures stack == old(stack) + [list]
    {
      list.Clear();
      stack := stack + [list];
    }
  }

  /** Handing a list back and asking for one returns that same list, now empty, and
      leaves the pool as it was (last in, first out). */
  method AddThenGet<T>(pool: ListPool<T>, list: PooledList<T>) returns (got: PooledList<T>)
    requires pool.Valid()
    modifies pool, list
    ensures got == list && got.items == []
    ensures pool.stack == old(pool.stack) && pool.Valid()
  {
    pool.Add(list);
    got := pool.Get();
  }
}
