/** The ring buffer behind the receive queues: nine slots, of which one always stays free. */
module RevQueue {
  import opened Options

  const MAXQSIZE: nat := 9

  /** The number of elements between the two indices. */
  function Length(front: nat, rear: nat): (n: nat)
    requires front < MAXQSIZE && rear < MAXQSIZE
    ensures n < MAXQSIZE
  {
    (rear - front + MAXQSIZE) % MAXQSIZE
  }

  function Next(i: nat): nat {
    (i + 1) % MAXQSIZE
  }

  /** The slot of element k. */
  function Slot(front: nat, k: nat): (i: nat)
    ensures i < MAXQSIZE
  {
    (front + k) % MAXQSIZE
  }

  /** The queued elements, oldest first. */
  function Contents<T>(base: seq<T>, front: nat, rear: nat): (s: seq<T>)
    requires |base| == MAXQSIZE && front < MAXQSIZE && rear < MAXQSIZE
    ensures |s| == Length(front, rear)
  {
    seq(Length(front, rear), k requires 0 <= k => base[Slot(front, k)])
  }

  /** Full means that eight elements are queued, empty that none is. */
  lemma FullAndEmpty(front: nat, rear: nat)
    requires front < MAXQSIZE && rear < MAXQSIZE
    ensures Next(rear) == front <==> Length(front, rear) == 8
    ensures rear == front <==> Length(front, rear) == 0
  {
  }

  lemma ModIs(i: nat)
    requires i < 2 * MAXQSIZE
    ensures i % MAXQSIZE == if i < MAXQSIZE then i else i - MAXQSIZE
  {
  }

  /** The indices as they wrap around once. */
  lemma SlotIs(front: nat, k: nat)
    requires front < MAXQSIZE && k <= MAXQSIZE
    ensures Slot(front, k) == if front + k < MAXQSIZE then front + k else front + k - MAXQSIZE
  {
    ModIs(front + k);
  }

  lemma LengthIs(front: nat, rear: nat)
    requires front < MAXQSIZE && rear < MAXQSIZE
    ensures Length(front, rear) == if front <= rear then rear - front else rear - front + MAXQSIZE
    ensures Next(rear) == if rear + 1 < MAXQSIZE then rear + 1 else 0
  {
    ModIs(rear - front + MAXQSIZE);
    ModIs(rear + 1);
  }

  lemma SlotOfRear(front: nat, rear: nat)
    requires front < MAXQSIZE && rear < MAXQSIZE
    ensures Slot(front, Length(front, rear)) == rear
    ensures forall k: nat | k < Length(front, rear) :: Slot(front, k) != rear
    ensures Next(rear) != front ==> Length(front, Next(rear)) == Length(front, rear) + 1
  {
    hide Length, Slot, Next;
    LengthIs(front, rear);
    LengthIs(front, Next(rear));
    SlotIs(front, Length(front, rear));
    forall k: nat | k < Length(front, rear)
      ensures Slot(front, k) != rear
    {
      SlotIs(front, k);
    }
  }

  lemma SlotsMove(front: nat, rear: nat)
    requires front < MAXQSIZE && rear < MAXQSIZE && front != rear
    ensures Slot(front, 0) == front && Length(Next(front), rear) == Length(front, rear) - 1
    ensures forall k: nat | k < MAXQSIZE :: Slot(Next(front), k) == Slot(front, k + 1)
  {
    hide Length, Slot, Next;
    LengthIs(front, rear);
    LengthIs(rear, front);
    LengthIs(Next(front), rear);
    SlotIs(front, 0);
    forall k: nat | k < MAXQSIZE
      ensures Slot(Next(front), k) == Slot(front, k + 1)
    {
      SlotIs(Next(front), k);
      SlotIs(front, k + 1);
    }
  }

  lemma Appended<T>(base: seq<T>, front: nat, rear: nat, e: T)
    requires |base| == MAXQSIZE && front < MAXQSIZE && rear < MAXQSIZE && Next(rear) != front
    ensures Contents(base[rear := e], front, Next(rear)) == Contents(base, front, rear) + [e]
  {
    SlotOfRear(front, rear);
    hide Length, Slot;
  }

  lemma Removed<T>(base: seq<T>, front: nat, rear: nat)
    requires |base| == MAXQSIZE && front < MAXQSIZE && rear < MAXQSIZE && front != rear
    ensures Contents(base, front, rear) == [base[front]] + Contents(base, Next(front), rear)
  {
    SlotsMove(front, rear);
    hide Length, Slot, Next;
    var s, t := Contents(base, front, rear), [base[front]] + Contents(base, Next(front), rear);
    forall k | 0 < k < |t|
      ensures s[k] == t[k]
    {
      assert Slot(Next(front), k - 1) == Slot(front, k);
    }
  }

  /** The slot at the rear is not part of the contents. */
  lemma RearIsFree<T>(base: seq<T>, front: nat, rear: nat, e: T)
    requires |base| == MAXQSIZE && front < MAXQSIZE && rear < MAXQSIZE
    ensures Contents(base[rear := e], front, rear) == Contents(base, front, rear)
  {
  }

  class SqQueue<T(0)> {
    var base: array<T>
    var front: nat
    var rear: nat

    ghost predicate Valid()
      reads this
    {
      base.Length == MAXQSIZE && front < MAXQSIZE && rear < MAXQSIZE
    }

    ghost function Queued(): seq<T>
      reads this, base
      requires Valid()
    {
      Contents(base[..], front, rear)
    }

    /** InitQueue, for one of its two queues */
    constructor ()
      ensures Valid() && fresh(base) && Queued() == []
    {
      base := new T[MAXQSIZE];
      front, rear := 0, 0;
    }

    method ClearQueue()
      requires Valid()
      modifies `front, `rear
      ensures Valid() && Queued() == []
    {
      front, rear := 0, 0;
    }

    method QueueEmpty() returns (r: bool)
      requires Valid()
      ensures r <==> Queued() == []
    {
      FullAndEmpty(front, rear);
      r := front == rear;
    }

    method QueueLength() returns (n: nat)
      requires Valid()
      ensures n == |Queued()|
    {
      n := (rear - front + MAXQSIZE) % MAXQSIZE;
    }

    method GetHead() returns (e: Option<T>)
      requires Valid()
      ensures e == if Queued() == [] then None else Some(Queued()[0])
    {
      FullAndEmpty(front, rear);
      if front == rear {
        return None;
      }
      Removed(base[..], front, rear);
      e := Some(base[front]);
    }

    /** Fails exactly when eight elements are queued already. */
    method EnQueue(e: T) returns (ok: bool)
      requires Valid()
      modifies base, `rear
      ensures Valid() && ok == (|old(Queued())| < 8)
      ensures Queued() == if ok then old(Queued()) + [e] else old(Queued())
    {
      FullAndEmpty(front, rear);
      if (rear + 1) % MAXQSIZE == front {
        return false;
      }
      Appended(base[..], front, rear, e);
      base[rear] := e;
      rear := (rear + 1) % MAXQSIZE;
      ok := true;
    }

    method DeQueue() returns (e: Option<T>)
      requires Valid()
      modifies `front
      ensures Valid()
      ensures e == if old(Queued()) == [] then None else Some(old(Queued())[0])
      ensures Queued() == if old(Queued()) == [] then [] else old(Queued())[1..]
    {
      FullAndEmpty(front, rear);
      if front == rear {
        return None;
      }
      Removed(base[..], front, rear);
      e := Some(base[front]);
      front := (front + 1) % MAXQSIZE;
    }

    /** QueueTraverse: what is visited, in order. */
    method QueueTraverse() returns (visited: seq<T>)
      requires Valid()
      ensures visited == Queued()
    {
      var i: nat := front;
      visited := [];
      while i != rear
        invariant i < MAXQSIZE && visited + Contents(base[..], i, rear) == Queued()
        decreases Length(i, rear)
      {
        Removed(base[..], i, rear);
        FullAndEmpty(i, rear);
        visited := visited + [base[i]];
        i := (i + 1) % MAXQSIZE;
      }
    }

    /** FUL_Queue answers 0 when the queue is full. */
    method FulQueue() returns (r: int)
      requires Valid()
      ensures r == if |Queued()| == 8 then 0 else 1
    {
      FullAndEmpty(front, rear);
      r := if (rear + 1) % MAXQSIZE == front then 0 else 1;
    }
  }
}
