/** The memory of the printers: tables of strings that are filled, read and given back. */
module JsonBuffers {
  import opened JsonHeap

  type Slots = seq<array?<char>>

  /** The strings in a table. */
  ghost function Held(es: Slots): (s: set<object>) {
    set k | 0 <= k < |es| && es[k] != null :: es[k]
  }

  /** What is live once `out` has been made, if it has. */
  ghost function Grown(live: set<object>, out: array?<char>): set<object> {
    if out == null then live else live + {out}
  }

  /** Beside `base`, exactly the strings of the table are live. */
  ghost predicate Holds(es: Slots, base: set<object>, live: set<object>) {
    && live == base + Held(es) && Held(es) !! base
    && Differ(es)
  }

  /** No string is in the table twice. */
  ghost predicate Differ(es: Slots) {
    forall j, k | 0 <= j < k < |es| && es[j] != null :: es[j] != es[k]
  }

  lemma NothingHeld(es: Slots, live: set<object>)
    requires forall k | 0 <= k < |es| :: es[k] == null
    ensures Holds(es, live, live)
  {
  }

  /** A new string, or null, goes into an empty slot. */
  lemma SlotFilled(es: Slots, i: nat, ret: array?<char>, base: set<object>, live: set<object>)
    requires Holds(es, base, live) && i < |es| && es[i] == null && (ret != null ==> ret !in live)
    ensures Holds(es[i := ret], base, Grown(live, ret))
  {
    var more := es[i := ret];
    forall a: object
      ensures a in Held(more) <==> a in Held(es) || (ret != null && a == ret)
    {
      if a in Held(es) {
        var k :| 0 <= k < |es| && es[k] == a && es[k] != null;
        assert more[k] == a;
      }
      if ret != null && a == ret {
        assert more[i] == a;
      }
      if a in Held(more) {
        var k :| 0 <= k < |more| && more[k] == a;
        assert k != i ==> es[k] == a;
      }
    }
    assert Held(more) == Held(es) + if ret == null then {} else {ret};
  }

  /** Something else is made beside the table. */
  lemma BesideTable(es: Slots, base: set<object>, live: set<object>, o: object)
    requires Holds(es, base, live) && o !in live
    ensures Holds(es, base + {o}, live + {o})
  {
  }

  /** The first string of the rest of a table. */
  lemma HeldFrom(es: Slots, i: nat)
    requires i < |es| && Differ(es)
    ensures es[i] == null ==> Held(es[i..]) == Held(es[i + 1..])
    ensures es[i] != null ==> es[i] in Held(es[i..]) && Held(es[i..]) - {es[i]} == Held(es[i + 1..])
  {
    var a, b := es[i..], es[i + 1..];
    assert a[0] == es[i];
    forall o: object | o in Held(a)
      ensures o == es[i] || o in Held(b)
    {
      var k :| 0 <= k < |a| && a[k] == o;
      assert k > 0 ==> b[k - 1] == o;
    }
    forall o: object | o in Held(b)
      ensures o in Held(a) && o != es[i]
    {
      var k :| 0 <= k < |b| && b[k] == o;
      assert a[k + 1] == o == es[i + 1 + k];
    }
  }

  lemma AllHeld(es: Slots, base: set<object>, live: set<object>)
    requires Holds(es, base, live)
    ensures live == base + Held(es) && base !! Held(es) && Differ(es)
  {
  }

  lemma NotInTable(es: Slots, base: set<object>, live: set<object>, out: object)
    requires Holds(es, base, live) && out in base
    ensures forall k | 0 <= k < |es| && es[k] != null :: es[k] != out
  {
    forall k | 0 <= k < |es| && es[k] != null
      ensures es[k] != out
    {
      assert es[k] in Held(es);
    }
  }

  /** if (entries[i]) free(entries[i]) */
  method FreeSlot(heap: Heap, es: array<array?<char>>, i: nat, ghost rest: set<object>)
    requires i < es.Length && Differ(es[..])
    requires heap.live == rest + Held(es[..][i..]) && rest !! Held(es[..][i..])
    modifies heap`live
    ensures heap.live == rest + Held(es[..][i + 1..]) && rest !! Held(es[..][i + 1..])
  {
    HeldFrom(es[..], i);
    hide Held;
    if es[i] != null {
      heap.Free(es[i]);
    }
  }

  /** Everything in a table is given back. */
  method FreeAll(heap: Heap, es: array<array?<char>>, ghost base: set<object>)
    requires Holds(es[..], base, heap.live)
    modifies heap`live
    ensures heap.live == base
  {
    assert es[..][0..] == es[..] && es[..][es.Length..] == [];
    for i := 0 to es.Length
      invariant heap.live == base + Held(es[..][i..]) && base !! Held(es[..][i..])
    {
      FreeSlot(heap, es, i, base);
    }
  }

  // ---- two tables side by side ----

  /** Beside `base`, exactly the strings of the two tables are live. */
  ghost predicate HoldBoth(ns: Slots, es: Slots, base: set<object>, live: set<object>) {
    Holds(ns, base, base + Held(ns)) && Holds(es, base + Held(ns), live)
  }

  lemma NothingHeldBoth(ns: Slots, es: Slots, live: set<object>)
    requires forall k | 0 <= k < |ns| :: ns[k] == null
    requires forall k | 0 <= k < |es| :: es[k] == null
    ensures HoldBoth(ns, es, live, live)
  {
  }

  lemma NameFilled(ns: Slots, es: Slots, i: nat, ret: array?<char>, base: set<object>, live: set<object>)
    requires HoldBoth(ns, es, base, live) && i < |ns| && ns[i] == null && (ret != null ==> ret !in live)
    ensures HoldBoth(ns[i := ret], es, base, Grown(live, ret))
  {
    SlotFilled(ns, i, ret, base, base + Held(ns));
    hide Differ;
    if ret == null {
      assert ns[i := ret] == ns;
    } else {
      BesideTable(es, base + Held(ns), live, ret);
      HeldIs(ns[i := ret], base, base + Held(ns) + {ret});
      hide Held, Holds;
      assert base + Held(ns[i := ret]) == base + Held(ns) + {ret};
    }
  }

  lemma HeldIs(es: Slots, base: set<object>, live: set<object>)
    requires Holds(es, base, live)
    ensures live == base + Held(es)
  {
  }

  lemma EntryFilled(ns: Slots, es: Slots, i: nat, ret: array?<char>, base: set<object>, live: set<object>)
    requires HoldBoth(ns, es, base, live) && i < |es| && es[i] == null && (ret != null ==> ret !in live)
    ensures HoldBoth(ns, es[i := ret], base, Grown(live, ret))
  {
    hide Held, Holds;
    SlotFilled(es, i, ret, base + Held(ns), live);
  }

  lemma BesideBoth(ns: Slots, es: Slots, base: set<object>, live: set<object>, o: object)
    requires HoldBoth(ns, es, base, live) && o !in live
    ensures HoldBoth(ns, es, base + {o}, live + {o})
  {
    AllHeld(es, base + Held(ns), live);
    BesideTable(es, base + Held(ns), live, o);
    BesideTable(ns, base, base + Held(ns), o);
    hide Held, Holds;
    assert base + {o} + Held(ns) == base + Held(ns) + {o};
  }

  /** What is still to be given back when the first i entries of both tables have been. */
  ghost predicate LeftBoth(ns: Slots, es: Slots, i: nat, base: set<object>, live: set<object>)
    requires i <= |ns| == |es|
  {
    && live == base + Held(ns[i..]) + Held(es[i..]) && Differ(ns) && Differ(es)
    && base !! Held(ns[i..]) && base !! Held(es[i..]) && Held(ns[i..]) !! Held(es[i..])
  }

  lemma LeftAll(ns: Slots, es: Slots, base: set<object>, live: set<object>)
    requires HoldBoth(ns, es, base, live) && |ns| == |es|
    ensures LeftBoth(ns, es, 0, base, live)
  {
    AllHeld(ns, base, base + Held(ns));
    AllHeld(es, base + Held(ns), live);
    assert ns[0..] == ns && es[0..] == es;
  }

  lemma NotHeld(ns: Slots, es: Slots, base: set<object>, live: set<object>, out: object)
    requires HoldBoth(ns, es, base, live) && out in base
    ensures forall k | 0 <= k < |ns| && ns[k] != null :: ns[k] != out
    ensures forall k | 0 <= k < |es| && es[k] != null :: es[k] != out
  {
    forall k | 0 <= k < |ns| && ns[k] != null
      ensures ns[k] != out
    {
      assert ns[k] in Held(ns);
    }
    forall k | 0 <= k < |es| && es[k] != null
      ensures es[k] != out
    {
      assert es[k] in Held(es);
    }
  }

  lemma LeftNothing(ns: Slots, es: Slots, base: set<object>, live: set<object>)
    requires |ns| == |es| && LeftBoth(ns, es, |ns|, base, live)
    ensures live == base
  {
    assert ns[|ns|..] == es[|es|..] == [];
  }

  method FreePair(heap: Heap, names: array<array?<char>>, entries: array<array?<char>>, i: nat, ghost base: set<object>)
    requires i < names.Length == entries.Length && LeftBoth(names[..], entries[..], i, base, heap.live)
    modifies heap`live
    ensures LeftBoth(names[..], entries[..], i + 1, base, heap.live)
  {
    ghost var ns, es := names[..], entries[..];
    HeldFrom(ns, i);
    HeldFrom(es, i);
    hide Held, Differ;
    assert base + Held(ns[i..]) + Held(es[i..]) == (base + Held(es[i..])) + Held(ns[i..]);
    FreeSlot(heap, names, i, base + Held(es[i..]));
    assert (base + Held(es[i..])) + Held(ns[i + 1..]) == (base + Held(ns[i + 1..])) + Held(es[i..]);
    FreeSlot(heap, entries, i, base + Held(ns[i + 1..]));
  }

  /** Everything in both tables is given back. */
  method FreeBoth(heap: Heap, names: array<array?<char>>, entries: array<array?<char>>, ghost base: set<object>)
    requires names.Length == entries.Length && HoldBoth(names[..], entries[..], base, heap.live)
    modifies heap`live
    ensures heap.live == base
  {
    LeftAll(names[..], entries[..], base, heap.live);
    hide *;
    for i := 0 to names.Length
      invariant LeftBoth(names[..], entries[..], i, base, heap.live)
    {
      FreePair(heap, names, entries, i, base);
    }
    LeftNothing(names[..], entries[..], base, heap.live);
  }
}
