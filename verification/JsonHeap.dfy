/** cJSON nodes on the heap: who owns what, and the deletion of a structure. */
module JsonHeap {
  import opened Options
  import opened Json

  /** A C string on the heap. */
  class Str {
    const text: Text
    constructor (text: Text)
      ensures this.text == text
    {
      this.text := text;
    }
  }

  datatype Kind = KFalse | KTrue | KNull | KNumber | KString | KArray | KObject

  class Node {
    var next: Node?
    var prev: Node?
    var child: Node?
    var kind: Kind
    var isReference: bool
    var valuestring: Str?
    var mantissa: int
    var exponent: int
    var name: Str?

    /** memset( node, 0, sizeof(cJSON) ) */
    constructor ()
      ensures Zeroed()
    {
      next, prev, child, kind, isReference := null, null, null, KFalse, false;
      valuestring, mantissa, exponent, name := null, 0, 0, null;
    }

    ghost predicate Zeroed()
      reads this
    {
      && next == null && prev == null && child == null && kind == KFalse && !isReference
      && valuestring == null && mantissa == 0 && exponent == 0 && name == null
    }

    /** Everything but the links. */
    ghost function Data(): Info
      reads `kind, `isReference, `valuestring, `mantissa, `exponent, `name
    {
      Info(kind, isReference, valuestring, mantissa, exponent, name)
    }
  }

  datatype Info = Info(kind: Kind, isReference: bool, valuestring: Str?, mantissa: int, exponent: int, name: Str?) {
    ghost predicate StringsDiffer() {
      valuestring != null && !isReference ==> valuestring != name
    }

    /** The strings that deleting a node with these fields frees. */
    ghost function Strings(): set<object> {
      (if valuestring != null && !isReference then {valuestring} else {}) + (if name != null then {name} else {})
    }
  }

  /** No allocation to come fails. */
  ghost predicate Plenty(plan: seq<bool>) {
    false !in plan
  }

  /** malloc and free. `live` is what has been allocated and not freed; `plan` says which of the coming
      allocations fail (all later ones succeed). */
  class Heap {
    ghost var live: set<object>
    var plan: seq<bool>
    /** The parser's error position, a static variable of the file. */
    var ep: Option<nat>

    constructor (plan: seq<bool>)
      ensures live == {} && this.plan == plan && ep == None
    {
      live, this.plan, ep := {}, plan, None;
    }

    method Malloc() returns (ok: bool)
      modifies this`plan
      ensures ok == (old(plan) == [] || old(plan)[0])
      ensures Plenty(old(plan)) ==> Plenty(plan)
    {
      ok := plan == [] || plan[0];
      if plan != [] {
        plan := plan[1..];
      }
    }

    /** cJSON_New_Item */
    method NewItem() returns (n: Node?)
      modifies `live, `plan
      ensures n == null ==> live == old(live) && !Plenty(old(plan))
      ensures n != null ==> fresh(n) && n.Zeroed() && live == old(live) + {n}
      ensures Plenty(old(plan)) ==> Plenty(plan)
    {
      var ok := Malloc();
      n := null;
      if ok {
        n := new Node();
        live := live + {n};
      }
    }

    /** An allocated C string. */
    method NewStr(text: Text) returns (s: Str?)
      modifies `live, `plan
      ensures s == null ==> live == old(live) && !Plenty(old(plan))
      ensures s != null ==> fresh(s) && s.text == text && live == old(live) + {s}
      ensures Plenty(old(plan)) ==> Plenty(plan)
    {
      var ok := Malloc();
      s := null;
      if ok {
        s := new Str(text);
        live := live + {s};
      }
    }

    /** A buffer of n characters, with arbitrary contents. */
    method NewChars(n: nat) returns (a: array?<char>)
      modifies `live, `plan
      ensures a == null ==> live == old(live) && !Plenty(old(plan))
      ensures a != null ==> fresh(a) && a.Length == n && live == old(live) + {a}
      ensures Plenty(old(plan)) ==> Plenty(plan)
    {
      var ok := Malloc();
      a := null;
      if ok {
        a := new char[n];
        live := live + {a};
      }
    }

    /** A table of n pointers, all null. */
    method NewTable(n: nat) returns (a: array?<array?<char>>)
      modifies `live, `plan
      ensures a == null ==> live == old(live) && !Plenty(old(plan))
      ensures a != null ==> fresh(a) && a.Length == n && live == old(live) + {a}
      ensures a != null ==> forall k | 0 <= k < n :: a[k] == null
      ensures Plenty(old(plan)) ==> Plenty(plan)
    {
      var ok := Malloc();
      a := null;
      if ok {
        a := new array?<char>[n](_ => null);
        live := live + {a};
      }
    }

    /** free: only what is live, so nothing is freed twice. */
    method Free(o: object)
      requires o in live
      modifies this`live
      ensures live == old(live) - {o}
    {
      live := live - {o};
    }
  }

  /** A chain of nodes linked by next with their fields, and the chains below the nodes. */
  datatype Forest = Empty | Tree(node: Node, info: Info, kids: Forest, rest: Forest)

  ghost function Foot(f: Forest): set<object> {
    match f
    case Empty => {}
    case Tree(n, info, kids, rest) => {n} + info.Strings() + Foot(kids) + Foot(rest)
  }

  /** No object occurs twice. */
  ghost predicate Separate(f: Forest) {
    match f
    case Empty => true
    case Tree(n, info, kids, rest) =>
      && Separate(kids) && Separate(rest) && info.StringsDiffer()
      && n !in info.Strings() && n !in Foot(kids) && n !in Foot(rest)
      && info.Strings() !! Foot(kids) && info.Strings() !! Foot(rest) && Foot(kids) !! Foot(rest)
  }

  /** f is the chain that starts at head: prev links mirror next links (the head's is `prev`), the last next is
      `tail`, and every node has the fields and the chain below it that f says. A reference node borrows its chain
      and owns nothing below it. */
  ghost predicate Owns(f: Forest, head: Node?, prev: Node?, tail: Node?)
    reads Foot(f)
  {
    match f
    case Empty => head == tail
    case Tree(n, info, kids, rest) =>
      && head == n && n.prev == prev && n.Data() == info
      && (if info.isReference then kids == Empty else Owns(kids, n.child, null, null))
      && Owns(rest, n.next, n, tail)
  }

  lemma NothingBelow(f: Forest, head: Node?, prev: Node?, tail: Node?)
    requires Owns(f, head, prev, tail) && f.Tree? && (f.info.isReference || f.node.child == null)
    ensures f.kids == Empty
  {
  }

  /** Set algebra of one round of deletion: what is left is what was there before and the rest of the chain. */
  lemma Freed(all: set<object>, foot: set<object>, f: Forest, live: set<object>)
    requires f.Tree? && Separate(f) && Foot(f) <= foot
    requires live == ((all - foot) + Foot(f)) - Foot(f.kids) - f.info.Strings() - {f.node}
    ensures live == (all - foot) + Foot(f.rest) && Foot(f.rest) <= foot
  {
  }

  /** cJSON_Delete: frees every object of the chain exactly once and nothing else; no node is read after it
      has been freed. */
  method Delete(heap: Heap, head: Node?, ghost prev: Node?, ghost f: Forest)
    requires Owns(f, head, prev, null) && Separate(f) && Foot(f) <= heap.live && heap !in Foot(f)
    modifies heap`live
    ensures heap.live == old(heap.live) - Foot(f)
    decreases f
  {
    var c := head;
    ghost var cur, before := f, prev;
    while c != null
      invariant Owns(cur, c, before, null) && Separate(cur) && Foot(cur) <= heap.live && heap !in Foot(cur)
      invariant heap.live == (old(heap.live) - Foot(f)) + Foot(cur) && Foot(cur) <= Foot(f)
      invariant cur == f || cur < f
      decreases cur
    {
      assert c in heap.live;
      assert allocated(Foot(cur));
      var next := c.next;
      if !c.isReference && c.child != null {
        Delete(heap, c.child, null, cur.kids);
      } else {
        NothingBelow(cur, c, before, null);
      }
      assert heap.live == ((old(heap.live) - Foot(f)) + Foot(cur)) - Foot(cur.kids);
      FreeNode(heap, c);
      Freed(old(heap.live), Foot(f), cur, heap.live);
      before, c, cur := c, next, cur.rest;
    }
  }

  /** The strings of a node, and the node itself. */
  method FreeNode(heap: Heap, c: Node)
    requires c in heap.live && c.Data().Strings() <= heap.live && c.Data().StringsDiffer() && c !in c.Data().Strings()
    modifies heap`live
    ensures heap.live == old(heap.live) - c.Data().Strings() - {c}
  {
    if !c.isReference && c.valuestring != null {
      heap.Free(c.valuestring);
    }
    if c.name != null {
      heap.Free(c.name);
    }
    heap.Free(c);
  }
}
