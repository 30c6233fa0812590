/** The merger's dictionary (common/dict.c): a singly linked list behind a sentinel node.

    The first half gives the list its meaning: every operation is a function on the sequence of
    key/value pairs after the sentinel, and that sequence is a finite map whose default is 0.
    The second half is the heap code itself, proved to compute those functions. */
module Dict {

  datatype Pair = Pair(key: string, value: int)

  ghost predicate DistinctKeys(s: seq<Pair>) {
    forall i, j :: 0 <= i < j < |s| ==> s[i].key != s[j].key
  }

  function Keys(s: seq<Pair>): (r: seq<string>)
    ensures |r| == |s| && forall i :: 0 <= i < |s| ==> r[i] == s[i].key
  {
    if s == [] then [] else [s[0].key] + Keys(s[1..])
  }

  /** The value stored under `key`, 0 when there is none. */
  function Lookup(s: seq<Pair>, key: string): int {
    if s == [] then 0
    else if s[0].key == key then s[0].value
    else Lookup(s[1..], key)
  }

  /** Replaces the value of the first pair under `key`, in place. */
  function Overwrite(s: seq<Pair>, key: string, value: int): seq<Pair> {
    if s == [] then []
    else if s[0].key == key then [Pair(key, value)] + s[1..]
    else [s[0]] + Overwrite(s[1..], key, value)
  }

  /** `set`: an existing key keeps its position, a new key goes to the front. */
  function Store(s: seq<Pair>, key: string, value: int): seq<Pair> {
    if key in Keys(s) then Overwrite(s, key, value) else [Pair(key, value)] + s
  }

  /** `del`: drops the first pair under `key`. */
  function Erase(s: seq<Pair>, key: string): seq<Pair> {
    if s == [] then []
    else if s[0].key == key then s[1..]
    else [s[0]] + Erase(s[1..], key)
  }

  // ----- positions -----

  lemma {:induction false} LookupFrom(s: seq<Pair>, i: nat, key: string)
    requires i <= |s| && forall j :: 0 <= j < i ==> s[j].key != key
    ensures Lookup(s, key) == Lookup(s[i..], key)
    ensures i < |s| && s[i].key == key ==> Lookup(s, key) == s[i].value
    ensures i == |s| ==> Lookup(s, key) == 0
  {
    if i == 0 {
      assert s[0..] == s;
    } else {
      assert s[1..][i - 1..] == s[i..];
      LookupFrom(s[1..], i - 1, key);
    }
  }

  lemma {:induction false} OverwriteAt(s: seq<Pair>, i: nat, key: string, value: int)
    requires i < |s| && s[i].key == key && forall j :: 0 <= j < i ==> s[j].key != key
    ensures Overwrite(s, key, value) == s[i := Pair(key, value)]
  {
    if i > 0 {
      OverwriteAt(s[1..], i - 1, key, value);
    }
  }

  lemma {:induction false} EraseAt(s: seq<Pair>, i: nat, key: string)
    requires i < |s| && s[i].key == key && forall j :: 0 <= j < i ==> s[j].key != key
    ensures Erase(s, key) == s[..i] + s[i + 1..]
  {
    if i > 0 {
      EraseAt(s[1..], i - 1, key);
      assert s[1..][..i - 1] == s[1..i] && s[1..][i..] == s[i + 1..];
    }
  }

  lemma {:induction false} EraseAbsent(s: seq<Pair>, key: string)
    requires key !in Keys(s)
    ensures Erase(s, key) == s
  {
    if s != [] {
      assert Keys(s) == [s[0].key] + Keys(s[1..]);
      EraseAbsent(s[1..], key);
    }
  }

  lemma {:induction false} StoreExisting(s: seq<Pair>, i: nat, value: int)
    requires DistinctKeys(s) && i < |s|
    ensures Store(s, s[i].key, value) == s[i := Pair(s[i].key, value)]
    ensures Lookup(s, s[i].key) == s[i].value
  {
    LookupFrom(s, i, s[i].key);
    OverwriteAt(s, i, s[i].key, value);
    assert Keys(s)[i] == s[i].key;
  }

  lemma {:induction false} StoreNew(s: seq<Pair>, key: string, value: int)
    requires forall j :: 0 <= j < |s| ==> s[j].key != key
    ensures Store(s, key, value) == [Pair(key, value)] + s
    ensures Lookup(s, key) == 0
  {
    LookupFrom(s, |s|, key);
  }

  // ----- the list is a map -----

  ghost function AsMap(s: seq<Pair>): map<string, int> {
    if s == [] then map[] else AsMap(s[1..])[s[0].key := s[0].value]
  }

  lemma {:induction false} AsMapKeys(s: seq<Pair>)
    ensures forall k :: k in AsMap(s) <==> k in Keys(s)
  {
    if s != [] { AsMapKeys(s[1..]); }
  }

  lemma {:induction false} LookupIsMap(s: seq<Pair>, key: string)
    ensures Lookup(s, key) == if key in AsMap(s) then AsMap(s)[key] else 0
  {
    if s != [] { LookupIsMap(s[1..], key); }
  }

  lemma {:induction false} StoreIsMap(s: seq<Pair>, key: string, value: int)
    ensures AsMap(Store(s, key, value)) == AsMap(s)[key := value]
  {
    if key in Keys(s) {
      OverwriteIsMap(s, key, value);
    } else {
      assert ([Pair(key, value)] + s)[1..] == s;
    }
  }

  lemma {:induction false} OverwriteIsMap(s: seq<Pair>, key: string, value: int)
    requires key in Keys(s)
    ensures AsMap(Overwrite(s, key, value)) == AsMap(s)[key := value]
  {
    var o := Overwrite(s, key, value);
    if s[0].key == key {
      assert o[1..] == s[1..];
    } else {
      assert o[1..] == Overwrite(s[1..], key, value);
      OverwriteIsMap(s[1..], key, value);
    }
  }

  lemma {:induction false} EraseIsMap(s: seq<Pair>, key: string)
    requires DistinctKeys(s)
    ensures AsMap(Erase(s, key)) == AsMap(s) - {key}
  {
    if s == [] {
    } else if s[0].key == key {
      AsMapKeys(s[1..]);
      assert key !in Keys(s[1..]);
      assert AsMap(s) - {key} == AsMap(s[1..]);
    } else {
      assert Erase(s, key)[1..] == Erase(s[1..], key);
      EraseIsMap(s[1..], key);
    }
  }

  /** A store changes no key's position: the key sequence is unchanged, or grows at the front. */
  lemma {:induction false} StoreKeys(s: seq<Pair>, key: string, value: int)
    ensures Keys(Store(s, key, value)) == if key in Keys(s) then Keys(s) else [key] + Keys(s)
    ensures DistinctKeys(s) ==> DistinctKeys(Store(s, key, value))
  {
    if key in Keys(s) {
      var i := FirstIndex(s, key);
      OverwriteAt(s, i, key, value);
      assert Keys(s[i := Pair(key, value)]) == Keys(s);
    } else {
      assert Keys([Pair(key, value)] + s) == [key] + Keys(s);
      assert forall j :: 0 <= j < |s| ==> s[j].key == Keys(s)[j];
    }
  }

  lemma {:induction false} EraseDistinct(s: seq<Pair>, key: string)
    requires DistinctKeys(s)
    ensures DistinctKeys(Erase(s, key)) && key !in Keys(Erase(s, key))
  {
    if key in Keys(s) {
      var i := FirstIndex(s, key);
      EraseAt(s, i, key);
    } else {
      EraseAbsent(s, key);
    }
  }

  /** An erase removes exactly the pair under its key, which does not occur again, and keeps all
      others in order. */
  lemma {:induction false} EraseKeys(s: seq<Pair>, key: string)
    requires DistinctKeys(s)
    ensures DistinctKeys(Erase(s, key)) && key !in Keys(Erase(s, key))
    ensures if key in Keys(s) then exists i :: 0 <= i < |s| && s[i].key == key && Erase(s, key) == Cut(s, i)
            else Erase(s, key) == s
  {
    EraseDistinct(s, key);
    if key in Keys(s) {
      var i := FirstIndex(s, key);
      EraseAt(s, i, key);
      assert Erase(s, key) == Cut(s, i);
    } else {
      EraseAbsent(s, key);
    }
  }

  lemma {:induction false} FirstIndex(s: seq<Pair>, key: string) returns (i: nat)
    requires key in Keys(s)
    ensures i < |s| && s[i].key == key && forall j :: 0 <= j < i ==> s[j].key != key
  {
    if s[0].key == key {
      i := 0;
    } else {
      i := FirstIndex(s[1..], key);
      i := i + 1;
    }
  }

  // ----- whole runs -----

  /** The calls. `Unlink` is `__remove`, given the node before the one at position `at`, which holds
      `key`. */
  datatype Op = Get(key: string) | Set(key: string, value: int) | Del(key: string) | Unlink(at: nat, key: string)

  /** What one call leaves in the list, and what it returns (booleans as 0 and 1, nothing as 0). */
  function ListStep(s: seq<Pair>, op: Op): (seq<Pair>, int)
    requires Allowed(s, op)
  {
    match op
    case Get(k) => (s, Lookup(s, k))
    case Set(k, v) => (Store(s, k, v), 1)
    case Del(k) => (Erase(s, k), if k in Keys(s) then 1 else 0)
    case Unlink(i, _) => (Cut(s, i), 0)
  }

  /** A node is unlinked only where there is one. */
  predicate Allowed(s: seq<Pair>, op: Op) {
    op.Unlink? ==> op.at < |s| && s[op.at].key == op.key
  }

  ghost function MapStep(m: map<string, int>, op: Op): (map<string, int>, int) {
    match op
    case Get(k) => (m, if k in m then m[k] else 0)
    case Set(k, v) => (m[k := v], 1)
    case Del(k) => (m - {k}, if k in m then 1 else 0)
    case Unlink(_, k) => (m - {k}, 0)
  }

  predicate AllAllowed(s: seq<Pair>, ops: seq<Op>)
    decreases |ops|
  {
    ops != [] ==> Allowed(s, ops[0]) && AllAllowed(ListStep(s, ops[0]).0, ops[1..])
  }

  function ListRun(s: seq<Pair>, ops: seq<Op>): (seq<Pair>, seq<int>)
    requires AllAllowed(s, ops)
    decreases |ops|
  {
    if ops == [] then (s, []) else
      var (s', r) := ListStep(s, ops[0]);
      var (s'', rs) := ListRun(s', ops[1..]);
      (s'', [r] + rs)
  }

  ghost function MapRun(m: map<string, int>, ops: seq<Op>): (map<string, int>, seq<int>)
    decreases |ops|
  {
    if ops == [] then (m, []) else
      var (m', r) := MapStep(m, ops[0]);
      var (m'', rs) := MapRun(m', ops[1..]);
      (m'', [r] + rs)
  }

  lemma {:induction false} UnlinkIsErase(s: seq<Pair>, i: nat)
    requires DistinctKeys(s) && i < |s|
    ensures Cut(s, i) == Erase(s, s[i].key)
  {
    EraseAt(s, i, s[i].key);
  }

  /** Over any sequence of calls the list answers exactly like a finite map with default 0. */
  lemma {:induction false} RunIsMap(s: seq<Pair>, ops: seq<Op>)
    requires DistinctKeys(s) && AllAllowed(s, ops)
    ensures ListRun(s, ops).1 == MapRun(AsMap(s), ops).1
    ensures AsMap(ListRun(s, ops).0) == MapRun(AsMap(s), ops).0
    ensures DistinctKeys(ListRun(s, ops).0)
    decreases |ops|
  {
    if ops != [] {
      match ops[0] {
        case Get(k) => LookupIsMap(s, k);
        case Set(k, v) => StoreIsMap(s, k, v); StoreKeys(s, k, v);
        case Del(k) => AsMapKeys(s); EraseIsMap(s, k); EraseDistinct(s, k);
        case Unlink(i, k) => UnlinkIsErase(s, i); EraseIsMap(s, k); EraseDistinct(s, k);
      }
      RunIsMap(ListStep(s, ops[0]).0, ops[1..]);
    }
  }

  // ----- the heap code -----

  function Cut<T>(s: seq<T>, i: nat): (r: seq<T>)
    requires i < |s|
    ensures |r| == |s| - 1
    ensures forall j :: 0 <= j < i ==> r[j] == s[j]
    ensures forall j :: i <= j < |r| ==> r[j] == s[j + 1]
  {
    s[..i] + s[i + 1..]
  }

  ghost predicate NoDuplicates<T>(s: seq<T>) {
    forall i, j :: 0 <= i < j < |s| ==> s[i] != s[j]
  }

  lemma {:induction false} CutDistinct<T>(s: seq<T>, i: nat)
    requires i < |s| && NoDuplicates(s)
    ensures NoDuplicates(Cut(s, i))
  {
  }

  class Node {
    var key: string
    var value: int
    var next: Node?

    constructor (key: string, value: int, next: Node?)
      ensures this.key == key && this.value == value && this.next == next
    {
      this.key, this.value, this.next := key, value, next;
    }
  }

  ghost function Before(head: Node, spine: seq<Node>, i: nat): Node
    requires i <= |spine|
  {
    if i == 0 then head else spine[i - 1]
  }

  ghost function Behind(spine: seq<Node>, i: nat): Node?
    requires i <= |spine|
  {
    if i < |spine| then spine[i] else null
  }

  ghost predicate Linked(head: Node, spine: seq<Node>)
    reads head, spine
  {
    forall i {:trigger Before(head, spine, i)} :: 0 <= i <= |spine| ==> Before(head, spine, i).next == Behind(spine, i)
  }

  class LinkedDict {
    const sentinel: Node
    ghost var spine: seq<Node>
    ghost var contents: seq<Pair>
    ghost var Repr: set<object>

    ghost predicate Valid()
      reads this, Repr
    {
      && this in Repr && sentinel in Repr && (forall i :: 0 <= i < |spine| ==> spine[i] in Repr)
      && |contents| == |spine|
      && sentinel !in spine
      && NoDuplicates(spine)
      && (forall i :: 0 <= i < |spine| ==> contents[i] == Pair(spine[i].key, spine[i].value))
      && Linked(sentinel, spine)
      && DistinctKeys(contents)
    }

    /** The node whose `next` is position i: the sentinel, then the nodes in order. */
    ghost function At(i: nat): Node
      requires i <= |spine|
      reads this
    {
      Before(sentinel, spine, i)
    }

    ghost function After(i: nat): Node?
      requires i <= |spine|
      reads this
    {
      Behind(spine, i)
    }

    /** new_dict */
    constructor ()
      ensures Valid() && contents == [] && fresh(Repr)
    {
      sentinel := new Node("", 0, null);
      spine, contents, Repr := [], [], {this, sentinel};
    }

    /** get */
    method Get(key: string) returns (value: int)
      requires Valid()
      ensures value == Lookup(contents, key)
    {
      assert sentinel == At(0);
      var curr := sentinel.next;
      ghost var i := 0;
      while curr != null
        invariant i <= |spine| && curr == After(i)
        invariant forall j :: 0 <= j < i ==> contents[j].key != key
        decreases |spine| - i
      {
        if curr.key == key {
          LookupFrom(contents, i, key);
          return curr.value;
        }
        i := i + 1;
        assert curr == At(i);
        curr := curr.next;
      }
      LookupFrom(contents, i, key);
      return 0;
    }

    /** set */
    method Set(key: string, value: int)
      requires Valid()
      modifies Repr
      ensures Valid() && fresh(Repr - old(Repr))
      ensures contents == Store(old(contents), key, value)
    {
      assert sentinel == At(0);
      var curr := sentinel.next;
      ghost var i := 0;
      while curr != null
        invariant i <= |spine| && curr == After(i)
        invariant forall j :: 0 <= j < i ==> contents[j].key != key
        decreases |spine| - i
      {
        if curr.key == key {
          OverwriteAt(contents, i, key, value);
          assert Keys(contents)[i] == key;
          SetValue(curr, i, value);
          return;
        }
        i := i + 1;
        assert curr == At(i);
        curr := curr.next;
      }
      PushFront(key, value);
    }

    /** The assignment `curr->value = value` of `set`. */
    method SetValue(curr: Node, ghost i: nat, value: int)
      requires Valid() && i < |spine| && curr == spine[i]
      modifies this`contents, curr`value
      ensures Valid()
      ensures contents == old(contents)[i := Pair(old(contents)[i].key, value)]
    {
      curr.value := value;
      contents := contents[i := Pair(curr.key, value)];
      assert forall j {:trigger Before(sentinel, spine, j)} :: 0 <= j <= |spine| ==>
        Before(sentinel, spine, j).next == old(Before(sentinel, spine, j).next);
    }

    /** The insertion of a new key behind the sentinel in `set`. */
    method PushFront(key: string, value: int)
      requires Valid() && forall j :: 0 <= j < |contents| ==> contents[j].key != key
      modifies this, sentinel
      ensures Valid() && fresh(Repr - old(Repr))
      ensures contents == [Pair(key, value)] + old(contents)
    {
      assert sentinel == At(0) && sentinel.next == After(0);
      ghost var longer: seq<Node>;
      var n := new Node(key, value, sentinel.next);
      longer := [n] + spine;
      sentinel.next := n;
      forall j | 0 <= j <= |longer| ensures Before(sentinel, longer, j).next == Behind(longer, j) {
        if j >= 2 {
          assert old(At(j - 1).next) == old(After(j - 1));
        }
      }
      spine, contents, Repr := longer, [Pair(key, value)] + contents, Repr + {n};
    }

    /** __remove: unlinks the node after `prev`. */
    method Unlink(prev: Node, ghost i: nat)
      requires Valid() && i < |spine| && prev == At(i)
      modifies this`spine, this`contents, prev`next
      ensures Valid()
      ensures spine == Cut(old(spine), i)
      ensures contents == Cut(old(contents), i) == Erase(old(contents), old(contents)[i].key)
    {
      EraseAt(contents, i, contents[i].key);
      EraseDistinct(contents, contents[i].key);
      CutDistinct(spine, i);
      Bypass(prev, i);
      spine, contents := Cut(spine, i), Cut(contents, i);
    }

    /** The pointer assignment of `__remove`. */
    method Bypass(prev: Node, ghost i: nat)
      requires Linked(sentinel, spine) && sentinel !in spine && NoDuplicates(spine)
      requires i < |spine| && prev == At(i)
      modifies prev`next
      ensures Linked(sentinel, Cut(spine, i))
    {
      assert prev.next == After(i) && At(i + 1).next == After(i + 1);
      var dead := prev.next;
      prev.next := dead.next;
      forall j | 0 <= j < |spine| ensures Before(sentinel, Cut(spine, i), j).next == Behind(Cut(spine, i), j) {
        if j < i {
          assert old(At(j).next) == old(After(j));
        } else if j > i {
          assert old(At(j + 1).next) == old(After(j + 1));
        }
      }
    }

    /** del */
    method Del(key: string) returns (found: bool)
      requires Valid()
      modifies Repr
      ensures Valid() && Repr == old(Repr)
      ensures contents == Erase(old(contents), key)
      ensures found <==> key in Keys(old(contents))
    {
      var curr := sentinel;
      ghost var i := 0;
      while curr.next != null
        invariant i <= |spine| && curr == At(i)
        invariant forall j :: 0 <= j < i ==> contents[j].key != key
        decreases |spine| - i
      {
        if curr.next.key == key {
          assert Keys(contents)[i] == key;
          Unlink(curr, i);
          return true;
        }
        curr := curr.next;
        i := i + 1;
      }
      EraseAbsent(contents, key);
      return false;
    }
  }
}
