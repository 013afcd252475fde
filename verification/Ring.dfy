/** The consistent-hash ring: a map from hash keys to nodes, and a sorted slice of
    the keys searched with wrap-around. The hash is a parameter. */
module Ring {
  import opened Basics
  import opened Text

  type Key = k: int | 0 <= k < 0x1_0000_0000
  type Hash = string -> Key
  type RingMap = map<Key, string>

  /** The hash of one virtual node: the node name followed by the replica number. */
  function VirtualKey(hash: Hash, node: string, i: nat): Key {
    hash(node + Decimal(i))
  }

  function VirtualKeys(hash: Hash, replicas: int, node: string): set<Key>
    decreases replicas
  {
    if replicas <= 0 then {}
    else VirtualKeys(hash, replicas - 1, node) + {VirtualKey(hash, node, replicas - 1)}
  }

  lemma {:induction false} VirtualKeysAre(hash: Hash, replicas: int, node: string)
    ensures VirtualKeys(hash, replicas, node) == set i | 0 <= i < replicas :: VirtualKey(hash, node, i)
  {
    if replicas > 0 {
      VirtualKeysAre(hash, replicas - 1, node);
    }
  }

  /** The ring after node has taken every key in keys, free or not. */
  function Claim<K, V>(ring: map<K, V>, keys: set<K>, node: V): map<K, V> {
    ring + map k | k in keys :: node
  }

  lemma ClaimNothing<K, V>(ring: map<K, V>, node: V)
    ensures Claim(ring, {}, node) == ring
  {}

  lemma ClaimOneMore<K, V>(ring: map<K, V>, keys: set<K>, node: V, k: K)
    ensures Claim(ring, keys, node)[k := node] == Claim(ring, keys + {k}, node)
  {}

  function WithNode(hash: Hash, replicas: int, ring: RingMap, node: string): RingMap {
    Claim(ring, VirtualKeys(hash, replicas, node), node)
  }

  function WithoutNode(hash: Hash, replicas: int, ring: RingMap, node: string): RingMap {
    ring - VirtualKeys(hash, replicas, node)
  }

  // ---------------------------------------------------------------- lookup

  /** What a linear scan of the keys finds: the least key at or after x, or the least
      key of all when there is none. */
  ghost predicate IsSuccessor(keys: set<Key>, x: Key, k: Key) {
    && k in keys
    && if exists j :: j in keys && x <= j
       then x <= k && forall j | j in keys && x <= j :: k <= j
       else forall j | j in keys :: k <= j
  }

  /** How far k lies from x going clockwise. */
  function Clockwise(x: Key, k: Key): nat {
    if x <= k then k - x else k - x + 0x1_0000_0000
  }

  lemma SuccessorIsNearest(keys: set<Key>, x: Key, k: Key)
    requires k in keys
    ensures IsSuccessor(keys, x, k) <==> forall j | j in keys :: Clockwise(x, k) <= Clockwise(x, j)
  {}

  lemma {:induction false} NearestExists(keys: set<Key>, x: Key) returns (k: Key)
    requires keys != {}
    ensures k in keys && forall j | j in keys :: Clockwise(x, k) <= Clockwise(x, j)
    decreases |keys|
  {
    k :| k in keys;
    if keys != {k} {
      assert keys - {k} != {};
      var rest := NearestExists(keys - {k}, x);
      if Clockwise(x, rest) < Clockwise(x, k) { k := rest; }
    }
  }

  ghost function Successor(keys: set<Key>, x: Key): (k: Key)
    requires keys != {}
    ensures IsSuccessor(keys, x, k)
    ensures forall j | j in keys :: Clockwise(x, k) <= Clockwise(x, j)
  {
    assert exists k :: IsSuccessor(keys, x, k) by {
      var k := NearestExists(keys, x);
      SuccessorIsNearest(keys, x, k);
    }
    var k :| IsSuccessor(keys, x, k);
    SuccessorIsNearest(keys, x, k);
    k
  }

  /** The node in charge of position x. */
  ghost function Assigned(ring: RingMap, x: Key): string
    requires ring != map[]
  {
    assert ring.Keys != {};
    ring[Successor(ring.Keys, x)]
  }

  // ---------------------------------------------------------------- disruption

  /** After adding a node every position keeps its node or moves to the new one, even
      when hashes collide. */
  lemma AddMovesOnlyToTheNewNode(hash: Hash, replicas: int, ring: RingMap, node: string, x: Key)
    requires ring != map[]
    ensures WithNode(hash, replicas, ring, node) != map[]
    ensures
      var after := Assigned(WithNode(hash, replicas, ring, node), x);
      after == Assigned(ring, x) || after == node
  {
    var mine := VirtualKeys(hash, replicas, node);
    var r := WithNode(hash, replicas, ring, node);
    assert ring.Keys != {} && r.Keys == ring.Keys + mine;
    var k := Successor(r.Keys, x);
    if k !in mine {
      var old_k := Successor(ring.Keys, x);
      assert old_k in r.Keys && k in ring.Keys;
      assert Clockwise(x, k) == Clockwise(x, old_k);
    }
  }

  /** Positions between x and its successor have the same successor. */
  lemma SuccessorBetween(keys: set<Key>, x: Key, y: Key)
    requires keys != {}
    requires Clockwise(x, y) <= Clockwise(x, Successor(keys, x))
    ensures Successor(keys, y) == Successor(keys, x)
  {
    var s, t := Successor(keys, x), Successor(keys, y);
    assert Clockwise(y, t) <= Clockwise(y, s) && Clockwise(x, s) <= Clockwise(x, t);
  }

  lemma SuccessorOfKey(keys: set<Key>, k: Key)
    requires k in keys
    ensures Successor(keys, k) == k
  {
    assert Clockwise(k, Successor(keys, k)) <= Clockwise(k, k);
  }

  /** Nobody else's position moves when node gives up the keys in gone. */
  ghost predicate OthersStay(ring: RingMap, gone: set<Key>, node: string)
    requires ring - gone != map[] && ring != map[]
  {
    forall x: Key :: Assigned(ring, x) != node ==> Assigned(ring - gone, x) == Assigned(ring, x)
  }

  /** Each key of another node that is lost falls back to that same node. */
  ghost predicate LostKeysFallBack(ring: RingMap, gone: set<Key>, node: string)
    requires ring - gone != map[]
  {
    forall k | k in gone && k in ring && ring[k] != node :: Assigned(ring - gone, k) == ring[k]
  }

  lemma OthersStayOnlyIf(ring: RingMap, gone: set<Key>, node: string)
    requires ring - gone != map[] && ring != map[]
    requires OthersStay(ring, gone, node)
    ensures LostKeysFallBack(ring, gone, node)
  {
    forall k | k in gone && k in ring && ring[k] != node
      ensures Assigned(ring - gone, k) == ring[k]
    {
      SuccessorOfKey(ring.Keys, k);
      assert Assigned(ring, k) == ring[k];
    }
  }

  lemma OthersStayIf(ring: RingMap, gone: set<Key>, node: string, x: Key)
    requires ring - gone != map[] && ring != map[]
    requires LostKeysFallBack(ring, gone, node)
    requires Assigned(ring, x) != node
    ensures Assigned(ring - gone, x) == Assigned(ring, x)
  {
    var after := ring - gone;
    assert after.Keys != {} && ring.Keys != {};
    var k := Successor(ring.Keys, x);
    var s := Successor(after.Keys, x);
    assert s in ring.Keys;
    SuccessorBetween(after.Keys, x, k);
    if k !in gone {
      SuccessorOfKey(after.Keys, k);
    } else {
      assert Assigned(after, k) == ring[k];
    }
  }

  lemma SmallerRing(ring: RingMap, gone: set<Key>)
    requires ring - gone != map[]
    ensures ring != map[]
  {
    var k :| k in ring - gone;
    assert k in ring;
  }

  /** Removing a node leaves everybody else's positions alone exactly when each removed
      key that belonged to another node falls back to that same node. */
  lemma RemoveDisruptsNobodyElseIff(hash: Hash, replicas: int, ring: RingMap, node: string)
    requires WithoutNode(hash, replicas, ring, node) != map[]
    ensures ring != map[]
    ensures OthersStay(ring, VirtualKeys(hash, replicas, node), node)
            <==> LostKeysFallBack(ring, VirtualKeys(hash, replicas, node), node)
  {
    var gone := VirtualKeys(hash, replicas, node);
    SmallerRing(ring, gone);
    if OthersStay(ring, gone, node) {
      OthersStayOnlyIf(ring, gone, node);
    }
    if LostKeysFallBack(ring, gone, node) {
      forall x: Key | Assigned(ring, x) != node
        ensures Assigned(ring - gone, x) == Assigned(ring, x)
      {
        OthersStayIf(ring, gone, node, x);
      }
    }
  }

  /** With no collision between the removed node and the others, only its own positions move. */
  lemma RemoveMovesOnlyItsOwn(hash: Hash, replicas: int, ring: RingMap, node: string, x: Key)
    requires WithoutNode(hash, replicas, ring, node) != map[]
    requires forall k | k in VirtualKeys(hash, replicas, node) && k in ring :: ring[k] == node
    ensures ring != map[]
    ensures Assigned(ring, x) == node || Assigned(WithoutNode(hash, replicas, ring, node), x) == Assigned(ring, x)
  {
    var gone := VirtualKeys(hash, replicas, node);
    SmallerRing(ring, gone);
    if Assigned(ring, x) != node {
      OthersStayIf(ring, gone, node, x);
    }
  }

  /** Adding and removing a node gives the old ring back exactly when none of its virtual
      keys was taken. */
  lemma AddThenRemoveRestoresIff(hash: Hash, replicas: int, ring: RingMap, node: string)
    ensures WithoutNode(hash, replicas, WithNode(hash, replicas, ring, node), node) == ring
            <==> VirtualKeys(hash, replicas, node) !! ring.Keys
  {
    var mine := VirtualKeys(hash, replicas, node);
    var back := WithoutNode(hash, replicas, WithNode(hash, replicas, ring, node), node);
    assert back.Keys == ring.Keys - mine;
    if !(mine !! ring.Keys) {
      var k :| k in mine && k in ring.Keys;
      assert k !in back;
    }
  }

  /** Two nodes can be added in either order with the same result exactly when they share
      no virtual key. */
  lemma AddsCommuteIff(hash: Hash, replicas: int, ring: RingMap, a: string, b: string)
    requires a != b
    ensures WithNode(hash, replicas, WithNode(hash, replicas, ring, a), b)
            == WithNode(hash, replicas, WithNode(hash, replicas, ring, b), a)
            <==> VirtualKeys(hash, replicas, a) !! VirtualKeys(hash, replicas, b)
  {
    ClaimsCommuteIff(ring, VirtualKeys(hash, replicas, a), VirtualKeys(hash, replicas, b), a, b);
  }

  lemma ClaimsCommuteIff(ring: RingMap, ka: set<Key>, kb: set<Key>, a: string, b: string)
    requires a != b
    ensures Claim(Claim(ring, ka, a), kb, b) == Claim(Claim(ring, kb, b), ka, a) <==> ka !! kb
  {
    var ab, ba := Claim(Claim(ring, ka, a), kb, b), Claim(Claim(ring, kb, b), ka, a);
    if k :| k in ka && k in kb {
      assert ab[k] == b && ba[k] == a;
    } else {
      assert ab.Keys == ba.Keys;
      assert forall k | k in ab :: ab[k] == ba[k];
    }
  }

  /** A hash under which a and b share a key and c has its own. */
  const COLLIDING: Hash := (s: string) => if s == "c0" then 9 else 5

  /** With a collision the removal of a dead node's keys takes a live node's position away: a
      and b collide, b owns the key, a leaves, and the position goes from b to c. */
  lemma CollidingRemovalDisrupts()
    ensures
      var ring := WithNode(COLLIDING, 1, WithNode(COLLIDING, 1, WithNode(COLLIDING, 1, map[], "a"), "b"), "c");
      var after := WithoutNode(COLLIDING, 1, ring, "a");
      ring != map[] && after != map[] && Assigned(ring, 5) == "b" && Assigned(after, 5) == "c"
  {
    OneReplica(COLLIDING, "a");
    OneReplica(COLLIDING, "b");
    OneReplica(COLLIDING, "c");
    assert Decimal(0) == "0";
    assert "a" + "0" != "c0" && "b" + "0" != "c0" && "c" + "0" == "c0" by {
      assert ("a" + "0")[0] == 'a' && ("b" + "0")[0] == 'b';
    }
    var ring := WithNode(COLLIDING, 1, WithNode(COLLIDING, 1, WithNode(COLLIDING, 1, map[], "a"), "b"), "c");
    assert ring == map[5 := "b", 9 := "c"];
    SuccessorOfKey(ring.Keys, 5);
    var after := WithoutNode(COLLIDING, 1, ring, "a");
    assert after == map[9 := "c"];
    assert Successor(after.Keys, 5) == 9;
  }

  lemma OneReplica(hash: Hash, node: string)
    ensures VirtualKeys(hash, 1, node) == {VirtualKey(hash, node, 0)}
  {}

  /** Whatever the hash, two node names of which one is the other followed by a 1 collide
      as soon as there are more than ten replicas: both hash the same string. */
  lemma NamesThatAlwaysCollide(hash: Hash, replicas: int, node: string)
    requires replicas > 10
    ensures !(VirtualKeys(hash, replicas, node) !! VirtualKeys(hash, replicas, node + "1"))
  {
    assert Decimal(10) == "10" by { assert Decimal(1) == "1"; }
    assert node + "10" == (node + "1") + "0";
    VirtualKeysAre(hash, replicas, node);
    VirtualKeysAre(hash, replicas, node + "1");
    assert VirtualKey(hash, node, 10) == VirtualKey(hash, node + "1", 0);
    assert VirtualKey(hash, node, 10) in VirtualKeys(hash, replicas, node);
    assert VirtualKey(hash, node + "1", 0) in VirtualKeys(hash, replicas, node + "1");
  }

  // ---------------------------------------------------------------- histories

  datatype Change = Add(node: string) | Remove(node: string)

  datatype Membership = Membership(ring: RingMap, nodes: set<string>)

  function Apply(hash: Hash, replicas: int, m: Membership, c: Change): Membership {
    match c
    case Add(n) =>
      if n in m.nodes then m else Membership(WithNode(hash, replicas, m.ring, n), m.nodes + {n})
    case Remove(n) =>
      if n !in m.nodes then m else Membership(WithoutNode(hash, replicas, m.ring, n), m.nodes - {n})
  }

  function Run(hash: Hash, replicas: int, changes: seq<Change>): Membership {
    if changes == [] then Membership(map[], {})
    else Apply(hash, replicas, Run(hash, replicas, changes[..|changes| - 1]), changes[|changes| - 1])
  }

  /** The last thing that happened to the name is that it was added. */
  ghost predicate AddedLast(changes: seq<Change>, name: string) {
    exists i | 0 <= i < |changes| ::
      changes[i] == Add(name) && forall j | i < j < |changes| :: changes[j].node != name
  }

  /** The nodes of a ring are exactly the names that were added and not removed since, however often
      a change was repeated. */
  lemma {:induction false} NodesAreTheAddedIff(hash: Hash, replicas: int, changes: seq<Change>, name: string)
    ensures name in Run(hash, replicas, changes).nodes <==> AddedLast(changes, name)
  {
    if changes != [] {
      var n := |changes| - 1;
      var before := changes[..n];
      NodesAreTheAddedIff(hash, replicas, before, name);
      if changes[n].node == name {
        assert changes[n] == Add(name) ==> AddedLast(changes, name);
      } else if AddedLast(before, name) {
        var i :| 0 <= i < n && before[i] == Add(name) && forall j | i < j < n :: before[j].node != name;
        assert changes[i] == Add(name);
        forall j | i < j < n + 1 ensures changes[j].node != name {
          assert j < n ==> changes[j] == before[j];
        }
      }
    }
  }

  /** Every key belongs to a live node that hashes to it. */
  ghost predicate OwnedByLiveNodes(hash: Hash, replicas: int, m: Membership) {
    forall k | k in m.ring :: m.ring[k] in m.nodes && k in VirtualKeys(hash, replicas, m.ring[k])
  }

  /** Every virtual key of every live node is on the ring. */
  ghost predicate Complete(hash: Hash, replicas: int, m: Membership) {
    forall n, k | n in m.nodes && k in VirtualKeys(hash, replicas, n) :: k in m.ring
  }

  ghost predicate Disjoint(hash: Hash, replicas: int, names: set<string>) {
    forall a, b | a in names && b in names && a != b ::
      VirtualKeys(hash, replicas, a) !! VirtualKeys(hash, replicas, b)
  }

  lemma ApplyKeepsOwnership(hash: Hash, replicas: int, m: Membership, c: Change)
    requires OwnedByLiveNodes(hash, replicas, m)
    ensures OwnedByLiveNodes(hash, replicas, Apply(hash, replicas, m, c))
  {}

  /** In every reachable ring each key belongs to a live node, collisions or not. */
  lemma {:induction false} RunKeepsOwnership(hash: Hash, replicas: int, changes: seq<Change>)
    ensures OwnedByLiveNodes(hash, replicas, Run(hash, replicas, changes))
  {
    if changes != [] {
      var before := changes[..|changes| - 1];
      RunKeepsOwnership(hash, replicas, before);
      ApplyKeepsOwnership(hash, replicas, Run(hash, replicas, before), changes[|changes| - 1]);
    }
  }

  function Names(changes: seq<Change>): set<string> {
    set c | c in changes :: c.node
  }

  lemma {:induction false} RunIsComplete(hash: Hash, replicas: int, changes: seq<Change>)
    requires Disjoint(hash, replicas, Names(changes))
    ensures Complete(hash, replicas, Run(hash, replicas, changes))
    ensures Run(hash, replicas, changes).nodes <= Names(changes)
  {
    if changes != [] {
      var before, last := changes[..|changes| - 1], changes[|changes| - 1];
      assert Names(before) <= Names(changes) && last.node in Names(changes);
      RunIsComplete(hash, replicas, before);
      var m := Run(hash, replicas, before);
      var m' := Apply(hash, replicas, m, last);
      forall n, k | n in m'.nodes && k in VirtualKeys(hash, replicas, n)
        ensures k in m'.ring
      {
        if last.Remove? && last.node in m.nodes {
          assert VirtualKeys(hash, replicas, n) !! VirtualKeys(hash, replicas, last.node);
        }
      }
    }
  }

  lemma OneOwner(hash: Hash, replicas: int, names: set<string>, a: string, b: string, k: Key)
    requires Disjoint(hash, replicas, names) && a in names && b in names
    requires k in VirtualKeys(hash, replicas, a) && k in VirtualKeys(hash, replicas, b)
    ensures a == b
  {}

  /** Between names that never collide the ring depends on the live nodes alone: any two
      histories of additions and removals that end with the same nodes end with the same ring. */
  lemma RingDependsOnLiveNodesOnly(hash: Hash, replicas: int, one: seq<Change>, two: seq<Change>)
    requires Disjoint(hash, replicas, Names(one) + Names(two))
    requires Run(hash, replicas, one).nodes == Run(hash, replicas, two).nodes
    ensures Run(hash, replicas, one).ring == Run(hash, replicas, two).ring
  {
    var m1, m2 := Run(hash, replicas, one), Run(hash, replicas, two);
    RunKeepsOwnership(hash, replicas, one);
    RunKeepsOwnership(hash, replicas, two);
    RunIsComplete(hash, replicas, one);
    RunIsComplete(hash, replicas, two);
    forall k ensures k in m1.ring <==> k in m2.ring {}
    forall k | k in m1.ring ensures m1.ring[k] == m2.ring[k] {
      OneOwner(hash, replicas, Names(one) + Names(two), m1.ring[k], m2.ring[k], k);
    }
  }

  /** Between names that never collide somebody serves every key exactly while a node is live. */
  lemma ServesIff(hash: Hash, replicas: int, changes: seq<Change>)
    requires replicas > 0 && Disjoint(hash, replicas, Names(changes))
    ensures Run(hash, replicas, changes).ring == map[] <==> forall name :: !AddedLast(changes, name)
  {
    var m := Run(hash, replicas, changes);
    RunIsComplete(hash, replicas, changes);
    RunKeepsOwnership(hash, replicas, changes);
    forall name ensures name in m.nodes <==> AddedLast(changes, name) {
      NodesAreTheAddedIff(hash, replicas, changes, name);
    }
    if name :| name in m.nodes {
      assert VirtualKey(hash, name, replicas - 1) in VirtualKeys(hash, replicas, name);
      assert VirtualKey(hash, name, replicas - 1) in m.ring && AddedLast(changes, name);
    } else {
      assert m.ring.Keys == {};
    }
  }

  /** With a collision a live node can be left without any place: a and b share their only key, a
      leaves and takes it along, and nobody is found although b is still there. */
  lemma LiveNodeWithoutPlace()
    ensures Run(COLLIDING, 1, [Add("a"), Add("b"), Remove("a")]) == Membership(map[], {"b"})
  {
    var one, two, three := [Add("a")], [Add("a"), Add("b")], [Add("a"), Add("b"), Remove("a")];
    OneReplica(COLLIDING, "a");
    OneReplica(COLLIDING, "b");
    assert ("a" + Decimal(0))[0] == 'a' && ("b" + Decimal(0))[0] == 'b' && "c0"[0] == 'c';
    assert three[..2] == two && two[..1] == one && one[..0] == [];
    assert Run(COLLIDING, 1, one) == Membership(map[5 := "a"], {"a"});
    assert Run(COLLIDING, 1, two) == Membership(map[5 := "b"], {"a", "b"});
  }

  // ---------------------------------------------------------------- the balancer

  predicate Sorted(s: seq<Key>) {
    forall i, j | 0 <= i < j < |s| :: s[i] <= s[j]
  }

  function Elements(s: seq<Key>): set<Key> {
    set k | k in s
  }

  lemma OneMoreElement(s: seq<Key>, k: Key)
    ensures Elements(s + [k]) == Elements(s) + {k}
  {}

  function Insert(s: seq<Key>, k: Key): (r: seq<Key>)
    requires Sorted(s)
    ensures Sorted(r)
    ensures forall x :: x in r <==> x == k || x in s
  {
    if s == [] || k <= s[0] then [k] + s
    else
      var rest := Insert(s[1..], k);
      assert forall j | 0 <= j < |rest| :: rest[j] in rest;
      assert s == [s[0]] + s[1..];
      [s[0]] + rest
  }

  /** sort.Slice with the order of the keys. */
  function Sort(s: seq<Key>): (r: seq<Key>)
    ensures Sorted(r)
    ensures Elements(r) == Elements(s)
  {
    if s == [] then [] else
    assert forall x :: x in s <==> x == s[0] || x in s[1..];
    assert forall x :: x in Sort(s[1..]) <==> x in Elements(Sort(s[1..]));
    assert forall x :: x in s[1..] <==> x in Elements(s[1..]);
    Insert(Sort(s[1..]), s[0])
  }

  /** The map and the slice after the first n virtual nodes have been placed. */
  function Placed(hash: Hash, ring: RingMap, keys: seq<Key>, n: nat, node: string): (RingMap, seq<Key>) {
    if n == 0 then (ring, keys) else
    var (r, s) := Placed(hash, ring, keys, n - 1, node);
    var key := VirtualKey(hash, node, n - 1);
    (r[key := node], s + [key])
  }

  lemma {:induction false} PlacedAll(hash: Hash, ring: RingMap, keys: seq<Key>, n: nat, node: string)
    ensures Placed(hash, ring, keys, n, node).0 == Claim(ring, VirtualKeys(hash, n, node), node)
    ensures Elements(Placed(hash, ring, keys, n, node).1) == Elements(keys) + VirtualKeys(hash, n, node)
  {
    if n == 0 {
      ClaimNothing(ring, node);
    } else {
      var key := VirtualKey(hash, node, n - 1);
      PlacedAll(hash, ring, keys, n - 1, node);
      ClaimOneMore(ring, VirtualKeys(hash, n - 1, node), node, key);
      OneMoreElement(Placed(hash, ring, keys, n - 1, node).1, key);
    }
  }

  /** In a sorted list of the keys, the first one at or after x, or else the first, is the successor. */
  lemma FirstAtOrAfter(keys: set<Key>, s: seq<Key>, x: Key, idx: nat)
    requires Sorted(s) && s != [] && Elements(s) == keys
    requires idx <= |s|
    requires forall i | 0 <= i < idx :: s[i] < x
    requires forall i | idx <= i < |s| :: x <= s[i]
    ensures s[0] in s && keys != {}
    ensures s[if idx == |s| then 0 else idx] == Successor(keys, x)
  {
    var i := if idx == |s| then 0 else idx;
    assert s[i] in s && s[i] in Elements(s);
    forall j | j in keys ensures Clockwise(x, s[i]) <= Clockwise(x, j) {
      assert j in Elements(s);
      var n :| 0 <= n < |s| && s[n] == j;
    }
    var k := Successor(keys, x);
    assert Clockwise(x, k) == Clockwise(x, s[i]);
  }

  class ConsistentHashBalancer {
    const hash: Hash
    const replicas: int
    var ring: RingMap
    var sortedKeys: seq<Key>
    var nodes: set<string>

    /** The slice is sorted and lists exactly the keys of the map, and every owner is live. */
    ghost predicate Valid()
      reads this
    {
      && Sorted(sortedKeys)
      && Elements(sortedKeys) == ring.Keys
      && OwnedByLiveNodes(hash, replicas, State())
    }

    ghost function State(): Membership
      reads this
    {
      Membership(ring, nodes)
    }

    constructor (hash: Hash, replicas: int)
      ensures Valid() && State() == Membership(map[], {})
      ensures this.hash == hash && this.replicas == replicas
    {
      this.hash, this.replicas := hash, replicas;
      ring, sortedKeys, nodes := map[], [], {};
    }

    method AddNode(node: string)
      requires Valid()
      modifies this
      ensures Valid()
      ensures State() == Apply(hash, replicas, old(State()), Add(node))
      ensures nodes == old(nodes) + {node}
      ensures ring == if node in old(nodes) then old(ring) else WithNode(hash, replicas, old(ring), node)
    {
      if node in nodes { return; }
      nodes := nodes + {node};
      PlaceVirtualNodes(node);
      sortedKeys := Sort(sortedKeys);
      ApplyKeepsOwnership(hash, replicas, old(State()), Add(node));
    }

    /** The loop of AddNode. The slice may list a key twice after a collision. */
    method PlaceVirtualNodes(node: string)
      requires Elements(sortedKeys) == ring.Keys
      modifies this`ring, this`sortedKeys
      ensures Elements(sortedKeys) == ring.Keys
      ensures ring == WithNode(hash, replicas, old(ring), node)
    {
      var i := 0;
      while i < replicas
        invariant 0 <= i && (i <= replicas || i == 0)
        invariant Placed(hash, old(ring), old(sortedKeys), i, node) == (ring, sortedKeys)
      {
        var key := VirtualKey(hash, node, i);
        ring := ring[key := node];
        sortedKeys := sortedKeys + [key];
        i := i + 1;
      }
      PlacedAll(hash, old(ring), old(sortedKeys), i, node);
    }

    method RemoveNode(node: string)
      requires Valid()
      modifies this
      ensures Valid()
      ensures State() == Apply(hash, replicas, old(State()), Remove(node))
      ensures nodes == old(nodes) - {node}
      ensures ring == if node in old(nodes) then WithoutNode(hash, replicas, old(ring), node) else old(ring)
    {
      if node !in nodes { return; }
      nodes := nodes - {node};
      DropVirtualNodes(node);
      ghost var m := State();
      var newKeys, todo := [], ring.Keys;
      while todo != {}
        invariant State() == m
        invariant todo <= ring.Keys
        invariant Elements(newKeys) == ring.Keys - todo
      {
        var key :| key in todo;
        OneMoreElement(newKeys, key);
        newKeys := newKeys + [key];
        todo := todo - {key};
      }
      sortedKeys := Sort(newKeys);
      ApplyKeepsOwnership(hash, replicas, old(State()), Remove(node));
    }

    /** The first loop of RemoveNode. It deletes the node's keys whoever owns them. */
    method DropVirtualNodes(node: string)
      modifies this`ring
      ensures ring == WithoutNode(hash, replicas, old(ring), node)
    {
      var i := 0;
      while i < replicas
        invariant 0 <= i && (i <= replicas || i == 0)
        invariant ring == old(ring) - VirtualKeys(hash, i, node)
      {
        var key := VirtualKey(hash, node, i);
        ring := ring - {key};
        i := i + 1;
      }
    }

    /** sort.Search: the first index whose key is at least x. */
    method Search(x: Key) returns (idx: nat)
      requires Sorted(sortedKeys)
      ensures idx <= |sortedKeys|
      ensures forall i | 0 <= i < idx :: sortedKeys[i] < x
      ensures forall i | idx <= i < |sortedKeys| :: x <= sortedKeys[i]
    {
      var low, high := 0, |sortedKeys|;
      while low < high
        invariant 0 <= low <= high <= |sortedKeys|
        invariant forall i | 0 <= i < low :: sortedKeys[i] < x
        invariant forall i | high <= i < |sortedKeys| :: x <= sortedKeys[i]
      {
        var mid := (low + high) / 2;
        if sortedKeys[mid] >= x { high := mid; } else { low := mid + 1; }
      }
      idx := low;
    }

    /** Binary search with wrap-around finds the node a linear scan of the ring finds. */
    method GetNode(key: string) returns (node: Option<string>)
      requires Valid()
      ensures ring == map[] ==> node == None
      ensures ring != map[] ==> node == Some(Assigned(ring, hash(key)))
    {
      if |ring| == 0 { return None; }
      var x := hash(key);
      var idx := Search(x);
      assert sortedKeys != [] by {
        var k :| k in ring.Keys;
        assert k in Elements(sortedKeys);
      }
      FirstAtOrAfter(ring.Keys, sortedKeys, x, idx);
      if idx == |sortedKeys| { idx := 0; }
      var k := sortedKeys[idx];
      assert k in Elements(sortedKeys);
      node := Some(ring[k]);
    }
  }
}
