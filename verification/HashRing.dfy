/** Consistent hashing (src/util/common.go, src/libstore/libstore_api.go): which node owns a key. */
module HashRing {
  import opened Ordered
  import opened KeyCodec

  /** An unsigned 32-bit node identifier or hash value. */
  type NodeID = n: int | 0 <= n < 0x1_0000_0000

  predicate IdLess(a: NodeID, b: NodeID) { a < b }

  lemma IdOrder()
    ensures StrictOrder(IdLess)
  {
  }

  /** Only the part of the key before the first colon is hashed; `fnv` stands for the hash. */
  function StoreHash(key: string, fnv: string -> NodeID): NodeID {
    fnv(Split(key, ':')[0])
  }

  /** What comes after the first colon does not matter, and a name without one is hashed whole. */
  lemma PrefixIsHashed(a: string, b: string, fnv: string -> NodeID)
    ensures StoreHash(a + [':'] + b, fnv) == StoreHash(a, fnv)
    ensures ':' !in a ==> StoreHash(a, fnv) == fnv(a)
  {
    SplitJoin(a, b, ':');
    if ':' !in a { SplitNone(a, ':'); }
  }

  function Owner(ring: seq<NodeID>, hash: NodeID): NodeID
    requires ring != []
  {
    var i := Rank(ring, hash, IdLess);
    if i == |ring| then ring[0] else ring[i]
  }

  /** The rule of consistent hashing, told without a ring: the owner is the least node at or above the
      hash, or the least node of all when there is none. */
  ghost predicate Successor(ids: set<NodeID>, hash: NodeID, o: NodeID) {
    && o in ids
    && (if exists x :: x in ids && hash <= x
        then hash <= o && forall x | x in ids && hash <= x :: o <= x
        else forall x | x in ids :: o <= x)
  }

  lemma OwnerIsSuccessor(ring: seq<NodeID>, hash: NodeID)
    requires ring != [] && Ascending(ring, IdLess)
    ensures Successor(Elems(ring), hash, Owner(ring, hash))
    ensures forall o | Successor(Elems(ring), hash, o) :: o == Owner(ring, hash)
  {
    IdOrder();
    RankSlot(ring, hash, IdLess);
    var i := Rank(ring, hash, IdLess);
    var o := Owner(ring, hash);
    forall x | x in Elems(ring) ensures x < hash || i < |ring| {
      var j :| 0 <= j < |ring| && ring[j] == x;
    }
    forall x | x in Elems(ring) ensures (hash <= x ==> o <= x) && (i == |ring| ==> o <= x) {
      var j :| 0 <= j < |ring| && ring[j] == x;
      if hash <= x { assert !(j < i); }
    }
    assert o in Elems(ring);
  }

  /** A node that joins takes keys over; no key moves between two nodes that were there before. */
  lemma JoinMovesKeysToNewNodeOnly(ring: seq<NodeID>, id: NodeID, hash: NodeID)
    requires ring != [] && Ascending(ring, IdLess) && id !in ring
    ensures Ascending(Insert(ring, id, IdLess), IdLess)
    ensures var now := Owner(Insert(ring, id, IdLess), hash);
            now == id || now == Owner(ring, hash)
  {
    IdOrder();
    InsertKeepsOrder(ring, id, IdLess);
    var bigger := Insert(ring, id, IdLess);
    assert Elems(bigger) == Elems(ring) + {id};
    OwnerIsSuccessor(bigger, hash);
    OwnerIsSuccessor(ring, hash);
    var now := Owner(bigger, hash);
    if now != id {
      assert Successor(Elems(ring), hash, now);
    }
  }

  /** All keys of a user have one owner, whatever characters the name contains. */
  lemma UserKeysCoLocated(k: AppKey, fnv: string -> NodeID, ring: seq<NodeID>)
    requires ring != []
    ensures StoreHash(Format(k), fnv) == fnv(Split(k.user, ':')[0])
    ensures Owner(ring, StoreHash(Format(k), fnv)) == Owner(ring, StoreHash(Format(User(k.user)), fnv))
  {
    KeyParts(k);
    KeyParts(User(k.user));
  }

  /** `SearchHashRing`, and its twin `searchHashRing` in the libstore. */
  method SearchHashRing(ring: seq<NodeID>, key: string, fnv: string -> NodeID) returns (id: NodeID)
    requires ring != [] && Ascending(ring, IdLess)
    ensures id == Owner(ring, StoreHash(key, fnv))
    ensures Successor(Elems(ring), StoreHash(key, fnv), id)
  {
    IdOrder();
    var hash := StoreHash(key, fnv);
    var i := BinarySearch(ring, (x: NodeID) => x, hash, IdLess);
    RankIsTheSlot(ring, hash, i, IdLess);
    OwnerIsSuccessor(ring, hash);
    if i == |ring| {
      i := 0;
    }
    id := ring[i];
  }
}

/** How master, slaves and clients come to the same ring (src/storageserver/storageserver_impl.go,
    src/libstore/libstore_impl.go). */
module Cluster {
  import opened Ordered
  import opened HashRing
  import opened ListStore

  datatype Node = Node(host: string, id: NodeID)

  type Nodes = map<NodeID, string>

  function Ids(servers: seq<Node>): set<NodeID> {
    set s | s in servers :: s.id
  }

  lemma IdsOfMore(servers: seq<Node>, s: Node)
    ensures Ids(servers + [s]) == Ids(servers) + {s.id}
  {
  }

  ghost predicate DistinctIds(servers: seq<Node>) {
    forall i, j | 0 <= i < j < |servers| :: servers[i].id != servers[j].id
  }

  /** The list names every node once, in any order. */
  ghost predicate Enumerates(servers: seq<Node>, nodes: Nodes) {
    && DistinctIds(servers)
    && Ids(servers) == nodes.Keys
    && (forall s | s in servers :: s.id in nodes && nodes[s.id] == s.host)
  }

  /** Ring building of a slave and of a libstore from the master's reply. */
  method BuildRing(servers: seq<Node>) returns (ring: seq<NodeID>, nodes: Nodes)
    requires DistinctIds(servers)
    ensures RingOf(ring, nodes)
    ensures Enumerates(servers, nodes)
  {
    ring, nodes := [], map[];
    for n := 0 to |servers|
      invariant RingOf(ring, nodes)
      invariant Enumerates(servers[..n], nodes)
    {
      var server := servers[n];
      assert server.id !in Ids(servers[..n]);
      ring := InsertId(ring, server.id);
      nodes := nodes[server.id := server.host];
      IdsOfMore(servers[..n], server);
      assert servers[..n + 1] == servers[..n] + [server];
    }
    assert servers[..|servers|] == servers;
  }

  /** Search, open a gap, write: the insertion that all three ring builders spell out. */
  method InsertId(ring: seq<NodeID>, id: NodeID) returns (longer: seq<NodeID>)
    requires Ascending(ring, IdLess) && id !in Elems(ring)
    ensures Ascending(longer, IdLess) && Elems(longer) == Elems(ring) + {id}
    ensures longer == Insert(ring, id, IdLess)
  {
    IdOrder();
    var i := BinarySearch(ring, (x: NodeID) => x, id, IdLess);
    RankIsTheSlot(ring, id, i, IdLess);
    InsertKeepsOrder(ring, id, IdLess);
    longer := ring[..i] + [id] + ring[i..];
  }

  /** A range over the map of nodes, which visits them in an unspecified order. */
  method ListNodes(nodes: Nodes) returns (servers: seq<Node>)
    ensures Enumerates(servers, nodes)
  {
    servers := [];
    var left := nodes.Keys;
    while left != {}
      invariant Visited(servers, nodes, left)
      decreases |left|
    {
      var id :| id in left;
      VisitOne(servers, nodes, left, id);
      servers := servers + [Node(nodes[id], id)];
      left := left - {id};
    }
  }

  ghost predicate Visited(servers: seq<Node>, nodes: Nodes, left: set<NodeID>) {
    && left <= nodes.Keys && DistinctIds(servers) && Ids(servers) == nodes.Keys - left
    && (forall s | s in servers :: s.id in nodes && nodes[s.id] == s.host)
  }

  lemma VisitOne(servers: seq<Node>, nodes: Nodes, left: set<NodeID>, id: NodeID)
    requires Visited(servers, nodes, left) && id in left
    ensures Visited(servers + [Node(nodes[id], id)], nodes, left - {id})
  {
    IdsOfMore(servers, Node(nodes[id], id));
    assert forall s | s in servers :: s.id in Ids(servers);
    assert forall i | 0 <= i < |servers| :: servers[i] in servers;
  }

  /** The ring over a table of nodes. */
  ghost predicate RingOf(ring: seq<NodeID>, nodes: Nodes) {
    Ascending(ring, IdLess) && Elems(ring) == nodes.Keys
  }

  class StorageNode {
    const nodeID: NodeID
    const numNodes: nat
    var ring: seq<NodeID>
    var nodes: Nodes

    ghost predicate Valid()
      reads this
    {
      ring != [] && RingOf(ring, nodes)
    }

    constructor Master(host: string, numNodes: nat, id: NodeID)
      ensures Valid() && nodes == map[id := host] && this.numNodes == numNodes && nodeID == id
    {
      nodeID := id;
      this.numNodes := numNodes;
      ring := [id];
      nodes := map[id := host];
    }

    /** A slave, once the master's reply is `OK`. */
    constructor Slave(id: NodeID, servers: seq<Node>)
      requires DistinctIds(servers) && servers != []
      ensures Valid() && Enumerates(servers, nodes) && nodeID == id && numNodes == |servers|
    {
      nodeID := id;
      numNodes := |servers|;
      var r, n := BuildRing(servers);
      ring, nodes := r, n;
      assert servers[0].id in Ids(servers);
    }

    method RegisterServer(server: Node) returns (status: Status, servers: seq<Node>)
      requires Valid()
      modifies this
      ensures Valid() && nodes == Registered(old(nodes), server)
      ensures status == (if |nodes| >= numNodes then OK else NotReady)
      ensures status == OK ==> Enumerates(servers, nodes)
      ensures status != OK ==> servers == []
    {
      if server.id !in nodes {
        ring := InsertId(ring, server.id);
        nodes := nodes[server.id := server.host];
      }
      status, servers := GetServers();
    }

    method GetServers() returns (status: Status, servers: seq<Node>)
      requires Valid()
      ensures status == (if |nodes| >= numNodes then OK else NotReady)
      ensures status == OK ==> Enumerates(servers, nodes)
      ensures status != OK ==> servers == []
    {
      IdOrder();
      AscendingSize(ring, IdLess);
      servers := [];
      if |ring| >= numNodes {
        status := OK;
        servers := ListNodes(nodes);
      } else {
        status := NotReady;
      }
    }

    /** Does this server own the key? */
    method KeyRangeContains(key: string, fnv: string -> NodeID) returns (mine: bool)
      requires Valid()
      ensures mine <==> Owner(ring, StoreHash(key, fnv)) == nodeID
    {
      var id := SearchHashRing(ring, key, fnv);
      mine := nodeID == id;
    }
  }

  function Registered(nodes: Nodes, server: Node): Nodes {
    if server.id in nodes then nodes else nodes[server.id := server.host]
  }

  /** The master's table after a sequence of registrations, retries included. */
  function RegisterAll(nodes: Nodes, calls: seq<Node>): Nodes {
    if calls == [] then nodes else Registered(RegisterAll(nodes, calls[..|calls| - 1]), calls[|calls| - 1])
  }

  lemma {:induction false} TableGrows(nodes: Nodes, calls: seq<Node>, i: nat)
    requires i <= |calls|
    ensures RegisterAll(nodes, calls[..i]).Keys <= RegisterAll(nodes, calls).Keys
    ensures RegisterAll(nodes, calls).Keys == nodes.Keys + set c | c in calls :: c.id
  {
    if calls != [] {
      var init := calls[..|calls| - 1];
      assert calls == init + [calls[|calls| - 1]];
      assert i < |calls| ==> init[..i] == calls[..i];
      assert i == |calls| ==> calls[..i] == calls;
      TableGrows(nodes, init, if i < |calls| then i else 0);
    }
  }

  /** Call `i` is the first registration of the node. */
  ghost predicate FirstCall(calls: seq<Node>, i: nat, id: NodeID) {
    i < |calls| && calls[i].id == id && forall j | 0 <= j < i :: calls[j].id != id
  }

  /** Every node is listed under the address of its first registration. */
  lemma {:induction false} FirstRegistrationCounts(nodes: Nodes, calls: seq<Node>, id: NodeID)
    requires id in RegisterAll(nodes, calls)
    ensures id in nodes ==> RegisterAll(nodes, calls)[id] == nodes[id]
    ensures id !in nodes ==> exists i: nat | FirstCall(calls, i, id) :: RegisterAll(nodes, calls)[id] == calls[i].host
  {
    if calls != [] {
      var n := |calls| - 1;
      var init := calls[..n];
      TableGrows(nodes, init, 0);
      if id in RegisterAll(nodes, init) {
        FirstRegistrationCounts(nodes, init, id);
        if id !in nodes {
          var i: nat :| FirstCall(init, i, id) && RegisterAll(nodes, init)[id] == init[i].host;
          assert FirstCall(calls, i, id);
        }
      } else {
        forall j | 0 <= j < n ensures calls[j].id != id { assert init[j] in init; }
        assert FirstCall(calls, n, id);
      }
    }
  }

  /** A ring built from the `OK` reply that the master gave after the first `i` registrations. */
  ghost predicate BuiltAt(ring: seq<NodeID>, start: Nodes, calls: seq<Node>, numNodes: nat, i: nat) {
    && i <= |calls|
    && |RegisterAll(start, calls[..i])| >= numNodes
    && RingOf(ring, RegisterAll(start, calls[..i]))
  }

  /** If no more than `numNodes` different nodes ever register, then every ring built from an `OK`
      reply, whenever it was given and in whatever order it listed the nodes, is the master's final
      ring.  With more of them it is the final ring exactly when no new node registered after it. */
  lemma RingsAgree(start: Nodes, calls: seq<Node>, numNodes: nat, i: nat, ring: seq<NodeID>, final: seq<NodeID>)
    requires BuiltAt(ring, start, calls, numNodes, i) && RingOf(final, RegisterAll(start, calls))
    ensures |RegisterAll(start, calls)| <= numNodes ==> ring == final
    ensures ring == final <==> forall c | c in calls :: c.id in RegisterAll(start, calls[..i])
  {
    IdOrder();
    TableGrows(start, calls, i);
    TableGrows(start, calls[..i], 0);
    var early, late := RegisterAll(start, calls[..i]), RegisterAll(start, calls);
    assert early.Keys <= late.Keys;
    if |late| <= numNodes { SubsetSameSize(early.Keys, late.Keys); }
    assert start.Keys <= early.Keys;
    if early.Keys == late.Keys { AscendingIsCanonical(ring, final, IdLess); }
  }

  lemma SubsetSameSize<T>(a: set<T>, b: set<T>)
    requires a <= b && |b| <= |a|
    ensures a == b
  {
    assert b == a + (b - a);
    assert |b| == |a| + |b - a|;
  }

  lemma FullReplyIsFinal(start: Nodes, calls: seq<Node>, numNodes: nat, i: nat, ring: seq<NodeID>)
    requires start != map[] && |RegisterAll(start, calls)| <= numNodes && BuiltAt(ring, start, calls, numNodes, i)
    ensures RingOf(ring, RegisterAll(start, calls)) && ring != []
  {
    TableGrows(start, calls, i);
    SubsetSameSize(RegisterAll(start, calls[..i]).Keys, RegisterAll(start, calls).Keys);
    var x :| x in start;
    assert x in Elems(ring);
  }

  /** Any two parties, servers or clients, that built their rings from `OK` replies hold the same ring. */
  lemma AllRingsAgree(start: Nodes, calls: seq<Node>, numNodes: nat, i: nat, a: seq<NodeID>, j: nat, b: seq<NodeID>)
    requires start != map[] && |RegisterAll(start, calls)| <= numNodes
    requires BuiltAt(a, start, calls, numNodes, i) && BuiltAt(b, start, calls, numNodes, j)
    ensures a == b && a != [] && RingOf(a, RegisterAll(start, calls))
  {
    IdOrder();
    FullReplyIsFinal(start, calls, numNodes, i, a);
    FullReplyIsFinal(start, calls, numNodes, j, b);
    AscendingIsCanonical(a, b, IdLess);
  }

  /** Routing agrees with ownership: a client routes every key to a registered node, and of all nodes
      `id`, with whatever ring each has built, it is the one that takes the key for its own. */
  lemma RoutingAgrees(
    start: Nodes, calls: seq<Node>, numNodes: nat, i: nat, client: seq<NodeID>, j: nat, ring: seq<NodeID>, id: NodeID, hash: NodeID)
    requires start != map[] && |RegisterAll(start, calls)| <= numNodes
    requires BuiltAt(client, start, calls, numNodes, i) && BuiltAt(ring, start, calls, numNodes, j)
    ensures client != [] && Owner(client, hash) in RegisterAll(start, calls)
    ensures ring != [] && (Owner(ring, hash) == id <==> id == Owner(client, hash))
  {
    AllRingsAgree(start, calls, numNodes, i, client, j, ring);
    assert Owner(client, hash) in Elems(client);
  }
}
