/**
 The reverse lookup index of cfg/cfg_channel.c: 256 hash chains of linked nodes that map an address and
 port to a channel handle. The object is proved to be a finite map.
 */
module ChannelMap {

  /** A 32-bit address as it lies in memory, in network byte order, and the number of a 16-bit port. */
  type Addr = a: nat | a < 0x1_0000_0000
  type Port = p: nat | p < 0x1_0000
  type Handle = nat

  datatype Key = Key(addr: Addr, port: Port)

  /** CHAN_MAP_DB_HASH_SIZE. */
  const HASH_SIZE := 256

  /**
   channel_hash_func: ntohl(addr) mod 256, which on a little-endian host is the most significant octet of
   the value in memory, that is, the last octet of the dotted address. The port plays no part.
   */
  function Hash(k: Key): (h: nat)
    ensures h < HASH_SIZE
  {
    k.addr / 0x100_0000
  }

  /** channel_handle_t. */
  class Node {
    const key: Key
    const handle: Handle
    var next: Node?

    constructor (key: Key, handle: Handle, next: Node?)
      ensures this.key == key && this.handle == handle && this.next == next
    {
      this.key, this.handle, this.next := key, handle, next;
    }
  }

  /** The node at position i of a chain, null past the end. */
  ghost function At(chain: seq<Node>, i: nat): Node? {
    if i < |chain| then chain[i] else null
  }

  /** The i-th node points to the next one. */
  ghost predicate Linked(chain: seq<Node>, i: nat)
    requires i < |chain|
    reads chain[i]
  {
    chain[i].next == At(chain, i + 1)
  }

  /** Every node of every chain, except the one at (h, q) if there is such a position, points to the next one. */
  ghost predicate LinkedBut(chains: seq<seq<Node>>, nodes: set<Node>, h: int, q: int)
    reads nodes
  {
    forall g, i {:trigger Linked(chains[g], i)} :: 0 <= g < |chains| && 0 <= i < |chains[g]| && (g != h || i != q) ==>
      chains[g][i] in nodes && Linked(chains[g], i)
  }

  ghost predicate AllLinked(chains: seq<seq<Node>>, nodes: set<Node>)
    reads nodes
  {
    LinkedBut(chains, nodes, -1, -1)
  }

  ghost predicate Holds(chain: seq<Node>, k: Key) {
    exists i :: 0 <= i < |chain| && chain[i].key == k
  }

  /** The nodes of chain h are in their own bucket, under distinct keys, and each is an entry of the map. */
  ghost predicate ChainOk(chain: seq<Node>, h: nat, nodes: set<Node>, entries: map<Key, Handle>) {
    && (forall i :: 0 <= i < |chain| ==> chain[i] in nodes)
    && (forall i :: 0 <= i < |chain| ==> Hash(chain[i].key) == h)
    && (forall i :: 0 <= i < |chain| ==> chain[i].key in entries && entries[chain[i].key] == chain[i].handle)
    && (forall i, j :: 0 <= i < j < |chain| ==> chain[i].key != chain[j].key)
  }

  /** The chains hold the entries of the map and nothing else. */
  ghost predicate Stores(chains: seq<seq<Node>>, nodes: set<Node>, entries: map<Key, Handle>) {
    && |chains| == HASH_SIZE
    && (forall h :: 0 <= h < HASH_SIZE ==> ChainOk(chains[h], h, nodes, entries))
    && (forall k {:trigger Holds(chains[Hash(k)], k)} :: k in entries ==> Holds(chains[Hash(k)], k))
  }

  /** Mentioning this brings the contents of ChannelMapDb.Valid() into view. */
  ghost predicate Unsealed(seal: nat) { true }

  /** channel_map_db_t. */
  class ChannelMapDb {
    const heads: array<Node?>
    /** The nodes of each chain in order, all nodes, and the map they stand for. */
    ghost var chains: seq<seq<Node>>
    ghost var nodes: set<Node>
    ghost var entries: map<Key, Handle>

    /** Chained(), but sealed: users of a map carry Valid() around without looking inside. */
    ghost predicate Valid()
      reads this, heads, nodes
    {
      forall seal: nat {:trigger Unsealed(seal)} :: Unsealed(seal) ==> Chained()
    }

    ghost predicate Chained()
      reads this, heads, nodes
    {
      && Stores(chains, nodes, entries)
      && AllLinked(chains, nodes)
      && heads.Length == HASH_SIZE
      && (forall h :: 0 <= h < HASH_SIZE ==> heads[h] == At(chains[h], 0))
    }

    constructor ()
      ensures Valid() && fresh(heads) && nodes == {}
      ensures entries == map[]
    {
      heads := new Node?[HASH_SIZE](_ => null);
      chains := seq(HASH_SIZE, _ => []);
      nodes, entries := {}, map[];
    }

    /** channel_lookup. */
    method Lookup(k: Key) returns (found: bool, handle: Handle)
      requires Valid()
      ensures found <==> k in entries
      ensures found ==> handle == entries[k]
    {
      assert Unsealed(0);
      assert k in entries ==> Holds(chains[Hash(k)], k);
      var h := Hash(k);
      var temp := heads[h];
      ghost var i := 0;
      handle := 0;
      while temp != null
        invariant 0 <= i <= |chains[h]| && temp == At(chains[h], i)
        invariant forall j :: 0 <= j < i ==> chains[h][j].key != k
        decreases |chains[h]| - i
      {
        assert Linked(chains[h], i);
        if temp.key == k {
          return true, temp.handle;
        }
        temp := temp.next;
        i := i + 1;
      }
      found := false;
    }

    /** channel_add_map: insert unless the port is zero or the key is present; new nodes go in front. */
    method Add(k: Key, handle: Handle) returns (ok: bool)
      requires Valid()
      modifies this, heads
      ensures Valid() && fresh(nodes - old(nodes)) && old(nodes) <= nodes
      ensures ok <==> k.port != 0 && k !in old(entries)
      ensures entries == if ok then old(entries)[k := handle] else old(entries)
    {
      assert Unsealed(0);
      ok := false;
      if k.port == 0 {
        return;
      }
      var found, other := Lookup(k);
      if found {
        return;
      }
      Push(k, handle);
      ok := true;
    }

    method Push(k: Key, handle: Handle)
      requires Chained() && k !in entries
      modifies this, heads
      ensures Chained() && fresh(nodes - old(nodes)) && old(nodes) <= nodes
      ensures entries == old(entries)[k := handle]
    {
      var chan := new Node(k, handle, heads[Hash(k)]);
      ghost var chains1, nodes1 := Pushed(chan, chains), nodes + {chan};
      assert Stores(chains1, nodes1, entries[k := handle]) by {
        PushStores(chan, chains, nodes, entries);
      }
      assert AllLinked(chains1, nodes1) by {
        PushLinks(chan, chains, nodes);
      }
      heads[Hash(k)] := chan;
      chains, nodes, entries := chains1, nodes1, entries[k := handle];
    }

    /**
     channel_remove_map: unlink the node with this key. The handle takes no part in the search, so the
     entry goes whoever owns it, and the result is true even when there is none.
     */
    method Remove(k: Key, handle: Handle) returns (ok: bool)
      requires Valid()
      modifies this, heads, nodes
      ensures Valid() && nodes == old(nodes)
      ensures ok
      ensures entries == old(entries) - {k}
    {
      assert Unsealed(0);
      ok := true;
      var found, other := Lookup(k);
      if !found {
        return;
      }
      ghost var p := Where(chains[Hash(k)], k);
      var temp := heads[Hash(k)];
      if temp.key == k {
        UnlinkHead(k);
      } else {
        temp := FindBefore(temp, k, p);
        UnlinkAfter(temp, k, p);
      }
    }

    /** The walk to the node whose successor has the key. */
    method FindBefore(head: Node, k: Key, ghost p: nat) returns (temp: Node)
      requires Chained() && head == heads[Hash(k)] && head.key != k
      requires p < |chains[Hash(k)]| && chains[Hash(k)][p].key == k
      ensures 0 < p && temp == chains[Hash(k)][p - 1]
    {
      ghost var h := Hash(k);
      temp := head;
      ghost var i := 0;
      assert Linked(chains[h], 0);
      while temp.next != null && temp.next.key != k
        invariant 0 <= i < p && temp == chains[h][i] && Linked(chains[h], i)
        decreases p - i
      {
        temp := temp.next;
        i := i + 1;
        assert Linked(chains[h], i);
      }
    }

    method UnlinkHead(k: Key)
      requires Chained() && heads[Hash(k)] != null && heads[Hash(k)].key == k
      modifies this, heads
      ensures Chained() && nodes == old(nodes)
      ensures entries == old(entries) - {k}
    {
      ghost var chains0 := chains;
      assert Linked(chains[Hash(k)], 0);
      heads[Hash(k)] := heads[Hash(k)].next;
      CutStores(chains, nodes, entries, k, 0);
      chains, entries := Cut(chains, Hash(k), 0), entries - {k};
      assert AllLinked(chains0, nodes) == old(AllLinked(chains0, nodes));
      CutLinks(chains0, nodes, Hash(k), 0);
    }

    method UnlinkAfter(temp: Node, k: Key, ghost p: nat)
      requires Chained() && 0 < p < |chains[Hash(k)]| && chains[Hash(k)][p].key == k && temp == chains[Hash(k)][p - 1]
      modifies this, nodes
      ensures Chained() && nodes == old(nodes)
      ensures entries == old(entries) - {k}
    {
      ghost var h, chains0 := Hash(k), chains;
      assert Linked(chains[h], p - 1) && Linked(chains[h], p);
      CutStores(chains, nodes, entries, k, p);
      temp.next := temp.next.next;
      chains, entries := Cut(chains, h, p), entries - {k};
      forall g, i | 0 <= g < HASH_SIZE && 0 <= i < |chains0[g]| && (g != h || i != p - 1)
        ensures Linked(chains0[g], i) {
        assert old(Linked(chains0[g], i));
        assert chains0[g][i].key != temp.key;
      }
      CutLinks(chains0, nodes, h, p);
    }
  }

  /** Where a key sits in a chain that holds it. */
  ghost function Where(chain: seq<Node>, k: Key): (p: nat)
    requires Holds(chain, k)
    ensures p < |chain| && chain[p].key == k
  {
    var p :| 0 <= p < |chain| && chain[p].key == k;
    p
  }

  // ----- a node in front -----

  ghost function Pushed(chan: Node, chains: seq<seq<Node>>): seq<seq<Node>>
    requires |chains| == HASH_SIZE
  {
    chains[Hash(chan.key) := [chan] + chains[Hash(chan.key)]]
  }

  lemma {:induction false} PushStores(chan: Node, chains: seq<seq<Node>>, nodes: set<Node>, entries: map<Key, Handle>)
    requires Stores(chains, nodes, entries) && chan.key !in entries
    ensures Stores(Pushed(chan, chains), nodes + {chan}, entries[chan.key := chan.handle])
  {
    var chains', entries' := Pushed(chan, chains), entries[chan.key := chan.handle];
    var chain := chains[Hash(chan.key)];
    var c := [chan] + chain;
    assert c[0] == chan && forall i :: 1 <= i < |c| ==> c[i] == chain[i - 1];
    forall x | x in entries' ensures Holds(chains'[Hash(x)], x) {
      if x != chan.key && Hash(x) == Hash(chan.key) {
        assert c[Where(chain, x) + 1].key == x;
      }
    }
  }

  lemma {:induction false} PushLinks(chan: Node, chains: seq<seq<Node>>, nodes: set<Node>)
    requires |chains| == HASH_SIZE && AllLinked(chains, nodes) && chan.next == At(chains[Hash(chan.key)], 0)
    ensures AllLinked(Pushed(chan, chains), nodes + {chan})
  {
    var h, chains' := Hash(chan.key), Pushed(chan, chains);
    forall g, i | 0 <= g < HASH_SIZE && 0 <= i < |chains'[g]|
      ensures chains'[g][i] in nodes + {chan} && Linked(chains'[g], i)
    {
      if g != h {
        assert Linked(chains[g], i);
      } else if i > 0 {
        assert Linked(chains[h], i - 1);
      }
    }
  }

  // ----- a node bypassed -----

  ghost function Cut(chains: seq<seq<Node>>, h: nat, p: nat): seq<seq<Node>>
    requires h < |chains| && p < |chains[h]|
  {
    chains[h := chains[h][..p] + chains[h][p + 1..]]
  }

  lemma {:induction false} CutStores(chains: seq<seq<Node>>, nodes: set<Node>, entries: map<Key, Handle>, k: Key,
                                     p: nat)
    requires Stores(chains, nodes, entries) && p < |chains[Hash(k)]| && chains[Hash(k)][p].key == k
    ensures Stores(Cut(chains, Hash(k), p), nodes, entries - {k})
  {
    var chains', entries' := Cut(chains, Hash(k), p), entries - {k};
    var chain := chains[Hash(k)];
    var c := chain[..p] + chain[p + 1..];
    assert forall i :: 0 <= i < |c| ==> c[i] == chain[if i < p then i else i + 1];
    forall x | x in entries' ensures Holds(chains'[Hash(x)], x) {
      if Hash(x) == Hash(k) {
        var i := Where(chain, x);
        assert c[if i < p then i else i - 1] == chain[i];
      }
    }
  }

  lemma {:induction false} CutLinks(chains: seq<seq<Node>>, nodes: set<Node>, h: nat, p: nat)
    requires h < |chains| && p < |chains[h]|
    requires LinkedBut(chains, nodes, h, p - 1)
    requires p > 0 ==> chains[h][p - 1] in nodes && chains[h][p - 1].next == At(chains[h], p + 1)
    ensures AllLinked(Cut(chains, h, p), nodes)
  {
    var chains' := Cut(chains, h, p);
    forall g, i | 0 <= g < |chains'| && 0 <= i < |chains'[g]|
      ensures chains'[g][i] in nodes && Linked(chains'[g], i)
    {
      var j := if g == h && i >= p then i + 1 else i;
      assert chains'[g][i] == chains[g][j];
      assert g != h || j != p - 1 ==> Linked(chains[g], j);
    }
  }
}
