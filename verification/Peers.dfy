/** Peer connections and the ports they are known by in tree coordinates. */
module PeerPorts {
  import opened Basics
  import opened Tree
  import opened Metric

  datatype Handle = Handle(id: PeerId, key: Key, port: Port, prio: nat, order: nat)

  type Links = map<PeerId, Handle>

  /** All links to a key share one port, which is in use for that key and no other. */
  ghost predicate LinksOk(used: map<Port, Key>, key: Key, links: Links, nextId: PeerId) {
    && links != map[]
    && (forall i :: i in links ==>
          && i < nextId && links[i].id == i && links[i].key == key
          && links[i].port > 0 && links[i].port in used && used[links[i].port] == key)
    && (forall i, j :: i in links && j in links ==> links[i].port == links[j].port)
  }

  /** A port in use belongs to a connected key, whose links carry it. */
  ghost predicate PortOk(used: map<Port, Key>, handles: map<Key, Links>, p: Port)
    requires p in used
  {
    used[p] in handles && forall i :: i in handles[used[p]] ==> handles[used[p]][i].port == p
  }

  ghost predicate Consistent(used: map<Port, Key>, handles: map<Key, Links>, nextId: PeerId) {
    && (forall k {:trigger LinksOk(used, k, handles[k], nextId)} :: k in handles ==> LinksOk(used, k, handles[k], nextId))
    && (forall p {:trigger PortOk(used, handles, p)} :: p in used ==> PortOk(used, handles, p))
  }

  /** `h` is one of the connections. */
  predicate IsHandle(handles: map<Key, Links>, h: Handle) {
    h.key in handles && h.id in handles[h.key] && handles[h.key][h.id] == h
  }

  /** Connections are numbered in the order in which they were made. */
  ghost predicate Ordered(handles: map<Key, Links>, order: nat) {
    && (forall h :: IsHandle(handles, h) ==> h.order < order)
    && (forall g, h :: IsHandle(handles, g) && IsHandle(handles, h) && g != h ==> g.order != h.order)
  }

  lemma OrderedMore(handles: map<Key, Links>, order: nat, h: Handle)
    requires Ordered(handles, order) && h.order == order
    ensures Ordered(handles[h.key := With(if h.key in handles then handles[h.key] else map[], h)], order + 1)
  {
    var handles' := handles[h.key := With(if h.key in handles then handles[h.key] else map[], h)];
    assert forall g :: IsHandle(handles', g) ==> g == h || IsHandle(handles, g);
  }

  lemma OrderedLess(handles: map<Key, Links>, order: nat, key: Key, id: PeerId)
    requires Ordered(handles, order)
    ensures Ordered(Unlinked(handles, key, id), order)
  {
    assert forall g :: IsHandle(Unlinked(handles, key, id), g) ==> IsHandle(handles, g);
  }

  /** `key` is connected under port `p`. */
  ghost predicate HasPort(handles: map<Key, Links>, key: Key, p: Port) {
    key in handles && exists i :: i in handles[key] && handles[key][i].port == p
  }

  /** A key has one port, a port one key, and ports are not zero. */
  lemma PortsIdentify(used: map<Port, Key>, handles: map<Key, Links>, nextId: PeerId, k: Key, p: Port, l: Key, q: Port)
    requires Consistent(used, handles, nextId) && HasPort(handles, k, p) && HasPort(handles, l, q)
    ensures k == l <==> p == q
    ensures p > 0
  {
    assert LinksOk(used, k, handles[k], nextId) && LinksOk(used, l, handles[l], nextId);
  }

  /** The port a key already has, or else the lowest free one. */
  ghost predicate Assigned(used: map<Port, Key>, handles: map<Key, Links>, key: Key, port: Port) {
    if key in handles then HasPort(handles, key, port)
    else port > 0 && port !in used && forall q: Port :: 1 <= q < port ==> q in used
  }

  function With(links: Links, h: Handle): Links {
    links[h.id := h]
  }

  lemma ConnectOld(used: map<Port, Key>, handles: map<Key, Links>, h: Handle)
    requires Consistent(used, handles, h.id) && HasPort(handles, h.key, h.port)
    ensures Consistent(used, handles[h.key := With(handles[h.key], h)], h.id + 1)
  {
    var handles' := handles[h.key := With(handles[h.key], h)];
    forall k | k in handles'
      ensures LinksOk(used, k, handles'[k], h.id + 1)
    {
      assert LinksOk(used, k, handles[k], h.id);
    }
    forall p | p in used
      ensures PortOk(used, handles', p)
    {
      assert PortOk(used, handles, p);
    }
  }

  lemma ConnectNew(used: map<Port, Key>, handles: map<Key, Links>, h: Handle)
    requires Consistent(used, handles, h.id) && h.key !in handles && h.port !in used && h.port > 0
    ensures Consistent(used[h.port := h.key], handles[h.key := With(map[], h)], h.id + 1)
  {
    var used', handles' := used[h.port := h.key], handles[h.key := With(map[], h)];
    forall k | k in handles'
      ensures LinksOk(used', k, handles'[k], h.id + 1)
    {
      assert k != h.key ==> LinksOk(used, k, handles[k], h.id);
      assert h.id in With(map[], h);
    }
    forall p | p in used'
      ensures PortOk(used', handles', p)
    {
      assert p != h.port ==> PortOk(used, handles, p);
    }
  }

  lemma DisconnectOne(used: map<Port, Key>, handles: map<Key, Links>, nextId: PeerId, key: Key, id: PeerId)
    requires Consistent(used, handles, nextId) && key in handles && handles[key] - {id} != map[]
    ensures Consistent(used, handles[key := handles[key] - {id}], nextId)
  {
    var handles' := handles[key := handles[key] - {id}];
    forall k | k in handles'
      ensures LinksOk(used, k, handles'[k], nextId)
    {
      assert LinksOk(used, k, handles[k], nextId);
    }
    forall p | p in used
      ensures PortOk(used, handles', p)
    {
      assert PortOk(used, handles, p);
    }
  }

  lemma DisconnectLast(used: map<Port, Key>, handles: map<Key, Links>, nextId: PeerId, key: Key, id: PeerId)
    requires Consistent(used, handles, nextId) && key in handles && handles[key] - {id} == map[]
    ensures id in handles[key]
    ensures Consistent(used - {handles[key][id].port}, handles - {key}, nextId)
  {
    assert LinksOk(used, key, handles[key], nextId);
    var i :| i in handles[key];
    assert i !in handles[key] - {id};
    var used', handles' := used - {handles[key][id].port}, handles - {key};
    forall k | k in handles'
      ensures LinksOk(used', k, handles'[k], nextId)
    {
      assert LinksOk(used, k, handles[k], nextId);
    }
    forall p | p in used'
      ensures PortOk(used', handles', p)
    {
      assert PortOk(used, handles, p);
    }
  }

  /** Without link `id` to `key`. */
  function Unlinked(handles: map<Key, Links>, key: Key, id: PeerId): map<Key, Links> {
    if key !in handles then handles
    else if handles[key] - {id} == map[] then handles - {key}
    else handles[key := handles[key] - {id}]
  }

  function PortAt(handles: map<Key, Links>, key: Key, id: PeerId): Option<Port> {
    if key in handles && id in handles[key] then Some(handles[key][id].port) else None
  }

  /** The ports in use once link `id` to `key` is gone: one less if it was the last. */
  function Freed(used: map<Port, Key>, handles: map<Key, Links>, key: Key, id: PeerId): map<Port, Key> {
    if PortAt(handles, key, id).Some? && handles[key] - {id} == map[] then used - {PortAt(handles, key, id).value} else used
  }

  lemma Disconnect(used: map<Port, Key>, handles: map<Key, Links>, nextId: PeerId, key: Key, id: PeerId)
    requires Consistent(used, handles, nextId)
    ensures Consistent(Freed(used, handles, key, id), Unlinked(handles, key, id), nextId)
  {
    if key in handles {
      if handles[key] - {id} == map[] {
        DisconnectLast(used, handles, nextId, key, id);
      } else {
        DisconnectOne(used, handles, nextId, key, id);
      }
    }
  }

  /** If every parent announces its children under the ports it gave them, siblings have distinct ports and
      no node below a root has port zero: what coordinates need to identify nodes. */
  lemma AllocatorsSeparateSiblings(t: Infos, used: map<Key, map<Port, Key>>, handles: map<Key, map<Key, Links>>, ids: map<Key, PeerId>)
    requires forall k :: k in t && t[k].parent != k ==>
               var p := t[k].parent;
               p in used && p in handles && p in ids && Consistent(used[p], handles[p], ids[p]) && HasPort(handles[p], k, t[k].port)
    ensures forall a, b :: Siblings(t, a, b) ==> t[a].port != t[b].port
    ensures forall k :: k in t && t[k].parent != k ==> t[k].port > 0
  {
    forall a, b | Siblings(t, a, b)
      ensures t[a].port != t[b].port
    {
      var p := t[a].parent;
      PortsIdentify(used[p], handles[p], ids[p], a, t[a].port, b, t[b].port);
    }
    forall k | k in t && t[k].parent != k
      ensures t[k].port > 0
    {
      var p := t[k].parent;
      PortsIdentify(used[p], handles[p], ids[p], k, t[k].port, k, t[k].port);
    }
  }

  /** The first `n` positive numbers make a set of `n`. */
  lemma {:induction false} InitialPorts(n: nat, s: set<Port>)
    requires n <= U64_MAX && forall q: Port :: 1 <= q <= n ==> q in s
    ensures n <= |s|
  {
    if n == 0 {
    } else {
      var last: Port := n;
      InitialPorts(n - 1, s - {last});
    }
  }

  class Peers {
    var nextId: PeerId
    var used: map<Port, Key>
    var handles: map<Key, Links>
    var order: nat

    ghost predicate Valid()
      reads this
    {
      Consistent(used, handles, nextId) && Ordered(handles, order)
    }

    constructor ()
      ensures Valid() && handles == map[]
    {
      nextId, used, handles, order := 1, map[], map[], 0;
    }

    /** The lowest free port; zero is never given out. */
    method AllocPort() returns (p: Port)
      requires |used| < U64_MAX
      ensures p > 0 && p !in used && forall q: Port :: 1 <= q < p ==> q in used
    {
      p := 1;
      while p in used
        invariant 1 <= p <= |used| + 1 && forall q: Port :: 1 <= q < p ==> q in used
        decreases |used| + 1 - p
      {
        InitialPorts(p, used.Keys);
        p := p + 1;
      }
    }

    method PortFor(key: Key) returns (port: Port)
      requires Consistent(used, handles, nextId) && |used| < U64_MAX
      ensures Assigned(used, handles, key, port)
    {
      if key in handles {
        assert LinksOk(used, key, handles[key], nextId);
        var i :| i in handles[key];
        port := handles[key][i].port;
      } else {
        port := AllocPort();
      }
    }

    method Join(h: Handle)
      requires Consistent(used, handles, nextId) && h.id == nextId && HasPort(handles, h.key, h.port)
      modifies this`handles, this`nextId
      ensures Consistent(used, handles, nextId) && nextId == old(nextId) + 1
      ensures handles == old(handles)[h.key := With(old(handles)[h.key], h)]
    {
      ConnectOld(used, handles, h);
      nextId := nextId + 1;
      handles := handles[h.key := With(handles[h.key], h)];
    }

    method Admit(h: Handle)
      requires Consistent(used, handles, nextId) && h.id == nextId && h.key !in handles && h.port > 0 && h.port !in used
      modifies this`used, this`handles, this`nextId
      ensures Consistent(used, handles, nextId) && nextId == old(nextId) + 1
      ensures used == old(used)[h.port := h.key] && handles == old(handles)[h.key := With(map[], h)]
    {
      ConnectNew(used, handles, h);
      nextId := nextId + 1;
      used := used[h.port := h.key];
      handles := handles[h.key := With(map[], h)];
    }

    /** Register a connection. */
    method AllocatePeer(key: Key, prio: nat) returns (h: Handle)
      requires Valid() && |used| < U64_MAX
      modifies this
      ensures Valid() && h == Handle(old(nextId), key, h.port, prio, old(order))
      ensures order == old(order) + 1 && nextId == old(nextId) + 1
      ensures Assigned(old(used), old(handles), key, h.port)
      ensures used == if key in old(handles) then old(used) else old(used)[h.port := key]
      ensures handles == old(handles)[key := With(if key in old(handles) then old(handles)[key] else map[], h)]
    {
      var port := PortFor(key);
      h := Handle(nextId, key, port, prio, order);
      OrderedMore(handles, order, h);
      order := order + 1;
      if key in handles {
        Join(h);
      } else {
        Admit(h);
      }
    }

    /** Forget a connection; the port is free again once the key has no connection left. */
    method RemovePeer(id: PeerId, key: Key) returns (port: Option<Port>)
      requires Valid()
      modifies this`used, this`handles
      ensures Valid() && port == PortAt(old(handles), key, id)
      ensures handles == Unlinked(old(handles), key, id) && used == Freed(old(used), old(handles), key, id)
    {
      Disconnect(used, handles, nextId, key, id);
      OrderedLess(handles, order, key, id);
      port := None;
      if key in handles {
        var links := handles[key];
        if id in links {
          port := Some(links[id].port);
        }
        links := links - {id};
        if links == map[] {
          handles := handles - {key};
          if port.Some? {
            used := used - {port.value};
          }
        } else {
          handles := handles[key := links];
        }
      }
    }
  }
}
