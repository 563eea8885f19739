/**
 * The server's per-room whiteboard cache as the doubly linked list it really is.
 *
 * Nodes live in an arena (`nodes`, keyed by an allocation counter) so that a node's
 * `prev`/`next` are keys rather than references; the ghost `Order` lists the keys
 * from head to tail. Keys, not ids, name nodes: an upsert links the new node before
 * it unlinks the old node carrying the same id, so two nodes share an id for a moment.
 */
module LinkedChain {
  import opened Wrappers
  import opened DrawTypes
  import opened DrawStore

  datatype Node = Node(prev: Option<nat>, element: DrawData, next: Option<nat>)

  /**
   * The key at position `i`. Distinctness hangs on this term rather than on `order[i]`,
   * so that it is used for the pairs a proof names (see `DistinctAt`) and not for every
   * pair of positions in sight.
   */
  ghost function KeyAt(order: seq<nat>, i: int): nat
    requires 0 <= i < |order|
  {
    order[i]
  }

  /** No key appears twice in the chain. */
  ghost predicate Distinct(order: seq<nat>)
  {
    forall i, j {:trigger KeyAt(order, i), KeyAt(order, j)} :: 0 <= i < j < |order| ==> KeyAt(order, i) != KeyAt(order, j)
  }

  lemma {:induction false} DistinctAt(o: seq<nat>, a: int, b: int)
    requires Distinct(o) && 0 <= a < |o| && 0 <= b < |o| && a != b
    ensures o[a] != o[b]
  {
    if a < b {
      assert KeyAt(o, a) != KeyAt(o, b);
    } else {
      assert KeyAt(o, b) != KeyAt(o, a);
    }
  }

  /** Every node of the arena is on the chain, at the position `pos` gives it. */
  ghost predicate Closed(nodes: map<nat, Node>, order: seq<nat>, pos: map<nat, nat>)
  {
    forall k :: k in nodes ==> k in pos && pos[k] < |order| && order[pos[k]] == k
  }

  /** `head` and `tail` name the first and the last node of the chain. */
  ghost predicate Ends(head: Option<nat>, tail: Option<nat>, order: seq<nat>)
  {
    && head == (if order == [] then None else Some(order[0]))
    && tail == (if order == [] then None else Some(order[|order| - 1]))
  }

  /** Every key of `order` names a node of the arena. */
  ghost predicate OnChain(nodes: map<nat, Node>, order: seq<nat>)
  {
    forall i {:trigger order[i] in nodes} :: 0 <= i < |order| ==> order[i] in nodes
  }

  /** The `prev`/`next` of the `i`-th node of the chain name its neighbours. */
  ghost predicate LinkOk(nodes: map<nat, Node>, order: seq<nat>, i: int)
    requires 0 <= i < |order| && order[i] in nodes
  {
    && nodes[order[i]].prev == (if i == 0 then None else Some(order[i - 1]))
    && nodes[order[i]].next == (if i == |order| - 1 then None else Some(order[i + 1]))
  }

  /**
   * Each node on the chain exists and its `prev`/`next` name its neighbours. The
   * second half hangs on `LinkOk`, so it is used at the positions a proof names
   * (see `LinksAt`).
   */
  ghost predicate Links(nodes: map<nat, Node>, order: seq<nat>)
  {
    && OnChain(nodes, order)
    && forall i {:trigger LinkOk(nodes, order, i)} :: 0 <= i < |order| ==> LinkOk(nodes, order, i)
  }

  /** `order` is the chain from `head` to `tail` through the arena `nodes`. */
  ghost predicate Linked(head: Option<nat>, tail: Option<nat>, nodes: map<nat, Node>, order: seq<nat>)
  {
    Distinct(order) && Ends(head, tail, order) && Links(nodes, order)
  }

  /** `idToNode` names, for every id, the one node that holds it. */
  ghost predicate Indexed(nodes: map<nat, Node>, idToNode: map<string, nat>)
  {
    && (forall id :: id in idToNode ==> idToNode[id] in nodes && nodes[idToNode[id]].element.id == id)
    && (forall k :: k in nodes ==> nodes[k].element.id in idToNode && idToNode[nodes[k].element.id] == k)
  }

  /** Keys are allocated from `nextKey` upwards, and stored entries carry no `aboveId`. */
  ghost predicate Allocated(nodes: map<nat, Node>, order: seq<nat>, nextKey: nat)
  {
    && (forall k :: k in nodes ==> k < nextKey && nodes[k].element.aboveId == None)
    && (forall i :: 0 <= i < |order| ==> order[i] < nextKey)
  }

  /** The elements of the nodes named by `order`, in that order. */
  function ElementsOf(nodes: map<nat, Node>, order: seq<nat>): (r: seq<DrawData>)
    requires OnChain(nodes, order)
    ensures |r| == |order|
    ensures forall i {:trigger r[i]} :: 0 <= i < |order| ==> r[i] == nodes[order[i]].element
  {
    seq(|order|, i requires 0 <= i < |order| => nodes[order[i]].element)
  }

  /** A well-formed chain with its position map and key counter. */
  ghost predicate ChainOf(head: Option<nat>, tail: Option<nat>, nodes: map<nat, Node>, order: seq<nat>,
                          pos: map<nat, nat>, nextKey: nat)
  {
    Linked(head, tail, nodes, order) && Closed(nodes, order, pos) && Allocated(nodes, order, nextKey)
  }

  /** The index and the list agree on which ids are cached and where. */
  lemma {:induction false} IndexAgreement(h: Option<nat>, t: Option<nat>, n: map<nat, Node>, index: map<string, nat>, o: seq<nat>,
                       pos: map<nat, nat>, next: nat, id: string)
    requires ChainOf(h, t, n, o, pos, next) && Indexed(n, index)
    ensures id in index <==> IndexOf(ElementsOf(n, o), id) >= 0
    ensures id in index ==> o[IndexOf(ElementsOf(n, o), id)] == index[id]
  {
    var s := ElementsOf(n, o);
    var k := IndexOf(s, id);
    if id in index {
      var key := index[id];
      var i := pos[key];
      assert s[i].id == id;
      assert k >= 0 && k <= i;
      assert o[k] in n;
      assert index[s[k].id] == o[k];
    }
    if k >= 0 {
      assert o[k] in n;
      assert n[o[k]].element.id == id;
    }
  }

  /**
   * The pointer surgery for one draw entry, on the list's fields taken as values: an
   * add or change with data goes through `UpsertNode`; an add of `undefined` changes
   * nothing; a delete, or a change to `undefined`, goes through `DeleteNode`. The
   * server's fall-through from the upsert case into the delete case is the call to
   * `UnlinkEntry` that both make.
   */
  method Relink(head: Option<nat>, tail: Option<nat>, nodes: map<nat, Node>, idToNode: map<string, nat>, nextKey: nat,
                ghost order: seq<nat>, ghost pos: map<nat, nat>, action: DrawEventAction, d: DrawData)
    returns (h: Option<nat>, t: Option<nat>, ns: map<nat, Node>, index: map<string, nat>, next: nat,
             ghost o: seq<nat>, ghost pos': map<nat, nat>)
    requires ChainOf(head, tail, nodes, order, pos, nextKey) && Indexed(nodes, idToNode)
    ensures ChainOf(h, t, ns, o, pos', next) && Indexed(ns, index)
    ensures ElementsOf(ns, o) == ApplyEntry(ElementsOf(nodes, order), action, d)
  {
    if action != Delete && d.json != Undefined {
      h, t, ns, index, next, o, pos' := UpsertNode(head, tail, nodes, idToNode, nextKey, order, pos, d);
    } else if action == Add {
      // adding `undefined` does nothing
      h, t, ns, index, next, o, pos' := head, tail, nodes, idToNode, nextKey, order, pos;
    } else {
      h, t, ns, index, o, pos' := DeleteNode(head, tail, nodes, idToNode, nextKey, order, pos, d.id);
      next := nextKey;
    }
  }

  /**
   * An add or change with data: a new node holding the entry is linked after the node
   * of `aboveId` (when that id is set and indexed) or after the tail, the index points
   * the id at it, and the old node of the id, if any, is unlinked.
   */
  method UpsertNode(head: Option<nat>, tail: Option<nat>, nodes: map<nat, Node>, idToNode: map<string, nat>, nextKey: nat,
                    ghost order: seq<nat>, ghost pos: map<nat, nat>, d: DrawData)
    returns (h: Option<nat>, t: Option<nat>, ns: map<nat, Node>, index: map<string, nat>, next: nat,
             ghost o: seq<nat>, ghost pos': map<nat, nat>)
    requires ChainOf(head, tail, nodes, order, pos, nextKey) && Indexed(nodes, idToNode)
    ensures ChainOf(h, t, ns, o, pos', next) && Indexed(ns, index)
    ensures ElementsOf(ns, o) == Upserted(ElementsOf(nodes, order), d)
  {
    ghost var s := ElementsOf(nodes, order);
    ghost var k := IndexOf(s, d.id);
    ghost var p := InsertionPoint(s, d);
    assert (d.id in idToNode <==> k >= 0) && (k >= 0 ==> order[k] == idToNode[d.id]) by {
      IndexAgreement(head, tail, nodes, idToNode, order, pos, nextKey, d.id);
    }
    var oldKey := if d.id in idToNode then Some(idToNode[d.id]) else None;
    h, t, ns, o, pos' := LinkEntry(head, tail, nodes, idToNode, nextKey, order, pos, d);
    ghost var r := InsertAt(s, p, Stored(d));
    index := idToNode[d.id := nextKey];
    next := nextKey + 1;
    if oldKey.Some? {
      var ok := oldKey.value;
      ghost var j := if k < p then k else k + 1;
      assert j < |o| && o[j] == ok;
      var oldId := ns[ok].element.id;
      h, t, ns, o, pos' := UnlinkEntry(h, t, ns, next, o, pos', ok, j);
      r := RemoveAt(r, j);
      assert r == Upserted(s, d);
      // of the server's guard only this disjunct can hold on this path; it never does
      if d.id != oldId {
        index := index - {d.id};
      }
    } else {
      assert r == Upserted(s, d);
    }
    assert ElementsOf(ns, o) == r;
    assert Indexed(ns, index) by {
      IndexedAfter(nodes, idToNode, ns, index, d.id, Some(nextKey), oldKey);
    }
  }

  /** A delete, or a change to `undefined`: the node of the id, if any, is unlinked and unindexed. */
  method DeleteNode(head: Option<nat>, tail: Option<nat>, nodes: map<nat, Node>, idToNode: map<string, nat>, nextKey: nat,
                    ghost order: seq<nat>, ghost pos: map<nat, nat>, id: string)
    returns (h: Option<nat>, t: Option<nat>, ns: map<nat, Node>, index: map<string, nat>,
             ghost o: seq<nat>, ghost pos': map<nat, nat>)
    requires ChainOf(head, tail, nodes, order, pos, nextKey) && Indexed(nodes, idToNode)
    ensures ChainOf(h, t, ns, o, pos', nextKey) && Indexed(ns, index)
    ensures ElementsOf(ns, o) == Removed(ElementsOf(nodes, order), id)
  {
    ghost var k := IndexOf(ElementsOf(nodes, order), id);
    assert (id in idToNode <==> k >= 0) && (k >= 0 ==> order[k] == idToNode[id]) by {
      IndexAgreement(head, tail, nodes, idToNode, order, pos, nextKey, id);
    }
    h, t, ns, index, o, pos' := head, tail, nodes, idToNode, order, pos;
    if id in idToNode {
      var key := idToNode[id];
      h, t, ns, o, pos' := UnlinkEntry(head, tail, nodes, nextKey, order, pos, key, k);
      // the server's guard holds on this path: the action is delete or the data `undefined`
      index := idToNode - {id};
      assert Indexed(ns, index) by {
        IndexedAfter(nodes, idToNode, ns, index, id, None, Some(key));
      }
    }
  }

  /**
   * Links a new node holding the stored entry after the node of `aboveId` when that id
   * is set and indexed, otherwise after the tail, or, when there is no tail, as the
   * only node; the new node takes the next free key.
   */
  method LinkEntry(head: Option<nat>, tail: Option<nat>, nodes: map<nat, Node>, idToNode: map<string, nat>, nextKey: nat,
                   ghost order: seq<nat>, ghost pos: map<nat, nat>, d: DrawData)
    returns (h: Option<nat>, t: Option<nat>, ns: map<nat, Node>, ghost o: seq<nat>, ghost pos': map<nat, nat>)
    requires ChainOf(head, tail, nodes, order, pos, nextKey) && Indexed(nodes, idToNode)
    ensures ChainOf(h, t, ns, o, pos', nextKey + 1)
    ensures var p := InsertionPoint(ElementsOf(nodes, order), d);
      && |o| == |order| + 1 && o[p] == nextKey
      && (forall i :: 0 <= i < |order| ==> o[if i < p then i else i + 1] == order[i])
      && ElementsOf(ns, o) == InsertAt(ElementsOf(nodes, order), p, Stored(d))
    ensures forall key :: key in ns <==> key in nodes || key == nextKey
    ensures forall key :: key in nodes ==> ns[key].element == nodes[key].element
    ensures nextKey !in nodes && ns[nextKey].element == Stored(d)
  {
    ghost var s := ElementsOf(nodes, order);
    ghost var p := InsertionPoint(s, d);
    if Truthy(d.aboveId) {
      ghost var a := IndexOf(s, d.aboveId.value);
      assert (d.aboveId.value in idToNode <==> a >= 0) && (a >= 0 ==> order[a] == idToNode[d.aboveId.value]) by {
        IndexAgreement(head, tail, nodes, idToNode, order, pos, nextKey, d.aboveId.value);
      }
    }
    var prevKey := if Truthy(d.aboveId) && d.aboveId.value in idToNode then Some(idToNode[d.aboveId.value]) else tail;
    if prevKey.Some? {
      LinksAt(nodes, order, p - 1);
      if nodes[prevKey.value].next.Some? {
        LinksAt(nodes, order, p);
      }
    }
    var e := Stored(d);
    h, t, ns := LinkAfter(head, tail, nodes, prevKey, nextKey, e);
    o, pos' := InsertStep(head, tail, nodes, order, pos, nextKey, p, e, h, t, ns);
  }

  /**
   * The pointer surgery of an insertion: the node `nk` holding `e` goes after `prevKey`
   * and before that node's successor, or becomes the only node when there is none.
   */
  method LinkAfter(head: Option<nat>, tail: Option<nat>, nodes: map<nat, Node>, prevKey: Option<nat>, nk: nat, e: DrawData)
    returns (h: Option<nat>, t: Option<nat>, ns: map<nat, Node>)
    requires nk !in nodes
    requires prevKey.Some? ==> prevKey.value in nodes
    requires prevKey.Some? && nodes[prevKey.value].next.Some? ==> nodes[prevKey.value].next.value in nodes
    ensures prevKey.None? ==> ns == nodes[nk := Node(None, e, None)] && h == Some(nk) && t == Some(nk)
    ensures prevKey.Some? ==>
      && h == head
      && var pk := prevKey.value;
         var nn := nodes[pk].next;
         var m := nodes[nk := Node(Some(pk), e, nn)];
         var m2 := m[pk := m[pk].(next := Some(nk))];
         && (nn.Some? ==> nn.value in m2 && ns == m2[nn.value := m2[nn.value].(prev := Some(nk))] && t == tail)
         && (nn.None? ==> ns == m2 && t == Some(nk))
    ensures ns.Keys == nodes.Keys + {nk} && ns[nk].element == e
    ensures forall key :: key in nodes ==> ns[key].element == nodes[key].element
  {
    h, t, ns := head, tail, nodes;
    if prevKey.Some? {
      var pk := prevKey.value;
      var nextNode := ns[pk].next;
      ns := ns[nk := Node(Some(pk), e, nextNode)];
      ns := ns[pk := ns[pk].(next := Some(nk))];
      if nextNode.Some? {
        ns := ns[nextNode.value := ns[nextNode.value].(prev := Some(nk))];
      } else {
        t := Some(nk);
      }
    } else {
      ns := ns[nk := Node(None, e, None)];
      h, t := Some(nk), Some(nk);
    }
  }

  /**
   * Unlinks the node `key`, found at position `j` of the chain: its neighbours are
   * joined, the head and tail move off it, and it is dropped from the arena.
   */
  method UnlinkEntry(head: Option<nat>, tail: Option<nat>, nodes: map<nat, Node>, nextKey: nat,
                     ghost order: seq<nat>, ghost pos: map<nat, nat>, key: nat, ghost j: nat)
    returns (h: Option<nat>, t: Option<nat>, ns: map<nat, Node>, ghost o: seq<nat>, ghost pos': map<nat, nat>)
    requires ChainOf(head, tail, nodes, order, pos, nextKey) && j < |order| && order[j] == key
    ensures ChainOf(h, t, ns, o, pos', nextKey)
    ensures ElementsOf(ns, o) == RemoveAt(ElementsOf(nodes, order), j)
    ensures forall k :: k in ns <==> k in nodes && k != key
    ensures forall k :: k in ns ==> ns[k].element == nodes[k].element
  {
    LinksAt(nodes, order, j);
    var gone := nodes[key];
    h, t, ns := head, tail, nodes;
    if gone.prev.Some? {
      ns := ns[gone.prev.value := ns[gone.prev.value].(next := gone.next)];
    }
    ghost var n1 := ns;
    if gone.next.Some? {
      ns := ns[gone.next.value := ns[gone.next.value].(prev := gone.prev)];
    }
    if h == Some(key) {
      h := gone.next;
    }
    if t == Some(key) {
      t := gone.prev;
    }
    ns := ns - {key};
    o, pos' := UnlinkStep(head, tail, nodes, order, pos, nextKey, j, n1, h, t, ns);
  }

  lemma {:induction false} LinksAt(n: map<nat, Node>, o: seq<nat>, i: int)
    requires Links(n, o) && 0 <= i < |o|
    ensures o[i] in n
    ensures n[o[i]].prev == (if i == 0 then None else Some(o[i - 1]))
    ensures n[o[i]].next == (if i == |o| - 1 then None else Some(o[i + 1]))
  {
    assert o[i] in n;
    assert LinkOk(n, o, i);
  }

  /**
   * Linking a new node `next` after the node `o[p - 1]` (or as the only node of an
   * empty list), written as the server rewires the pointers, keeps the chain well
   * formed and inserts `e` at position `p`.
   */
  lemma {:induction false} InsertStep(h: Option<nat>, t: Option<nat>, n: map<nat, Node>, o: seq<nat>, pos: map<nat, nat>, next: nat,
                   p: nat, e: DrawData, h': Option<nat>, t': Option<nat>, n': map<nat, Node>)
    returns (o': seq<nat>, pos': map<nat, nat>)
    requires ChainOf(h, t, n, o, pos, next) && e.aboveId == None && p <= |o|
    requires p == 0 ==> o == [] && n' == n[next := Node(None, e, None)] && h' == Some(next) && t' == Some(next)
    requires p > 0 ==>
      && o[p - 1] in n && h' == h
      && var pk := o[p - 1];
         var nn := n[pk].next;
         var m := n[next := Node(Some(pk), e, nn)];
         var m2 := m[pk := m[pk].(next := Some(next))];
         && (nn.Some? ==> nn.value in m2 && n' == m2[nn.value := m2[nn.value].(prev := Some(next))] && t' == t)
         && (nn.None? ==> n' == m2 && t' == Some(next))
    ensures |o'| == |o| + 1 && o'[p] == next
    ensures forall i :: 0 <= i < |o| ==> o'[if i < p then i else i + 1] == o[i]
    ensures ChainOf(h', t', n', o', pos', next + 1)
    ensures ElementsOf(n', o') == InsertAt(ElementsOf(n, o), p, e)
    ensures forall key :: key in n' <==> key in n || key == next
    ensures forall key :: key in n ==> n'[key].element == n[key].element
  {
    o' := o[..p] + [next] + o[p..];
    forall i | 0 <= i < |o| ensures o'[if i < p then i else i + 1] == o[i] {
      if i >= p {
        assert o'[i + 1] == o[p..][i - p];
      }
    }
    if p > 0 {
      LinksAt(n, o, p - 1);
      if p < |o| {
        LinksAt(n, o, p);
        DistinctAt(o, p, p - 1);
      }
    }
    pos' := InsertShape(h, t, n, o, pos, next, p, e, t', n');
  }

  /**
   * Unlinking the node `o[j]`, written as the server rewires the pointers (`n1` is the
   * arena after the predecessor is patched), keeps the chain well formed and removes
   * position `j`.
   */
  lemma {:induction false} UnlinkStep(h: Option<nat>, t: Option<nat>, n: map<nat, Node>, o: seq<nat>, pos: map<nat, nat>, next: nat, j: nat,
                   n1: map<nat, Node>, h': Option<nat>, t': Option<nat>, n': map<nat, Node>)
    returns (o': seq<nat>, pos': map<nat, nat>)
    requires ChainOf(h, t, n, o, pos, next) && j < |o| && o[j] in n
    requires var on := n[o[j]];
      && (on.prev.Some? ==> on.prev.value in n && n1 == n[on.prev.value := n[on.prev.value].(next := on.next)])
      && (on.prev.None? ==> n1 == n)
      && (on.next.Some? ==> on.next.value in n1 && n' == n1[on.next.value := n1[on.next.value].(prev := on.prev)] - {o[j]})
      && (on.next.None? ==> n' == n1 - {o[j]})
      && h' == (if h == Some(o[j]) then on.next else h)
      && t' == (if t == Some(o[j]) then on.prev else t)
    ensures |o'| == |o| - 1
    ensures ChainOf(h', t', n', o', pos', next)
    ensures ElementsOf(n', o') == RemoveAt(ElementsOf(n, o), j)
    ensures forall key :: key in n' <==> key in n && key != o[j]
    ensures forall key :: key in n' ==> n'[key].element == n[key].element
  {
    o' := o[..j] + o[j + 1..];
    LinksAt(n, o, j);
    if j > 0 {
      LinksAt(n, o, j - 1);
      DistinctAt(o, 0, j);
    }
    if j + 1 < |o| {
      LinksAt(n, o, j + 1);
      DistinctAt(o, |o| - 1, j);
      DistinctAt(o, j + 1, j);
      if j > 0 {
        DistinctAt(o, j + 1, j - 1);
      }
    }
    pos' := UnlinkShape(h, t, n, o, pos, next, j, h', t', n');
  }

  /**
   * Linking a new node holding `e` at position `p` (after the `p - 1`-th node, or as the
   * only node of an empty chain) keeps the chain well formed, inserts `e` into the list
   * at `p` and leaves the other nodes' elements alone.
   */
  lemma {:induction false} InsertShape(h: Option<nat>, t: Option<nat>, n: map<nat, Node>, o: seq<nat>, pos: map<nat, nat>, next: nat,
                    p: nat, e: DrawData, t': Option<nat>, n': map<nat, Node>) returns (pos': map<nat, nat>)
    requires ChainOf(h, t, n, o, pos, next) && e.aboveId == None && p <= |o| && (p == 0 ==> o == [])
    requires p > 0 ==> o[p - 1] in n && (p < |o| ==> o[p] in n)
    requires p > 0 && p < |o| ==>
      && n' == n[next := Node(Some(o[p - 1]), e, Some(o[p]))][o[p - 1] := n[o[p - 1]].(next := Some(next))][o[p] := n[o[p]].(prev := Some(next))]
      && t' == t
    requires p > 0 && p == |o| ==>
      && n' == n[next := Node(Some(o[p - 1]), e, None)][o[p - 1] := n[o[p - 1]].(next := Some(next))]
      && t' == Some(next)
    requires p == 0 ==> n' == n[next := Node(None, e, None)] && t' == Some(next)
    ensures ChainOf(if p == 0 then Some(next) else h, t', n', o[..p] + [next] + o[p..], pos', next + 1)
    ensures ElementsOf(n', o[..p] + [next] + o[p..]) == InsertAt(ElementsOf(n, o), p, e)
    ensures next !in n && next in n' && n'[next].element == e
    ensures forall key :: key in n' <==> key in n || key == next
    ensures forall key :: key in n ==> n'[key].element == n[key].element
  {
    var o' := o[..p] + [next] + o[p..];
    assert next !in o;
    if p > 0 {
      LinkedAfter(h, t, n, o, p - 1, next, e, t', n');
    } else {
      assert o' == [next];
      assert LinkOk(n', o', 0);
    }
    ElementsInsert(n, n', o, p, next, e, o');
    pos' := ClosedInsert(n, o, pos, p, next, n', o');
    AllocatedInsert(n, o, next, p, next, n', o');
  }

  /** Linking a new node after the `i`-th keeps the chain well formed. */
  lemma {:induction false} LinkedAfter(h: Option<nat>, t: Option<nat>, n: map<nat, Node>, o: seq<nat>, i: nat, nk: nat, e: DrawData,
                    t': Option<nat>, n': map<nat, Node>)
    requires Linked(h, t, n, o) && i < |o| && nk !in o && nk !in n
    requires o[i] in n && (i + 1 < |o| ==> o[i + 1] in n)
    requires i + 1 < |o| ==>
      && n' == n[nk := Node(Some(o[i]), e, Some(o[i + 1]))][o[i] := n[o[i]].(next := Some(nk))][o[i + 1] := n[o[i + 1]].(prev := Some(nk))]
      && t' == t
    requires i + 1 == |o| ==>
      && n' == n[nk := Node(Some(o[i]), e, None)][o[i] := n[o[i]].(next := Some(nk))]
      && t' == Some(nk)
    ensures Linked(h, t', n', o[..i + 1] + [nk] + o[i + 1..])
  {
    var o' := o[..i + 1] + [nk] + o[i + 1..];
    DistinctInsert(o, i + 1, nk, o');
    LinksInsert(n, o, i, nk, e, n', o');
    assert o'[0] == o[0] && o'[|o'| - 1] == (if i + 1 < |o| then o[|o| - 1] else nk);
  }

  lemma {:induction false} DistinctInsert(o: seq<nat>, p: nat, nk: nat, o': seq<nat>)
    requires Distinct(o) && nk !in o && p <= |o| && o' == o[..p] + [nk] + o[p..]
    ensures Distinct(o')
  {
    forall m, m2 | 0 <= m < m2 < |o'|
      ensures KeyAt(o', m) != KeyAt(o', m2)
    {
      var a := if m < p then m else m - 1;
      var b := if m2 < p then m2 else m2 - 1;
      if m != p && m2 != p {
        assert o'[m] == o[a] && o'[m2] == o[b] && a < b;
        DistinctAt(o, a, b);
      } else if m == p {
        assert o'[m2] == o[b];
      } else {
        assert o'[m] == o[a];
      }
    }
  }

  lemma {:induction false} ClosedInsert(n: map<nat, Node>, o: seq<nat>, pos: map<nat, nat>, p: nat, nk: nat,
                     n': map<nat, Node>, o': seq<nat>) returns (pos': map<nat, nat>)
    requires Closed(n, o, pos) && p <= |o| && o' == o[..p] + [nk] + o[p..]
    requires forall k :: k in n' ==> k in n || k == nk
    ensures Closed(n', o', pos')
  {
    pos' := map k | k in n' :: if k == nk || k !in pos then p else if pos[k] < p then pos[k] else pos[k] + 1;
    forall k | k in n'
      ensures k in pos' && pos'[k] < |o'| && o'[pos'[k]] == k
    {
      if k != nk {
        assert o[pos[k]] == k;
      }
    }
  }

  lemma {:induction false} LinksInsert(n: map<nat, Node>, o: seq<nat>, i: nat, nk: nat, e: DrawData, n': map<nat, Node>, o': seq<nat>)
    requires Links(n, o) && Distinct(o) && i < |o| && nk !in n
    requires o[i] in n && (i + 1 < |o| ==> o[i + 1] in n)
    requires i + 1 < |o| ==>
      n' == n[nk := Node(Some(o[i]), e, Some(o[i + 1]))][o[i] := n[o[i]].(next := Some(nk))][o[i + 1] := n[o[i + 1]].(prev := Some(nk))]
    requires i + 1 == |o| ==>
      n' == n[nk := Node(Some(o[i]), e, None)][o[i] := n[o[i]].(next := Some(nk))]
    requires o' == o[..i + 1] + [nk] + o[i + 1..]
    ensures Links(n', o')
  {
    forall m | 0 <= m < |o'|
      ensures o'[m] in n' && LinkOk(n', o', m)
    {
      if m < i {
        assert o'[m] == o[m] && o'[m + 1] == o[m + 1];
        DistinctAt(o, m, i);
        if i + 1 < |o| {
          DistinctAt(o, m, i + 1);
        }
        LinksAt(n, o, m);
        if m > 0 {
          assert o'[m - 1] == o[m - 1];
        }
        assert n'[o'[m]] == n[o[m]];
        LinksAt(n, o, m);
      } else if m == i {
        LinksAt(n, o, i);
        assert o'[m] == o[i] && o'[m + 1] == nk;
        if i + 1 < |o| {
          DistinctAt(o, i, i + 1);
        }
        if m > 0 {
          assert o'[m - 1] == o[m - 1];
        }
      } else if m == i + 1 {
        assert o'[m] == nk && o'[m - 1] == o[i];
        assert nk != o[i] && (i + 1 < |o| ==> nk != o[i + 1]);
        if m + 1 < |o'| {
          assert o'[m + 1] == o[i + 1];
        }
      } else if m == i + 2 {
        LinksAt(n, o, i + 1);
        assert o'[m] == o[i + 1] && o'[m - 1] == nk;
        if m + 1 < |o'| {
          assert o'[m + 1] == o[m];
        }
      } else {
        LinksAt(n, o, m - 1);
        assert o'[m] == o[m - 1] && o'[m - 1] == o[m - 2];
        DistinctAt(o, m - 1, i);
        DistinctAt(o, m - 1, i + 1);
        if m + 1 < |o'| {
          assert o'[m + 1] == o[m];
        }
      }
    }
  }

  /**
   * Unlinking the `j`-th node keeps the chain well formed, drops that node's element
   * from the list and leaves the other nodes' elements alone.
   */
  lemma {:induction false} UnlinkShape(h: Option<nat>, t: Option<nat>, n: map<nat, Node>, o: seq<nat>, pos: map<nat, nat>, next: nat, j: nat,
                    h': Option<nat>, t': Option<nat>, n': map<nat, Node>) returns (pos': map<nat, nat>)
    requires ChainOf(h, t, n, o, pos, next) && j < |o|
    requires o[j] in n && (j > 0 ==> o[j - 1] in n)
    requires var on := n[o[j]];
      var n1 := if j > 0 then n[o[j - 1] := n[o[j - 1]].(next := on.next)] else n;
      var n2 := if j + 1 < |o| then n1[o[j + 1] := n1[o[j + 1]].(prev := on.prev)] else n1;
      && n' == n2 - {o[j]}
      && h' == (if j == 0 then on.next else h)
      && t' == (if j == |o| - 1 then on.prev else t)
    ensures ChainOf(h', t', n', o[..j] + o[j + 1..], pos', next)
    ensures ElementsOf(n', o[..j] + o[j + 1..]) == RemoveAt(ElementsOf(n, o), j)
    ensures forall key :: key in n' <==> key in n && key != o[j]
    ensures forall key :: key in n' ==> n'[key].element == n[key].element
  {
    var o' := o[..j] + o[j + 1..];
    Unlinked(h, t, n, o, j, h', t', n');
    ElementsRemove(n, n', o, j, o');
    pos' := ClosedRemove(n, o, pos, j, n', o');
    AllocatedRemove(n, o, next, j, n', o');
  }

  /** Unlinking the `j`-th node keeps the rest of the chain well formed. */
  lemma {:induction false} Unlinked(h: Option<nat>, t: Option<nat>, n: map<nat, Node>, o: seq<nat>, j: nat,
                 h': Option<nat>, t': Option<nat>, n': map<nat, Node>)
    requires Linked(h, t, n, o) && j < |o|
    requires o[j] in n && (j > 0 ==> o[j - 1] in n)
    requires var on := n[o[j]];
      var n1 := if j > 0 then n[o[j - 1] := n[o[j - 1]].(next := on.next)] else n;
      var n2 := if j + 1 < |o| then n1[o[j + 1] := n1[o[j + 1]].(prev := on.prev)] else n1;
      && n' == n2 - {o[j]}
      && h' == (if j == 0 then on.next else h)
      && t' == (if j == |o| - 1 then on.prev else t)
    ensures Linked(h', t', n', o[..j] + o[j + 1..])
  {
    var o' := o[..j] + o[j + 1..];
    LinksAt(n, o, j);
    DistinctRemove(o, j, o');
    LinksRemove(n, o, j, n', o');
    if o' != [] {
      assert o'[0] == (if j == 0 then o[1] else o[0]);
      assert o'[|o'| - 1] == (if j == |o| - 1 then o[|o| - 2] else o[|o| - 1]);
    }
  }

  lemma {:induction false} DistinctRemove(o: seq<nat>, j: nat, o': seq<nat>)
    requires Distinct(o) && j < |o| && o' == o[..j] + o[j + 1..]
    ensures Distinct(o')
  {
    forall m, m2 | 0 <= m < m2 < |o'|
      ensures KeyAt(o', m) != KeyAt(o', m2)
    {
      var a := if m < j then m else m + 1;
      var b := if m2 < j then m2 else m2 + 1;
      assert o'[m] == o[a] && o'[m2] == o[b] && a < b;
      DistinctAt(o, a, b);
    }
  }

  lemma {:induction false} ClosedRemove(n: map<nat, Node>, o: seq<nat>, pos: map<nat, nat>, j: nat,
                     n': map<nat, Node>, o': seq<nat>) returns (pos': map<nat, nat>)
    requires Closed(n, o, pos) && j < |o| && o' == o[..j] + o[j + 1..]
    requires forall k :: k in n' ==> k in n && k != o[j]
    ensures Closed(n', o', pos')
  {
    pos' := map k | k in n' :: if k !in pos then 0 else if pos[k] < j then pos[k] else pos[k] - 1;
    forall k | k in n'
      ensures k in pos' && pos'[k] < |o'| && o'[pos'[k]] == k
    {
      assert o[pos[k]] == k && pos[k] != j;
    }
  }

  /**
   * The index after one entry: the node `gone` (the old node of `id`, if any) has
   * left the arena, the node `added` (the new node of `id`, if any) has joined it,
   * and `id` names the new node or nothing.
   */
  lemma {:induction false} IndexedAfter(n: map<nat, Node>, x: map<string, nat>, n': map<nat, Node>, x': map<string, nat>,
                     id: string, added: Option<nat>, gone: Option<nat>)
    requires Indexed(n, x)
    requires gone.Some? <==> id in x
    requires gone.Some? ==> gone.value == x[id]
    requires added.Some? ==> added.value !in n && added.value in n' && n'[added.value].element.id == id
    requires forall k :: k in n' <==> (k in n && (gone.None? || k != gone.value)) || (added.Some? && k == added.value)
    requires forall k :: k in n' && k in n ==> n'[k].element == n[k].element
    requires x' == if added.Some? then x[id := added.value] else x - {id}
    ensures Indexed(n', x')
  {
  }

  lemma {:induction false} LinksRemove(n: map<nat, Node>, o: seq<nat>, j: nat, n': map<nat, Node>, o': seq<nat>)
    requires Links(n, o) && Distinct(o) && j < |o|
    requires o[j] in n && (j > 0 ==> o[j - 1] in n) && (j + 1 < |o| ==> o[j + 1] in n)
    requires var on := n[o[j]];
      var n1 := if j > 0 then n[o[j - 1] := n[o[j - 1]].(next := on.next)] else n;
      var n2 := if j + 1 < |o| then n1[o[j + 1] := n1[o[j + 1]].(prev := on.prev)] else n1;
      n' == n2 - {o[j]}
    requires o' == o[..j] + o[j + 1..]
    ensures Links(n', o')
  {
    forall m | 0 <= m < |o'|
      ensures o'[m] in n' && LinkOk(n', o', m)
    {
      LinksAt(n, o, j);
      if m < j - 1 {
        LinksAt(n, o, m);
        assert o'[m] == o[m] && o'[m + 1] == o[m + 1];
        DistinctAt(o, m, j - 1);
        DistinctAt(o, m, j);
        if j + 1 < |o| {
          DistinctAt(o, m, j + 1);
        }
        if m > 0 {
          assert o'[m - 1] == o[m - 1];
        }
      } else if m == j - 1 {
        LinksAt(n, o, j - 1);
        assert o'[m] == o[j - 1];
        DistinctAt(o, j - 1, j);
        if j + 1 < |o| {
          DistinctAt(o, j - 1, j + 1);
        }
        if m > 0 {
          assert o'[m - 1] == o[m - 1];
        }
        if m + 1 < |o'| {
          assert o'[m + 1] == o[j + 1];
        }
      } else if m == j {
        LinksAt(n, o, j + 1);
        assert o'[m] == o[j + 1];
        DistinctAt(o, j + 1, j);
        if m > 0 {
          DistinctAt(o, j + 1, j - 1);
          assert o'[m - 1] == o[j - 1];
        }
        if m + 1 < |o'| {
          assert o'[m + 1] == o[j + 2];
        }
      } else {
        LinksAt(n, o, m + 1);
        assert o'[m] == o[m + 1] && o'[m - 1] == o[m];
        DistinctAt(o, m + 1, j + 1);
        DistinctAt(o, m + 1, j);
        if j > 0 {
          DistinctAt(o, m + 1, j - 1);
        }
        if m + 1 < |o'| {
          assert o'[m + 1] == o[m + 2];
        }
      }
    }
  }

  lemma {:induction false} ElementsPrefix(n: map<nat, Node>, o: seq<nat>, i: nat)
    requires OnChain(n, o)
    requires i < |o|
    ensures ElementsOf(n, o)[..i + 1] == ElementsOf(n, o)[..i] + [n[o[i]].element]
  {
  }

  lemma {:induction false} ElementsInsert(n: map<nat, Node>, n': map<nat, Node>, o: seq<nat>, p: nat, nk: nat, e: DrawData, o': seq<nat>)
    requires OnChain(n, o)
    requires p <= |o| && nk in n' && n'[nk].element == e
    requires forall k :: k in n ==> k in n' && n'[k].element == n[k].element
    requires o' == o[..p] + [nk] + o[p..]
    ensures OnChain(n', o')
    ensures ElementsOf(n', o') == InsertAt(ElementsOf(n, o), p, e)
  {
    InsertAtSlices(ElementsOf(n, o), p, e);
    assert forall i :: 0 <= i < p ==> o'[i] == o[i];
    assert forall i :: p < i < |o'| ==> o'[i] == o[i - 1];
  }

  lemma {:induction false} ElementsRemove(n: map<nat, Node>, n': map<nat, Node>, o: seq<nat>, j: nat, o': seq<nat>)
    requires OnChain(n, o)
    requires j < |o|
    requires Distinct(o)
    requires forall k :: k in n && k != o[j] ==> k in n' && n'[k].element == n[k].element
    requires o' == o[..j] + o[j + 1..]
    ensures OnChain(n', o')
    ensures ElementsOf(n', o') == RemoveAt(ElementsOf(n, o), j)
  {
    RemoveAtSlices(ElementsOf(n, o), j);
    forall i | 0 <= i < |o| && i != j
      ensures o[i] in n' && n'[o[i]].element == n[o[i]].element
    {
      DistinctAt(o, i, j);
    }
    assert forall i :: 0 <= i < j ==> o'[i] == o[i];
    assert forall i :: j <= i < |o'| ==> o'[i] == o[i + 1];
  }

  lemma {:induction false} AllocatedInsert(n: map<nat, Node>, o: seq<nat>, next: nat, p: nat, nk: nat, n': map<nat, Node>, o': seq<nat>)
    requires Allocated(n, o, next) && nk == next && p <= |o| && o' == o[..p] + [nk] + o[p..]
    requires nk in n' && n'[nk].element.aboveId == None
    requires forall k :: k in n' ==> (k in n && n'[k].element == n[k].element) || k == nk
    ensures Allocated(n', o', next + 1)
  {
    assert forall i :: 0 <= i < |o'| ==> o'[i] == nk || o'[i] in o;
  }

  lemma {:induction false} AllocatedRemove(n: map<nat, Node>, o: seq<nat>, next: nat, j: nat, n': map<nat, Node>, o': seq<nat>)
    requires Allocated(n, o, next) && j < |o| && o' == o[..j] + o[j + 1..]
    requires forall k :: k in n' ==> k in n && n'[k].element == n[k].element
    ensures Allocated(n', o', next)
  {
    assert forall i :: 0 <= i < |o'| ==> o'[i] in o;
  }
}

module Whiteboard {
  import opened Wrappers
  import opened DrawTypes
  import opened DrawStore
  import opened LinkedChain

  class DrawDataLinkedList {
    var head: Option<nat>
    var tail: Option<nat>
    var nodes: map<nat, Node>
    var idToNode: map<string, nat>
    var nextKey: nat
    ghost var Order: seq<nat>
    ghost var Pos: map<nat, nat>

    ghost predicate Valid()
      reads this
    {
      ChainOf(head, tail, nodes, Order, Pos, nextKey) && Indexed(nodes, idToNode)
    }

    /** The cached entries from bottom (head) to top (tail). */
    ghost function Elements(): (e: seq<DrawData>)
      reads this
      requires Valid()
      ensures |e| == |Order|
      ensures forall i :: 0 <= i < |e| ==> e[i].aboveId == None && e[i].id in idToNode
    {
      ElementsOf(nodes, Order)
    }

    /** An empty whiteboard: no head, no tail, no index entries. */
    constructor ()
      ensures Valid() && Elements() == []
    {
      head, tail := None, None;
      nodes, idToNode := map[], map[];
      nextKey := 0;
      Order, Pos := [], map[];
    }

    /**
     * Processes one entry of a draw event: the pointer surgery of the shared
     * add/change/delete code path (`Relink`) applied to the list's fields.
     */
    method ProcessEntry(action: DrawEventAction, d: DrawData)
      requires Valid()
      modifies this
      ensures Valid()
      ensures Elements() == ApplyEntry(old(Elements()), action, d)
    {
      ghost var before := ElementsOf(nodes, Order);
      var h, t, ns, index, next, o, pos := Relink(head, tail, nodes, idToNode, nextKey, Order, Pos, action, d);
      assert ChainOf(h, t, ns, o, pos, next) && Indexed(ns, index);
      assert ElementsOf(ns, o) == ApplyEntry(before, action, d);
      head, tail, nodes, idToNode, nextKey, Order, Pos := h, t, ns, index, next, o, pos;
    }

    /**
     * The whiteboard as sent to a joining socket: the elements read by walking the
     * `next` links from the head.
     */
    method Walk() returns (list: seq<DrawData>)
      requires Valid()
      ensures list == Elements()
      ensures forall i :: 0 <= i < |list| ==> list[i].aboveId == None
    {
      ghost var all := Elements();
      list := [];
      var node := head;
      ghost var i := 0;
      while node.Some?
        invariant 0 <= i <= |Order|
        invariant list == all[..i]
        invariant node == if i < |Order| then Some(Order[i]) else None
        decreases |Order| - i
      {
        LinksAt(nodes, Order, i);
        ElementsPrefix(nodes, Order, i);
        list := list + [nodes[node.value].element];
        node := nodes[node.value].next;
        i := i + 1;
      }
      assert all[..i] == all;
    }
  }

}
