/**
 * The server's cached whiteboard, stated on plain sequences: an ordered list of draw
 * entries (bottom to top of the stacking order) and what processing one draw entry
 * does to it (`ApplyEntry`). The linked list that implements it is in module
 * `Whiteboard`.
 */
module DrawStore {
  import opened Wrappers
  import opened DrawTypes

  // ---------------------------------------------------------------------------
  // Specification on sequences
  // ---------------------------------------------------------------------------

  /** Position of the first entry with this id, or -1. */
  function IndexOf(s: seq<DrawData>, id: string): (k: int)
    ensures -1 <= k < |s|
    ensures k >= 0 ==> s[k].id == id
    ensures forall j :: 0 <= j < |s| && (k < 0 || j < k) ==> s[j].id != id
  {
    if s == [] then -1
    else if s[0].id == id then 0
    else
      var k := IndexOf(s[1..], id);
      if k < 0 then -1 else k + 1
  }

  /** Each id appears at most once. */
  ghost predicate UniqueIds(s: seq<DrawData>)
  {
    forall i, j :: 0 <= i < j < |s| ==> s[i].id != s[j].id
  }

  /** The entries whose id is not `id`, in their original order. */
  function Without(s: seq<DrawData>, id: string): (r: seq<DrawData>)
    ensures |r| <= |s|
    ensures forall j :: 0 <= j < |r| ==> r[j].id != id
  {
    if s == [] then []
    else if s[0].id == id then Without(s[1..], id)
    else [s[0]] + Without(s[1..], id)
  }

  /** `s` with `x` inserted so that it lands at position `p`. */
  function InsertAt(s: seq<DrawData>, p: nat, x: DrawData): (r: seq<DrawData>)
    requires p <= |s|
    ensures |r| == |s| + 1
    decreases p
  {
    if p == 0 then [x] + s else [s[0]] + InsertAt(s[1..], p - 1, x)
  }

  /** `s` without its entry at position `j`. */
  function RemoveAt(s: seq<DrawData>, j: nat): (r: seq<DrawData>)
    requires j < |s|
    ensures |r| == |s| - 1
    decreases j
  {
    if j == 0 then s[1..] else [s[0]] + RemoveAt(s[1..], j - 1)
  }

  lemma {:induction false} InsertAtSlices(s: seq<DrawData>, p: nat, x: DrawData)
    requires p <= |s|
    ensures InsertAt(s, p, x) == s[..p] + [x] + s[p..]
    decreases p
  {
    if p > 0 {
      InsertAtSlices(s[1..], p - 1, x);
      assert s[1..][..p - 1] == s[1..p] && s[1..][p - 1..] == s[p..];
      assert s[..p] == [s[0]] + s[1..p];
    }
  }

  lemma {:induction false} RemoveAtSlices(s: seq<DrawData>, j: nat)
    requires j < |s|
    ensures RemoveAt(s, j) == s[..j] + s[j + 1..]
    decreases j
  {
    if j > 0 {
      RemoveAtSlices(s[1..], j - 1);
      assert s[1..][..j - 1] == s[1..j] && s[1..][j..] == s[j + 1..];
      assert s[..j] == [s[0]] + s[1..j];
    }
  }

  /** What the server keeps of an entry: `aboveId` is deleted once the entry is processed. */
  function Stored(d: DrawData): (r: DrawData)
    ensures r.aboveId == None && r.(aboveId := d.aboveId) == d
  {
    d.(aboveId := None)
  }

  /** Add and change with data that is not `undefined` insert (or replace) the entry. */
  predicate Upserts(action: DrawEventAction, d: DrawData): (b: bool)
    ensures b <==> (action == Add || action == Change) && (d.json.Null? || d.json.Content?)
  {
    action != Delete && d.json != Undefined
  }

  /**
   * Where a new node goes: right after the node of `aboveId` when that id is set and
   * indexed, otherwise after the tail.
   */
  function InsertionPoint(s: seq<DrawData>, d: DrawData): (p: nat)
    ensures p <= |s|
    ensures Truthy(d.aboveId) && IndexOf(s, d.aboveId.value) >= 0 ==>
      0 < p && s[p - 1].id == d.aboveId.value
      && forall j :: 0 <= j < p - 1 ==> s[j].id != d.aboveId.value
    ensures !(Truthy(d.aboveId) && IndexOf(s, d.aboveId.value) >= 0) ==> p == |s|
  {
    if Truthy(d.aboveId) && IndexOf(s, d.aboveId.value) >= 0 then IndexOf(s, d.aboveId.value) + 1
    else |s|
  }

  /**
   * An add or change with data: the new entry is linked in at the insertion point,
   * then the old entry of the same id, if there was one, is unlinked.
   */
  function Upserted(s: seq<DrawData>, d: DrawData): (r: seq<DrawData>)
    ensures |r| == if IndexOf(s, d.id) < 0 then |s| + 1 else |s|
  {
    var k, p := IndexOf(s, d.id), InsertionPoint(s, d);
    var t := InsertAt(s, p, Stored(d));
    if k < 0 then t else RemoveAt(t, if k < p then k else k + 1)
  }

  /** The first entry with this id unlinked, if there is one. */
  function Removed(s: seq<DrawData>, id: string): (r: seq<DrawData>)
    ensures |r| == if IndexOf(s, id) < 0 then |s| else |s| - 1
  {
    var k := IndexOf(s, id);
    if k < 0 then s else RemoveAt(s, k)
  }

  /**
   * One draw entry applied to the ordered list, following the shared code path:
   * an upsert links the new entry first and then unlinks the old node of the same id;
   * `add` of `undefined` does nothing; `delete`, and `change` to `undefined`, unlink
   * the old node.
   */
  function ApplyEntry(s: seq<DrawData>, action: DrawEventAction, d: DrawData): (r: seq<DrawData>)
    ensures Upserts(action, d) ==> |r| == if IndexOf(s, d.id) < 0 then |s| + 1 else |s|
    ensures !Upserts(action, d) && action == Add ==> r == s
    ensures !Upserts(action, d) && action != Add ==> |r| == if IndexOf(s, d.id) < 0 then |s| else |s| - 1
  {
    if Upserts(action, d) then Upserted(s, d)
    else if action == Add then s
    else Removed(s, d.id)
  }

  /** All entries of one event, in order. */
  function ApplyEvent(s: seq<DrawData>, action: DrawEventAction, data: seq<DrawData>): (r: seq<DrawData>)
    ensures action == Add ==> |s| <= |r| <= |s| + |data|
    ensures action == Delete ==> |r| <= |s| && |s| - |data| <= |r|
    decreases |data|
  {
    if data == [] then s else ApplyEvent(ApplyEntry(s, action, data[0]), action, data[1..])
  }

  // ---------------------------------------------------------------------------
  // Lemmas about the specification
  // ---------------------------------------------------------------------------

  /** Processing one more entry at the end of an event is one more `ApplyEntry`. */
  lemma {:induction false} ApplyEventSnoc(s: seq<DrawData>, action: DrawEventAction, data: seq<DrawData>, d: DrawData)
    ensures ApplyEvent(s, action, data + [d]) == ApplyEntry(ApplyEvent(s, action, data), action, d)
    decreases |data|
  {
    if data == [] {
      assert [d][1..] == [];
    } else {
      assert (data + [d])[0] == data[0] && (data + [d])[1..] == data[1..] + [d];
      ApplyEventSnoc(ApplyEntry(s, action, data[0]), action, data[1..], d);
    }
  }

  lemma {:induction false} WithoutAppend(a: seq<DrawData>, b: seq<DrawData>, id: string)
    ensures Without(a + b, id) == Without(a, id) + Without(b, id)
    decreases |a|
  {
    if a != [] {
      assert (a + b)[0] == a[0] && (a + b)[1..] == a[1..] + b;
      WithoutAppend(a[1..], b, id);
      if a[0].id == id {
        calc {
          Without(a + b, id);
          Without(a[1..] + b, id);
          Without(a[1..], id) + Without(b, id);
          Without(a, id) + Without(b, id);
        }
      } else {
        calc {
          Without(a + b, id);
          [a[0]] + Without(a[1..] + b, id);
          [a[0]] + (Without(a[1..], id) + Without(b, id));
          ([a[0]] + Without(a[1..], id)) + Without(b, id);
          Without(a, id) + Without(b, id);
        }
      }
    } else {
      assert a + b == b;
    }
  }

  /** Inserting an entry with the filtered id does not change the filtered list. */
  lemma {:induction false} WithoutInsert(s: seq<DrawData>, p: nat, x: DrawData)
    requires p <= |s|
    ensures Without(InsertAt(s, p, x), x.id) == Without(s, x.id)
  {
    var id := x.id;
    var l, r := s[..p], s[p..];
    InsertAtSlices(s, p, x);
    assert Without([x], id) == [] by {
      assert [x][1..] == [];
    }
    assert InsertAt(s, p, x) == (l + [x]) + r;
    WithoutAppend(l + [x], r, id);
    WithoutAppend(l, [x], id);
    assert Without(l + [x], id) == Without(l, id);
    assert s == l + r;
    WithoutAppend(l, r, id);
  }

  /** Removing an entry with the filtered id does not change the filtered list. */
  lemma {:induction false} WithoutRemove(t: seq<DrawData>, j: nat)
    requires j < |t|
    ensures Without(RemoveAt(t, j), t[j].id) == Without(t, t[j].id)
  {
    var r := RemoveAt(t, j);
    RemoveAtSlices(t, j);
    InsertAtSlices(r, j, t[j]);
    assert InsertAt(r, j, t[j]) == t by {
      assert r[..j] == t[..j] && r[j..] == t[j + 1..];
    }
    WithoutInsert(r, j, t[j]);
  }

  lemma {:induction false} WithoutAbsent(s: seq<DrawData>, id: string)
    requires forall j :: 0 <= j < |s| ==> s[j].id != id
    ensures Without(s, id) == s
    decreases |s|
  {
    if s != [] {
      WithoutAbsent(s[1..], id);
    }
  }

  lemma {:induction false} WithoutElements(s: seq<DrawData>, id: string, x: DrawData)
    ensures x in Without(s, id) <==> x in s && x.id != id
    decreases |s|
  {
    if s != [] {
      WithoutElements(s[1..], id, x);
      assert s == [s[0]] + s[1..];
    }
  }

  lemma {:induction false} WithoutUnique(s: seq<DrawData>, id: string)
    requires UniqueIds(s)
    ensures UniqueIds(Without(s, id))
    decreases |s|
  {
    if s != [] {
      WithoutUnique(s[1..], id);
      var w := Without(s[1..], id);
      forall j | 0 <= j < |w| ensures w[j].id != s[0].id {
        WithoutElements(s[1..], id, w[j]);
        assert w[j] in s[1..];
      }
    }
  }

  /** In a list without duplicates, the id found at position i is found first at i. */
  lemma {:induction false} IndexOfUnique(s: seq<DrawData>, i: int)
    requires UniqueIds(s) && 0 <= i < |s|
    ensures IndexOf(s, s[i].id) == i
  {
  }

  /** Removing the single entry with the id is the same as filtering the id out. */
  lemma {:induction false} RemoveAtIsWithout(s: seq<DrawData>, k: nat)
    requires UniqueIds(s) && k < |s|
    ensures RemoveAt(s, k) == Without(s, s[k].id)
    decreases k
  {
    var t := s[1..];
    assert UniqueIds(t) by {
      forall i, j | 0 <= i < j < |t| ensures t[i].id != t[j].id {
        assert t[i] == s[i + 1] && t[j] == s[j + 1];
      }
    }
    if k == 0 {
      forall j | 0 <= j < |t| ensures t[j].id != s[0].id {
        assert t[j] == s[j + 1];
      }
      WithoutAbsent(t, s[0].id);
    } else {
      assert s[k] == t[k - 1];
      RemoveAtIsWithout(t, k - 1);
    }
  }

  /**
   * Normal form of an upsert on a list without duplicates: the entry is removed from
   * wherever it was and the stored entry is inserted at one position `q`.
   */
  function UpsertPosition(s: seq<DrawData>, d: DrawData): (q: nat)
  {
    var k := IndexOf(s, d.id);
    var p := InsertionPoint(s, d);
    if 0 <= k < p then p - 1 else p
  }

  lemma {:induction false} UpsertNormalForm(s: seq<DrawData>, action: DrawEventAction, d: DrawData)
    requires UniqueIds(s) && Upserts(action, d)
    ensures UpsertPosition(s, d) <= |Without(s, d.id)|
    ensures ApplyEntry(s, action, d) == InsertAt(Without(s, d.id), UpsertPosition(s, d), Stored(d))
  {
    var k := IndexOf(s, d.id);
    var p := InsertionPoint(s, d);
    if k < 0 {
      WithoutAbsent(s, d.id);
    } else {
      RemoveAtIsWithout(s, k);
      if k < p {
        RemoveBeforeInsert(s, k, p, Stored(d));
      } else {
        RemoveAfterInsert(s, k, p, Stored(d));
      }
    }
  }

  lemma {:induction false} RemoveBeforeInsert(s: seq<DrawData>, k: nat, p: nat, x: DrawData)
    requires k < p <= |s|
    ensures RemoveAt(InsertAt(s, p, x), k) == InsertAt(RemoveAt(s, k), p - 1, x)
    decreases k
  {
    var t := InsertAt(s[1..], p - 1, x);
    assert InsertAt(s, p, x) == [s[0]] + t;
    assert ([s[0]] + t)[1..] == t;
    if k > 0 {
      var u := RemoveAt(s[1..], k - 1);
      RemoveBeforeInsert(s[1..], k - 1, p - 1, x);
      assert ([s[0]] + u)[1..] == u;
    }
  }

  lemma {:induction false} RemoveAfterInsert(s: seq<DrawData>, k: nat, p: nat, x: DrawData)
    requires p <= k < |s|
    ensures RemoveAt(InsertAt(s, p, x), k + 1) == InsertAt(RemoveAt(s, k), p, x)
    decreases p
  {
    if p == 0 {
      assert ([x] + s)[1..] == s;
    } else {
      var t := InsertAt(s[1..], p - 1, x);
      assert ([s[0]] + t)[1..] == t;
      var u := RemoveAt(s[1..], k - 1);
      assert ([s[0]] + u)[1..] == u;
      RemoveAfterInsert(s[1..], k - 1, p - 1, x);
    }
  }

  lemma {:induction false} InsertUnique(s: seq<DrawData>, q: nat, x: DrawData)
    requires UniqueIds(s) && q <= |s|
    requires forall j :: 0 <= j < |s| ==> s[j].id != x.id
    ensures UniqueIds(InsertAt(s, q, x))
    ensures InsertAt(s, q, x)[q] == x
  {
    InsertAtSlices(s, q, x);
  }

  /**
   * Every entry other than the processed id keeps its data and its relative order:
   * filtering the processed id out of the list gives the same list before and after.
   */
  lemma {:induction false} ApplyEntryKeepsOthers(s: seq<DrawData>, action: DrawEventAction, d: DrawData)
    ensures Without(ApplyEntry(s, action, d), d.id) == Without(s, d.id)
  {
    var k := IndexOf(s, d.id);
    if Upserts(action, d) {
      var p := InsertionPoint(s, d);
      var t := InsertAt(s, p, Stored(d));
      InsertAtSlices(s, p, Stored(d));
      WithoutInsert(s, p, Stored(d));
      if k >= 0 {
        var j := if k < p then k else k + 1;
        assert t[j].id == d.id;
        WithoutRemove(t, j);
      }
    } else if action != Add && k >= 0 {
      WithoutRemove(s, k);
    }
  }

  /** Processing an entry never creates a duplicate id. */
  lemma {:induction false} ApplyEntryUnique(s: seq<DrawData>, action: DrawEventAction, d: DrawData)
    requires UniqueIds(s)
    ensures UniqueIds(ApplyEntry(s, action, d))
  {
    var k := IndexOf(s, d.id);
    if Upserts(action, d) {
      UpsertNormalForm(s, action, d);
      WithoutUnique(s, d.id);
      InsertUnique(Without(s, d.id), UpsertPosition(s, d), Stored(d));
    } else if action != Add && k >= 0 {
      RemoveAtIsWithout(s, k);
      WithoutUnique(s, d.id);
    }
  }

  /**
   * An add or change whose data is not `undefined` (a `null` placeholder included)
   * leaves the id exactly once in the list, holding the new entry without `aboveId`.
   */
  lemma {:induction false} UpsertLeavesIdOnce(s: seq<DrawData>, action: DrawEventAction, d: DrawData)
    requires UniqueIds(s) && Upserts(action, d)
    ensures var r := ApplyEntry(s, action, d);
      UniqueIds(r) && IndexOf(r, d.id) >= 0 && r[IndexOf(r, d.id)] == Stored(d)
  {
    UpsertNormalForm(s, action, d);
    WithoutUnique(s, d.id);
    var q := UpsertPosition(s, d);
    InsertUnique(Without(s, d.id), q, Stored(d));
    IndexOfUnique(ApplyEntry(s, action, d), q);
  }

  /**
   * The shape of an upsert's result on a list without duplicates: the other entries
   * in their old order, with the stored entry at `UpsertPosition`.
   */
  lemma {:induction false} UpsertShape(s: seq<DrawData>, action: DrawEventAction, d: DrawData)
    requires UniqueIds(s) && Upserts(action, d)
    ensures var r, w, q := ApplyEntry(s, action, d), Without(s, d.id), UpsertPosition(s, d);
      && q <= |w| && |r| == |w| + 1 && UniqueIds(r) && r[q] == Stored(d) && IndexOf(r, d.id) == q
      && (forall i :: 0 <= i < q ==> r[i] == w[i])
      && (forall i :: q < i < |r| ==> r[i] == w[i - 1])
  {
    UpsertNormalForm(s, action, d);
    WithoutUnique(s, d.id);
    InsertShape(Without(s, d.id), UpsertPosition(s, d), Stored(d));
  }

  /** Inserting an entry with a fresh id into a list without duplicates. */
  lemma {:induction false} InsertShape(w: seq<DrawData>, q: nat, x: DrawData)
    requires UniqueIds(w) && q <= |w|
    requires forall j :: 0 <= j < |w| ==> w[j].id != x.id
    ensures var r := InsertAt(w, q, x);
      && UniqueIds(r) && r[q] == x && IndexOf(r, x.id) == q
      && (forall i :: 0 <= i < q ==> r[i] == w[i])
      && (forall i :: q < i < |r| ==> r[i] == w[i - 1])
  {
    InsertUnique(w, q, x);
    InsertAtSlices(w, q, x);
    IndexOfUnique(InsertAt(w, q, x), q);
  }

  /** Upserted with `aboveId` naming another present entry: the entry lands right above it. */
  lemma {:induction false} UpsertAboveOther(s: seq<DrawData>, action: DrawEventAction, d: DrawData)
    requires UniqueIds(s) && Upserts(action, d)
    requires Truthy(d.aboveId) && d.aboveId.value != d.id && IndexOf(s, d.aboveId.value) >= 0
    ensures var r := ApplyEntry(s, action, d);
      IndexOf(r, d.aboveId.value) >= 0 && IndexOf(r, d.id) == IndexOf(r, d.aboveId.value) + 1
  {
    var r, q := ApplyEntry(s, action, d), UpsertPosition(s, d);
    var a, w := IndexOf(s, d.aboveId.value), Without(s, d.id);
    assert q <= |w| && |r| == |w| + 1 && IndexOf(r, d.id) == q && UniqueIds(r)
      && (forall i :: 0 <= i < q ==> r[i] == w[i]) by {
      UpsertShape(s, action, d);
    }
    assert 0 < q && w[q - 1] == s[a] by {
      var k := IndexOf(s, d.id);
      assert InsertionPoint(s, d) == a + 1;
      assert k != a;
      WithoutAt(s, d.id, a);
      if 0 <= k < a {
        assert q == a;
      } else {
        assert q == a + 1;
      }
    }
    assert r[q - 1] == s[a];
    assert IndexOf(r, d.aboveId.value) == q - 1 by {
      IndexOfUnique(r, q - 1);
    }
  }

  /** Where an entry with another id ends up once `id` is filtered out of a list without duplicates. */
  lemma {:induction false} WithoutAt(s: seq<DrawData>, id: string, i: nat)
    requires UniqueIds(s) && i < |s| && s[i].id != id
    ensures var k := IndexOf(s, id);
      var w := Without(s, id);
      (if 0 <= k < i then 0 < i <= |w| && w[i - 1] == s[i] else i < |w| && w[i] == s[i])
  {
    var k := IndexOf(s, id);
    if k < 0 {
      WithoutAbsent(s, id);
    } else {
      RemoveAtIsWithout(s, k);
      RemoveAtSlices(s, k);
    }
  }

  /** Upserted with `aboveId` naming the entry itself: the entry keeps its place. */
  lemma {:induction false} UpsertAboveSelf(s: seq<DrawData>, action: DrawEventAction, d: DrawData)
    requires UniqueIds(s) && Upserts(action, d)
    requires Truthy(d.aboveId) && d.aboveId.value == d.id && IndexOf(s, d.id) >= 0
    ensures IndexOf(ApplyEntry(s, action, d), d.id) == IndexOf(s, d.id)
  {
    UpsertShape(s, action, d);
  }

  /** Upserted with `aboveId` unset or unknown: the entry goes on top. */
  lemma {:induction false} UpsertOnTop(s: seq<DrawData>, action: DrawEventAction, d: DrawData)
    requires UniqueIds(s) && Upserts(action, d)
    requires !(Truthy(d.aboveId) && IndexOf(s, d.aboveId.value) >= 0)
    ensures var r := ApplyEntry(s, action, d); IndexOf(r, d.id) == |r| - 1
  {
    var k := IndexOf(s, d.id);
    UpsertShape(s, action, d);
    if k >= 0 {
      RemoveAtIsWithout(s, k);
    } else {
      WithoutAbsent(s, d.id);
    }
  }

  /**
   * Placement of an upserted entry: directly above `aboveId` when that id is set,
   * indexed and not the entry itself; in its old place when `aboveId` is its own id;
   * otherwise on top (after the tail). On an empty list it is the only entry.
   */
  lemma {:induction false} UpsertPlacement(s: seq<DrawData>, action: DrawEventAction, d: DrawData)
    requires UniqueIds(s) && Upserts(action, d)
    ensures var r := ApplyEntry(s, action, d);
      && (Truthy(d.aboveId) && d.aboveId.value != d.id && IndexOf(s, d.aboveId.value) >= 0 ==>
            IndexOf(r, d.aboveId.value) >= 0 && IndexOf(r, d.id) == IndexOf(r, d.aboveId.value) + 1)
      && (Truthy(d.aboveId) && d.aboveId.value == d.id && IndexOf(s, d.id) >= 0 ==>
            IndexOf(r, d.id) == IndexOf(s, d.id))
      && (!(Truthy(d.aboveId) && IndexOf(s, d.aboveId.value) >= 0) ==>
            IndexOf(r, d.id) == |r| - 1)
      && (s == [] ==> r == [Stored(d)])
  {
    if Truthy(d.aboveId) && d.aboveId.value != d.id && IndexOf(s, d.aboveId.value) >= 0 {
      UpsertAboveOther(s, action, d);
    }
    if Truthy(d.aboveId) && d.aboveId.value == d.id && IndexOf(s, d.id) >= 0 {
      UpsertAboveSelf(s, action, d);
    }
    if !(Truthy(d.aboveId) && IndexOf(s, d.aboveId.value) >= 0) {
      UpsertOnTop(s, action, d);
    }
    if s == [] {
      assert ApplyEntry(s, action, d) == [Stored(d)];
    }
  }

  /**
   * `delete`, and `change` to `undefined`, take the id out of the list; `add` of
   * `undefined` changes nothing, and so does removing an id that is not there.
   */
  lemma {:induction false} RemovalCases(s: seq<DrawData>, action: DrawEventAction, d: DrawData)
    requires UniqueIds(s)
    ensures (action == Delete || (action == Change && d.json == Undefined)) ==>
      ApplyEntry(s, action, d) == Without(s, d.id) && IndexOf(ApplyEntry(s, action, d), d.id) < 0
    ensures (action == Add && d.json == Undefined) ==> ApplyEntry(s, action, d) == s
    ensures !Upserts(action, d) && IndexOf(s, d.id) < 0 ==> ApplyEntry(s, action, d) == s
  {
    var k := IndexOf(s, d.id);
    if k >= 0 {
      RemoveAtIsWithout(s, k);
    } else {
      WithoutAbsent(s, d.id);
    }
  }

  /** Which ids are present after one entry: the processed id per the action, every other id as before. */
  lemma {:induction false} ApplyEntryMembership(s: seq<DrawData>, action: DrawEventAction, d: DrawData, id: string)
    requires UniqueIds(s)
    ensures IndexOf(ApplyEntry(s, action, d), id) >= 0 <==>
      if id == d.id then Upserts(action, d) || (action == Add && IndexOf(s, id) >= 0)
      else IndexOf(s, id) >= 0
  {
    var r := ApplyEntry(s, action, d);
    ApplyEntryUnique(s, action, d);
    RemovalCases(s, action, d);
    if id == d.id {
      if Upserts(action, d) {
        UpsertLeavesIdOnce(s, action, d);
      }
    } else {
      ApplyEntryKeepsOthers(s, action, d);
      IdPresenceWithout(s, d.id, id);
      IdPresenceWithout(r, d.id, id);
    }
  }

  lemma {:induction false} IdPresenceWithout(s: seq<DrawData>, removed: string, id: string)
    requires id != removed
    ensures IndexOf(Without(s, removed), id) >= 0 <==> IndexOf(s, id) >= 0
    decreases |s|
  {
    if s != [] {
      IdPresenceWithout(s[1..], removed, id);
    }
  }

  /** Re-delivering the same entry right away changes nothing. */
  lemma {:induction false} ApplyEntryIdempotent(s: seq<DrawData>, action: DrawEventAction, d: DrawData)
    requires UniqueIds(s)
    ensures ApplyEntry(ApplyEntry(s, action, d), action, d) == ApplyEntry(s, action, d)
  {
    var r := ApplyEntry(s, action, d);
    if Upserts(action, d) {
      UpsertShape(s, action, d);
      UpsertNormalForm(s, action, d);
      UpsertNormalForm(r, action, d);
      ApplyEntryKeepsOthers(s, action, d);
      UpsertPositionStable(s, action, d);
    } else {
      ApplyEntryUnique(s, action, d);
      RemovalCases(s, action, d);
      RemovalCases(r, action, d);
    }
  }

  /** A second upsert of the same entry computes the same position as the first. */
  lemma {:induction false} UpsertPositionStable(s: seq<DrawData>, action: DrawEventAction, d: DrawData)
    requires UniqueIds(s) && Upserts(action, d)
    ensures UpsertPosition(ApplyEntry(s, action, d), d) == UpsertPosition(s, d)
  {
    var r := ApplyEntry(s, action, d);
    UpsertShape(s, action, d);
    if Truthy(d.aboveId) && IndexOf(r, d.aboveId.value) >= 0 {
      if d.aboveId.value != d.id {
        AboveSurvives(s, action, d);
        UpsertAboveOther(s, action, d);
      }
    } else {
      AboveAbsentStays(s, action, d);
      UpsertOnTop(s, action, d);
    }
  }

  /** When `aboveId` names another entry that was present, it is still present after the upsert. */
  lemma {:induction false} AboveSurvives(s: seq<DrawData>, action: DrawEventAction, d: DrawData)
    requires UniqueIds(s) && Upserts(action, d) && Truthy(d.aboveId) && d.aboveId.value != d.id
    requires IndexOf(ApplyEntry(s, action, d), d.aboveId.value) >= 0
    ensures IndexOf(s, d.aboveId.value) >= 0
  {
    ApplyEntryMembership(s, action, d, d.aboveId.value);
  }

  /** When `aboveId` is unset or unknown before the upsert, the same holds after it (the entry went on top). */
  lemma {:induction false} AboveAbsentStays(s: seq<DrawData>, action: DrawEventAction, d: DrawData)
    requires UniqueIds(s) && Upserts(action, d)
    requires !(Truthy(d.aboveId) && IndexOf(ApplyEntry(s, action, d), d.aboveId.value) >= 0)
    ensures !(Truthy(d.aboveId) && IndexOf(s, d.aboveId.value) >= 0)
  {
    if Truthy(d.aboveId) {
      ApplyEntryMembership(s, action, d, d.aboveId.value);
    }
  }

  /** Processing a whole event keeps ids unique. */
  lemma {:induction false} ApplyEventUnique(s: seq<DrawData>, action: DrawEventAction, data: seq<DrawData>)
    requires UniqueIds(s)
    ensures UniqueIds(ApplyEvent(s, action, data))
    decreases |data|
  {
    if data != [] {
      ApplyEntryUnique(s, action, data[0]);
      ApplyEventUnique(ApplyEntry(s, action, data[0]), action, data[1..]);
    }
  }

  /**
   * A cached entry stays cached, unchanged, through every event that does not name
   * its id; only an entry for the same id can remove it.
   */
  lemma {:induction false} UntouchedEntryStays(s: seq<DrawData>, action: DrawEventAction, data: seq<DrawData>, i: int)
    requires UniqueIds(s) && 0 <= i < |s|
    requires forall j :: 0 <= j < |data| ==> data[j].id != s[i].id
    ensures s[i] in ApplyEvent(s, action, data)
    decreases |data|
  {
    if data != [] {
      var d := data[0];
      var r := ApplyEntry(s, action, d);
      ApplyEntryKeepsOthers(s, action, d);
      WithoutElements(s, d.id, s[i]);
      WithoutElements(r, d.id, s[i]);
      ApplyEntryUnique(s, action, d);
      var i' :| 0 <= i' < |r| && r[i'] == s[i];
      UntouchedEntryStays(r, action, data[1..], i');
    }
  }

  /**
   * The worked scenario of a single element: add `a` with content, change it to
   * `null` (kept, now empty), then delete it.
   */
  lemma {:induction false} NullThenDeleteScenario()
    ensures var a := DrawData("a", None, Content("A"));
      && ApplyEntry([], Add, a) == [a]
      && ApplyEntry([a], Change, a.(json := Null)) == [a.(json := Null)]
      && ApplyEntry([a.(json := Null)], Delete, a.(json := Undefined)) == []
  {
    var a := DrawData("a", None, Content("A"));
    assert ApplyEntry([], Add, a) == [a];
    var n := a.(json := Null);
    assert IndexOf([a], "a") == 0;
    assert InsertAt([a], 1, n) == [a, n];
    assert ApplyEntry([a], Change, n) == RemoveAt([a, n], 0);
    assert IndexOf([n], "a") == 0;
  }

  /** A two-entry event is its first entry followed by its second. */
  lemma {:induction false} ApplyEventPair(s: seq<DrawData>, action: DrawEventAction, a: DrawData, b: DrawData)
    ensures ApplyEvent(s, action, [a, b]) == ApplyEntry(ApplyEntry(s, action, a), action, b)
  {
    var s1 := ApplyEntry(s, action, a);
    assert [a, b][1..] == [b];
    assert [b][1..] == [];
    assert ApplyEvent(s, action, [a, b]) == ApplyEvent(s1, action, [b]);
    assert ApplyEvent(s1, action, [b]) == ApplyEvent(ApplyEntry(s1, action, b), action, []);
  }

  /**
   * Re-delivering a multi-entry event is not idempotent: the entries move each other.
   * With `y, z` cached, the event `add x above y; add y` gives `x, z, y` once and
   * `z, x, y` twice.
   */
  lemma {:induction false} EventRedeliveryReorders()
    ensures var y := DrawData("y", None, Content("Y"));
      var z := DrawData("z", None, Content("Z"));
      var x := DrawData("x", Some("y"), Content("X"));
      var ev := [x, y];
      var once := ApplyEvent([y, z], Add, ev);
      && once == [Stored(x), z, y]
      && ApplyEvent(once, Add, ev) == [z, Stored(x), y]
  {
    var y := DrawData("y", None, Content("Y"));
    var z := DrawData("z", None, Content("Z"));
    var x := DrawData("x", Some("y"), Content("X"));
    RedeliveryStep1(x, y, z);
    RedeliveryStep2(x, y, z);
    RedeliveryStep3(x, y, z);
    RedeliveryStep4(x, y, z);
    ApplyEventPair([y, z], Add, x, y);
    ApplyEventPair([Stored(x), z, y], Add, x, y);
  }

  lemma {:induction false} RedeliveryStep1(x: DrawData, y: DrawData, z: DrawData)
    requires x == DrawData("x", Some("y"), Content("X"))
    requires y == DrawData("y", None, Content("Y")) && z == DrawData("z", None, Content("Z"))
    ensures ApplyEntry([y, z], Add, x) == [y, Stored(x), z]
  {
    assert IndexOf([y, z], "x") == -1;
    assert IndexOf([y, z], "y") == 0;
    assert InsertAt([y, z], 1, Stored(x)) == [y, Stored(x), z];
  }

  lemma {:induction false} RedeliveryStep2(x: DrawData, y: DrawData, z: DrawData)
    requires x == DrawData("x", Some("y"), Content("X"))
    requires y == DrawData("y", None, Content("Y")) && z == DrawData("z", None, Content("Z"))
    ensures ApplyEntry([y, Stored(x), z], Add, y) == [Stored(x), z, y]
  {
    var s := [y, Stored(x), z];
    assert IndexOf(s, "y") == 0;
    assert InsertAt(s, 3, y) == [y, Stored(x), z, y];
    assert RemoveAt([y, Stored(x), z, y], 0) == [Stored(x), z, y];
  }

  lemma {:induction false} RedeliveryStep3(x: DrawData, y: DrawData, z: DrawData)
    requires x == DrawData("x", Some("y"), Content("X"))
    requires y == DrawData("y", None, Content("Y")) && z == DrawData("z", None, Content("Z"))
    ensures ApplyEntry([Stored(x), z, y], Add, x) == [z, y, Stored(x)]
  {
    var s := [Stored(x), z, y];
    assert IndexOf(s, "x") == 0;
    assert s[1..] == [z, y] && s[1..][1..] == [y];
    assert IndexOf([y], "y") == 0;
    assert IndexOf([z, y], "y") == 1;
    assert IndexOf(s, "y") == 2;
    assert InsertAt(s, 3, Stored(x)) == [Stored(x), z, y, Stored(x)];
    assert RemoveAt([Stored(x), z, y, Stored(x)], 0) == [z, y, Stored(x)];
  }

  lemma {:induction false} RedeliveryStep4(x: DrawData, y: DrawData, z: DrawData)
    requires x == DrawData("x", Some("y"), Content("X"))
    requires y == DrawData("y", None, Content("Y")) && z == DrawData("z", None, Content("Z"))
    ensures ApplyEntry([z, y, Stored(x)], Add, y) == [z, Stored(x), y]
  {
    var s := [z, y, Stored(x)];
    assert IndexOf(s, "y") == 1;
    assert InsertAt(s, 3, y) == [z, y, Stored(x), y];
    assert RemoveAt([z, y, Stored(x), y], 1) == [z, Stored(x), y];
  }
}
