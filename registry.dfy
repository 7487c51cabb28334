/**
 * The per-room registries of the mediasoup handler: lists of `{userId, <handle>}`
 * records searched with `find`, thinned with `filter`, and summarised for the
 * `produce` response. Everything here is pure.
 */
module Registry {
  import opened Results

  type Id = string
  type UserId = string

  /** An engine object (router, transport, producer or consumer), seen only through its id. */
  datatype Handle = Handle(id: Id)

  /** One record of a registry: the owning user and the engine object. */
  datatype Entry = Entry(userId: UserId, handle: Handle)

  /** Which records a `filter` drops: those of one user, or those carrying one engine id. */
  datatype Selector = ByUser(userId: UserId) | ById(id: Id)

  predicate Selects(sel: Selector, e: Entry) {
    match sel
    case ByUser(u) => e.userId == u
    case ById(i) => e.handle.id == i
  }

  /** `items.filter(item => !selected(item))`. */
  function Without(items: seq<Entry>, sel: Selector): (r: seq<Entry>)
    ensures forall e :: e in r <==> e in items && !Selects(sel, e)
    ensures |r| <= |items|
  {
    if items == [] then []
    else if Selects(sel, items[0]) then Without(items[1..], sel)
    else [items[0]] + Without(items[1..], sel)
  }

  /** Filtering distributes over concatenation: the survivors keep their original order. */
  lemma {:induction false} WithoutAppend(a: seq<Entry>, b: seq<Entry>, sel: Selector)
    ensures Without(a + b, sel) == Without(a, sel) + Without(b, sel)
  {
    if a == [] {
      assert a + b == b;
    } else {
      assert (a + b)[0] == a[0];
      assert (a + b)[1..] == a[1..] + b;
      WithoutAppend(a[1..], b, sel);
    }
  }

  /** A filter that selects nothing returns the list unchanged. */
  lemma {:induction false} WithoutNothingSelected(items: seq<Entry>, sel: Selector)
    requires forall e :: e in items ==> !Selects(sel, e)
    ensures Without(items, sel) == items
  {
    if items != [] {
      assert items[0] in items;
      WithoutNothingSelected(items[1..], sel);
    }
  }

  /** Filtering twice with the same selector is filtering once. */
  lemma WithoutIdempotent(items: seq<Entry>, sel: Selector)
    ensures Without(Without(items, sel), sel) == Without(items, sel)
  {
    WithoutNothingSelected(Without(items, sel), sel);
  }

  /** No two records of a registry carry the same engine id. */
  predicate Unique(items: seq<Entry>) {
    forall i, j :: 0 <= i < j < |items| ==> items[i].handle.id != items[j].handle.id
  }

  /** No record of `items` carries engine id `id`. */
  predicate FreshIn(items: seq<Entry>, id: Id) {
    forall e :: e in items ==> e.handle.id != id
  }

  /** Appending a record with a fresh id keeps the ids unique. */
  lemma UniqueAppend(items: seq<Entry>, e: Entry)
    requires Unique(items) && FreshIn(items, e.handle.id)
    ensures Unique(items + [e])
  {
    forall i, j | 0 <= i < j < |items + [e]|
      ensures (items + [e])[i].handle.id != (items + [e])[j].handle.id
    {
      if j == |items| {
        assert items[i] in items;
      }
    }
  }

  /** Dropping the first record keeps the ids unique. */
  lemma UniqueTail(items: seq<Entry>)
    requires Unique(items) && items != []
    ensures Unique(items[1..])
  {
    forall i, j | 0 <= i < j < |items[1..]| ensures items[1..][i].handle.id != items[1..][j].handle.id {
      assert items[1..][i] == items[i + 1] && items[1..][j] == items[j + 1];
    }
  }

  /** Filtering keeps ids unique. */
  lemma {:induction false} WithoutUnique(items: seq<Entry>, sel: Selector)
    requires Unique(items)
    ensures Unique(Without(items, sel))
  {
    if items != [] {
      var tail := items[1..];
      UniqueTail(items);
      WithoutUnique(tail, sel);
      if !Selects(sel, items[0]) {
        var rest := Without(tail, sel);
        assert FreshIn(rest, items[0].handle.id) by {
          forall e | e in rest ensures e.handle.id != items[0].handle.id {
            var k :| 0 <= k < |tail| && tail[k] == e;
            assert tail[k] == items[k + 1];
          }
        }
        forall i, j | 0 <= i < j < |[items[0]] + rest|
          ensures ([items[0]] + rest)[i].handle.id != ([items[0]] + rest)[j].handle.id
        {
          if i == 0 {
            assert ([items[0]] + rest)[j] == rest[j - 1];
            assert rest[j - 1] in rest;
          } else {
            assert ([items[0]] + rest)[i] == rest[i - 1];
            assert ([items[0]] + rest)[j] == rest[j - 1];
          }
        }
      }
    }
  }

  /** With unique ids, dropping the first record's id removes that record alone. */
  lemma WithoutIdHead(items: seq<Entry>)
    requires Unique(items) && items != []
    ensures Without(items, ById(items[0].handle.id)) == items[1..]
  {
    var id := items[0].handle.id;
    var tail := items[1..];
    assert FreshIn(tail, id) by {
      forall e | e in tail ensures e.handle.id != id {
        var j :| 0 <= j < |tail| && tail[j] == e;
        assert tail[j] == items[j + 1];
      }
    }
    WithoutNothingSelected(tail, ById(id));
  }

  /**
   * When ids are unique, dropping the id of the record at `k` removes exactly that
   * record and leaves every other one in place and in order.
   */
  lemma {:induction false} WithoutIdRemovesExactlyOne(items: seq<Entry>, k: nat)
    requires Unique(items) && k < |items|
    ensures Without(items, ById(items[k].handle.id)) == items[..k] + items[k + 1..]
  {
    if k == 0 {
      WithoutIdHead(items);
      assert items[..0] + items[1..] == items[1..];
    } else {
      var tail := items[1..];
      UniqueTail(items);
      assert tail[k - 1] == items[k];
      WithoutIdRemovesExactlyOne(tail, k - 1);
      assert items[0].handle.id != items[k].handle.id;
      assert items[..k] == [items[0]] + tail[..k - 1];
      assert items[k + 1..] == tail[k..];
    }
  }

  /** The record `find` looks for: the given engine id, owned by the given user. */
  predicate Matches(e: Entry, id: Id, userId: UserId) {
    e.handle.id == id && e.userId == userId
  }

  /** `items.find(...)`, as the index of the first matching record. */
  function Find(items: seq<Entry>, id: Id, userId: UserId): (k: Option<nat>)
    ensures k.Some? ==> k.value < |items| && Matches(items[k.value], id, userId)
    ensures k.Some? ==> forall j :: 0 <= j < k.value ==> !Matches(items[j], id, userId)
    ensures k.None? <==> forall e :: e in items ==> !Matches(e, id, userId)
  {
    if items == [] then None
    else if Matches(items[0], id, userId) then Some(0)
    else
      match Find(items[1..], id, userId)
      case None => None
      case Some(j) => Some(j + 1)
  }

  /** A record just appended with a fresh id is the one `find` returns for that id and user. */
  lemma {:induction false} FindAppendedFresh(items: seq<Entry>, e: Entry)
    requires FreshIn(items, e.handle.id)
    ensures Find(items + [e], e.handle.id, e.userId) == Some(|items|)
  {
    var all := items + [e];
    if items == [] {
      assert all == [e];
    } else {
      assert items[0] in items;
      assert all[0] == items[0] && all[1..] == items[1..] + [e];
      assert FreshIn(items[1..], e.handle.id) by {
        forall x | x in items[1..] ensures x.handle.id != e.handle.id {
          assert x in items;
        }
      }
      FindAppendedFresh(items[1..], e);
    }
  }

  /** Once a user's records are filtered out, `find` never returns one for that user. */
  lemma FindAfterWithoutUser(items: seq<Entry>, id: Id, userId: UserId)
    ensures Find(Without(items, ByUser(userId)), id, userId) == None
  {
  }

  /** `items.filter(item => item.userId === userId).map(item => item.<handle>.id)`. */
  function UserIds(items: seq<Entry>, userId: UserId): (r: seq<Id>)
    ensures |r| + |Without(items, ByUser(userId))| == |items|
    ensures forall id :: id in r <==> exists e :: e in items && e.userId == userId && e.handle.id == id
  {
    if items == [] then []
    else if items[0].userId == userId then
      assert forall e :: e in items <==> e == items[0] || e in items[1..];
      [items[0].handle.id] + UserIds(items[1..], userId)
    else
      assert forall e :: e in items <==> e == items[0] || e in items[1..];
      UserIds(items[1..], userId)
  }

  /** The ids whose engine objects `removeItems` closes for `userId`. */
  function ClosedBy(items: seq<Entry>, userId: UserId): (ids: set<Id>)
    ensures forall id :: id in ids <==> id in UserIds(items, userId)
  {
    set e | e in items && e.userId == userId :: e.handle.id
  }

  /** Closing the records of a one-longer prefix closes at most one more id. */
  lemma ClosedByStep(items: seq<Entry>, i: nat, userId: UserId)
    requires i < |items|
    ensures ClosedBy(items[..i + 1], userId)
         == ClosedBy(items[..i], userId) + (if items[i].userId == userId then {items[i].handle.id} else {})
  {
    assert items[..i + 1] == items[..i] + [items[i]];
    assert forall e :: e in items[..i + 1] <==> e in items[..i] || e == items[i];
  }

  /** The loop step of `removeItems`: a set that has closed a prefix, plus this step's id, has closed one more record. */
  lemma ClosedByExtend(before: set<Id>, acc: set<Id>, items: seq<Entry>, i: nat, userId: UserId)
    requires i < |items|
    requires acc == before + ClosedBy(items[..i], userId)
    ensures acc + (if items[i].userId == userId then {items[i].handle.id} else {})
         == before + ClosedBy(items[..i + 1], userId)
  {
    ClosedByStep(items, i, userId);
  }

  /** One element of the `producers` list in the response of `transportProduce`. */
  datatype ProducerInfo = ProducerInfo(producerId: Id, userId: UserId)

  /** The `.filter(data => data !== null && data !== undefined)` stage. */
  function Defined(xs: seq<Option<ProducerInfo>>): (r: seq<ProducerInfo>)
    ensures forall x :: x in r <==> Some(x) in xs
    ensures |r| <= |xs|
  {
    if xs == [] then []
    else
      assert forall o :: o in xs <==> o == xs[0] || o in xs[1..];
      match xs[0]
      case None => Defined(xs[1..])
      case Some(x) => [x] + Defined(xs[1..])
  }

  lemma {:induction false} DefinedAppend(a: seq<Option<ProducerInfo>>, b: seq<Option<ProducerInfo>>)
    ensures Defined(a + b) == Defined(a) + Defined(b)
  {
    if a == [] {
      assert a + b == b;
    } else {
      assert (a + b)[0] == a[0];
      assert (a + b)[1..] == a[1..] + b;
      DefinedAppend(a[1..], b);
    }
  }

  /** The `.map(...)` stage, one optional summary per record. */
  function MapInfo(items: seq<Entry>, userId: UserId): (r: seq<Option<ProducerInfo>>)
    ensures |r| == |items|
    ensures forall i :: 0 <= i < |items| ==> (r[i].Some? <==> items[i].userId != userId)
    ensures forall i :: 0 <= i < |items| && r[i].Some? ==> r[i].value == ProducerInfo(items[i].handle.id, items[i].userId)
  {
    if items == [] then []
    else
      var info := if items[0].userId != userId then Some(ProducerInfo(items[0].handle.id, items[0].userId)) else None;
      [info] + MapInfo(items[1..], userId)
  }

  /** The `map` stage distributes over concatenation. */
  lemma {:induction false} MapInfoAppend(a: seq<Entry>, b: seq<Entry>, userId: UserId)
    ensures MapInfo(a + b, userId) == MapInfo(a, userId) + MapInfo(b, userId)
  {
    if a == [] {
      assert a + b == b;
    } else {
      assert (a + b)[0] == a[0];
      assert (a + b)[1..] == a[1..] + b;
      MapInfoAppend(a[1..], b, userId);
    }
  }

  /** The producers of the room's other peers, as `transportProduce` reports them. */
  function OtherProducers(items: seq<Entry>, userId: UserId): (r: seq<ProducerInfo>)
    ensures |r| <= |items|
    ensures forall x :: x in r ==> x.userId != userId
  {
    Defined(MapInfo(items, userId))
  }

  /** A summary is listed exactly when some other peer's record produced it. */
  lemma OtherProducersMembers(items: seq<Entry>, userId: UserId, p: ProducerInfo)
    ensures p in OtherProducers(items, userId)
        <==> exists e :: e in items && e.userId != userId && p == ProducerInfo(e.handle.id, e.userId)
  {
    var xs := MapInfo(items, userId);
    if p in OtherProducers(items, userId) {
      assert Some(p) in xs;
      var i :| 0 <= i < |xs| && xs[i] == Some(p);
      assert items[i] in items;
    }
    if e :| e in items && e.userId != userId && p == ProducerInfo(e.handle.id, e.userId) {
      var i :| 0 <= i < |items| && items[i] == e;
      assert xs[i] == Some(p);
    }
  }

  /** The response list of a concatenated registry is the concatenation of the response lists. */
  lemma OtherProducersAppend(a: seq<Entry>, b: seq<Entry>, userId: UserId)
    ensures OtherProducers(a + b, userId) == OtherProducers(a, userId) + OtherProducers(b, userId)
  {
    MapInfoAppend(a, b, userId);
    DefinedAppend(MapInfo(a, userId), MapInfo(b, userId));
  }

  /** The summaries of the records of a registry, in order. */
  function Infos(items: seq<Entry>): (r: seq<ProducerInfo>)
    ensures |r| == |items|
    ensures forall i :: 0 <= i < |items| ==> r[i] == ProducerInfo(items[i].handle.id, items[i].userId)
  {
    if items == [] then [] else [ProducerInfo(items[0].handle.id, items[0].userId)] + Infos(items[1..])
  }

  /**
   * The map-then-drop-undefined of the source lists exactly the other peers' records,
   * in registry order: it equals summarising the registry filtered by user.
   */
  lemma {:induction false} OtherProducersInOrder(items: seq<Entry>, userId: UserId)
    ensures OtherProducers(items, userId) == Infos(Without(items, ByUser(userId)))
  {
    if items != [] {
      var xs := MapInfo(items, userId);
      assert xs[1..] == MapInfo(items[1..], userId);
      OtherProducersInOrder(items[1..], userId);
      if items[0].userId != userId {
        var w := Without(items[1..], ByUser(userId));
        assert ([items[0]] + w)[1..] == w;
      }
    }
  }

  /** A caller's own new producer never shows up in the caller's own `producers` list. */
  lemma ProducingHidesOwn(items: seq<Entry>, userId: UserId, producer: Handle)
    ensures OtherProducers(items + [Entry(userId, producer)], userId) == OtherProducers(items, userId)
  {
    OtherProducersAppend(items, [Entry(userId, producer)], userId);
    assert MapInfo([Entry(userId, producer)], userId)[1..] == [];
  }

  /** Another peer producing appends exactly its summary to everyone else's `producers` list. */
  lemma ProducingShowsToOthers(items: seq<Entry>, owner: UserId, producer: Handle, userId: UserId)
    requires owner != userId
    ensures OtherProducers(items + [Entry(owner, producer)], userId)
         == OtherProducers(items, userId) + [ProducerInfo(producer.id, owner)]
  {
    OtherProducersAppend(items, [Entry(owner, producer)], userId);
    assert MapInfo([Entry(owner, producer)], userId)[1..] == [];
  }
}
