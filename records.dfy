/** The two record collections of the dashboard, inventory items and customers,
    and the array transformations that the save, delete and adjust-stock
    handlers apply to them (`map`, `filter`, spread and `Math.max`). */
module Records {

  /** A record is an identifier plus the fields of its entity. A submitted
      record whose identifier is 0 is one that carries no identifier: in the
      handlers `if (data.id)` is false for it, as for a missing `id`. */
  datatype Record<F> = Record(id: int, fields: F)

  /** `price` is carried through unchanged; nothing here computes with it. */
  datatype ItemFields = ItemFields(name: string, sku: string, category: string, quantity: int, price: real)

  datatype CustomerFields = CustomerFields(name: string, email: string, phone: string, company: string)

  type Item = Record<ItemFields>

  type Customer = Record<CustomerFields>

  /** The truthiness test `if (data.id)` on a numeric identifier. */
  predicate HasId<F>(r: Record<F>) {
    r.id != 0
  }

  predicate HasRecordWithId<F>(s: seq<Record<F>>, id: int) {
    exists k :: 0 <= k < |s| && s[k].id == id
  }

  /** No two records of the collection share an identifier. */
  predicate UniqueIds<F>(s: seq<Record<F>>) {
    forall i, j :: 0 <= i < j < |s| ==> s[i].id != s[j].id
  }

  /** Every identifier is positive, hence truthy. */
  predicate PositiveIds<F>(s: seq<Record<F>>) {
    forall k :: 0 <= k < |s| ==> s[k].id > 0
  }

  predicate WellKeyed<F>(s: seq<Record<F>>) {
    UniqueIds(s) && PositiveIds(s)
  }

  /** `Math.max(...s.map(r => r.id))` on a non-empty collection. */
  function MaxId<F>(s: seq<Record<F>>): (m: int)
    requires |s| > 0
    ensures forall k :: 0 <= k < |s| ==> s[k].id <= m
    ensures HasRecordWithId(s, m)
  {
    if |s| == 1 then s[0].id
    else
      var rest := MaxId(s[1..]);
      assert forall k :: 1 <= k < |s| ==> s[k] == s[1..][k - 1];
      if s[0].id >= rest then s[0].id else rest
  }

  /** The identifier given to an added record: one more than the largest
      identifier, or 1 for an empty collection. */
  function NextId<F>(s: seq<Record<F>>): (n: int)
    ensures forall k :: 0 <= k < |s| ==> s[k].id < n
    ensures |s| == 0 ==> n == 1
    ensures |s| > 0 ==> HasRecordWithId(s, n - 1)
    ensures PositiveIds(s) ==> n > 0
  {
    if |s| > 0 then MaxId(s) + 1 else 1
  }

  /** `[...s, { ...data, id: newId }]`. */
  function AddRecord<F>(s: seq<Record<F>>, data: Record<F>): (r: seq<Record<F>>)
    ensures |r| == |s| + 1 && r[..|s|] == s
    ensures r[|s|].fields == data.fields && r[|s|].id == NextId(s)
    ensures !HasRecordWithId(s, r[|s|].id)
  {
    s + [data.(id := NextId(s))]
  }

  /** `s.map(r => r.id === data.id ? { ...r, ...data } : r)`. The submitted
      record always carries every field, so the merge is `data` itself. */
  function UpdateById<F>(s: seq<Record<F>>, data: Record<F>): (r: seq<Record<F>>)
    ensures |r| == |s|
    ensures forall k :: 0 <= k < |s| ==> r[k].id == s[k].id
    ensures forall k :: 0 <= k < |s| ==> r[k] == (if s[k].id == data.id then data else s[k])
  {
    if s == [] then []
    else [if s[0].id == data.id then data else s[0]] + UpdateById(s[1..], data)
  }

  /** `s.filter(r => r.id !== id)`. */
  function RemoveById<F>(s: seq<Record<F>>, id: int): (r: seq<Record<F>>)
    ensures |r| <= |s|
    ensures forall k :: 0 <= k < |r| ==> r[k] in s && r[k].id != id
    ensures forall k :: 0 <= k < |s| && s[k].id != id ==> s[k] in r
  {
    if s == [] then []
    else (if s[0].id != id then [s[0]] else []) + RemoveById(s[1..], id)
  }

  /** The save handlers: update the records with the submitted identifier
      when it is truthy, append a record with a fresh identifier otherwise. */
  function SaveRecord<F>(s: seq<Record<F>>, data: Record<F>): (r: seq<Record<F>>)
    ensures HasId(data) ==>
      |r| == |s| && forall k :: 0 <= k < |s| ==> r[k] == (if s[k].id == data.id then data else s[k])
    ensures !HasId(data) ==>
      |r| == |s| + 1 && r[..|s|] == s && r[|s|] == Record(NextId(s), data.fields)
      && !HasRecordWithId(s, r[|s|].id)
  {
    if HasId(data) then UpdateById(s, data) else AddRecord(s, data)
  }

  /** The item with `adjustment` added to its quantity. */
  function Adjusted(item: Item, adjustment: int): (r: Item)
    ensures r.id == item.id
    ensures r.fields.quantity - item.fields.quantity == adjustment
    ensures r.fields.(quantity := item.fields.quantity) == item.fields
  {
    item.(fields := item.fields.(quantity := item.fields.quantity + adjustment))
  }

  /** `inventory.map(i => i.id === itemId ? { ...i, quantity: i.quantity + adjustment } : i)`. */
  function AdjustQuantity(inventory: seq<Item>, itemId: int, adjustment: int): (r: seq<Item>)
    ensures |r| == |inventory|
    ensures forall k :: 0 <= k < |inventory| ==>
      r[k] == (if inventory[k].id == itemId then Adjusted(inventory[k], adjustment) else inventory[k])
  {
    if inventory == [] then []
    else
      [if inventory[0].id == itemId then Adjusted(inventory[0], adjustment) else inventory[0]]
      + AdjustQuantity(inventory[1..], itemId, adjustment)
  }

  // ----- Seed data -----

  const SeedInventory: seq<Item> := [
    Record(1, ItemFields("Wireless Mouse", "WM-1001", "Electronics", 150, 25.99)),
    Record(2, ItemFields("Mechanical Keyboard", "MK-2023", "Electronics", 8, 120.00)),
    Record(3, ItemFields("Ergonomic Office Chair", "OC-500-BLK", "Furniture", 45, 350.50)),
    Record(4, ItemFields("USB-C Hub", "HUB-C-8P", "Accessories", 200, 49.99)),
    Record(5, ItemFields("27-inch 4K Monitor", "MON-4K-27", "Electronics", 0, 450.00))
  ]

  const SeedCustomers: seq<Customer> := [
    Record(1, CustomerFields("John Doe", "john.doe@example.com", "555-1234", "Innovate Inc.")),
    Record(2, CustomerFields("Jane Smith", "jane.smith@example.com", "555-5678", "Solutions Co.")),
    Record(3, CustomerFields("Peter Jones", "peter.jones@example.com", "555-8765", "Tech Forward"))
  ]

  // ----- Lemmas -----

  /** Identifiers that count up by one from `first` are unique, and the
      largest is the last one. */
  lemma {:induction false} CountingIds<F>(s: seq<Record<F>>, first: int)
    requires |s| > 0
    requires forall k :: 0 <= k < |s| ==> s[k].id == first + k
    ensures UniqueIds(s)
    ensures MaxId(s) == first + |s| - 1
  {
    if |s| > 1 {
      CountingIds(s[1..], first + 1);
    }
  }

  /** Both seed collections are well keyed, and the next identifiers are 6 and 4. */
  lemma SeedWellKeyed()
    ensures WellKeyed(SeedInventory) && WellKeyed(SeedCustomers)
    ensures NextId(SeedInventory) == 6 && NextId(SeedCustomers) == 4
  {
    SeedNumbering();
    CountingIds(SeedInventory, 1);
    CountingIds(SeedCustomers, 1);
  }

  /** The seed records are numbered from 1 in order. */
  lemma SeedNumbering()
    ensures forall k :: 0 <= k < |SeedInventory| ==> SeedInventory[k].id == 1 + k
    ensures forall k :: 0 <= k < |SeedCustomers| ==> SeedCustomers[k].id == 1 + k
  {
  }

  /** Adding a record keeps identifiers unique and positive: the new
      identifier exceeds every existing one. */
  lemma AddPreservesWellKeyed<F>(s: seq<Record<F>>, data: Record<F>)
    requires WellKeyed(s)
    ensures WellKeyed(AddRecord(s, data))
  {
    var r := AddRecord(s, data);
    forall i, j | 0 <= i < j < |r|
      ensures r[i].id != r[j].id
    {
      if j < |s| {
        assert r[i] == s[i] && r[j] == s[j];
      } else {
        assert r[i] == s[i];
      }
    }
    forall k | 0 <= k < |r|
      ensures r[k].id > 0
    {
      if k < |s| { assert r[k] == s[k]; }
    }
  }

  /** Updating keeps every identifier where it was, so it keeps them unique. */
  lemma UpdatePreservesWellKeyed<F>(s: seq<Record<F>>, data: Record<F>)
    requires WellKeyed(s)
    ensures WellKeyed(UpdateById(s, data))
  {
  }

  /** With unique identifiers, updating replaces exactly the one record that
      carries the submitted identifier. */
  lemma UpdateAt<F>(s: seq<Record<F>>, data: Record<F>, k: int)
    requires UniqueIds(s) && 0 <= k < |s| && s[k].id == data.id
    ensures UpdateById(s, data) == s[k := data]
  {
    var r := UpdateById(s, data);
    forall j | 0 <= j < |s|
      ensures r[j] == s[k := data][j]
    {
      if j != k {
        assert s[j].id != s[k].id by {
          if j < k { assert s[j].id != s[k].id; } else { assert s[k].id != s[j].id; }
        }
      }
    }
  }

  /** An identifier that no record carries leaves the collection unchanged. */
  lemma UpdateAbsent<F>(s: seq<Record<F>>, data: Record<F>)
    requires !HasRecordWithId(s, data.id)
    ensures UpdateById(s, data) == s
  {
    var r := UpdateById(s, data);
    forall j | 0 <= j < |s|
      ensures r[j] == s[j]
    {
    }
  }

  /** Saving the same record twice is the same as saving it once. */
  lemma UpdateIdempotent<F>(s: seq<Record<F>>, data: Record<F>)
    ensures UpdateById(UpdateById(s, data), data) == UpdateById(s, data)
  {
    var r := UpdateById(s, data);
    var r2 := UpdateById(r, data);
    forall j | 0 <= j < |s|
      ensures r2[j] == r[j]
    {
    }
  }

  /** Whatever path it takes, a save keeps identifiers unique and positive. */
  lemma SavePreservesWellKeyed<F>(s: seq<Record<F>>, data: Record<F>)
    requires WellKeyed(s)
    ensures WellKeyed(SaveRecord(s, data))
  {
    if HasId(data) {
      UpdatePreservesWellKeyed(s, data);
    } else {
      AddPreservesWellKeyed(s, data);
    }
  }

  /** Removal works record by record, so it keeps the order of what it keeps. */
  lemma {:induction false} RemoveAppend<F>(a: seq<Record<F>>, b: seq<Record<F>>, id: int)
    ensures RemoveById(a + b, id) == RemoveById(a, id) + RemoveById(b, id)
  {
    if a == [] {
      assert a + b == b;
    } else {
      assert (a + b)[1..] == a[1..] + b;
      RemoveAppend(a[1..], b, id);
    }
  }

  /** Removing an identifier that no record carries is a no-op. */
  lemma {:induction false} RemoveAbsent<F>(s: seq<Record<F>>, id: int)
    requires !HasRecordWithId(s, id)
    ensures RemoveById(s, id) == s
  {
    if s != [] {
      forall k | 0 <= k < |s[1..]|
        ensures s[1..][k].id != id
      {
        assert s[1..][k] == s[k + 1];
      }
      RemoveAbsent(s[1..], id);
      assert s == [s[0]] + s[1..];
    }
  }

  /** With unique identifiers, two positions carry different identifiers
      (a proof helper: `UniqueIds` with the positions in either order). */
  lemma DistinctIds<F>(s: seq<Record<F>>, i: int, j: int)
    requires UniqueIds(s) && 0 <= i < |s| && 0 <= j < |s| && i != j
    ensures s[i].id != s[j].id
  {
    if j < i {
      assert s[j].id != s[i].id;
    }
  }

  /** With unique identifiers, no record before or after position `k` carries
      the identifier of the record at `k`. */
  lemma OnlyOneWithId<F>(s: seq<Record<F>>, k: int)
    requires UniqueIds(s) && 0 <= k < |s|
    ensures !HasRecordWithId(s[..k], s[k].id)
    ensures !HasRecordWithId(s[k + 1..], s[k].id)
  {
    var pre, post := s[..k], s[k + 1..];
    forall j | 0 <= j < |pre|
      ensures pre[j].id != s[k].id
    {
      assert pre[j] == s[j];
    }
    forall j | 0 <= j < |post|
      ensures post[j].id != s[k].id
    {
      assert post[j] == s[k + 1 + j];
    }
  }

  /** With unique identifiers, removal deletes exactly the one record that
      carries the identifier and keeps all the others in order. */
  lemma RemoveAt<F>(s: seq<Record<F>>, id: int, k: int)
    requires UniqueIds(s) && 0 <= k < |s| && s[k].id == id
    ensures RemoveById(s, id) == s[..k] + s[k + 1..]
    ensures |RemoveById(s, id)| == |s| - 1
  {
    OnlyOneWithId(s, k);
    RemoveAbsent(s[..k], id);
    RemoveAbsent(s[k + 1..], id);
    RemoveAround(s, id, k);
    RemoveHead(s[k..], id);
    assert s[k..][1..] == s[k + 1..];
  }

  /** Removal splits at any position. */
  lemma RemoveAround<F>(s: seq<Record<F>>, id: int, k: int)
    requires 0 <= k < |s|
    ensures RemoveById(s, id) == RemoveById(s[..k], id) + RemoveById(s[k..], id)
  {
    assert s == s[..k] + s[k..];
    RemoveAppend(s[..k], s[k..], id);
  }

  /** A head that carries the identifier is dropped. */
  lemma RemoveHead<F>(s: seq<Record<F>>, id: int)
    requires s != [] && s[0].id == id
    ensures RemoveById(s, id) == RemoveById(s[1..], id)
  {
  }

  /** Removal keeps identifiers positive. */
  lemma RemoveKeepsPositiveIds<F>(s: seq<Record<F>>, id: int)
    requires PositiveIds(s)
    ensures PositiveIds(RemoveById(s, id))
  {
    var r := RemoveById(s, id);
    forall k | 0 <= k < |r|
      ensures r[k].id > 0
    {
      assert r[k] in s;
    }
  }

  /** Removal brings in no identifier that was not there. */
  lemma RemoveKeepsAbsent<F>(s: seq<Record<F>>, id: int, x: int)
    requires !HasRecordWithId(s, x)
    ensures !HasRecordWithId(RemoveById(s, id), x)
  {
    var r := RemoveById(s, id);
    forall m | 0 <= m < |r|
      ensures r[m].id != x
    {
      assert r[m] in s;
    }
  }

  /** A collection with unique identifiers splits into a head whose identifier
      the tail does not carry and a tail with unique identifiers. */
  lemma UniqueTail<F>(s: seq<Record<F>>)
    requires UniqueIds(s) && s != []
    ensures UniqueIds(s[1..])
    ensures !HasRecordWithId(s[1..], s[0].id)
  {
    var tail := s[1..];
    forall i, j | 0 <= i < j < |tail|
      ensures tail[i].id != tail[j].id
    {
      assert tail[i] == s[i + 1] && tail[j] == s[j + 1];
    }
    OnlyOneWithId(s, 0);
  }

  /** Putting a record in front of a collection that does not carry its
      identifier keeps identifiers unique. */
  lemma UniqueCons<F>(head: Record<F>, tail: seq<Record<F>>)
    requires UniqueIds(tail) && !HasRecordWithId(tail, head.id)
    ensures UniqueIds([head] + tail)
  {
    var r := [head] + tail;
    forall i, j | 0 <= i < j < |r|
      ensures r[i].id != r[j].id
    {
      assert r[j] == tail[j - 1];
      if i > 0 {
        assert r[i] == tail[i - 1];
      }
    }
  }

  /** Removal keeps identifiers unique. */
  lemma {:induction false} RemoveKeepsUniqueIds<F>(s: seq<Record<F>>, id: int)
    requires UniqueIds(s)
    ensures UniqueIds(RemoveById(s, id))
  {
    if s != [] {
      UniqueTail(s);
      RemoveKeepsUniqueIds(s[1..], id);
      if s[0].id != id {
        RemoveKeepsAbsent(s[1..], id, s[0].id);
        UniqueCons(s[0], RemoveById(s[1..], id));
      }
    }
  }

  /** Removal keeps identifiers unique and positive. */
  lemma RemovePreservesWellKeyed<F>(s: seq<Record<F>>, id: int)
    requires WellKeyed(s)
    ensures WellKeyed(RemoveById(s, id))
  {
    RemoveKeepsPositiveIds(s, id);
    RemoveKeepsUniqueIds(s, id);
  }

  /** With unique identifiers, adjusting touches exactly the one record with
      that identifier, and only its quantity. */
  lemma AdjustAt(inventory: seq<Item>, itemId: int, adjustment: int, k: int)
    requires UniqueIds(inventory) && 0 <= k < |inventory| && inventory[k].id == itemId
    ensures AdjustQuantity(inventory, itemId, adjustment) == inventory[k := Adjusted(inventory[k], adjustment)]
  {
    var r := AdjustQuantity(inventory, itemId, adjustment);
    forall j | 0 <= j < |inventory|
      ensures r[j] == inventory[k := Adjusted(inventory[k], adjustment)][j]
    {
      if j != k {
        if j < k { assert inventory[j].id != inventory[k].id; }
        else { assert inventory[k].id != inventory[j].id; }
      }
    }
  }

  /** Adjusting a quantity changes no identifier, so it keeps them unique. */
  lemma AdjustPreservesWellKeyed(inventory: seq<Item>, itemId: int, adjustment: int)
    requires WellKeyed(inventory)
    ensures WellKeyed(AdjustQuantity(inventory, itemId, adjustment))
  {
    var r := AdjustQuantity(inventory, itemId, adjustment);
    assert forall k :: 0 <= k < |r| ==> r[k].id == inventory[k].id;
  }

  /** Adjustments compose by adding their amounts, and a zero adjustment
      changes nothing. */
  lemma AdjustedComposes(item: Item, a: int, b: int)
    ensures Adjusted(Adjusted(item, a), b) == Adjusted(item, a + b)
    ensures Adjusted(item, 0) == item
  {
  }

  /** Adjusting an identifier that no item carries leaves the inventory unchanged. */
  lemma AdjustAbsent(inventory: seq<Item>, itemId: int, adjustment: int)
    requires !HasRecordWithId(inventory, itemId)
    ensures AdjustQuantity(inventory, itemId, adjustment) == inventory
  {
    var r := AdjustQuantity(inventory, itemId, adjustment);
    forall j | 0 <= j < |inventory|
      ensures r[j] == inventory[j]
    {
    }
  }
}
