/** The integer dashboard statistics, recomputed from the inventory whenever it
    changes: items in stock, low-stock alerts and out-of-stock items. */
module Stats {
  import opened Records

  /** Below this quantity (and above zero) an item raises a low-stock alert. */
  const LowStockThreshold: int := 10

  predicate IsLowStock(item: Item) {
    item.fields.quantity > 0 && item.fields.quantity < LowStockThreshold
  }

  predicate IsOutOfStock(item: Item) {
    item.fields.quantity == 0
  }

  predicate IsWellStocked(item: Item) {
    item.fields.quantity >= LowStockThreshold
  }

  predicate IsBelowZero(item: Item) {
    item.fields.quantity < 0
  }

  /** No item has a negative quantity. */
  predicate NonNegativeStock(inventory: seq<Item>) {
    forall k :: 0 <= k < |inventory| ==> inventory[k].fields.quantity >= 0
  }

  /** `inventory.reduce((sum, item) => sum + item.quantity, 0)`, folded from
      the left. Without negative quantities the total bounds every item's
      quantity, and so is itself non-negative. */
  function TotalItems(inventory: seq<Item>): (t: int)
    ensures NonNegativeStock(inventory) ==> 0 <= t
    ensures NonNegativeStock(inventory) ==>
      forall k :: 0 <= k < |inventory| ==> inventory[k].fields.quantity <= t
  {
    if inventory == [] then 0
    else TotalItems(inventory[..|inventory| - 1]) + inventory[|inventory| - 1].fields.quantity
  }

  /** `inventory.filter(p).length`. */
  function Count(inventory: seq<Item>, p: Item -> bool): (n: nat)
    ensures n <= |inventory|
  {
    if inventory == [] then 0
    else Count(inventory[..|inventory| - 1], p) + (if p(inventory[|inventory| - 1]) then 1 else 0)
  }

  datatype DashboardStats = DashboardStats(totalItems: int, lowStockCount: nat, outOfStockCount: nat)

  /** The memoised `dashboardStats`, without the floating-point `totalValue`. */
  function ComputeStats(inventory: seq<Item>): (r: DashboardStats)
    ensures r.lowStockCount + r.outOfStockCount <= |inventory|
    ensures NonNegativeStock(inventory) ==> r.totalItems >= 0
    ensures NonNegativeStock(inventory) ==> (r.totalItems == 0 <==> r.outOfStockCount == |inventory|)
  {
    StockPartition(inventory);
    NonNegativeTotal(inventory);
    DashboardStats(TotalItems(inventory), Count(inventory, IsLowStock), Count(inventory, IsOutOfStock))
  }

  // ----- Lemmas -----

  /** The fold over a concatenation is the sum of the folds. */
  lemma {:induction false} TotalAppend(a: seq<Item>, b: seq<Item>)
    ensures TotalItems(a + b) == TotalItems(a) + TotalItems(b)
  {
    if b == [] {
      assert a + b == a;
    } else {
      var ab := a + b;
      assert ab[..|ab| - 1] == a + b[..|b| - 1];
      assert ab[|ab| - 1] == b[|b| - 1];
      TotalAppend(a, b[..|b| - 1]);
    }
  }

  /** Counting over a concatenation adds the counts. */
  lemma {:induction false} CountAppend(a: seq<Item>, b: seq<Item>, p: Item -> bool)
    ensures Count(a + b, p) == Count(a, p) + Count(b, p)
  {
    if b == [] {
      assert a + b == a;
    } else {
      var ab := a + b;
      assert ab[..|ab| - 1] == a + b[..|b| - 1];
      assert ab[|ab| - 1] == b[|b| - 1];
      CountAppend(a, b[..|b| - 1], p);
    }
  }

  /** The count is the number of positions whose item satisfies the test. */
  lemma {:induction false} CountIsNumberOfPositions(inventory: seq<Item>, p: Item -> bool)
    ensures Count(inventory, p) == |set k | 0 <= k < |inventory| && p(inventory[k])|
  {
    if inventory != [] {
      var n := |inventory| - 1;
      var init := inventory[..n];
      CountIsNumberOfPositions(init, p);
      var before := set k | 0 <= k < n && p(init[k]);
      var after := set k | 0 <= k < |inventory| && p(inventory[k]);
      if p(inventory[n]) {
        assert after == before + {n};
      } else {
        assert after == before;
      }
    }
  }

  /** Every item is in exactly one of four classes: below zero, out of stock,
      low stock or well stocked. In particular the two alert counts are disjoint. */
  lemma {:induction false} StockPartition(inventory: seq<Item>)
    ensures Count(inventory, IsBelowZero) + Count(inventory, IsOutOfStock)
          + Count(inventory, IsLowStock) + Count(inventory, IsWellStocked) == |inventory|
  {
    if inventory != [] {
      StockPartition(inventory[..|inventory| - 1]);
    }
  }

  /** Without negative quantities the total is zero exactly when every item
      is out of stock. */
  lemma {:induction false} NonNegativeTotal(inventory: seq<Item>)
    ensures NonNegativeStock(inventory) ==>
      (TotalItems(inventory) == 0 <==> Count(inventory, IsOutOfStock) == |inventory|)
  {
    if inventory != [] && NonNegativeStock(inventory) {
      var init := inventory[..|inventory| - 1];
      assert forall k :: 0 <= k < |init| ==> init[k] == inventory[k];
      NonNegativeTotal(init);
    }
  }

  /** The total splits around any position. */
  lemma TotalSplit(inventory: seq<Item>, k: int)
    requires 0 <= k < |inventory|
    ensures TotalItems(inventory)
         == TotalItems(inventory[..k]) + inventory[k].fields.quantity + TotalItems(inventory[k + 1..])
  {
    var pre, post := inventory[..k], inventory[k + 1..];
    assert inventory == (pre + [inventory[k]]) + post;
    TotalAppend(pre + [inventory[k]], post);
    TotalAppend(pre, [inventory[k]]);
    assert [inventory[k]][..0] == [];
  }

  /** Replacing one item changes the total by the difference of the quantities. */
  lemma TotalUpdateAt(inventory: seq<Item>, k: int, item: Item)
    requires 0 <= k < |inventory|
    ensures TotalItems(inventory[k := item])
         == TotalItems(inventory) - inventory[k].fields.quantity + item.fields.quantity
  {
    var updated := inventory[k := item];
    TotalSplit(inventory, k);
    TotalSplit(updated, k);
    assert updated[..k] == inventory[..k];
    assert updated[k + 1..] == inventory[k + 1..];
  }

  /** A stock adjustment of a present item moves the total by exactly the
      adjustment; one of an absent identifier does not move it. */
  lemma AdjustChangesTotal(inventory: seq<Item>, itemId: int, adjustment: int)
    requires UniqueIds(inventory)
    ensures TotalItems(AdjustQuantity(inventory, itemId, adjustment))
         == TotalItems(inventory) + (if HasRecordWithId(inventory, itemId) then adjustment else 0)
  {
    if HasRecordWithId(inventory, itemId) {
      var k :| 0 <= k < |inventory| && inventory[k].id == itemId;
      AdjustAt(inventory, itemId, adjustment, k);
      TotalUpdateAt(inventory, k, Adjusted(inventory[k], adjustment));
    } else {
      AdjustAbsent(inventory, itemId, adjustment);
    }
  }

  /** Adjusting one present item by an amount that keeps it non-negative
      changes only that item, keeps a stock without negative quantities so,
      and moves the total by the amount. */
  lemma AdjustKeepsStock(inventory: seq<Item>, k: int, amount: int)
    requires UniqueIds(inventory) && 0 <= k < |inventory|
    requires inventory[k].fields.quantity + amount >= 0
    ensures var r := AdjustQuantity(inventory, inventory[k].id, amount);
      && r == inventory[k := Adjusted(inventory[k], amount)]
      && (forall j :: 0 <= j < |r| && r[j].id == inventory[k].id ==> r[j].fields.quantity >= 0)
      && (NonNegativeStock(inventory) ==> NonNegativeStock(r))
      && TotalItems(r) == TotalItems(inventory) + amount
  {
    var r := AdjustQuantity(inventory, inventory[k].id, amount);
    AdjustAt(inventory, inventory[k].id, amount, k);
    forall j | 0 <= j < |r| && j != k
      ensures r[j].id != inventory[k].id
    {
      DistinctIds(inventory, j, k);
    }
    AdjustChangesTotal(inventory, inventory[k].id, amount);
  }

  /** Adding an item adds its quantity to the total. */
  lemma AddChangesTotal(inventory: seq<Item>, data: Item)
    ensures TotalItems(AddRecord(inventory, data)) == TotalItems(inventory) + data.fields.quantity
  {
    var r := AddRecord(inventory, data);
    assert r[..|r| - 1] == inventory;
  }

  /** Deleting a present item takes its quantity off the total. */
  lemma RemoveChangesTotal(inventory: seq<Item>, k: int)
    requires UniqueIds(inventory) && 0 <= k < |inventory|
    ensures TotalItems(RemoveById(inventory, inventory[k].id))
         == TotalItems(inventory) - inventory[k].fields.quantity
  {
    RemoveAt(inventory, inventory[k].id, k);
    TotalSplit(inventory, k);
    TotalAppend(inventory[..k], inventory[k + 1..]);
  }

  /** For the seed inventory the dashboard shows 403 items in stock, one
      low-stock alert (the keyboard) and one item out of stock (the monitor). */
  lemma SeedStats()
    ensures ComputeStats(SeedInventory) == DashboardStats(403, 1, 1)
  {
    var s := SeedInventory;
    var s1, s2, s3, s4 := s[..1], s[..2], s[..3], s[..4];
    assert s1[..0] == [];
    assert TotalItems(s1) == 150 && Count(s1, IsLowStock) == 0 && Count(s1, IsOutOfStock) == 0;
    assert s2[..1] == s1;
    assert TotalItems(s2) == 158 && Count(s2, IsLowStock) == 1 && Count(s2, IsOutOfStock) == 0;
    assert s3[..2] == s2;
    assert TotalItems(s3) == 203 && Count(s3, IsLowStock) == 1 && Count(s3, IsOutOfStock) == 0;
    assert s4[..3] == s3;
    assert TotalItems(s4) == 403 && Count(s4, IsLowStock) == 1 && Count(s4, IsOutOfStock) == 0;
    assert s[..|s| - 1] == s4;
  }
}
