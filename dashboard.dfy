/**
  The three summary figures the dashboard derives from the inventory list:
  how many items there are, how many are low on stock, and what the whole
  stock is worth.
*/
module Dashboard {
  import opened Inventory

  /** `totalItems`: `inventory.length`. */
  function TotalItems(inv: seq<Item>): nat {
    |inv|
  }

  /** `lowStockItems`: `inventory.filter(item => item.stock < item.threshold).length`. */
  function LowStockCount(inv: seq<Item>): (n: nat)
    ensures n <= TotalItems(inv)
    ensures n == 0 <==> forall k :: 0 <= k < |inv| ==> !IsLowStock(inv[k])
  {
    if inv == [] then 0
    else
      var n := (if IsLowStock(inv[0]) then 1 else 0) + LowStockCount(inv[1..]);
      assert forall k :: 1 <= k < |inv| ==> inv[k] == inv[1..][k - 1];
      n
  }

  /** `totalValue`: `inventory.reduce((sum, item) => sum + item.stock * item.cost, 0)`, folded from the left as `reduce` does. */
  function TotalValue(inv: seq<Item>): real {
    if inv == [] then 0.0 else TotalValue(inv[..|inv| - 1]) + ItemValue(inv[|inv| - 1])
  }

  /** When no stock and no cost is negative, neither is the total value. */
  lemma {:induction false} TotalValueNonNegative(inv: seq<Item>)
    requires forall k :: 0 <= k < |inv| ==> inv[k].stock >= 0.0 && inv[k].cost >= 0.0
    ensures TotalValue(inv) >= 0.0
  {
    if inv != [] {
      var last := inv[|inv| - 1];
      TotalValueNonNegative(inv[..|inv| - 1]);
      assert last.stock * last.cost >= 0.0;
    }
  }

  /** The value of two lists laid end to end is the sum of their values. */
  lemma {:induction false} TotalValueConcat(a: seq<Item>, b: seq<Item>)
    ensures TotalValue(a + b) == TotalValue(a) + TotalValue(b)
  {
    if b == [] {
      assert a + b == a;
    } else {
      var b' := b[..|b| - 1];
      assert (a + b)[..|a + b| - 1] == a + b';
      TotalValueConcat(a, b');
    }
  }

  /**
    Adding an item raises the item count by one, the low-stock count by one
    exactly when the new item is low, and the total value by the new item's value.
  */
  lemma StatsAfterAdd(inv: seq<Item>, d: ItemData, id: Id)
    ensures TotalItems(AddItem(inv, d, id)) == TotalItems(inv) + 1
    ensures LowStockCount(AddItem(inv, d, id)) == LowStockCount(inv) + (if IsLowStock(NewItem(d, id)) then 1 else 0)
    ensures TotalValue(AddItem(inv, d, id)) == TotalValue(inv) + ItemValue(NewItem(d, id))
  {
    LowStockCountConcat(inv, [NewItem(d, id)]);
    TotalValueConcat(inv, [NewItem(d, id)]);
  }

  /** The low-stock count of two lists laid end to end is the sum of their counts. */
  lemma {:induction false} LowStockCountConcat(a: seq<Item>, b: seq<Item>)
    ensures LowStockCount(a + b) == LowStockCount(a) + LowStockCount(b)
  {
    if a == [] {
      assert a + b == b;
    } else {
      assert (a + b)[1..] == a[1..] + b;
      LowStockCountConcat(a[1..], b);
    }
  }

  /** Deleting an id removes exactly the value of the items that carried it. */
  lemma {:induction false} TotalValueAfterDelete(inv: seq<Item>, id: Id)
    ensures TotalValue(DeleteById(inv, id)) == TotalValue(inv) - ValueOfId(inv, id)
  {
    if inv != [] {
      var rest := inv[1..];
      assert inv == [inv[0]] + rest;
      TotalValueConcat([inv[0]], rest);
      TotalValueAfterDelete(rest, id);
      var head := if inv[0].id == id then [] else [inv[0]];
      TotalValueConcat(head, DeleteById(rest, id));
      assert TotalValue([inv[0]]) == ItemValue(inv[0]) by {
        assert [inv[0]][..0] == [];
      }
    }
  }

  /** The combined value of the items carrying `id`. */
  function ValueOfId(inv: seq<Item>, id: Id): real {
    if inv == [] then 0.0 else (if inv[0].id == id then ItemValue(inv[0]) else 0.0) + ValueOfId(inv[1..], id)
  }

  /** The dashboard at start-up: eight items, none low on stock, worth 463.5 in all. */
  lemma InitialStats()
    ensures TotalItems(InitialInventory) == 8
    ensures LowStockCount(InitialInventory) == 0
    ensures TotalValue(InitialInventory) == 463.5
  {
    var s := InitialInventory;
    assert s[..7][..6][..5][..4][..3][..2][..1][..0] == [];
    assert TotalValue(s[..1]) == 40.0;
    assert TotalValue(s[..2]) == 230.0 by { assert s[..2][..1] == s[..1]; }
    assert TotalValue(s[..3]) == 263.0 by { assert s[..3][..2] == s[..2]; }
    assert TotalValue(s[..4]) == 383.0 by { assert s[..4][..3] == s[..3]; }
    assert TotalValue(s[..5]) == 403.0 by { assert s[..5][..4] == s[..4]; }
    assert TotalValue(s[..6]) == 424.0 by { assert s[..6][..5] == s[..5]; }
    assert TotalValue(s[..7]) == 439.0 by { assert s[..7][..6] == s[..6]; }
    assert s[..8] == s;
  }
}
