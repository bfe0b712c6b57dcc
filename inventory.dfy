/**
  The inventory list of the pizza restaurant and the store operations the top
  level component (`PizzaInventorySystem`) performs on it: merge an update into
  the item with a given id, drop the items with a given id, and append a new
  item. Each operation builds a new list from the previous one, as the
  component's `setInventory(prev => ...)` updaters do.
*/
module Inventory {
  import opened Wrappers

  type Id = string

  /** One inventory record. Quantities and prices are exact reals. */
  datatype Item = Item(id: Id, name: string, stock: real, unit: string, threshold: real, cost: real)

  /** The fields of an item other than its id, as the item form hands them to `onSave`. */
  datatype ItemData = ItemData(name: string, stock: real, unit: string, threshold: real, cost: real)

  /**
    A partial object spread over an item (`{ ...item, ...updates }`): each
    present field replaces the item's own. It has no id field, so no update
    can change an id.
  */
  datatype Patch = Patch(name: Option<string>, stock: Option<real>, unit: Option<string>,
                         threshold: Option<real>, cost: Option<real>)

  /** `{ stock: s }`: the update sent by the stock buttons and the command interpreter. */
  function StockPatch(s: real): Patch {
    Patch(None, Some(s), None, None, None)
  }

  /** The whole saved form as an update: every field but the id. */
  function DataPatch(d: ItemData): Patch {
    Patch(Some(d.name), Some(d.stock), Some(d.unit), Some(d.threshold), Some(d.cost))
  }

  function Pick<T>(o: Option<T>, fallback: T): T {
    match o
    case Some(v) => v
    case None => fallback
  }

  /** `{ ...item, ...p }`. */
  function Merge(item: Item, p: Patch): Item {
    Item(item.id, Pick(p.name, item.name), Pick(p.stock, item.stock), Pick(p.unit, item.unit),
         Pick(p.threshold, item.threshold), Pick(p.cost, item.cost))
  }

  /** The item a save in "add" mode appends: the form's fields under a new id. */
  function NewItem(d: ItemData, id: Id): Item {
    Item(id, d.name, d.stock, d.unit, d.threshold, d.cost)
  }

  /** The fields of an item other than its id. */
  function DataOf(item: Item): ItemData {
    ItemData(item.name, item.stock, item.unit, item.threshold, item.cost)
  }

  // ---------------------------------------------------------------- ids

  predicate HasId(inv: seq<Item>, id: Id) {
    exists k :: 0 <= k < |inv| && inv[k].id == id
  }

  /** No two items share an id. */
  predicate UniqueIds(inv: seq<Item>) {
    forall i, j :: 0 <= i < j < |inv| ==> inv[i].id != inv[j].id
  }

  /** The number of items carrying the id `id`. */
  function CountId(inv: seq<Item>, id: Id): (n: nat)
    ensures n <= |inv|
  {
    if inv == [] then 0 else (if inv[0].id == id then 1 else 0) + CountId(inv[1..], id)
  }

  // ---------------------------------------------------------------- update

  /** `handleUpdateStock(id, updates)`: `prev.map(item => item.id === id ? { ...item, ...updates } : item)`. */
  function UpdateById(inv: seq<Item>, id: Id, p: Patch): (r: seq<Item>)
    ensures |r| == |inv|
  {
    if inv == [] then []
    else [if inv[0].id == id then Merge(inv[0], p) else inv[0]] + UpdateById(inv[1..], id, p)
  }

  /**
    An update keeps the length and the order of the list and every id; the
    items with the target id, and only those, receive the merged fields.
  */
  lemma {:induction false} UpdateByIdSpec(inv: seq<Item>, id: Id, p: Patch)
    ensures |UpdateById(inv, id, p)| == |inv|
    ensures forall k :: 0 <= k < |inv| ==>
      UpdateById(inv, id, p)[k] == if inv[k].id == id then Merge(inv[k], p) else inv[k]
    ensures forall k :: 0 <= k < |inv| ==> UpdateById(inv, id, p)[k].id == inv[k].id
  {
    if inv != [] {
      UpdateByIdSpec(inv[1..], id, p);
    }
  }

  /** Updating the id of an item whose id no other item carries replaces just that item. */
  lemma UpdateAt(inv: seq<Item>, i: nat, p: Patch)
    requires i < |inv| && forall j :: 0 <= j < |inv| && j != i ==> inv[j].id != inv[i].id
    ensures UpdateById(inv, inv[i].id, p) == inv[i := Merge(inv[i], p)]
  {
    UpdateByIdSpec(inv, inv[i].id, p);
  }

  /** Updating an id that no item carries leaves the list as it was. */
  lemma UpdateUnknownId(inv: seq<Item>, id: Id, p: Patch)
    requires !HasId(inv, id)
    ensures UpdateById(inv, id, p) == inv
  {
    UpdateByIdSpec(inv, id, p);
  }

  /** Updates never touch ids, so they keep the ids unique. */
  lemma UpdateKeepsUniqueIds(inv: seq<Item>, id: Id, p: Patch)
    requires UniqueIds(inv)
    ensures UniqueIds(UpdateById(inv, id, p))
  {
    UpdateByIdSpec(inv, id, p);
  }

  // ---------------------------------------------------------------- delete

  /** `handleDelete(id)` once confirmed: `prev.filter(item => item.id !== id)`. */
  function DeleteById(inv: seq<Item>, id: Id): seq<Item> {
    if inv == [] then []
    else (if inv[0].id == id then [] else [inv[0]]) + DeleteById(inv[1..], id)
  }

  /**
    Deleting keeps exactly the items whose id differs from the target, and as
    many as there were of them.
  */
  lemma {:induction false} DeleteByIdSpec(inv: seq<Item>, id: Id)
    ensures forall x :: x in DeleteById(inv, id) <==> x in inv && x.id != id
    ensures |DeleteById(inv, id)| == |inv| - CountId(inv, id)
  {
    if inv != [] {
      DeleteByIdSpec(inv[1..], id);
      assert inv == [inv[0]] + inv[1..];
    }
  }

  /** Deleting keeps the relative order of the survivors: it distributes over concatenation. */
  lemma {:induction false} DeleteKeepsOrder(a: seq<Item>, b: seq<Item>, id: Id)
    ensures DeleteById(a + b, id) == DeleteById(a, id) + DeleteById(b, id)
  {
    if a != [] {
      assert (a + b)[1..] == a[1..] + b;
      DeleteKeepsOrder(a[1..], b, id);
    } else {
      assert a + b == b;
    }
  }

  /** Deleting an id that no item carries leaves the list as it was. */
  lemma {:induction false} DeleteUnknownId(inv: seq<Item>, id: Id)
    requires !HasId(inv, id)
    ensures DeleteById(inv, id) == inv
  {
    if inv != [] {
      assert !HasId(inv[1..], id) by {
        forall k | 0 <= k < |inv[1..]| ensures inv[1..][k].id != id {
          assert inv[1..][k] == inv[k + 1];
        }
      }
      DeleteUnknownId(inv[1..], id);
    }
  }

  /** Deleting the same id a second time changes nothing. */
  lemma DeleteIdempotent(inv: seq<Item>, id: Id)
    ensures DeleteById(DeleteById(inv, id), id) == DeleteById(inv, id)
  {
    var once := DeleteById(inv, id);
    DeleteByIdSpec(inv, id);
    assert !HasId(once, id) by {
      forall k | 0 <= k < |once| ensures once[k].id != id {
        assert once[k] in once;
      }
    }
    DeleteUnknownId(once, id);
  }

  /** Deleting keeps the ids unique. */
  lemma {:induction false} DeleteKeepsUniqueIds(inv: seq<Item>, id: Id)
    requires UniqueIds(inv)
    ensures UniqueIds(DeleteById(inv, id))
  {
    if inv != [] {
      DeleteKeepsUniqueIds(inv[1..], id);
      DeleteByIdSpec(inv[1..], id);
      var rest := DeleteById(inv[1..], id);
      forall k | 0 <= k < |rest| ensures rest[k].id != inv[0].id {
        assert rest[k] in inv[1..];
      }
    }
  }

  // ---------------------------------------------------------------- add

  /** `handleSaveItem` in "add" mode: `[...prev, { ...itemData, id }]`, the id supplied by the caller. */
  function AddItem(inv: seq<Item>, d: ItemData, id: Id): seq<Item> {
    inv + [NewItem(d, id)]
  }

  /**
    Adding appends exactly one item, carrying the saved fields, and leaves the
    earlier items alone; with an id no item has yet, the ids stay unique.
  */
  lemma AddItemSpec(inv: seq<Item>, d: ItemData, id: Id)
    ensures |AddItem(inv, d, id)| == |inv| + 1
    ensures AddItem(inv, d, id)[..|inv|] == inv
    ensures DataOf(AddItem(inv, d, id)[|inv|]) == d && AddItem(inv, d, id)[|inv|].id == id
    ensures UniqueIds(inv) && !HasId(inv, id) ==> UniqueIds(AddItem(inv, d, id))
  {
  }

  /** `handleSaveItem` in "edit" mode: merge every saved field into the item being edited, keeping its id. */
  function SaveEdit(inv: seq<Item>, editingId: Id, d: ItemData): seq<Item> {
    UpdateById(inv, editingId, DataPatch(d))
  }

  /** Saving an edit replaces every field but the id of the edited item and touches no other item. */
  lemma SaveEditSpec(inv: seq<Item>, editingId: Id, d: ItemData)
    ensures |SaveEdit(inv, editingId, d)| == |inv|
    ensures forall k :: 0 <= k < |inv| && inv[k].id == editingId ==>
      SaveEdit(inv, editingId, d)[k] == NewItem(d, editingId)
    ensures forall k :: 0 <= k < |inv| && inv[k].id != editingId ==> SaveEdit(inv, editingId, d)[k] == inv[k]
  {
    UpdateByIdSpec(inv, editingId, DataPatch(d));
  }

  // ---------------------------------------------------------------- one item

  /** `Math.max(0, x)`. */
  function ClampAtZero(x: real): (r: real)
    ensures r >= 0.0 && r >= x
    ensures r == x || r == 0.0
  {
    if x < 0.0 then 0.0 else x
  }

  /** `isLowStock`: the stock has fallen below the reorder threshold. */
  predicate IsLowStock(item: Item) {
    item.stock < item.threshold
  }

  /** `itemValue`: stock times unit cost (`|| 0` only turns NaN into 0, and reals have no NaN). */
  function ItemValue(item: Item): real {
    item.stock * item.cost
  }

  /** The `-` button is disabled while the stock is at or below zero. */
  predicate MinusEnabled(item: Item) {
    item.stock > 0.0
  }

  /** `handleStockChange(amount)`: set the item's stock to `max(0, stock + amount)`. */
  function StockChange(inv: seq<Item>, item: Item, amount: real): seq<Item> {
    UpdateById(inv, item.id, StockPatch(ClampAtZero(item.stock + amount)))
  }

  /**
    A stock button sets the stock of the item it belongs to to the clamped sum,
    which is never negative, and changes nothing else.
  */
  lemma StockChangeSpec(inv: seq<Item>, item: Item, amount: real)
    requires item in inv && UniqueIds(inv)
    ensures |StockChange(inv, item, amount)| == |inv|
    ensures forall k :: 0 <= k < |inv| && inv[k] == item ==>
      StockChange(inv, item, amount)[k] == item.(stock := ClampAtZero(item.stock + amount))
    ensures forall k :: 0 <= k < |inv| && inv[k] != item ==> StockChange(inv, item, amount)[k] == inv[k]
    ensures forall k :: 0 <= k < |inv| ==> StockChange(inv, item, amount)[k].stock >= 0.0 || inv[k].stock < 0.0
  {
    UpdateByIdSpec(inv, item.id, StockPatch(ClampAtZero(item.stock + amount)));
  }

  /**
    The `+` button followed by the `-` button of the same row restores the
    list, and the `-` button is enabled in between.
  */
  lemma PlusThenMinus(inv: seq<Item>, i: nat)
    requires i < |inv| && UniqueIds(inv) && inv[i].stock >= 0.0
    ensures var inv' := StockChange(inv, inv[i], 1.0);
      MinusEnabled(inv'[i]) && StockChange(inv', inv'[i], -1.0) == inv
  {
    var item := inv[i];
    StockChangeSpec(inv, item, 1.0);
    var inv' := StockChange(inv, item, 1.0);
    var up := item.(stock := item.stock + 1.0);
    assert inv'[i] == up;
    UpdateKeepsUniqueIds(inv, item.id, StockPatch(ClampAtZero(item.stock + 1.0)));
    StockChangeSpec(inv', up, -1.0);
    var back := StockChange(inv', up, -1.0);
    forall k | 0 <= k < |inv| ensures back[k] == inv[k] {
      if k != i {
        assert inv'[k] == inv[k] && inv[k].id != up.id;
      }
    }
  }

  // ---------------------------------------------------------------- seed

  /** `INITIAL_INVENTORY`: the list the session starts from. */
  const InitialInventory: seq<Item> := [
    Item("1", "Pizza Dough", 50.0, "units", 10.0, 0.80),
    Item("2", "Mozzarella Cheese", 20.0, "kg", 5.0, 9.50),
    Item("3", "Tomato Sauce", 15.0, "liters", 5.0, 2.20),
    Item("4", "Pepperoni", 10.0, "kg", 2.0, 12.00),
    Item("5", "Mushrooms", 5.0, "kg", 1.0, 4.00),
    Item("6", "Olives", 3.0, "kg", 2.0, 7.00),
    Item("7", "Onions", 10.0, "kg", 3.0, 1.50),
    Item("8", "Green Peppers", 7.0, "kg", 2.0, 3.50)
  ]

  /** The seed has unique ids and no negative stock or cost. */
  lemma InitialInventoryWellFormed()
    ensures UniqueIds(InitialInventory)
    ensures forall k :: 0 <= k < |InitialInventory| ==> InitialInventory[k].stock >= 0.0 && InitialInventory[k].cost >= 0.0
  {
  }
}
