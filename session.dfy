/**
  The application's state as one object: the inventory list, the item being
  edited (if any), whether the add form is open, and the command box's
  input text and feedback banner. Each handler of `PizzaInventorySystem`,
  `InventoryItem`, `ItemForm` and `AIAgentInput` that changes this state is
  a method; the new list is always computed by the store functions.
*/
module Session {
  import opened Wrappers
  import opened Inventory
  import opened Text
  import opened ItemForm
  import opened CommandAgent

  class PizzaInventorySystem {
    var inventory: seq<Item>
    var editingItem: Option<Item>
    var showAddForm: bool
    var inputText: string
    var feedback: Option<Feedback>

    /** The invariant the handlers keep: no two items share an id. */
    ghost predicate Valid()
      reads this
    {
      UniqueIds(inventory)
    }

    /** A session starts from the seed inventory with every form closed and no feedback. */
    constructor ()
      ensures Valid()
      ensures inventory == InitialInventory && editingItem == None && !showAddForm
      ensures inputText == "" && feedback == None
    {
      inventory := InitialInventory;
      editingItem := None;
      showAddForm := false;
      inputText := "";
      feedback := None;
      InitialInventoryWellFormed();
    }

    /** `handleUpdateStock(id, updates)`. */
    method HandleUpdateStock(id: Id, updates: Patch)
      requires Valid()
      modifies this`inventory
      ensures Valid()
      ensures inventory == UpdateById(old(inventory), id, updates)
    {
      UpdateKeepsUniqueIds(inventory, id, updates);
      inventory := UpdateById(inventory, id, updates);
    }

    /** `handleDelete(id)` after the user has confirmed. */
    method HandleDelete(id: Id)
      requires Valid()
      modifies this`inventory
      ensures Valid()
      ensures inventory == DeleteById(old(inventory), id)
      ensures !HasId(inventory, id)
    {
      DeleteKeepsUniqueIds(inventory, id);
      DeleteByIdSpec(inventory, id);
      inventory := DeleteById(inventory, id);
      forall k | 0 <= k < |inventory| ensures inventory[k].id != id {
        assert inventory[k] in inventory;
      }
    }

    /** `handleStockChange(amount)` of the row showing `item` (the `+` button passes 1, the `-` button -1). */
    method HandleStockChange(item: Item, amount: real)
      requires Valid()
      modifies this`inventory
      ensures Valid()
      ensures inventory == StockChange(old(inventory), item, amount)
    {
      UpdateKeepsUniqueIds(inventory, item.id, StockPatch(ClampAtZero(item.stock + amount)));
      inventory := StockChange(inventory, item, amount);
    }

    /** The row's Edit button: `setEditingItem(item)`. */
    method StartEdit(item: Item)
      modifies this`editingItem
      ensures editingItem == Some(item)
    {
      editingItem := Some(item);
    }

    /** The "Add New Item" button: `setShowAddForm(true)`. */
    method OpenAddForm()
      modifies this`showAddForm
      ensures showAddForm
    {
      showAddForm := true;
    }

    /** The form's `onClose` (Cancel or the close button): both forms are closed, the list is untouched. */
    method CloseForm()
      modifies this`showAddForm, this`editingItem
      ensures !showAddForm && editingItem == None
    {
      showAddForm := false;
      editingItem := None;
    }

    /** Typing in the command box: `setInputText(value)`. */
    method TypeCommand(value: string)
      modifies this`inputText
      ensures inputText == value
    {
      inputText := value;
    }

    /** The banner's close button: `setFeedback(null)`. */
    method DismissFeedback()
      modifies this`feedback
      ensures feedback == None
    {
      feedback := None;
    }

    /**
      `handleSaveItem(itemData)`: with an item being edited, merge the saved
      fields into it and close the edit form; otherwise append a new item under
      `freshId` (the source derives it from the clock) and close the add form.
    */
    method HandleSaveItem(itemData: ItemData, freshId: Id)
      requires Valid()
      requires editingItem.None? ==> !HasId(inventory, freshId)
      modifies this`inventory, this`editingItem, this`showAddForm
      ensures Valid()
      ensures old(editingItem).Some? ==>
        inventory == SaveEdit(old(inventory), old(editingItem).value.id, itemData)
        && editingItem == None && showAddForm == old(showAddForm)
      ensures old(editingItem).None? ==>
        inventory == AddItem(old(inventory), itemData, freshId) && !showAddForm && editingItem == None
    {
      if editingItem.Some? {
        UpdateKeepsUniqueIds(inventory, editingItem.value.id, DataPatch(itemData));
        inventory := SaveEdit(inventory, editingItem.value.id, itemData);
        editingItem := None;
      } else {
        AddItemSpec(inventory, itemData, freshId);
        inventory := AddItem(inventory, itemData, freshId);
        showAddForm := false;
      }
    }

    /** `ItemForm.handleSubmit`: a draft whose name is blank does nothing; any other is saved. */
    method SubmitForm(draft: Draft, freshId: Id)
      requires Valid()
      requires editingItem.None? ==> !HasId(inventory, freshId)
      modifies this`inventory, this`editingItem, this`showAddForm
      ensures Valid()
      ensures Normalize(draft).None? ==>
        inventory == old(inventory) && editingItem == old(editingItem) && showAddForm == old(showAddForm)
      ensures Normalize(draft).Some? && old(editingItem).Some? ==>
        inventory == SaveEdit(old(inventory), old(editingItem).value.id, Normalize(draft).value)
        && editingItem == None && showAddForm == old(showAddForm)
      ensures Normalize(draft).Some? && old(editingItem).None? ==>
        inventory == AddItem(old(inventory), Normalize(draft).value, freshId)
        && !showAddForm && editingItem == None
    {
      var data := Normalize(draft);
      if data.Some? {
        HandleSaveItem(data.value, freshId);
      }
    }

    /** `AIAgentInput.handleSubmit` with this session's inventory and the command box's state. */
    method SubmitCommand()
      requires Valid()
      modifies this`inventory, this`inputText, this`feedback
      ensures Valid()
      ensures Trim(old(inputText)) == "" ==>
        inventory == old(inventory) && inputText == old(inputText) && feedback == old(feedback)
      ensures Trim(old(inputText)) != "" ==>
        var text := Lower(old(inputText));
        && inventory == Run(old(inventory), text, ParseCommand(text), |old(inventory)|)
        && inputText == ""
        && feedback == Some(FeedbackFor(old(inventory), text, ParseCommand(text)))
    {
      RunKeepsUniqueIds(inventory, Lower(inputText), ParseCommand(Lower(inputText)));
      inventory, inputText, feedback := HandleSubmit(inventory, inputText, feedback);
    }
  }
}
