/** The dashboard's state and handlers: the inventory, the customer list and
    the single modal slot, with the save, delete and adjust-stock handlers,
    the open and cancel actions of the buttons, and the modal renderer that
    decides which form (and so which handler) is reachable. */
module OmniSuite {
  import opened Wrappers
  import opened IntParsing
  import opened Records
  import opened Stats
  import opened Adjustment

  /** The payload of the delete modal: the collection's name, the identifier
      and the display name of the record to delete. */
  datatype DeleteTarget = DeleteTarget(kind: string, id: int, name: string)

  /** The modal slot `{ type, data }`, one variant per `type`. */
  datatype Modal =
    | Closed
    | AddItem
    | EditItem(item: Item)
    | AddCustomer
    | EditCustomer(customer: Customer)
    | AdjustStock(item: Item)
    | Delete(target: DeleteTarget)

  /** The `type` string each open action writes; `Closed` is `type: null`. */
  function Tag(m: Modal): Option<string> {
    match m
    case Closed => None
    case AddItem => Some("add-item")
    case EditItem(_) => Some("edit-item")
    case AddCustomer => Some("add-customer")
    case EditCustomer(_) => Some("edit-customer")
    case AdjustStock(_) => Some("adjust-stock")
    case Delete(_) => Some("delete")
  }

  /** `!modal.data`: the variants opened with `data: null`, which are the
      initial slot and the two "add" slots. */
  predicate HasNoData(m: Modal): (b: bool)
    ensures b <==> Tag(m) in {None, Some("add-item"), Some("add-customer")}
  {
    m.Closed? || m.AddItem? || m.AddCustomer?
  }

  /** The form on screen; the optional record is the one being edited. */
  datatype Form =
    | NoForm
    | ItemForm(editedItem: Option<Item>)
    | CustomerForm(editedCustomer: Option<Customer>)
    | AdjustStockForm(adjusted: Item)
    | DeleteForm(target: DeleteTarget)

  /** The modal renderer: each form is shown when `modal.type` equals the
      string the renderer tests for. The item form tests "add-item1", which no
      open action writes. */
  function RenderedForm(m: Modal): (f: Form)
    ensures f == NoForm <==> m == Closed || m == AddItem
    ensures f.ItemForm? <==> m.EditItem?
    ensures f.ItemForm? ==> f.editedItem == Some(m.item)
    ensures f.CustomerForm? <==> m.AddCustomer? || m.EditCustomer?
    ensures f.CustomerForm? ==> f.editedCustomer == if m.EditCustomer? then Some(m.customer) else None
  {
    match m
    case Closed => NoForm
    case AddItem => if Tag(m) == Some("add-item1") then ItemForm(None) else NoForm
    case EditItem(item) => if Tag(m) == Some("edit-item") then ItemForm(Some(item)) else NoForm
    case AddCustomer => if Tag(m) == Some("add-customer") then CustomerForm(None) else NoForm
    case EditCustomer(c) => if Tag(m) == Some("edit-customer") then CustomerForm(Some(c)) else NoForm
    case AdjustStock(item) => if Tag(m) == Some("adjust-stock") then AdjustStockForm(item) else NoForm
    case Delete(t) => if Tag(m) == Some("delete") then DeleteForm(t) else NoForm
  }

  /** What a submitted item form hands to the save handler: the form state
      starts as the edited item (or as defaults with no identifier) and the
      inputs only overwrite its fields, never its identifier. */
  function SubmittedItem(editing: Option<Item>, fields: ItemFields): (r: Item)
    ensures r.fields == fields
    ensures editing.Some? ==> r.id == editing.value.id
    ensures HasId(r) <==> editing.Some? && HasId(editing.value)
  {
    match editing
    case Some(item) => Record(item.id, fields)
    case None => Record(0, fields)
  }

  function SubmittedCustomer(editing: Option<Customer>, fields: CustomerFields): (r: Customer)
    ensures r.fields == fields
    ensures editing.Some? ==> r.id == editing.value.id
    ensures HasId(r) <==> editing.Some? && HasId(editing.value)
  {
    match editing
    case Some(customer) => Record(customer.id, fields)
    case None => Record(0, fields)
  }

  /** The records a modal refers to come from the current collections: the
      buttons that open a modal are rendered from them, and every handler
      that changes a collection also closes the modal. */
  predicate ModalCoherent(m: Modal, inventory: seq<Item>, customers: seq<Customer>) {
    match m
    case EditItem(item) => item in inventory
    case AdjustStock(item) => item in inventory
    case EditCustomer(c) => c in customers
    case Delete(t) =>
      (t.kind == "item" && exists k :: 0 <= k < |inventory| && inventory[k].id == t.id)
      || (t.kind == "customer" && exists k :: 0 <= k < |customers| && customers[k].id == t.id)
    case _ => true
  }

  class App {
    var inventory: seq<Item>
    var customers: seq<Customer>
    var modal: Modal

    /** Identifiers are unique and positive in both collections, and the
        open modal refers to records that are there. */
    predicate Valid()
      reads this
    {
      WellKeyed(inventory) && WellKeyed(customers) && ModalCoherent(modal, inventory, customers)
    }

    /** The seed state: five items, three customers, no modal. */
    constructor ()
      ensures Valid()
      ensures inventory == SeedInventory && customers == SeedCustomers && modal == Closed
    {
      inventory := SeedInventory;
      customers := SeedCustomers;
      modal := Closed;
      SeedWellKeyed();
    }

    /** `dashboardStats`, recomputed from the current inventory. */
    function Dashboard(): (r: DashboardStats)
      reads this
      ensures r.lowStockCount + r.outOfStockCount <= |inventory|
    {
      ComputeStats(inventory)
    }

    // ----- Data handlers -----

    /** `handleSaveItem`. */
    method SaveItem(data: Item)
      requires Valid()
      modifies this
      ensures Valid()
      ensures inventory == SaveRecord(old(inventory), data)
      ensures customers == old(customers) && modal == Closed
    {
      SavePreservesWellKeyed(inventory, data);
      if HasId(data) {
        inventory := UpdateById(inventory, data);
      } else {
        inventory := AddRecord(inventory, data);
      }
      modal := Closed;
    }

    /** `handleSaveCustomer`. */
    method SaveCustomer(data: Customer)
      requires Valid()
      modifies this
      ensures Valid()
      ensures customers == SaveRecord(old(customers), data)
      ensures inventory == old(inventory) && modal == Closed
    {
      SavePreservesWellKeyed(customers, data);
      if HasId(data) {
        customers := UpdateById(customers, data);
      } else {
        customers := AddRecord(customers, data);
      }
      modal := Closed;
    }

    /** `handleDelete`: with no payload it returns at once; otherwise it
        removes by identifier from the collection the payload names (a record
        payload has no `type`, so it removes nothing) and closes the modal.
        Confirming a delete modal removes exactly one record. */
    method ConfirmDelete()
      requires Valid()
      modifies this
      ensures Valid()
      ensures HasNoData(old(modal)) ==>
        inventory == old(inventory) && customers == old(customers) && modal == old(modal)
      ensures !HasNoData(old(modal)) ==> modal == Closed
      ensures old(modal).Delete? ==>
        var t := old(modal).target;
        && inventory == (if t.kind == "item" then RemoveById(old(inventory), t.id) else old(inventory))
        && customers == (if t.kind == "customer" then RemoveById(old(customers), t.id) else old(customers))
        && |inventory| + |customers| == |old(inventory)| + |old(customers)| - 1
      ensures !old(modal).Delete? ==> inventory == old(inventory) && customers == old(customers)
    {
      if HasNoData(modal) {
        return;
      }
      if modal.Delete? {
        var t := modal.target;
        if t.kind == "item" {
          var k :| 0 <= k < |inventory| && inventory[k].id == t.id;
          RemoveAt(inventory, t.id, k);
          RemovePreservesWellKeyed(inventory, t.id);
          inventory := RemoveById(inventory, t.id);
        } else if t.kind == "customer" {
          var k :| 0 <= k < |customers| && customers[k].id == t.id;
          RemoveAt(customers, t.id, k);
          RemovePreservesWellKeyed(customers, t.id);
          customers := RemoveById(customers, t.id);
        }
      }
      modal := Closed;
    }

    /** `handleAdjustStock`: adds the adjustment to the quantity of the items
        with that identifier, without any check of its own. */
    method ApplyStockAdjustment(itemId: int, adjustment: int)
      requires Valid()
      modifies this
      ensures Valid()
      ensures inventory == AdjustQuantity(old(inventory), itemId, adjustment)
      ensures customers == old(customers) && modal == Closed
    {
      AdjustPreservesWellKeyed(inventory, itemId, adjustment);
      inventory := AdjustQuantity(inventory, itemId, adjustment);
      modal := Closed;
    }

    // ----- Form submissions -----

    /** The adjust-stock form's submit handler: two early returns that report
        an error and keep the modal open, else the stock handler is called.
        An accepted adjustment never leaves the adjusted item below zero. */
    method SubmitAdjustment(adjustment: string) returns (error: Option<AdjustError>)
      requires Valid() && modal.AdjustStock?
      modifies this
      ensures Valid()
      ensures var item := old(modal).item;
        match ValidateAdjustment(item.fields.quantity, adjustment)
        case Failure(e) =>
          error == Some(e) && inventory == old(inventory) && customers == old(customers) && modal == old(modal)
        case Success(amount) =>
          && error == None
          && inventory == AdjustQuantity(old(inventory), item.id, amount)
          && customers == old(customers) && modal == Closed
      ensures error == None ==> NonNegativeStock(old(inventory)) ==> NonNegativeStock(inventory)
      ensures error == None ==>
        forall k :: 0 <= k < |inventory| && inventory[k].id == old(modal).item.id ==> inventory[k].fields.quantity >= 0
    {
      var item := modal.item;
      var amount := ParseInt(adjustment);
      if amount.None? || amount.value == 0 {
        assert ValidateAdjustment(item.fields.quantity, adjustment) == Failure(InvalidAmount);
        return Some(InvalidAmount);
      }
      if item.fields.quantity + amount.value < 0 {
        assert ValidateAdjustment(item.fields.quantity, adjustment) == Failure(NegativeStock);
        return Some(NegativeStock);
      }
      assert ValidateAdjustment(item.fields.quantity, adjustment) == Success(amount.value);
      var k :| 0 <= k < |inventory| && inventory[k] == item;
      AcceptedAdjustmentKeepsStock(inventory, k, adjustment);
      ApplyStockAdjustment(item.id, amount.value);
      error := None;
    }

    /** The item form's submit handler. The only item form that can be on
        screen edits an existing item, so a submission never adds an item. */
    method SubmitItemForm(fields: ItemFields)
      requires Valid() && RenderedForm(modal).ItemForm?
      modifies this
      ensures Valid()
      ensures inventory == SaveRecord(old(inventory), SubmittedItem(RenderedForm(old(modal)).editedItem, fields))
      ensures |inventory| == |old(inventory)|
      ensures customers == old(customers) && modal == Closed
    {
      var data := SubmittedItem(RenderedForm(modal).editedItem, fields);
      ItemFormOnlyEdits(modal, inventory, customers, fields);
      SaveItem(data);
    }

    /** The customer form's submit handler: the add form appends a customer
        with a fresh identifier, the edit form rewrites the edited one. */
    method SubmitCustomerForm(fields: CustomerFields)
      requires Valid() && RenderedForm(modal).CustomerForm?
      modifies this
      ensures Valid()
      ensures customers == SaveRecord(old(customers), SubmittedCustomer(RenderedForm(old(modal)).editedCustomer, fields))
      ensures old(modal).AddCustomer? ==> |customers| == |old(customers)| + 1
      ensures old(modal).EditCustomer? ==> |customers| == |old(customers)|
      ensures inventory == old(inventory) && modal == Closed
    {
      var data := SubmittedCustomer(RenderedForm(modal).editedCustomer, fields);
      SaveCustomer(data);
    }

    // ----- Open and cancel actions -----

    /** The "Add New Item" button. */
    method OpenAddItem()
      requires Valid()
      modifies this
      ensures Valid() && modal == AddItem && RenderedForm(modal) == NoForm
      ensures inventory == old(inventory) && customers == old(customers)
    {
      modal := AddItem;
    }

    /** The "Adjust" button of an inventory row. */
    method OpenAdjustStock(item: Item)
      requires Valid() && item in inventory
      modifies this
      ensures Valid() && modal == AdjustStock(item) && RenderedForm(modal) == AdjustStockForm(item)
      ensures inventory == old(inventory) && customers == old(customers)
    {
      modal := AdjustStock(item);
    }

    /** The "Edit" button of an inventory row. */
    method OpenEditItem(item: Item)
      requires Valid() && item in inventory
      modifies this
      ensures Valid() && modal == EditItem(item) && RenderedForm(modal) == ItemForm(Some(item))
      ensures inventory == old(inventory) && customers == old(customers)
    {
      modal := EditItem(item);
    }

    /** The "Delete" button of an inventory row. */
    method OpenDeleteItem(item: Item)
      requires Valid() && item in inventory
      modifies this
      ensures Valid() && modal == Delete(DeleteTarget("item", item.id, item.fields.name))
      ensures inventory == old(inventory) && customers == old(customers)
    {
      modal := Delete(DeleteTarget("item", item.id, item.fields.name));
    }

    /** The "Add New Customer" button. */
    method OpenAddCustomer()
      requires Valid()
      modifies this
      ensures Valid() && modal == AddCustomer && RenderedForm(modal) == CustomerForm(None)
      ensures inventory == old(inventory) && customers == old(customers)
    {
      modal := AddCustomer;
    }

    /** The "Edit" button of a customer row. */
    method OpenEditCustomer(customer: Customer)
      requires Valid() && customer in customers
      modifies this
      ensures Valid() && modal == EditCustomer(customer) && RenderedForm(modal) == CustomerForm(Some(customer))
      ensures inventory == old(inventory) && customers == old(customers)
    {
      modal := EditCustomer(customer);
    }

    /** The "Delete" button of a customer row. */
    method OpenDeleteCustomer(customer: Customer)
      requires Valid() && customer in customers
      modifies this
      ensures Valid() && modal == Delete(DeleteTarget("customer", customer.id, customer.fields.name))
      ensures inventory == old(inventory) && customers == old(customers)
    {
      modal := Delete(DeleteTarget("customer", customer.id, customer.fields.name));
    }

    /** The Cancel button of whichever form is on screen; with no form on
        screen there is no Cancel button. */
    method Cancel()
      requires Valid() && RenderedForm(modal) != NoForm
      modifies this
      ensures Valid() && modal == Closed
      ensures inventory == old(inventory) && customers == old(customers)
    {
      modal := Closed;
    }
  }

  // ----- Lemmas -----

  /** In any reachable state, submitting the item form updates the edited item
      in place: the inventory keeps its length and only that item changes. */
  lemma ItemFormOnlyEdits(m: Modal, inventory: seq<Item>, customers: seq<Customer>, fields: ItemFields)
    requires WellKeyed(inventory) && ModalCoherent(m, inventory, customers)
    requires RenderedForm(m).ItemForm?
    ensures var data := SubmittedItem(RenderedForm(m).editedItem, fields);
      && HasId(data)
      && |SaveRecord(inventory, data)| == |inventory|
      && exists k :: 0 <= k < |inventory| && inventory[k] == m.item
           && SaveRecord(inventory, data) == inventory[k := Record(m.item.id, fields)]
  {
    var k :| 0 <= k < |inventory| && inventory[k] == m.item;
    UpdateAt(inventory, Record(m.item.id, fields), k);
  }

  /** Submitting the add-customer form appends one customer whose identifier
      no earlier customer has, and keeps the identifiers unique. */
  lemma AddCustomerFormAppends(customers: seq<Customer>, fields: CustomerFields)
    requires WellKeyed(customers)
    ensures var r := SaveRecord(customers, SubmittedCustomer(RenderedForm(AddCustomer).editedCustomer, fields));
      && |r| == |customers| + 1 && r[..|customers|] == customers
      && r[|customers|] == Record(NextId(customers), fields)
      && !HasRecordWithId(customers, NextId(customers))
      && WellKeyed(r)
  {
    AddPreservesWellKeyed(customers, SubmittedCustomer(None, fields));
  }
}
