/**
  The order aggregate and its line items. `Order.addLineItem` wires the
  two-way relation: it puts the item into the order's set of line items
  (creating the set on first use) and points the item back at the order.
  The set is a `java.util.HashSet`, so membership is decided by line-item
  equality, which compares id, name, quantity and price and ignores the
  back-reference.
 */
module OrderModel {
  import opened Wrappers

  datatype LocalDate = LocalDate(year: int, month: int, day: int)

  /**
    The fields line-item equality compares. A price (a Java `double`) is
    kept as the bit pattern that `Double.compare` orders by; nothing is
    computed from it.
   */
  datatype LineItemKey = LineItemKey(id: int, name: string, qty: int, price: bv64)

  /**
    A line item. Only its back-reference changes here; the fields equality
    compares are fixed once the item exists.
   */
  class LineItem {
    const id: int
    const name: string
    const qty: int
    const price: bv64
    var order: Order?

    constructor (id: int, name: string, qty: int, price: bv64)
      ensures Key() == LineItemKey(id, name, qty, price) && order == null
    {
      this.id := id;
      this.name := name;
      this.qty := qty;
      this.price := price;
      this.order := null;
    }

    /** What `equals` and `hashCode` look at: everything but `order`. */
    function Key(): LineItemKey
    {
      LineItemKey(id, name, qty, price)
    }
  }

  /** The keys of a set of line items: its contents as `equals` sees them. */
  function KeysOf(items: set<LineItem>): set<LineItemKey>
  {
    set x | x in items :: x.Key()
  }

  /** What a hash set keeps true: no two of its elements are equal. */
  ghost predicate Distinct(items: set<LineItem>)
  {
    forall x, y :: x in items && y in items && x.Key() == y.Key() ==> x == y
  }

  /** Storing an item that equals none of the present ones keeps them distinct and adds its key. */
  lemma AddAbsent(items: set<LineItem>, li: LineItem)
    requires Distinct(items) && li.Key() !in KeysOf(items)
    ensures Distinct(items + {li})
    ensures KeysOf(items + {li}) == KeysOf(items) + {li.Key()}
  {
  }

  class Order {
    var id: Option<int>
    var name: string
    var email: string
    var price: bv64
    var date: LocalDate
    var lineItems: Option<set<LineItem>>

    constructor (name: string, email: string, date: LocalDate)
      ensures id == None && this.name == name && this.email == email && this.date == date
      ensures price == 0 && lineItems == None
    {
      id := None;
      this.name := name;
      this.email := email;
      price := 0;
      this.date := date;
      lineItems := None;
    }

    /** The line items, an absent set counting as empty. */
    function Items(): set<LineItem>
      reads this
    {
      if lineItems.Some? then lineItems.value else {}
    }

    /** The keys of the line items. */
    function ItemKeys(): set<LineItemKey>
      reads this
    {
      KeysOf(Items())
    }

    /** The line items are a hash set: no two of them are equal. */
    ghost predicate Valid()
      reads this
    {
      Distinct(Items())
    }

    /** `lineItems.contains(li)`: some element equals `li`. */
    predicate Contains(li: LineItem)
      reads this
    {
      lineItems.Some? && li.Key() in ItemKeys()
    }

    /**
      `addLineItem`: creates the set on first use, stores `li` unless an equal
      item is already there, and in every case points `li` at this order.
     */
    method AddLineItem(li: LineItem)
      requires Valid()
      modifies this`lineItems, li`order
      ensures Valid()
      ensures lineItems.Some? && Contains(li)
      ensures old(lineItems) == None ==> lineItems == Some({li})
      ensures old(Contains(li)) ==> Items() == old(Items())
      ensures !old(Contains(li)) ==> Items() == old(Items()) + {li}
      ensures |Items()| == if old(Contains(li)) then |old(Items())| else |old(Items())| + 1
      ensures ItemKeys() == AddKey(old(ItemKeys()), li.Key())
      ensures li.order == this
      ensures id == old(id) && name == old(name) && email == old(email)
      ensures price == old(price) && date == old(date)
    {
      ghost var wasNone := lineItems == None;
      if lineItems == None {
        lineItems := Some({});
      }
      var items := lineItems.value;
      if !(exists x :: x in items && x.Key() == li.Key()) {
        AddAbsent(items, li);
        lineItems := Some(items + {li});
        assert wasNone ==> items + {li} == {li};
      }
      li.order := this;
    }
  }

  /**
    `HashSet.add` as `equals` sees it: afterwards the key is present, nothing
    is lost, and the set grows by one exactly when the key was absent.
   */
  function AddKey(keys: set<LineItemKey>, k: LineItemKey): (r: set<LineItemKey>)
    ensures k in r && keys <= r && r - keys <= {k}
    ensures k in keys <==> r == keys
  {
    keys + {k}
  }

  /** The set grows by one exactly when the key was absent. */
  lemma AddKeySize(keys: set<LineItemKey>, k: LineItemKey)
    ensures |AddKey(keys, k)| == if k in keys then |keys| else |keys| + 1
  {
  }

  /** Adding an equal item a second time changes nothing. */
  lemma AddKeyIdempotent(keys: set<LineItemKey>, k: LineItemKey)
    ensures AddKey(AddKey(keys, k), k) == AddKey(keys, k)
  {
  }

  /** The resulting keys do not depend on the order of adding; of two equal items the first one stays. */
  lemma AddKeyCommutes(keys: set<LineItemKey>, k1: LineItemKey, k2: LineItemKey)
    ensures AddKey(AddKey(keys, k1), k2) == AddKey(AddKey(keys, k2), k1)
  {
  }

  /**
    An item equal to one already present is not stored, yet `addLineItem`
    still points it at the order: it then refers to an order that does not
    hold it.
   */
  method AddingAnEqualItem(o: Order, stored: LineItem, copy: LineItem)
    requires o.lineItems == Some({stored}) && stored != copy
    requires stored.Key() == copy.Key()
    modifies o`lineItems, copy`order
    ensures o.Items() == {stored} && copy !in o.Items()
    ensures copy.order == o
  {
    o.AddLineItem(copy);
  }
}
