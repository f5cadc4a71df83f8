/**
  The cart line-item store of assets/js/cart.js.

  The cart keeps an ordered list of line items and mirrors it, after every change that
  saves, into the browser's key-value store under the key 'cart'. The functions below are
  the meaning of each operation on the item list; the `Cart` class performs the same
  operations in place and its methods are proved against those functions. Prices are exact
  reals (the scripts use JavaScript numbers); the JSON encoding of the stored list is not
  modelled, the store holds the list itself.
 */
module CartStore {
  import opened Optional
  import opened Seqs
  import Text

  /** The fields of a catalogue product that `addItem` copies into a new line. */
  datatype ProductInfo = ProductInfo(id: string, name: string, price: real, image: string)

  /** One line of the cart. */
  datatype LineItem = LineItem(id: string, name: string, price: real, image: string, quantity: int)

  /** Orders whose subtotal reaches this amount ship free. */
  const FreeShippingFrom: real := 50.0
  /** The flat shipping fee below that amount. */
  const ShippingFee: real := 5.99

  function HasId(id: string): LineItem -> bool {
    (x: LineItem) => x.id == id
  }

  function OtherThan(id: string): LineItem -> bool {
    (x: LineItem) => x.id != id
  }

  /** `items.find(item => item.id === id)`, as a position. */
  function IndexOf(items: seq<LineItem>, id: string): Option<nat> {
    First(items, HasId(id))
  }

  predicate UniqueIds(items: seq<LineItem>) {
    forall i, j :: 0 <= i < j < |items| ==> items[i].id != items[j].id
  }

  /** The cart's data invariant: one line per id, and every quantity at least 1. */
  predicate WellFormed(items: seq<LineItem>) {
    UniqueIds(items) && forall k :: 0 <= k < |items| ==> items[k].quantity >= 1
  }

  function NewLine(p: ProductInfo): LineItem {
    LineItem(p.id, p.name, p.price, p.image, 1)
  }

  /** addItem: one more of the first line with the product's id, or a new line of one at the end. */
  function AddTo(items: seq<LineItem>, p: ProductInfo): (r: seq<LineItem>)
    ensures |r| == |items| + (if IndexOf(items, p.id).None? then 1 else 0)
    ensures exists k :: 0 <= k < |r| && r[k].id == p.id
    ensures forall k :: 0 <= k < |items| ==> r[k].id == items[k].id
  {
    match IndexOf(items, p.id)
    case Some(i) =>
      var r := items[i := items[i].(quantity := items[i].quantity + 1)];
      assert r[i].id == p.id;
      r
    case None =>
      var r := items + [NewLine(p)];
      assert r[|items|].id == p.id;
      r
  }

  /** removeItem: every line with the id goes, every other line stays. */
  function RemoveFrom(items: seq<LineItem>, id: string): (r: seq<LineItem>)
    ensures |r| <= |items|
    ensures forall k :: 0 <= k < |r| ==> r[k].id != id && r[k] in items
    ensures forall j :: 0 <= j < |items| && items[j].id != id ==> items[j] in r
  {
    var r := Keep(items, OtherThan(id));
    assert forall k :: 0 <= k < |r| ==> OtherThan(id)(r[k]);
    assert forall j :: 0 <= j < |items| && items[j].id != id ==> OtherThan(id)(items[j]);
    r
  }

  /** updateQuantity with a positive quantity: the first line with the id takes it. */
  function SetQuantity(items: seq<LineItem>, id: string, n: int): (r: seq<LineItem>)
    ensures |r| == |items|
    ensures forall k :: 0 <= k < |r| ==> r[k] == items[k].(quantity := r[k].quantity)
    ensures forall k :: 0 <= k < |r| && items[k].id != id ==> r[k] == items[k]
  {
    match IndexOf(items, id)
    case Some(i) => items[i := items[i].(quantity := n)]
    case None => items
  }

  function LineTotal(x: LineItem): real {
    x.price * x.quantity as real
  }

  /** calculateSubtotal: the left fold of price times quantity. */
  function Subtotal(items: seq<LineItem>): (r: real)
    ensures (forall k :: 0 <= k < |items| ==> items[k].price >= 0.0 && items[k].quantity >= 0) ==> r >= 0.0
  {
    if items == [] then 0.0
    else
      var last := items[|items| - 1];
      assert last.price >= 0.0 && last.quantity >= 0 ==> LineTotal(last) >= 0.0 by {
        if last.price >= 0.0 && last.quantity >= 0 {
          NonNegativeProduct(last.price, last.quantity as real);
        }
      }
      Subtotal(items[..|items| - 1]) + LineTotal(last)
  }

  lemma NonNegativeProduct(a: real, b: real)
    requires a >= 0.0 && b >= 0.0
    ensures a * b >= 0.0
  {
  }

  /** calculateShipping: free from the threshold on, the flat fee below it. */
  function Shipping(subtotal: real): (r: real)
    ensures r == 0.0 <==> subtotal >= FreeShippingFrom
    ensures r == 0.0 || r == ShippingFee
  {
    if subtotal >= FreeShippingFrom then 0.0 else ShippingFee
  }

  /** calculateTotal: the subtotal plus the shipping it earns. */
  function Total(items: seq<LineItem>): (r: real)
    ensures Subtotal(items) >= FreeShippingFrom ==> r == Subtotal(items)
    ensures Subtotal(items) < FreeShippingFrom ==> r == Subtotal(items) + ShippingFee
  {
    Subtotal(items) + Shipping(Subtotal(items))
  }

  /** The badge count of updateCartCount: the left fold of the quantities. */
  function Count(items: seq<LineItem>): (r: int)
    ensures (forall k :: 0 <= k < |items| ==> items[k].quantity >= 1) ==> r >= |items|
  {
    if items == [] then 0 else Count(items[..|items| - 1]) + items[|items| - 1].quantity
  }

  /** `parseInt(v) || 1`: no digits (NaN) and zero (also -0) are falsy, and become 1. */
  function TypedQuantity(v: string): (q: int)
    ensures q != 0
  {
    match Text.ParseInt(v)
    case Some(n) => if n == 0 then 1 else n
    case None => 1
  }

  /** `localStorage.getItem('cart')`, decoded: an absent key reads as the empty cart. */
  function Load(saved: Option<seq<LineItem>>): (r: seq<LineItem>)
    ensures saved.None? ==> r == []
    ensures saved.Some? ==> saved == Some(r)
  {
    match saved
    case None => []
    case Some(s) => s
  }

  /** The browser's key-value store; only the 'cart' key is modelled, None when it is absent. */
  class Store {
    var cart: Option<seq<LineItem>>

    constructor(cart: Option<seq<LineItem>>)
      ensures this.cart == cart
    {
      this.cart := cart;
    }
  }

  /** The cart object of cart.js: its items, the count its header badge shows, and the store it saves to. */
  class Cart {
    var items: seq<LineItem>
    var shownCount: int
    const store: Store

    /** What every saving mutation leaves behind: the store mirrors the items, the badge shows their count. */
    ghost predicate Saved()
      reads this, store
    {
      store.cart == Some(items) && shownCount == Count(items)
    }

    /** Loads the items from the store and shows their count; nothing is written back. */
    constructor(store: Store)
      ensures this.store == store && store.cart == old(store.cart)
      ensures items == Load(store.cart) && shownCount == Count(items)
    {
      this.store := store;
      new;
      items := LoadFromStorage();
      UpdateCartCount();
    }

    method LoadFromStorage() returns (r: seq<LineItem>)
      ensures r == Load(store.cart)
      ensures store.cart.None? ==> r == []
    {
      match store.cart {
        case None => r := [];
        case Some(s) => r := s;
      }
    }

    /** Writes the items to the store and refreshes the badge; loading afterwards gives the items back. */
    method SaveToStorage()
      modifies store, this`shownCount
      ensures Saved() && items == old(items)
      ensures Load(store.cart) == items
    {
      store.cart := Some(items);
      UpdateCartCount();
    }

    method UpdateCartCount()
      modifies this`shownCount
      ensures shownCount == Count(items)
    {
      shownCount := Count(items);
    }

    method AddItem(p: ProductInfo)
      modifies this, store
      ensures items == AddTo(old(items), p) && Saved()
      ensures WellFormed(old(items)) ==> WellFormed(items)
    {
      var found := FindFirst(items, HasId(p.id));
      match found {
        case Some(i) =>
          items := items[i := items[i].(quantity := items[i].quantity + 1)];
        case None =>
          items := items + [NewLine(p)];
      }
      SaveToStorage();
      if WellFormed(old(items)) {
        AddKeepsWellFormed(old(items), p);
      }
    }

    method RemoveItem(id: string)
      modifies this, store
      ensures items == RemoveFrom(old(items), id) && Saved()
      ensures forall k :: 0 <= k < |items| ==> items[k].id != id
      ensures WellFormed(old(items)) ==> WellFormed(items)
    {
      items := Keep(items, OtherThan(id));
      SaveToStorage();
      if WellFormed(old(items)) {
        RemoveKeepsWellFormed(old(items), id);
      }
    }

    /**
      A quantity of 0 or less removes the item (and saves even when the id is unknown); a
      positive one is written into the item and saved; an unknown id then changes nothing.
     */
    method UpdateQuantity(id: string, n: int)
      modifies this, store
      ensures n <= 0 ==> items == RemoveFrom(old(items), id) && Saved()
      ensures n > 0 && IndexOf(old(items), id).Some? ==> items == SetQuantity(old(items), id, n) && Saved()
      ensures n > 0 && IndexOf(old(items), id).None? ==>
                items == old(items) && shownCount == old(shownCount) && store.cart == old(store.cart)
      ensures WellFormed(old(items)) ==> WellFormed(items)
    {
      if n <= 0 {
        RemoveItem(id);
        return;
      }
      var found := FindFirst(items, HasId(id));
      if found.Some? {
        var i := found.value;
        items := items[i := items[i].(quantity := n)];
        SaveToStorage();
        if WellFormed(old(items)) {
          SetQuantityKeepsWellFormed(old(items), id, n);
        }
      }
    }

    /** The decrease button: quantity minus one, so an item at 1 is removed. */
    method DecreaseClicked(id: string)
      modifies this, store
      ensures IndexOf(old(items), id).None? ==>
                items == old(items) && shownCount == old(shownCount) && store.cart == old(store.cart)
      ensures IndexOf(old(items), id).Some? ==>
                var q := old(items)[IndexOf(old(items), id).value].quantity - 1;
                Saved() && items == if q <= 0 then RemoveFrom(old(items), id) else SetQuantity(old(items), id, q)
      ensures IndexOf(old(items), id).Some? && old(items)[IndexOf(old(items), id).value].quantity == 1 ==>
                forall k :: 0 <= k < |items| ==> items[k].id != id
    {
      var found := FindFirst(items, HasId(id));
      if found.Some? {
        UpdateQuantity(id, items[found.value].quantity - 1);
      }
    }

    /** The increase button: quantity plus one. */
    method IncreaseClicked(id: string)
      modifies this, store
      ensures IndexOf(old(items), id).None? ==>
                items == old(items) && shownCount == old(shownCount) && store.cart == old(store.cart)
      ensures IndexOf(old(items), id).Some? ==>
                var q := old(items)[IndexOf(old(items), id).value].quantity + 1;
                Saved() && items == if q <= 0 then RemoveFrom(old(items), id) else SetQuantity(old(items), id, q)
    {
      var found := FindFirst(items, HasId(id));
      if found.Some? {
        UpdateQuantity(id, items[found.value].quantity + 1);
      }
    }

    /** A quantity typed into an item's input, once the debounce delay has passed. */
    method QuantityTyped(id: string, value: string)
      modifies this, store
      ensures TypedQuantity(value) <= 0 ==> items == RemoveFrom(old(items), id) && Saved()
      ensures TypedQuantity(value) > 0 && IndexOf(old(items), id).Some? ==>
                items == SetQuantity(old(items), id, TypedQuantity(value)) && Saved()
      ensures TypedQuantity(value) > 0 && IndexOf(old(items), id).None? ==>
                items == old(items) && shownCount == old(shownCount) && store.cart == old(store.cart)
    {
      var n := TypedQuantity(value);
      UpdateQuantity(id, n);
    }
  }

  /**
    The global addToCart: hands the product to the cart when one exists; before the cart is
    constructed it repeats addItem's find-then-increment on the stored list itself.
   */
  method AddToCart(cart: Cart?, store: Store, p: ProductInfo)
    requires cart != null ==> cart.store == store
    modifies store, cart
    ensures cart != null ==> cart.items == AddTo(old(cart.items), p) && cart.Saved()
    ensures cart == null ==> store.cart == Some(AddTo(Load(old(store.cart)), p))
  {
    if cart != null {
      cart.AddItem(p);
    } else {
      var temp := Load(store.cart);
      var found := FindFirst(temp, HasId(p.id));
      match found {
        case Some(i) =>
          temp := temp[i := temp[i].(quantity := temp[i].quantity + 1)];
        case None =>
          temp := temp + [NewLine(p)];
      }
      store.cart := Some(temp);
    }
  }

  /**
    Adding through the fallback before the cart exists stores exactly the list that a cart
    loaded from the same store would store after addItem.
   */
  method FallbackAgreesWithAddItem(saved: Option<seq<LineItem>>, p: ProductInfo)
    returns (viaFallback: Option<seq<LineItem>>, viaCart: Option<seq<LineItem>>)
    ensures viaFallback == viaCart
    ensures viaCart == Some(AddTo(Load(saved), p))
  {
    var early := new Store(saved);
    AddToCart(null, early, p);
    viaFallback := early.cart;

    var later := new Store(saved);
    var cart := new Cart(later);
    cart.AddItem(p);
    viaCart := later.cart;
  }

  /**
    An empty cart, one product at 47 added twice: 47 + 5.99 = 52.99 after the first add,
    then one line of quantity 2 at 94 with free shipping; a cart loaded afresh from the
    store sees that same line.
   */
  method CheckoutScenario()
    returns (first: (real, real, real), second: (real, real, real), reloaded: seq<LineItem>)
    ensures first == (47.0, 5.99, 52.99)
    ensures second == (94.0, 0.0, 94.0)
    ensures reloaded == [LineItem("1", "Coffee Beans", 47.0, "item-1.png", 2)]
  {
    var store := new Store(None);
    var cart := new Cart(store);
    var p := ProductInfo("1", "Coffee Beans", 47.0, "item-1.png");
    cart.AddItem(p);
    assert cart.items == [NewLine(p)];
    SubtotalOfOne(NewLine(p));
    first := (Subtotal(cart.items), Shipping(Subtotal(cart.items)), Total(cart.items));
    cart.AddItem(p);
    assert cart.items == [NewLine(p).(quantity := 2)];
    SubtotalOfOne(NewLine(p).(quantity := 2));
    second := (Subtotal(cart.items), Shipping(Subtotal(cart.items)), Total(cart.items));
    var again := new Cart(store);
    reloaded := again.items;
  }

  lemma SubtotalOfOne(x: LineItem)
    ensures Subtotal([x]) == LineTotal(x)
  {
    assert [x][..0] == [];
  }

  // ---- addItem -------------------------------------------------------------------------

  /** With one line per id, the line at `i` is the one any search for its id finds. */
  lemma UniqueIndexOf(items: seq<LineItem>, i: nat)
    requires UniqueIds(items) && i < |items|
    ensures IndexOf(items, items[i].id) == Some(i)
  {
    assert HasId(items[i].id)(items[i]);
  }

  /** Adding a product already in the cart adds one to its line and touches nothing else. */
  lemma AddExistingIncrements(items: seq<LineItem>, p: ProductInfo, i: nat)
    requires UniqueIds(items) && i < |items| && items[i].id == p.id
    ensures |AddTo(items, p)| == |items|
    ensures AddTo(items, p)[i] == items[i].(quantity := items[i].quantity + 1)
    ensures forall j :: 0 <= j < |items| && j != i ==> AddTo(items, p)[j] == items[j]
  {
    UniqueIndexOf(items, i);
  }

  /** Adding a new product appends a line of one and keeps every earlier line, in order. */
  lemma AddNewAppends(items: seq<LineItem>, p: ProductInfo)
    requires forall j :: 0 <= j < |items| ==> items[j].id != p.id
    ensures AddTo(items, p) == items + [LineItem(p.id, p.name, p.price, p.image, 1)]
  {
    assert forall j :: 0 <= j < |items| ==> !HasId(p.id)(items[j]);
  }

  lemma AddKeepsWellFormed(items: seq<LineItem>, p: ProductInfo)
    requires WellFormed(items)
    ensures WellFormed(AddTo(items, p))
  {
    match IndexOf(items, p.id)
    case Some(i) =>
      AddExistingIncrements(items, p, i);
    case None =>
      var r := AddTo(items, p);
      assert r == items + [NewLine(p)];
      forall i, j | 0 <= i < j < |r| ensures r[i].id != r[j].id {
        if j == |items| {
          assert !HasId(p.id)(items[i]);
        }
      }
  }

  /** Adding a product shows one more in the badge. */
  lemma AddRaisesCount(items: seq<LineItem>, p: ProductInfo)
    ensures Count(AddTo(items, p)) == Count(items) + 1
  {
    match IndexOf(items, p.id)
    case Some(i) =>
      CountUpdate(items, i, items[i].(quantity := items[i].quantity + 1));
    case None =>
      var r := items + [NewLine(p)];
      assert r[..|r| - 1] == items;
  }

  /**
    The subtotal grows by the product's price when it is new, but by the price stored in
    its line when it is already there: the line keeps the price it was first added at.
   */
  lemma AddRaisesSubtotal(items: seq<LineItem>, p: ProductInfo)
    ensures IndexOf(items, p.id).None? ==> Subtotal(AddTo(items, p)) == Subtotal(items) + p.price
    ensures IndexOf(items, p.id).Some? ==>
              Subtotal(AddTo(items, p)) == Subtotal(items) + items[IndexOf(items, p.id).value].price
  {
    match IndexOf(items, p.id)
    case Some(i) =>
      var x := items[i].(quantity := items[i].quantity + 1);
      assert AddTo(items, p) == items[i := x];
      var before, after := LineTotal(items[i]), LineTotal(x);
      assert Subtotal(items[i := x]) == Subtotal(items) - before + after by {
        SubtotalUpdate(items, i, x);
      }
      assert after == before + items[i].price by {
        OneMoreLineTotal(items[i]);
      }
    case None =>
      var r := items + [NewLine(p)];
      assert r[..|r| - 1] == items;
  }

  lemma OneMoreLineTotal(x: LineItem)
    ensures LineTotal(x.(quantity := x.quantity + 1)) == LineTotal(x) + x.price
  {
    assert (x.quantity + 1) as real == x.quantity as real + 1.0;
  }

  // ---- removeItem ----------------------------------------------------------------------

  /**
    Removing leaves no line with the id and keeps the others in their original order: the
    result is the cart read at increasing positions, exactly those whose id differs.
   */
  lemma RemoveKeepsOthersInOrder(items: seq<LineItem>, id: string)
    ensures forall k :: 0 <= k < |RemoveFrom(items, id)| ==> RemoveFrom(items, id)[k].id != id
    ensures RemoveFrom(items, id) == Select(items, KeptIndices(items, OtherThan(id)))
    ensures forall k, l :: 0 <= k < l < |KeptIndices(items, OtherThan(id))| ==>
              KeptIndices(items, OtherThan(id))[k] < KeptIndices(items, OtherThan(id))[l]
    ensures forall i :: 0 <= i < |items| ==> (i in KeptIndices(items, OtherThan(id)) <==> items[i].id != id)
  {
    KeepIsSelection(items, OtherThan(id));
    forall k | 0 <= k < |RemoveFrom(items, id)| ensures RemoveFrom(items, id)[k].id != id {
      assert OtherThan(id)(RemoveFrom(items, id)[k]);
    }
  }

  /** Removing the same id twice is removing it once; removing an absent id changes nothing. */
  lemma RemoveIdempotent(items: seq<LineItem>, id: string)
    ensures RemoveFrom(RemoveFrom(items, id), id) == RemoveFrom(items, id)
    ensures (forall k :: 0 <= k < |items| ==> items[k].id != id) ==> RemoveFrom(items, id) == items
  {
    KeepIdempotent(items, OtherThan(id));
    if forall k :: 0 <= k < |items| ==> items[k].id != id {
      KeepAll(items, OtherThan(id));
    }
  }

  lemma RemoveKeepsWellFormed(items: seq<LineItem>, id: string)
    requires WellFormed(items)
    ensures WellFormed(RemoveFrom(items, id))
  {
    var idx := KeptIndices(items, OtherThan(id));
    var r := RemoveFrom(items, id);
    assert r == Select(items, idx) by {
      KeepFromAt(items, OtherThan(id), 0);
      assert items[0..] == items;
    }
    forall k | 0 <= k < |r| ensures r[k].quantity >= 1 {
      assert r[k] == items[idx[k]];
    }
    forall i, j | 0 <= i < j < |r| ensures r[i].id != r[j].id {
      assert r[i] == items[idx[i]] && r[j] == items[idx[j]] && idx[i] < idx[j];
    }
  }

  // ---- updateQuantity ------------------------------------------------------------------

  /** A positive quantity is written into the line with the id; every other line stays. */
  lemma SetQuantityChangesOnlyThatLine(items: seq<LineItem>, id: string, n: int, i: nat)
    requires UniqueIds(items) && i < |items| && items[i].id == id
    ensures |SetQuantity(items, id, n)| == |items|
    ensures SetQuantity(items, id, n)[i] == items[i].(quantity := n)
    ensures forall j :: 0 <= j < |items| && j != i ==> SetQuantity(items, id, n)[j] == items[j]
  {
    UniqueIndexOf(items, i);
  }

  /** An id that is not in the cart leaves it as it is. */
  lemma SetQuantityUnknownId(items: seq<LineItem>, id: string, n: int)
    requires forall j :: 0 <= j < |items| ==> items[j].id != id
    ensures SetQuantity(items, id, n) == items
  {
    assert forall j :: 0 <= j < |items| ==> !HasId(id)(items[j]);
  }

  lemma SetQuantityKeepsWellFormed(items: seq<LineItem>, id: string, n: int)
    requires WellFormed(items) && n >= 1
    ensures WellFormed(SetQuantity(items, id, n))
  {
    match IndexOf(items, id)
    case Some(i) =>
      SetQuantityChangesOnlyThatLine(items, id, n, i);
    case None =>
  }

  /** The badge count moves by the difference between the new and the old quantity. */
  lemma SetQuantityMovesCount(items: seq<LineItem>, id: string, n: int, i: nat)
    requires UniqueIds(items) && i < |items| && items[i].id == id
    ensures Count(SetQuantity(items, id, n)) == Count(items) - items[i].quantity + n
  {
    UniqueIndexOf(items, i);
    CountUpdate(items, i, items[i].(quantity := n));
  }

  // ---- the folds -----------------------------------------------------------------------

  /** Replacing one line changes the subtotal by the difference of the two line totals. */
  lemma {:induction false} SubtotalUpdate(items: seq<LineItem>, i: nat, x: LineItem)
    requires i < |items|
    ensures Subtotal(items[i := x]) == Subtotal(items) - LineTotal(items[i]) + LineTotal(x)
    decreases |items|
  {
    var n := |items| - 1;
    var r := items[i := x];
    if i < n {
      SubtotalUpdate(items[..n], i, x);
      assert r[..n] == items[..n][i := x];
    } else {
      assert r[..n] == items[..n];
    }
  }

  /** Replacing one line changes the count by the difference of the two quantities. */
  lemma {:induction false} CountUpdate(items: seq<LineItem>, i: nat, x: LineItem)
    requires i < |items|
    ensures Count(items[i := x]) == Count(items) - items[i].quantity + x.quantity
    decreases |items|
  {
    var n := |items| - 1;
    var r := items[i := x];
    assert Count(r) == Count(r[..n]) + r[n].quantity;
    assert Count(items) == Count(items[..n]) + items[n].quantity;
    if i < n {
      CountUpdate(items[..n], i, x);
      assert r[..n] == items[..n][i := x];
    } else {
      assert r[..n] == items[..n];
    }
  }

  // ---- the quantity input --------------------------------------------------------------

  /**
    A typed number comes back as itself, whatever non-digit text follows it ("2.5" gives 2);
    a typed 0 becomes 1, and so does text without digits.
   */
  lemma TypedQuantityRule(n: int, rest: string)
    requires rest == [] || !Text.IsDigitIn(rest[0], 10)
    requires n == 0 && rest != [] ==> rest[0] != 'x' && rest[0] != 'X'
    ensures TypedQuantity(Text.DecimalString(n) + rest) == if n == 0 then 1 else n
  {
    Text.ParseIntDecimal(n, rest);
  }

  /** Text with no digit at all reads as NaN, which is falsy: the quantity becomes 1. */
  lemma TypedWithoutDigits(v: string)
    requires forall i :: 0 <= i < |v| ==> !('0' <= v[i] <= '9')
    ensures TypedQuantity(v) == 1
  {
    Text.ParseIntWithoutDigits(v);
  }
}
