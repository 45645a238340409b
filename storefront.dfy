/** The storefront's state: the module-level variables of the script
    (`products`, `filteredProducts`, `cart`, `sortDirection`,
    `currentModalProduct`, `currentQuantity`) as the fields of one object,
    and the user actions and network callbacks that update them. */
module Storefront {
  import opened Wrappers
  import opened Catalog
  import opened Query
  import opened Cart
  import opened Orders

  /** How the cart request at start-up ended. */
  datatype CartFetch =
    | Loaded(entries: seq<Entry>)  // the response said `success: true`
    | Refused                      // the response said `success: false`
    | Failed                       // the request or the JSON parse threw, or a
                                   // `success: true` payload whose `data` is not
                                   // an array made `updateCartUI`'s `reduce` throw

  class Shop {
    var products: seq<Product>
    var filteredProducts: array<Product>
    var cart: seq<Entry>
    var sortDirection: Direction
    var currentModalProduct: Option<Product>
    var currentQuantity: int

    /** The modal's pending quantity never drops below 1. */
    ghost predicate Valid()
      reads this
    {
      currentQuantity >= 1
    }

    /** The initial values of the script's globals. */
    constructor ()
      ensures Valid()
      ensures products == [] && filteredProducts.Length == 0 && cart == []
      ensures sortDirection == Asc && currentModalProduct == None && currentQuantity == 1
    {
      products := [];
      filteredProducts := new Product[0];
      cart := [];
      sortDirection := Asc;
      currentModalProduct := None;
      currentQuantity := 1;
    }

    /** `loadProducts` after the fetch: on success the catalogue is replaced
        wholesale by the normalised rows and the view is an unsorted copy of
        it; on failure (`None`) nothing changes. */
    method LoadProducts(response: Option<seq<Record>>)
      modifies this`products, this`filteredProducts
      ensures response.Some? ==> products == NormalizeAll(response.value)
                                 && fresh(filteredProducts) && filteredProducts[..] == products
      ensures response.None? ==> products == old(products) && filteredProducts == old(filteredProducts)
    {
      if response.Some? {
        products := NormalizeAll(response.value);
        var ps := products;
        filteredProducts := new Product[|ps|](i requires 0 <= i < |ps| => ps[i]);
      }
    }

    /** `loadCart` after the fetch: nothing without a user id; the server's
        entries on success; unchanged when the server refuses; empty when
        the request throws. */
    method LoadCart(hasUserId: bool, fetched: CartFetch)
      modifies this`cart
      ensures !hasUserId ==> cart == old(cart)
      ensures hasUserId && fetched.Loaded? ==> cart == fetched.entries
      ensures hasUserId && fetched.Refused? ==> cart == old(cart)
      ensures hasUserId && fetched.Failed? ==> cart == []
    {
      if !hasUserId {
        return;
      }
      match fetched
      case Loaded(entries) => cart := entries;
      case Refused =>
      case Failed => cart := [];
    }

    /** `openProductModal`: shows the product and resets the quantity to 1. */
    method OpenProductModal(p: Product)
      modifies this`currentModalProduct, this`currentQuantity
      ensures Valid()
      ensures currentModalProduct == Some(p) && currentQuantity == 1
    {
      currentModalProduct := Some(p);
      currentQuantity := 1;
    }

    /** `closeProductModal`: forgets the product; the quantity is left as is. */
    method CloseProductModal()
      modifies this`currentModalProduct
      ensures currentModalProduct == None
    {
      currentModalProduct := None;
    }

    /** The "+" handler: no upper bound. */
    method IncreaseQuantity()
      requires Valid()
      modifies this`currentQuantity
      ensures Valid()
      ensures currentQuantity == old(currentQuantity) + 1
    {
      currentQuantity := currentQuantity + 1;
    }

    /** The "−" handler: acts only above 1, so the quantity stays at least 1. */
    method DecreaseQuantity()
      requires Valid()
      modifies this`currentQuantity
      ensures Valid()
      ensures old(currentQuantity) > 1 ==> currentQuantity == old(currentQuantity) - 1
      ensures old(currentQuantity) <= 1 ==> currentQuantity == old(currentQuantity)
    {
      if currentQuantity > 1 {
        currentQuantity := currentQuantity - 1;
      }
    }

    /** `addToCart`, up to and including the modal close: without a modal
        product nothing happens; otherwise the product's entry grows by the
        pending quantity, or a new entry is appended, and the modal closes.
        The badge count grows by exactly the pending quantity and unique ids
        stay unique. */
    method AddToCart()
      requires Valid()
      modifies this`cart, this`currentModalProduct
      ensures Valid()
      ensures old(currentModalProduct).None? ==> cart == old(cart) && currentModalProduct == None
      ensures old(currentModalProduct).Some? ==>
                cart == AddedTo(old(cart), old(currentModalProduct).value.id, currentQuantity)
                && currentModalProduct == None
      ensures old(currentModalProduct).Some? ==> TotalItems(cart) == TotalItems(old(cart)) + currentQuantity
      ensures UniqueIds(old(cart)) ==> UniqueIds(cart)
    {
      if currentModalProduct.None? {
        return;
      }
      var id := currentModalProduct.value.id;
      var k := 0;
      while k < |cart| && cart[k].id != id
        invariant 0 <= k <= |cart|
        invariant forall j :: 0 <= j < k ==> cart[j].id != id
      {
        k := k + 1;
      }
      ghost var before := cart;
      if k < |cart| {
        cart := cart[k := cart[k].(quantity := cart[k].quantity + currentQuantity)];
      } else {
        cart := cart + [Entry(id, currentQuantity)];
      }
      AddGrowsTotal(before, id, currentQuantity);
      if UniqueIds(before) {
        AddKeepsIdsUnique(before, id, currentQuantity);
      }
      CloseProductModal();
    }

    /** `removeFromCart`: the cart becomes the entries with another id, in
        their order. */
    method RemoveFromCart(id: Id)
      modifies this`cart
      ensures cart == Without(old(cart), id)
      ensures forall j :: 0 <= j < |cart| ==> cart[j].id != id
    {
      cart := Without(cart, id);
      RemoveDropsId(old(cart), id);
    }

    /** `sortProducts`: sorts the view in place by price in the current
        direction. */
    method SortProducts()
      modifies filteredProducts
      ensures filteredProducts[..] == SortByPrice(sortDirection, old(filteredProducts[..]))
    {
      SortInPlace(filteredProducts, sortDirection);
    }

    /** `toggleSort`: flips the direction, then re-sorts the view. */
    method ToggleSort()
      modifies this`sortDirection, filteredProducts
      ensures sortDirection == Flip(old(sortDirection))
      ensures filteredProducts[..] == SortByPrice(sortDirection, old(filteredProducts[..]))
    {
      sortDirection := Flip(sortDirection);
      SortProducts();
    }

    /** `searchProducts`: the view becomes the whole catalogue (blank term)
        or the matching products, then sorted. When the filter throws on a
        product without a name or concentration, nothing changes. */
    method SearchProducts(query: string)
      modifies this`filteredProducts
      ensures Searched(products, query).None? ==> filteredProducts == old(filteredProducts)
      ensures Searched(products, query).Some? ==>
                fresh(filteredProducts)
                && filteredProducts[..] == SortByPrice(sortDirection, Searched(products, query).value)
    {
      var found := Searched(products, query);
      if found.None? {
        return;
      }
      var r := found.value;
      var view := new Product[|r|](i requires 0 <= i < |r| => r[i]);
      assert view[..] == r;
      SortInPlace(view, sortDirection);
      filteredProducts := view;
    }

    /** `copyAllOrder`, without the text: no order for an empty cart;
        otherwise the lines of the entries whose product is found, each
        with `price × quantity`, and the running total of those lines. */
    method CopyAllOrder() returns (o: Option<Order>)
      ensures cart == [] ==> o == None
      ensures cart != [] ==> o == Some(Order(Lines(cart, products), Total(Lines(cart, products))))
    {
      if |cart| == 0 {
        return None;
      }
      var lines: seq<Line> := [];
      var total: Option<int> := Some(0);
      var i := 0;
      while i < |cart|
        invariant 0 <= i <= |cart|
        invariant lines == Lines(cart[..i], products)
        invariant total == Total(lines)
      {
        var item := cart[i];
        var product := FindProduct(products, item.id);
        assert cart[..i + 1][..i] == cart[..i] && cart[..i + 1][i] == item;
        assert Lines(cart[..i + 1], products) == lines + LineFor(item, products);
        if product.Some? {
          var itemTotal := Times(OrderPrice(product.value), item.quantity);
          var line := Line(product.value, item.quantity, itemTotal);
          assert (lines + [line])[..|lines|] == lines;
          total := Plus(total, itemTotal);
          lines := lines + [line];
        }
        i := i + 1;
      }
      assert cart[..i] == cart;
      o := Some(Order(lines, total));
    }
  }
}
