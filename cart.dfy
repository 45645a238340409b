/** The cart: a list of `{id, quantity}` entries. The functions here are the
    values the cart takes under the user's actions; the `Shop` class applies
    them to its `cart` field. */
module Cart {
  import opened Wrappers

  /** A product id as the cart compares it with `===` (`None` is `undefined`,
      which a product with no id key carries). */
  type Id = Option<string>

  datatype Entry = Entry(id: Id, quantity: int)

  /** `cart.find(item => item.id === id)`, as a position: the first entry
      with that id, or `None` when there is none. */
  function FindIndex(cart: seq<Entry>, id: Id): (r: Option<nat>)
    ensures r.Some? ==> r.value < |cart| && cart[r.value].id == id
                        && forall j :: 0 <= j < r.value ==> cart[j].id != id
    ensures r.None? ==> forall j :: 0 <= j < |cart| ==> cart[j].id != id
  {
    if cart == [] then None
    else if cart[0].id == id then Some(0)
    else match FindIndex(cart[1..], id)
      case None => None
      case Some(k) => Some(k + 1)
  }

  /** The cart after `addToCart` adds `q` of product `id`: the entry found
      for `id` grows by `q` in place, otherwise `{id, quantity: q}` is
      pushed at the end. */
  function AddedTo(cart: seq<Entry>, id: Id, q: int): seq<Entry> {
    match FindIndex(cart, id)
    case Some(k) => cart[k := cart[k].(quantity := cart[k].quantity + q)]
    case None => cart + [Entry(id, q)]
  }

  /** At most one entry per id. */
  predicate UniqueIds(cart: seq<Entry>) {
    forall i, j :: 0 <= i < j < |cart| ==> cart[i].id != cart[j].id
  }

  /** `cart.reduce((sum, item) => sum + item.quantity, 0)`: the badge count. */
  function TotalItems(cart: seq<Entry>): int {
    if cart == [] then 0 else TotalItems(cart[..|cart| - 1]) + cart[|cart| - 1].quantity
  }

  /** Adding to a product already in the cart changes its (first) entry's
      quantity by `q`, keeps the length, and leaves every other entry as it
      was. */
  lemma AddExisting(cart: seq<Entry>, id: Id, q: int, k: nat)
    requires k < |cart| && cart[k].id == id
    requires forall j :: 0 <= j < k ==> cart[j].id != id
    ensures |AddedTo(cart, id, q)| == |cart|
    ensures AddedTo(cart, id, q)[k] == Entry(id, cart[k].quantity + q)
    ensures forall j :: 0 <= j < |cart| && j != k ==> AddedTo(cart, id, q)[j] == cart[j]
  {
    assert FindIndex(cart, id) == Some(k);
  }

  /** Adding a product not in the cart appends one entry at the end. */
  lemma AddNew(cart: seq<Entry>, id: Id, q: int)
    requires forall j :: 0 <= j < |cart| ==> cart[j].id != id
    ensures AddedTo(cart, id, q) == cart + [Entry(id, q)]
  {
  }

  /** If ids were unique before an add, they are unique after it. */
  lemma AddKeepsIdsUnique(cart: seq<Entry>, id: Id, q: int)
    requires UniqueIds(cart)
    ensures UniqueIds(AddedTo(cart, id, q))
  {
  }

  lemma {:induction false} TotalAppend(cart: seq<Entry>, e: Entry)
    ensures TotalItems(cart + [e]) == TotalItems(cart) + e.quantity
  {
    assert (cart + [e])[..|cart|] == cart;
  }

  lemma {:induction false} TotalConcat(a: seq<Entry>, b: seq<Entry>)
    ensures TotalItems(a + b) == TotalItems(a) + TotalItems(b)
  {
    if b != [] {
      TotalConcat(a, b[..|b| - 1]);
      assert (a + b)[..|a + b| - 1] == a + b[..|b| - 1];
    } else {
      assert a + b == a;
    }
  }

  /** Changing one entry's quantity moves the total by the same amount. */
  lemma {:induction false} TotalUpdate(cart: seq<Entry>, k: nat, e: Entry)
    requires k < |cart|
    ensures TotalItems(cart[k := e]) == TotalItems(cart) - cart[k].quantity + e.quantity
  {
    var c := cart[k := e];
    assert c == cart[..k] + [e] + cart[k + 1..];
    assert cart == cart[..k] + [cart[k]] + cart[k + 1..];
    TotalConcat(cart[..k] + [e], cart[k + 1..]);
    TotalConcat(cart[..k] + [cart[k]], cart[k + 1..]);
    TotalAppend(cart[..k], e);
    TotalAppend(cart[..k], cart[k]);
  }

  /** After an add of `q`, the badge count has grown by exactly `q`. */
  lemma AddGrowsTotal(cart: seq<Entry>, id: Id, q: int)
    ensures TotalItems(AddedTo(cart, id, q)) == TotalItems(cart) + q
  {
    match FindIndex(cart, id)
    case Some(k) => TotalUpdate(cart, k, cart[k].(quantity := cart[k].quantity + q));
    case None => TotalAppend(cart, Entry(id, q));
  }

  /** Adding products to an empty cart, one `q` each and with ids repeated
      or not, gives a badge count equal to the sum of the `q`s. */
  lemma {:induction false} AddsFromEmpty(ids: seq<Id>, qs: seq<int>)
    requires |ids| == |qs|
    ensures TotalItems(AddAll([], ids, qs)) == SumOf(qs)
  {
    if ids != [] {
      var n := |ids| - 1;
      AddsFromEmpty(ids[..n], qs[..n]);
      AddGrowsTotal(AddAll([], ids[..n], qs[..n]), ids[n], qs[n]);
    }
  }

  /** Adds `qs[i]` of `ids[i]` for each `i` in turn. */
  function AddAll(cart: seq<Entry>, ids: seq<Id>, qs: seq<int>): seq<Entry>
    requires |ids| == |qs|
  {
    if ids == [] then cart
    else AddedTo(AddAll(cart, ids[..|ids| - 1], qs[..|qs| - 1]), ids[|ids| - 1], qs[|qs| - 1])
  }

  function SumOf(qs: seq<int>): int {
    if qs == [] then 0 else SumOf(qs[..|qs| - 1]) + qs[|qs| - 1]
  }

  /** `cart.filter(item => item.id !== id)`. */
  function Without(cart: seq<Entry>, id: Id): seq<Entry> {
    if cart == [] then []
    else Without(cart[..|cart| - 1], id) + (if cart[|cart| - 1].id != id then [cart[|cart| - 1]] else [])
  }

  /** After removal no entry has the id. */
  lemma {:induction false} RemoveDropsId(cart: seq<Entry>, id: Id)
    ensures forall j :: 0 <= j < |Without(cart, id)| ==> Without(cart, id)[j].id != id
  {
    if cart != [] {
      RemoveDropsId(cart[..|cart| - 1], id);
    }
  }

  /** Every entry with another id is kept as many times as it occurred, and
      none with the id is. */
  lemma {:induction false} RemoveKeepsOthers(cart: seq<Entry>, id: Id, e: Entry)
    ensures multiset(Without(cart, id))[e] == if e.id == id then 0 else multiset(cart)[e]
  {
    if cart != [] {
      var init := cart[..|cart| - 1];
      RemoveKeepsOthers(init, id, e);
      assert cart == init + [cart[|cart| - 1]];
    }
  }

  /** Removing an id that no entry has leaves the cart as it was. */
  lemma {:induction false} RemoveAbsent(cart: seq<Entry>, id: Id)
    requires forall j :: 0 <= j < |cart| ==> cart[j].id != id
    ensures Without(cart, id) == cart
  {
    if cart != [] {
      var init := cart[..|cart| - 1];
      RemoveAbsent(init, id);
      assert cart == init + [cart[|cart| - 1]];
    }
  }

  /** Removal keeps the order of what remains: it distributes over any split
      of the cart. */
  lemma {:induction false} RemoveConcat(a: seq<Entry>, b: seq<Entry>, id: Id)
    ensures Without(a + b, id) == Without(a, id) + Without(b, id)
  {
    if b != [] {
      RemoveConcat(a, b[..|b| - 1], id);
      assert (a + b)[..|a + b| - 1] == a + b[..|b| - 1];
    } else {
      assert a + b == a;
    }
  }

  /** In a cart with unique ids, no entry before or after position `k` has
      the id of the entry at `k`. */
  lemma OnlyAt(cart: seq<Entry>, k: nat, pre: seq<Entry>, post: seq<Entry>)
    requires UniqueIds(cart) && k < |cart|
    requires pre == cart[..k] && post == cart[k + 1..]
    ensures forall j :: 0 <= j < |pre| ==> pre[j].id != cart[k].id
    ensures forall j :: 0 <= j < |post| ==> post[j].id != cart[k].id
  {
    forall j | 0 <= j < |pre| ensures pre[j].id != cart[k].id {
      assert pre[j] == cart[j];
    }
    forall j | 0 <= j < |post| ensures post[j].id != cart[k].id {
      assert post[j] == cart[k + 1 + j];
    }
  }

  /** In a cart with unique ids, removing an id present at `k` drops exactly
      that entry. */
  lemma RemovePresent(cart: seq<Entry>, id: Id, k: nat)
    requires UniqueIds(cart) && k < |cart| && cart[k].id == id
    ensures Without(cart, id) == cart[..k] + cart[k + 1..]
  {
    var pre, x, post := cart[..k], cart[k], cart[k + 1..];
    OnlyAt(cart, k, pre, post);
    RemoveAbsent(pre, id);
    RemoveAbsent(post, id);
    assert Without([x], id) == [] by {
      assert [x][..0] == [];
    }
    assert cart == (pre + [x]) + post;
    calc {
      Without(cart, id);
      Without((pre + [x]) + post, id);
      { RemoveConcat(pre + [x], post, id); }
      Without(pre + [x], id) + Without(post, id);
      { RemoveConcat(pre, [x], id); }
      Without(pre, id) + Without([x], id) + Without(post, id);
      pre + post;
    }
  }

  /** ... and lowers the badge count by that entry's quantity. */
  lemma RemovePresentTotal(cart: seq<Entry>, id: Id, k: nat)
    requires UniqueIds(cart) && k < |cart| && cart[k].id == id
    ensures TotalItems(Without(cart, id)) == TotalItems(cart) - cart[k].quantity
  {
    RemovePresent(cart, id, k);
    assert cart == cart[..k] + [cart[k]] + cart[k + 1..];
    TotalConcat(cart[..k], cart[k + 1..]);
    TotalConcat(cart[..k] + [cart[k]], cart[k + 1..]);
    TotalAppend(cart[..k], cart[k]);
  }
}
