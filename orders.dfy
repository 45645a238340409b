/** The order composer behind "copy all order": one line per cart entry whose
    product is still in the catalogue, each with price × quantity, and the
    grand total. The text rendering of the order is not modelled. */
module Orders {
  import opened Wrappers
  import opened Catalog
  import opened Cart
  import Text

  /** A line of the order. `lineTotal` is `None` when the product's price
      multiplies to NaN. */
  datatype Line = Line(product: Product, quantity: int, lineTotal: Option<int>)

  datatype Order = Order(lines: seq<Line>, total: Option<int>)

  /** `products.find(p => p.id === id)`: the first product with the id. */
  function FindProduct(ps: seq<Product>, id: Id): (r: Option<Product>)
    ensures r.Some? ==> exists k :: 0 <= k < |ps| && ps[k] == r.value
                          && forall j :: 0 <= j < k ==> ps[j].id != id
    ensures r.Some? ==> r.value.id == id
    ensures r.None? <==> forall j :: 0 <= j < |ps| ==> ps[j].id != id
  {
    if ps == [] then None
    else if ps[0].id == id then Some(ps[0])
    else
      var r := FindProduct(ps[1..], id);
      assert r.Some? ==> exists k :: 1 <= k < |ps| && ps[k] == r.value
                          && forall j :: 0 <= j < k ==> ps[j].id != id by {
        if r.Some? {
          var k :| 0 <= k < |ps[1..]| && ps[1..][k] == r.value
                   && forall j :: 0 <= j < k ==> ps[1..][j].id != id;
          assert ps[k + 1] == r.value;
          assert forall j :: 0 <= j < k + 1 ==> ps[j].id != id by {
            forall j | 0 <= j < k + 1 ensures ps[j].id != id {
              if j > 0 { assert ps[j] == ps[1..][j - 1]; }
            }
          }
        }
      }
      r
  }

  /** `price * quantity`: NaN stays NaN. */
  function Times(price: Option<nat>, q: int): Option<int> {
    match price
    case None => None
    case Some(v) => Some(v * q)
  }

  /** `total += itemTotal`: NaN absorbs everything. */
  function Plus(a: Option<int>, b: Option<int>): Option<int> {
    if a.Some? && b.Some? then Some(a.value + b.value) else None
  }

  /** The line one cart entry contributes: none when its id does not resolve. */
  function LineFor(e: Entry, ps: seq<Product>): seq<Line> {
    match FindProduct(ps, e.id)
    case None => []
    case Some(p) => [Line(p, e.quantity, Times(OrderPrice(p), e.quantity))]
  }

  /** The lines of the order, in cart order. */
  function Lines(cart: seq<Entry>, ps: seq<Product>): seq<Line> {
    if cart == [] then [] else Lines(cart[..|cart| - 1], ps) + LineFor(cart[|cart| - 1], ps)
  }

  /** The running total, starting from 0. */
  function Total(lines: seq<Line>): Option<int> {
    if lines == [] then Some(0) else Plus(Total(lines[..|lines| - 1]), lines[|lines| - 1].lineTotal)
  }

  /** The sum of the line totals of lines that all have one. */
  function SumLines(lines: seq<Line>): int
    requires forall i :: 0 <= i < |lines| ==> lines[i].lineTotal.Some?
  {
    if lines == [] then 0 else SumLines(lines[..|lines| - 1]) + lines[|lines| - 1].lineTotal.value
  }

  /** The grand total is a number exactly when every line total is, and then
      it is the sum of the line totals. */
  lemma {:induction false} TotalIsSumOfLines(lines: seq<Line>)
    ensures Total(lines).Some? <==> forall i :: 0 <= i < |lines| ==> lines[i].lineTotal.Some?
    ensures Total(lines).Some? ==> Total(lines).value == SumLines(lines)
  {
    if lines != [] {
      var init := lines[..|lines| - 1];
      TotalIsSumOfLines(init);
      if Total(lines).Some? {
        assert forall i :: 0 <= i < |init| ==> init[i].lineTotal.Some?;
        forall i | 0 <= i < |lines| ensures lines[i].lineTotal.Some? {
          if i < |init| { assert lines[i] == init[i]; }
        }
      }
    }
  }

  /** Each line is a catalogue product that an entry's id resolves to, with
      that entry's quantity and `lineTotal = price × quantity`. */
  lemma {:induction false} LinesResolve(cart: seq<Entry>, ps: seq<Product>, i: nat)
    requires i < |Lines(cart, ps)|
    ensures var l := Lines(cart, ps)[i];
      l.product in ps
      && (exists k :: 0 <= k < |cart| && cart[k].id == l.product.id && cart[k].quantity == l.quantity)
      && l.lineTotal == Times(OrderPrice(l.product), l.quantity)
  {
    var init := cart[..|cart| - 1];
    if i < |Lines(init, ps)| {
      LinesResolve(init, ps, i);
      var k :| 0 <= k < |init| && init[k].id == Lines(init, ps)[i].product.id
               && init[k].quantity == Lines(init, ps)[i].quantity;
      assert cart[k] == init[k];
    } else {
      assert Lines(cart, ps)[i] == LineFor(cart[|cart| - 1], ps)[0];
    }
  }

  /** Lines split along any split of the cart. */
  lemma {:induction false} LinesConcat(a: seq<Entry>, b: seq<Entry>, ps: seq<Product>)
    ensures Lines(a + b, ps) == Lines(a, ps) + Lines(b, ps)
  {
    if b != [] {
      LinesConcat(a, b[..|b| - 1], ps);
      assert (a + b)[..|a + b| - 1] == a + b[..|b| - 1];
    } else {
      assert a + b == a;
    }
  }

  /** A cart entry whose product is no longer in the catalogue is skipped:
      it adds no line and nothing to the total. */
  lemma StaleEntrySkipped(a: seq<Entry>, e: Entry, b: seq<Entry>, ps: seq<Product>)
    requires FindProduct(ps, e.id) == None
    ensures Lines(a + [e] + b, ps) == Lines(a + b, ps)
  {
    assert Lines([e], ps) == Lines([], ps) + LineFor(e, ps) by {
      assert [e][..0] == [];
    }
    LinesConcat(a, [e], ps);
    assert Lines(a + [e], ps) == Lines(a, ps);
    LinesConcat(a + [e], b, ps);
    LinesConcat(a, b, ps);
  }

  /** When every entry resolves, there is one line per entry, in cart order,
      carrying that entry's product and quantity. */
  lemma {:induction false} LinesAllResolved(cart: seq<Entry>, ps: seq<Product>)
    requires forall k :: 0 <= k < |cart| ==> FindProduct(ps, cart[k].id).Some?
    ensures |Lines(cart, ps)| == |cart|
    ensures forall k :: 0 <= k < |cart| ==>
      Lines(cart, ps)[k].product == FindProduct(ps, cart[k].id).value
      && Lines(cart, ps)[k].quantity == cart[k].quantity
  {
    if cart != [] {
      var init, e := cart[..|cart| - 1], cart[|cart| - 1];
      assert forall k :: 0 <= k < |init| ==> FindProduct(ps, init[k].id).Some? by {
        forall k | 0 <= k < |init| ensures FindProduct(ps, init[k].id).Some? {
          assert init[k] == cart[k];
        }
      }
      LinesAllResolved(init, ps);
      var p := FindProduct(ps, e.id).value;
      assert LineFor(e, ps) == [Line(p, e.quantity, Times(OrderPrice(p), e.quantity))];
      assert Lines(cart, ps) == Lines(init, ps) + LineFor(e, ps);
      forall k | 0 <= k < |init|
        ensures Lines(cart, ps)[k].product == FindProduct(ps, cart[k].id).value
        ensures Lines(cart, ps)[k].quantity == cart[k].quantity
      {
        assert Lines(cart, ps)[k] == Lines(init, ps)[k];
        assert cart[k] == init[k];
      }
    }
  }

  /** A catalogue reload that drops a product the cart still refers to:
      after adding 2 of product "1" and 1 of product "2" (price 50) to an
      empty cart, a catalogue holding only product "2" yields one line,
      quantity 1, total 50, and a grand total of 50. */
  lemma ReloadDropsStaleLine(b: Product)
    requires b.id == Some("2") && b.price == Some("50")
    ensures var cart := AddedTo(AddedTo([], Some("1"), 2), Some("2"), 1);
      Lines(cart, [b]) == [Line(b, 1, Some(50))] && Total(Lines(cart, [b])) == Some(50)
  {
    var c1 := AddedTo([], Some("1"), 2);
    assert c1 == [Entry(Some("1"), 2)];
    assert FindIndex(c1, Some("2")) == None;
    var cart := AddedTo(c1, Some("2"), 1);
    assert cart == [Entry(Some("1"), 2), Entry(Some("2"), 1)];
    Text.PlainNumberReadsAlike("50");
    assert Text.DigitsValue("50") == 50 by {
      assert "50"[..1] == "5" && "5"[..0] == "";
    }
    assert OrderPrice(b) == Some(50);
    assert FindProduct([b], Some("1")) == None;
    assert FindProduct([b], Some("2")) == Some(b);
    assert cart[..1] == c1 && c1[..0] == [];
    assert Lines(c1, [b]) == [];
    var ls := Lines(cart, [b]);
    assert ls == [Line(b, 1, Some(50))];
    assert ls[..0] == [];
  }
}
