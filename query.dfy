/** The query engine: the case-insensitive search filter over the catalogue
    and the stable sort by price in the current direction. */
module Query {
  import opened Wrappers
  import opened Text
  import opened Catalog

  /** `sortDirection`, which the script keeps as the string 'asc' or 'desc'. */
  datatype Direction = Asc | Desc

  /** `toggleSort`'s flip: 'asc' becomes 'desc', anything else becomes 'asc'. */
  function Flip(d: Direction): (r: Direction)
    ensures r != d
  {
    if d == Asc then Desc else Asc
  }

  /** Toggling twice restores the direction. */
  lemma FlipTwice(d: Direction)
    ensures Flip(Flip(d)) == d
  {
  }

  /** The comparator `priceA - priceB` (or its negation) is not positive:
      the sort may keep `a` before `b`. */
  predicate InOrder(d: Direction, a: Product, b: Product) {
    if d == Asc then SortPrice(a) <= SortPrice(b) else SortPrice(a) >= SortPrice(b)
  }

  predicate Sorted(d: Direction, s: seq<Product>) {
    forall i, j :: 0 <= i < j < |s| ==> InOrder(d, s[i], s[j])
  }

  /** Inserts `x`, which came after everything in `t`, behind the last element
      that may precede it; so among equal prices `x` stays last. */
  function InsertLast(d: Direction, t: seq<Product>, x: Product): seq<Product> {
    if t == [] || InOrder(d, t[|t| - 1], x) then t + [x]
    else InsertLast(d, t[..|t| - 1], x) + [t[|t| - 1]]
  }

  /** The order `Array.prototype.sort` produces with the price comparator.
      The sort is stable, so this is the one order it can produce: insertion
      sort, element by element from the left. */
  function SortByPrice(d: Direction, s: seq<Product>): seq<Product> {
    if s == [] then [] else InsertLast(d, SortByPrice(d, s[..|s| - 1]), s[|s| - 1])
  }

  /** The products of `s` whose sort price is `k`, in their order in `s`. */
  function WithPrice(s: seq<Product>, k: nat): seq<Product> {
    if s == [] then []
    else WithPrice(s[..|s| - 1], k) + (if SortPrice(s[|s| - 1]) == k then [s[|s| - 1]] else [])
  }

  lemma {:induction false} WithPriceConcat(a: seq<Product>, b: seq<Product>, k: nat)
    ensures WithPrice(a + b, k) == WithPrice(a, k) + WithPrice(b, k)
  {
    if b != [] {
      assert (a + b)[..|a + b| - 1] == a + b[..|b| - 1];
      WithPriceConcat(a, b[..|b| - 1], k);
    } else {
      assert a + b == a;
    }
  }

  lemma {:induction false} InsertLastPermutes(d: Direction, t: seq<Product>, x: Product)
    ensures multiset(InsertLast(d, t, x)) == multiset(t) + multiset{x}
  {
    if t == [] || InOrder(d, t[|t| - 1], x) {
    } else {
      InsertLastPermutes(d, t[..|t| - 1], x);
      assert t == t[..|t| - 1] + [t[|t| - 1]];
    }
  }

  /** The sort only reorders: it is a permutation of its input. */
  lemma {:induction false} SortPermutes(d: Direction, s: seq<Product>)
    ensures multiset(SortByPrice(d, s)) == multiset(s)
    ensures |SortByPrice(d, s)| == |s|
  {
    if s != [] {
      SortPermutes(d, s[..|s| - 1]);
      InsertLastPermutes(d, SortByPrice(d, s[..|s| - 1]), s[|s| - 1]);
      assert s == s[..|s| - 1] + [s[|s| - 1]];
    }
    assert |SortByPrice(d, s)| == |multiset(SortByPrice(d, s))|;
  }

  lemma {:induction false} InsertLastSorted(d: Direction, t: seq<Product>, x: Product)
    requires Sorted(d, t)
    ensures Sorted(d, InsertLast(d, t, x))
  {
    if t == [] || InOrder(d, t[|t| - 1], x) {
      var r := t + [x];
      forall i, j | 0 <= i < j < |r| ensures InOrder(d, r[i], r[j]) {
        if j == |t| && i < |t| - 1 {
          assert InOrder(d, t[i], t[|t| - 1]);
        }
      }
    } else {
      var init, y := t[..|t| - 1], t[|t| - 1];
      InsertLastSorted(d, init, x);
      InsertLastPermutes(d, init, x);
      var u := InsertLast(d, init, x);
      var r := u + [y];
      forall i | 0 <= i < |u| ensures InOrder(d, u[i], y) {
        assert u[i] in multiset(u);
        if u[i] != x {
          assert u[i] in multiset(init);
          var m :| 0 <= m < |init| && init[m] == u[i];
          assert InOrder(d, t[m], t[|t| - 1]);
        }
      }
      forall i, j | 0 <= i < j < |r| ensures InOrder(d, r[i], r[j]) {
        if j < |u| {
          assert InOrder(d, u[i], u[j]);
        }
      }
    }
  }

  /** The sort's output is ordered by price: non-decreasing for `Asc`,
      non-increasing for `Desc`. */
  lemma {:induction false} SortSorts(d: Direction, s: seq<Product>)
    ensures Sorted(d, SortByPrice(d, s))
  {
    if s != [] {
      SortSorts(d, s[..|s| - 1]);
      InsertLastSorted(d, SortByPrice(d, s[..|s| - 1]), s[|s| - 1]);
    }
  }

  lemma {:induction false} InsertLastStable(d: Direction, t: seq<Product>, x: Product, k: nat)
    ensures WithPrice(InsertLast(d, t, x), k) == WithPrice(t + [x], k)
  {
    if t == [] || InOrder(d, t[|t| - 1], x) {
    } else {
      var init, y := t[..|t| - 1], t[|t| - 1];
      InsertLastStable(d, init, x, k);
      assert SortPrice(x) != SortPrice(y);
      calc {
        WithPrice(InsertLast(d, t, x), k);
        { WithPriceConcat(InsertLast(d, init, x), [y], k); }
        WithPrice(InsertLast(d, init, x), k) + WithPrice([y], k);
        { WithPriceConcat(init, [x], k); }
        WithPrice(init, k) + WithPrice([x], k) + WithPrice([y], k);
        WithPrice(init, k) + WithPrice([y], k) + WithPrice([x], k);
        { WithPriceConcat(init, [y], k); assert init + [y] == t; }
        WithPrice(t, k) + WithPrice([x], k);
        { WithPriceConcat(t, [x], k); }
        WithPrice(t + [x], k);
      }
    }
  }

  /** Stability: for every price, the products with that price appear in the
      output in the same relative order as in the input. */
  lemma {:induction false} SortStable(d: Direction, s: seq<Product>, k: nat)
    ensures WithPrice(SortByPrice(d, s), k) == WithPrice(s, k)
  {
    if s != [] {
      var init, x := s[..|s| - 1], s[|s| - 1];
      SortStable(d, init, k);
      InsertLastStable(d, SortByPrice(d, init), x, k);
      WithPriceConcat(SortByPrice(d, init), [x], k);
      WithPriceConcat(init, [x], k);
      assert init + [x] == s;
    }
  }

  /** The sort prices of the three products in `TiesKeepInputOrder`. */
  lemma TiePrices(a: Product, b: Product, c: Product)
    requires a.price == Some("100") && b.price == Some("100") && c.price == Some("50")
    ensures SortPrice(a) == 100 && SortPrice(b) == 100 && SortPrice(c) == 50
  {
    assert DigitsValue("100") == 100 by {
      assert "100"[..2] == "10" && "10"[..1] == "1" && "1"[..0] == "";
    }
    assert DigitsValue("50") == 50 by {
      assert "50"[..1] == "5" && "5"[..0] == "";
    }
    assert "" + "100" + "" == "100" && "" + "50" + "" == "50";
    SortPriceReadsLeadingNumber(a, "", "100", "");
    SortPriceReadsLeadingNumber(b, "", "100", "");
    SortPriceReadsLeadingNumber(c, "", "50", "");
  }

  /** Two products of equal price followed by a cheaper one: the ascending
      sort moves the cheaper one to the front and keeps the other two in
      their order. */
  lemma TieOrder(a: Product, b: Product, c: Product)
    requires SortPrice(a) == SortPrice(b) && SortPrice(c) < SortPrice(a)
    ensures SortByPrice(Asc, [a, b, c]) == [c, a, b]
  {
    assert InOrder(Asc, a, b) && !InOrder(Asc, b, c) && !InOrder(Asc, a, c);
    assert SortByPrice(Asc, [a]) == [a] by {
      assert [a][..0] == [];
    }
    assert SortByPrice(Asc, [a, b]) == [a, b] by {
      assert [a, b][..1] == [a];
    }
    assert InsertLast(Asc, [a], c) == [c, a] by {
      assert [a][..0] == [];
    }
    assert InsertLast(Asc, [a, b], c) == [c, a, b] by {
      assert [a, b][..1] == [a];
    }
    assert [a, b, c][..2] == [a, b];
  }

  /** Ties keep their input order: with prices 100, 100, 50 the ascending
      sort gives the third product first and then the first two in order. */
  lemma TiesKeepInputOrder(a: Product, b: Product, c: Product)
    requires a.price == Some("100") && b.price == Some("100") && c.price == Some("50")
    ensures SortByPrice(Asc, [a, b, c]) == [c, a, b]
  {
    TiePrices(a, b, c);
    TieOrder(a, b, c);
  }

  // ---- search ----

  /** The `filter` predicate: `name.toLowerCase().includes(term) ||
      concentration.toLowerCase().includes(term)`. Calling `toLowerCase` on
      an `undefined` field throws (`None`); `||` does not evaluate the
      concentration when the name already matches. */
  function Matches(p: Product, term: string): Option<bool> {
    match p.name
    case None => None
    case Some(n) =>
      if Includes(Lower(n), term) then Some(true)
      else match p.concentration
        case None => None
        case Some(c) => Some(Includes(Lower(c), term))
  }

  /** `products.filter(...)`: the matching products in catalogue order, or
      `None` when the predicate throws on some product. */
  function FilterByTerm(ps: seq<Product>, term: string): Option<seq<Product>> {
    if ps == [] then Some([])
    else match FilterByTerm(ps[..|ps| - 1], term)
      case None => None
      case Some(r) =>
        match Matches(ps[|ps| - 1], term)
        case None => None
        case Some(b) => Some(if b then r + [ps[|ps| - 1]] else r)
  }

  /** The filter throws exactly when some product has no name, or has a
      non-matching name and no concentration. */
  lemma {:induction false} FilterFailsIff(ps: seq<Product>, term: string)
    ensures FilterByTerm(ps, term).None? <==> exists i :: 0 <= i < |ps| && Matches(ps[i], term).None?
  {
    if ps != [] {
      var init := ps[..|ps| - 1];
      FilterFailsIff(init, term);
      if FilterByTerm(init, term).None? {
        var i :| 0 <= i < |init| && Matches(init[i], term).None?;
        assert ps[i] == init[i];
      } else {
        forall i | 0 <= i < |init| ensures Matches(ps[i], term).Some? {
          assert ps[i] == init[i];
        }
      }
    }
  }

  /** The filter keeps exactly the matching products, in catalogue order:
      a product's occurrences in the result are its occurrences in the
      catalogue if it matches, none otherwise; and the result splits along
      any split of the catalogue. */
  lemma {:induction false} FilterKeepsMatches(ps: seq<Product>, term: string, p: Product)
    requires FilterByTerm(ps, term).Some?
    ensures p in ps ==> Matches(p, term).Some?
    ensures multiset(FilterByTerm(ps, term).value)[p]
              == if Matches(p, term) == Some(true) then multiset(ps)[p] else 0
  {
    if ps != [] {
      var init := ps[..|ps| - 1];
      FilterKeepsMatches(init, term, p);
      assert ps == init + [ps[|ps| - 1]];
    }
  }

  lemma {:induction false} FilterConcat(a: seq<Product>, b: seq<Product>, term: string)
    requires FilterByTerm(a + b, term).Some?
    ensures FilterByTerm(a, term).Some? && FilterByTerm(b, term).Some?
    ensures FilterByTerm(a + b, term).value == FilterByTerm(a, term).value + FilterByTerm(b, term).value
  {
    if b == [] {
      assert a + b == a;
    } else {
      assert (a + b)[..|a + b| - 1] == a + b[..|b| - 1];
      FilterConcat(a, b[..|b| - 1], term);
    }
  }

  /** The search term: `query.toLowerCase().trim()`. */
  function SearchTerm(query: string): string {
    Trim(Lower(query))
  }

  /** What `searchProducts` assigns to `filteredProducts` before sorting:
      the whole catalogue for a blank term, otherwise the filter's result;
      `None` when the filter throws. */
  function Searched(ps: seq<Product>, query: string): Option<seq<Product>> {
    if SearchTerm(query) == "" then Some(ps) else FilterByTerm(ps, SearchTerm(query))
  }

  /** A query that is blank after lower-casing and trimming (including one of
      whitespace only) selects the whole catalogue in catalogue order. */
  lemma BlankQuerySelectsAll(ps: seq<Product>, query: string)
    requires forall i :: 0 <= i < |query| ==> IsWhitespace(query[i])
    ensures Searched(ps, query) == Some(ps)
  {
    var l := Lower(query);
    forall i | 0 <= i < |l| ensures IsWhitespace(l[i]) {
      assert !IsUpper(query[i]);
    }
    TrimSpec(l);
  }

  /** Search ignores the case of the query: an upper-cased query selects the
      same products as the query itself. */
  lemma SearchIgnoresCase(ps: seq<Product>, query: string)
    ensures Searched(ps, Upper(query)) == Searched(ps, query)
  {
    LowerUpper(query);
  }

  /** A non-blank term is matched case-insensitively: a product with a
      name whose lower-cased text contains the term is selected, whatever
      the case of the query. */
  lemma {:induction false} NameMatchSelects(ps: seq<Product>, query: string, i: nat)
    requires i < |ps| && SearchTerm(query) != ""
    requires ps[i].name.Some? && Includes(Lower(ps[i].name.value), SearchTerm(query))
    requires Searched(ps, query).Some?
    ensures ps[i] in Searched(ps, query).value
  {
    FilterKeepsMatches(ps, SearchTerm(query), ps[i]);
    assert ps[i] in multiset(ps);
  }

  // ---- the in-place sort ----

  /** `filteredProducts.sort(comparator)`: sorts the array in place into the
      stable price order. */
  method SortInPlace(a: array<Product>, d: Direction)
    modifies a
    ensures a[..] == SortByPrice(d, old(a[..]))
  {
    ghost var s := a[..];
    var i := 0;
    while i < a.Length
      invariant 0 <= i <= a.Length
      invariant a[..i] == SortByPrice(d, s[..i])
      invariant a[i..] == s[i..]
    {
      assert a[i] == s[i] && a[i + 1..] == s[i + 1..];
      InsertNext(a, i, d);
      assert SortByPrice(d, s[..i + 1]) == InsertLast(d, SortByPrice(d, s[..i]), s[i]) by {
        assert s[..i + 1][..i] == s[..i];
      }
      i := i + 1;
    }
    assert a[..] == a[..a.Length] && s == s[..a.Length];
  }

  /** One insertion step: `a[i]` is moved left past the elements of the
      prefix `a[..i]` that must come after it. */
  method InsertNext(a: array<Product>, i: nat, d: Direction)
    requires i < a.Length
    modifies a
    ensures a[..i + 1] == InsertLast(d, old(a[..i]), old(a[i]))
    ensures a[i + 1..] == old(a[i + 1..])
  {
    ghost var t := a[..i];
    var x := a[i];
    var j := i;
    while j > 0 && !InOrder(d, a[j - 1], x)
      invariant 0 <= j <= i
      invariant a[..j] == t[..j]
      invariant a[j + 1..i + 1] == t[j..]
      invariant a[i + 1..] == old(a[i + 1..])
      invariant forall m :: j <= m < i ==> !InOrder(d, t[m], x)
    {
      a[j] := a[j - 1];
      j := j - 1;
    }
    a[j] := x;
    InsertAt(d, t, x, j);
    assert a[..i + 1] == a[..j] + [x] + a[j + 1..i + 1];
  }

  /** Where `InsertLast` puts `x`: right after the last element that may
      precede it, when everything after that position may not. */
  lemma {:induction false} InsertAt(d: Direction, t: seq<Product>, x: Product, j: nat)
    requires j <= |t|
    requires j == 0 || InOrder(d, t[j - 1], x)
    requires forall m :: j <= m < |t| ==> !InOrder(d, t[m], x)
    ensures InsertLast(d, t, x) == t[..j] + [x] + t[j..]
  {
    if j == |t| {
      assert t[..j] == t && t[j..] == [];
    } else {
      var init, y := t[..|t| - 1], t[|t| - 1];
      assert !InOrder(d, y, x);
      assert InsertLast(d, t, x) == InsertLast(d, init, x) + [y];
      assert j == 0 || InOrder(d, init[j - 1], x);
      assert forall m :: j <= m < |init| ==> !InOrder(d, init[m], x) by {
        forall m | j <= m < |init| ensures !InOrder(d, init[m], x) {
          assert init[m] == t[m];
        }
      }
      InsertAt(d, init, x, j);
      assert init[..j] == t[..j];
      assert init[j..] + [y] == t[j..];
    }
  }
}
