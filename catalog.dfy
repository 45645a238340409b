/** The product normaliser: the catalogue sheet returns loosely keyed rows
    (English or Russian column names), and each row becomes a canonical
    product whose fields are picked by a fixed, prioritised list of keys. */
module Catalog {
  import opened Wrappers
  import opened Text

  /** One row of the remote catalogue, as column name -> cell text. */
  type Record = map<string, string>

  /** A canonical product. A field is `None` when it is `undefined`, which
      happens when no candidate key of its list holds a non-empty value and
      the last candidate key is absent from the row. */
  datatype Product = Product(
    id: Option<string>,
    name: Option<string>,
    concentration: Option<string>,
    volume: Option<string>,
    price: Option<string>,
    imageUrl: Option<string>)

  // The candidate keys of each field, highest priority first, exactly as
  // the `||` chains of the normaliser list them (`item.id` and `item['id']`
  // name the same key).
  const IdKeys: seq<string> := ["id", "id", "ID"]
  const NameKeys: seq<string> := ["name", "Название", "название", "Название товара"]
  const ConcentrationKeys: seq<string> := ["concentration", "Концентрация", "концентрация"]
  const VolumeKeys: seq<string> := ["volume", "Объем", "объем", "Объём"]
  const PriceKeys: seq<string> := ["price", "Цена", "цена"]
  const ImageKeys: seq<string> := ["image_url", "Картинка", "Изображение", "image"]

  /** `row[key]`: `None` when the key is absent. */
  function Lookup(row: Record, key: string): Option<string> {
    if key in row then Some(row[key]) else None
  }

  /** A cell is truthy when the key is present with a non-empty string. */
  predicate Truthy(row: Record, key: string) {
    key in row && row[key] != ""
  }

  /** `row[k0] || row[k1] || ... || row[kn]`: the value of the first candidate
      key that is truthy; when none is, JavaScript's `||` yields the LAST
      operand, so the result is whatever the last key holds (possibly `""`,
      possibly `undefined`). */
  function Field(row: Record, keys: seq<string>): (v: Option<string>)
    requires |keys| > 0
    ensures forall i :: 0 <= i < |keys| && Truthy(row, keys[i])
              && (forall j :: 0 <= j < i ==> !Truthy(row, keys[j]))
              ==> v == Some(row[keys[i]])
    ensures (forall j :: 0 <= j < |keys| ==> !Truthy(row, keys[j]))
              ==> v == Lookup(row, keys[|keys| - 1])
  {
    if |keys| == 1 then Lookup(row, keys[0])
    else if Truthy(row, keys[0]) then Some(row[keys[0]])
    else Field(row, keys[1..])
  }

  /** The normaliser's per-row mapping. */
  function Normalize(row: Record): Product {
    Product(
      Field(row, IdKeys),
      Field(row, NameKeys),
      Field(row, ConcentrationKeys),
      Field(row, VolumeKeys),
      Field(row, PriceKeys),
      Field(row, ImageKeys))
  }

  /** `data.map(...)`: one product per row, same length, same order, and no
      row dropped whatever it is missing. */
  function NormalizeAll(rows: seq<Record>): (ps: seq<Product>)
    ensures |ps| == |rows|
    ensures forall i :: 0 <= i < |rows| ==> ps[i] == Normalize(rows[i])
  {
    if rows == [] then [] else [Normalize(rows[0])] + NormalizeAll(rows[1..])
  }

  /** A row keyed in Russian normalises like one keyed in English: the name
      and price come from the Russian columns and the missing id stays
      `undefined`. */
  lemma RussianColumnsNormalize(name: string, price: string)
    requires name != "" && price != ""
    ensures var p := Normalize(map["Название" := name, "Цена" := price]);
      p.name == Some(name) && p.price == Some(price) && p.id == None
  {
    var row := map["Название" := name, "Цена" := price];
    assert NameKeys[0] !in row;
    assert Truthy(row, NameKeys[1]);
    assert PriceKeys[0] !in row;
    assert Truthy(row, PriceKeys[1]);
    assert forall j :: 0 <= j < |IdKeys| ==> IdKeys[j] !in row;
  }

  /** The price `sortProducts` compares: `parseFloat(price) || 0`, so a
      missing or unreadable price sorts as 0. */
  function SortPrice(p: Product): (k: nat)
    ensures p.price.None? ==> k == 0
  {
    match p.price
    case None => 0
    case Some(s) => ParseLeadingNumber(s).GetOr(0)
  }

  /** A price text that cannot start a number after its leading whitespace
      ("abc", "", "руб": no digit, sign, decimal point or `Infinity` there)
      is NaN to `parseFloat` and sorts as 0. */
  lemma SortPriceOfUnreadable(p: Product)
    requires p.price.Some? && LeadingDigits(TrimStart(p.price.value)) == []
    requires TrimStart(p.price.value) == [] || TrimStart(p.price.value)[0] !in {'+', '-', '.', 'I'}
    ensures SortPrice(p) == 0
  {
  }

  /** A price text made of optional whitespace, digits, and text that cannot
      go on with the number sorts by those digits: "1500 руб" sorts as 1500. */
  lemma SortPriceReadsLeadingNumber(p: Product, ws: string, ds: string, rest: string)
    requires forall i :: 0 <= i < |ws| ==> IsWhitespace(ws[i])
    requires ds != [] && AllDigits(ds)
    requires NumberStops(rest)
    requires p.price == Some(ws + ds + rest)
    ensures SortPrice(p) == DigitsValue(ds)
  {
    ParseReadsLeadingNumber(ws, ds, rest);
  }

  /** A price with a currency word after it sorts by its number. */
  lemma CurrencySuffixSorts(p: Product)
    requires p.price == Some("1500 руб")
    ensures SortPrice(p) == 1500
  {
    assert "1500 руб" == "" + "1500" + " руб";
    assert DigitsValue("1500") == 1500 by {
      assert "1500"[..3] == "150" && "150"[..2] == "15" && "15"[..1] == "1" && "1"[..0] == "";
    }
    SortPriceReadsLeadingNumber(p, "", "1500", " руб");
  }

  /** The price `product.price * quantity` multiplies: `undefined` and
      non-numeric text are NaN (`None`). */
  function OrderPrice(p: Product): (v: Option<nat>)
    ensures p.price.None? ==> v.None?
  {
    match p.price
    case None => None
    case Some(s) => ToNumber(s)
  }

  /** For a price written in plain digits, sorting and totalling read the
      same number. */
  lemma PlainPriceAgrees(p: Product)
    requires p.price.Some? && p.price.value != [] && AllDigits(p.price.value)
    ensures OrderPrice(p) == Some(SortPrice(p))
  {
    PlainNumberReadsAlike(p.price.value);
  }
}
