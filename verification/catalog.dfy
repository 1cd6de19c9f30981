/** The catalog the views read: products and categories in database order. */
module Catalog {
  import opened Wrappers
  import Decimal

  /** A product row; `category` is a nullable foreign key, held here by the category's name. */
  datatype Product = Product(id: nat, name: string, description: string, category: Option<string>)

  datatype Category = Category(name: string)

  /** Primary keys are unique. */
  predicate UniqueIds(catalog: seq<Product>) {
    forall i, j :: 0 <= i < j < |catalog| ==> catalog[i].id != catalog[j].id
  }

  predicate HasId(catalog: seq<Product>, pk: int) {
    exists k :: 0 <= k < |catalog| && catalog[k].id == pk
  }

  /** The product whose key is `pk`, or not-found (the view answers 404). */
  function Lookup(catalog: seq<Product>, pk: int): (r: Option<Product>)
    ensures r.Some? <==> HasId(catalog, pk)
    ensures r.Some? ==> r.value in catalog && r.value.id == pk
    ensures r.Some? && UniqueIds(catalog) ==>
              forall k :: 0 <= k < |catalog| && catalog[k].id == pk ==> catalog[k] == r.value
  {
    if |catalog| == 0 then None
    else if catalog[0].id == pk then Some(catalog[0])
    else
      var r := Lookup(catalog[1..], pk);
      assert HasId(catalog, pk) ==> HasId(catalog[1..], pk);
      assert UniqueIds(catalog) ==> UniqueIds(catalog[1..]);
      r
  }

  /** The product's detail-page path, the key between two slashes, which the views hand to
      `build_absolute_uri` to form the URL a product QR code encodes. */
  function PayloadPath(id: nat): (p: string)
    ensures |p| >= 3 && p[0] == '/' && p[|p| - 1] == '/'
    ensures Decimal.IsCanonical(p[1..|p| - 1])
  {
    "/" + Decimal.NatToString(id) + "/"
  }

  /** Reads a key back from a path in the form `PayloadPath` prints: a slash,
      canonical digits (no leading zero), a slash. It is the inverse of
      `PayloadPath`; the URL router's `<int:pk>` is more lenient and also takes
      leading zeros. */
  function ParsePayloadPath(p: string): (r: Option<nat>)
  {
    if |p| >= 3 && p[0] == '/' && p[|p| - 1] == '/' && Decimal.IsCanonical(p[1..|p| - 1])
    then Some(Decimal.DigitsValue(p[1..|p| - 1]))
    else None
  }

  /** The path a product's QR code carries determines the product: reading it back
      gives the key, and a path reads back to `id` exactly when it is `id`'s path. */
  lemma PayloadPathRoundTrip(id: nat, p: string)
    ensures ParsePayloadPath(PayloadPath(id)) == Some(id)
    ensures ParsePayloadPath(p) == Some(id) <==> p == PayloadPath(id)
  {
    var q := PayloadPath(id);
    assert q[1..|q| - 1] == Decimal.NatToString(id);
    Decimal.NatToStringValue(id);
    if ParsePayloadPath(p) == Some(id) {
      var mid := p[1..|p| - 1];
      Decimal.CanonicalRoundTrip(mid);
      assert p == "/" + mid + "/";
    }
  }

  /** Two products with different keys never share a QR payload. */
  lemma PayloadPathInjective(a: nat, b: nat)
    requires PayloadPath(a) == PayloadPath(b)
    ensures a == b
  {
    PayloadPathRoundTrip(a, PayloadPath(b));
    PayloadPathRoundTrip(b, PayloadPath(b));
  }
}
