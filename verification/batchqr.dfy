/** `batch_qr_generation` on POST: one QR code per selected product, returned as a
    list of entries. */
module BatchQr {
  import opened Wrappers
  import Seqs
  import Decimal
  import Catalog
  import CustomQr

  /** One element of the `qr_codes` list: the product's key, its name and its
      encoded image. */
  datatype QrEntry<Code> = QrEntry(id: nat, name: string, qrCode: Code)

  datatype BatchError =
    | NoProductsSelected     // the form submitted no `product_ids`
    | InvalidId(raw: string) // a submitted value the key field cannot convert; an uncaught `ValueError`

  function Message(e: BatchError): string {
    match e
    case NoProductsSelected => "No products selected"
    case InvalidId(raw) => "Field 'id' expected a number but got '" + raw + "'."
  }

  function Status(e: BatchError): nat {
    match e
    case NoProductsSelected => 400
    case InvalidId(_) => 500
  }

  /** `toKey` is the primary-key field's conversion of one submitted value: Python's
      `int()`, which is `Decimal.PyInt` (see `PrintedKeyRequested`). It is a parameter so
      that the selection logic is stated once for any conversion. */
  type KeyConversion = string -> Option<int>

  /** Some submitted value converts to the key `x`. */
  predicate Requested(toKey: KeyConversion, raw: seq<string>, x: int) {
    exists k :: 0 <= k < |raw| && toKey(raw[k]) == Some(x)
  }

  /** The keys `id__in=product_ids` compares against: every submitted value is
      converted, and the first that cannot be fails the request. */
  function ParseIds(toKey: KeyConversion, raw: seq<string>): (r: Result<set<int>, BatchError>)
    ensures r.Success? <==> forall k :: 0 <= k < |raw| ==> toKey(raw[k]).Some?
    ensures r.Success? ==> forall x :: x in r.value <==> Requested(toKey, raw, x)
    ensures r.Failure? ==> r.error.InvalidId? && r.error.raw in raw && toKey(r.error.raw).None?
  {
    if |raw| == 0 then Success({})
    else
      match toKey(raw[0])
      case None => Failure(InvalidId(raw[0]))
      case Some(x) =>
        var rest := ParseIds(toKey, raw[1..]);
        assert forall k :: 1 <= k < |raw| ==> raw[k] == raw[1..][k - 1];
        if rest.Failure? then
          Failure(rest.error)
        else
          Success({x} + rest.value)
  }

  /** The rows whose key is one of `ids`, in catalog order. */
  function Selection(catalog: seq<Catalog.Product>, ids: set<int>): (r: seq<Catalog.Product>)
    ensures |r| <= |catalog|
    ensures forall k :: 0 <= k < |r| ==> r[k].id in ids
  {
    Seqs.Filter((p: Catalog.Product) => p.id in ids, catalog)
  }

  /** A product is selected exactly when it is in the catalog and its key was asked for. */
  lemma SelectionMembership(catalog: seq<Catalog.Product>, ids: set<int>, p: Catalog.Product)
    ensures p in Selection(catalog, ids) <==> p in catalog && p.id in ids
  {
    Seqs.FilterMembership((p: Catalog.Product) => p.id in ids, catalog, p);
  }

  /** The entry the loop body appends for one product: its QR code encodes the
      product's path with the fixed settings (box size 10, border 4, level M, black on white). */
  function EntryFor<Img, Code>(render: (CustomQr.Style, string) -> Img, encode: Img -> Code,
                               p: Catalog.Product): (e: QrEntry<Code>)
    ensures e.id == p.id && e.name == p.name
    ensures e.qrCode == encode(render(CustomQr.DefaultStyle, Catalog.PayloadPath(e.id)))
  {
    QrEntry(p.id, p.name, encode(render(CustomQr.DefaultStyle, Catalog.PayloadPath(p.id))))
  }

  function Entries<Img, Code>(render: (CustomQr.Style, string) -> Img, encode: Img -> Code,
                              products: seq<Catalog.Product>): seq<QrEntry<Code>> {
    Seqs.MapSeq((p: Catalog.Product) => EntryFor(render, encode, p), products)
  }

  /** The whole POST branch. `render(style, path)` is the same step as in
      `CustomQr`: building the absolute URL of `path`, encoding it as a QR symbol
      and drawing the PNG; `encode` stands for base64-encoding the PNG bytes. */
  function BatchQr<Img, Code>(catalog: seq<Catalog.Product>, raw: seq<string>, toKey: KeyConversion,
                              render: (CustomQr.Style, string) -> Img, encode: Img -> Code)
    : (r: Result<seq<QrEntry<Code>>, BatchError>)
    ensures r == Failure(NoProductsSelected) <==> |raw| == 0
    ensures r.Failure? && r.error == NoProductsSelected ==>
              Message(r.error) == "No products selected" && Status(r.error) == 400
    ensures r.Failure? && r.error != NoProductsSelected ==>
              r.error.raw in raw && toKey(r.error.raw).None? && Status(r.error) == 500
    ensures r.Success? <==> |raw| > 0 && forall k :: 0 <= k < |raw| ==> toKey(raw[k]).Some?
    ensures r.Success? ==> |r.value| <= |catalog|
    ensures r.Success? ==> forall k :: 0 <= k < |r.value| ==>
              r.value[k].qrCode == encode(render(CustomQr.DefaultStyle, Catalog.PayloadPath(r.value[k].id)))
  {
    if |raw| == 0 then Failure(NoProductsSelected)
    else
      var ids :- ParseIds(toKey, raw);
      Success(Entries(render, encode, Selection(catalog, ids)))
  }

  /** The view's loop, statement by statement: it builds the same list. */
  method BatchQrLoop<Img, Code>(catalog: seq<Catalog.Product>, raw: seq<string>, toKey: KeyConversion,
                                render: (CustomQr.Style, string) -> Img, encode: Img -> Code)
    returns (r: Result<seq<QrEntry<Code>>, BatchError>)
    ensures r == BatchQr(catalog, raw, toKey, render, encode)
  {
    if |raw| == 0 {
      return Failure(NoProductsSelected);
    }
    var parsed := ParseIds(toKey, raw);
    if parsed.Failure? {
      return Failure(parsed.error);
    }
    var products := Selection(catalog, parsed.value);
    var qrData: seq<QrEntry<Code>> := [];
    var i := 0;
    while i < |products|
      invariant 0 <= i <= |products|
      invariant qrData == Entries(render, encode, products[..i])
    {
      var product := products[i];
      var path := Catalog.PayloadPath(product.id);
      qrData := qrData + [QrEntry(product.id, product.name, encode(render(CustomQr.DefaultStyle, path)))];
      assert products[..i + 1] == products[..i] + [product];
      i := i + 1;
    }
    assert products[..i] == products;
    return Success(qrData);
  }

  /** Every entry belongs to a catalog product whose key was submitted, and carries
      that product's own key and name. */
  lemma BatchEntriesRequested<Img, Code>(catalog: seq<Catalog.Product>, raw: seq<string>, toKey: KeyConversion,
                                         render: (CustomQr.Style, string) -> Img, encode: Img -> Code, k: nat)
    requires BatchQr(catalog, raw, toKey, render, encode).Success?
    requires k < |BatchQr(catalog, raw, toKey, render, encode).value|
    ensures var e := BatchQr(catalog, raw, toKey, render, encode).value[k];
            exists p :: p in catalog && Requested(toKey, raw, p.id) && e == EntryFor(render, encode, p)
  {
    var ids := ParseIds(toKey, raw).value;
    var sel := Selection(catalog, ids);
    SelectionMembership(catalog, ids, sel[k]);
    assert BatchQr(catalog, raw, toKey, render, encode).value[k] == EntryFor(render, encode, sel[k]);
  }

  /** Every catalog product whose key was submitted gets an entry. */
  lemma BatchRequestedGetEntries<Img, Code>(catalog: seq<Catalog.Product>, raw: seq<string>, toKey: KeyConversion,
                                            render: (CustomQr.Style, string) -> Img, encode: Img -> Code, p: Catalog.Product)
    requires BatchQr(catalog, raw, toKey, render, encode).Success?
    requires p in catalog && Requested(toKey, raw, p.id)
    ensures EntryFor(render, encode, p) in BatchQr(catalog, raw, toKey, render, encode).value
  {
    var ids := ParseIds(toKey, raw).value;
    var sel := Selection(catalog, ids);
    SelectionMembership(catalog, ids, p);
    var k :| 0 <= k < |sel| && sel[k] == p;
    assert BatchQr(catalog, raw, toKey, render, encode).value[k] == EntryFor(render, encode, p);
  }

  /** Entries follow catalog order: the list is a subsequence of the entries of
      the whole catalog. */
  lemma BatchKeepsCatalogOrder<Img, Code>(catalog: seq<Catalog.Product>, raw: seq<string>, toKey: KeyConversion,
                                          render: (CustomQr.Style, string) -> Img, encode: Img -> Code)
    requires BatchQr(catalog, raw, toKey, render, encode).Success?
    ensures Seqs.IsSubsequence(BatchQr(catalog, raw, toKey, render, encode).value, Entries(render, encode, catalog))
  {
    var ids := ParseIds(toKey, raw).value;
    Seqs.FilterIsSubsequence((p: Catalog.Product) => p.id in ids, catalog);
    Seqs.SubsequenceMap((p: Catalog.Product) => EntryFor(render, encode, p), Selection(catalog, ids), catalog);
  }

  /** With unique primary keys no product gets two entries. */
  lemma BatchEntriesDistinct<Img, Code>(catalog: seq<Catalog.Product>, raw: seq<string>, toKey: KeyConversion,
                                        render: (CustomQr.Style, string) -> Img, encode: Img -> Code)
    requires Catalog.UniqueIds(catalog)
    requires BatchQr(catalog, raw, toKey, render, encode).Success?
    ensures var entries := BatchQr(catalog, raw, toKey, render, encode).value;
            forall i, j :: 0 <= i < j < |entries| ==> entries[i].id != entries[j].id
  {
    var ids := ParseIds(toKey, raw).value;
    var sel := Selection(catalog, ids);
    var entries := BatchQr(catalog, raw, toKey, render, encode).value;
    var catalogIds := Seqs.MapSeq((p: Catalog.Product) => p.id, catalog);
    var selIds := Seqs.MapSeq((p: Catalog.Product) => p.id, sel);
    assert Seqs.Distinct(catalogIds);
    Seqs.FilterIsSubsequence((p: Catalog.Product) => p.id in ids, catalog);
    Seqs.SubsequenceMap((p: Catalog.Product) => p.id, sel, catalog);
    Seqs.SubsequenceDistinct(selIds, catalogIds);
    forall i, j | 0 <= i < j < |entries|
      ensures entries[i].id != entries[j].id
    {
      assert entries[i].id == selIds[i] && entries[j].id == selIds[j];
    }
  }

  lemma {:induction false} SelectionAgrees(catalog: seq<Catalog.Product>, ids1: set<int>, ids2: set<int>)
    requires forall j :: 0 <= j < |catalog| ==> (catalog[j].id in ids1 <==> catalog[j].id in ids2)
    ensures Selection(catalog, ids1) == Selection(catalog, ids2)
    decreases |catalog|
  {
    if |catalog| > 0 {
      assert forall j :: 0 <= j < |catalog| - 1 ==> catalog[1..][j] == catalog[j + 1];
      SelectionAgrees(catalog[1..], ids1, ids2);
    }
  }

  /** The result depends on the submission only through the catalog keys it
      names: dropping, reordering or repeating values, or adding keys that no
      product has, changes nothing. */
  lemma BatchDependsOnlyOnSelectedKeys<Img, Code>(catalog: seq<Catalog.Product>, raw1: seq<string>,
                                                  raw2: seq<string>, toKey: KeyConversion,
                                                  render: (CustomQr.Style, string) -> Img, encode: Img -> Code)
    requires |raw1| > 0 && |raw2| > 0
    requires ParseIds(toKey, raw1).Success? && ParseIds(toKey, raw2).Success?
    requires forall j :: 0 <= j < |catalog| ==>
               (Requested(toKey, raw1, catalog[j].id) <==> Requested(toKey, raw2, catalog[j].id))
    ensures BatchQr(catalog, raw1, toKey, render, encode) == BatchQr(catalog, raw2, toKey, render, encode)
  {
    SelectionAgrees(catalog, ParseIds(toKey, raw1).value, ParseIds(toKey, raw2).value);
  }

  /** A submitted value naming no product is ignored, without an error. */
  lemma UnknownIdIgnored<Img, Code>(catalog: seq<Catalog.Product>, raw: seq<string>, extra: string,
                                    toKey: KeyConversion, render: (CustomQr.Style, string) -> Img, encode: Img -> Code)
    requires |raw| > 0 && ParseIds(toKey, raw).Success?
    requires toKey(extra).Some? && !Catalog.HasId(catalog, toKey(extra).value)
    ensures BatchQr(catalog, raw + [extra], toKey, render, encode) == BatchQr(catalog, raw, toKey, render, encode)
  {
    var raw2 := raw + [extra];
    assert forall k :: 0 <= k < |raw| ==> raw2[k] == raw[k];
    assert raw2[|raw|] == extra;
    forall j | 0 <= j < |catalog|
      ensures Requested(toKey, raw2, catalog[j].id) <==> Requested(toKey, raw, catalog[j].id)
    {
      if Requested(toKey, raw2, catalog[j].id) {
        var k :| 0 <= k < |raw2| && toKey(raw2[k]) == Some(catalog[j].id);
        if k == |raw| {
          assert false;
        }
      }
    }
    BatchDependsOnlyOnSelectedKeys(catalog, raw2, raw, toKey, render, encode);
  }

  /** With `int()` as the key conversion, submitting the printed key of a product
      (what the selection form posts) requests that product, so that
      `BatchRequestedGetEntries` gives it an entry. */
  lemma PrintedKeyRequested(raw: seq<string>, id: nat)
    requires Decimal.IntToString(id) in raw
    ensures Requested(Decimal.PyInt, raw, id)
  {
    Decimal.PyIntRoundTrip(id);
    var k :| 0 <= k < |raw| && raw[k] == Decimal.IntToString(id);
    assert Decimal.PyInt(raw[k]) == Some(id as int);
  }

  /** Every batch image is the encoding of the image the customisable view
      produces for the same product when the request carries no parameters. */
  lemma BatchMatchesDefaultCustomQr<Img, Code>(catalog: seq<Catalog.Product>, raw: seq<string>, toKey: KeyConversion,
                                               accepts: (string, string) -> bool,
                                               render: (CustomQr.Style, string) -> Img, encode: Img -> Code,
                                               alnum: char -> bool, k: nat)
    requires BatchQr(catalog, raw, toKey, render, encode).Success?
    requires k < |BatchQr(catalog, raw, toKey, render, encode).value|
    ensures var e := BatchQr(catalog, raw, toKey, render, encode).value[k];
            var single := CustomQr.GenerateProductQr(catalog, e.id, map[], accepts, render, alnum);
            single.Success? && encode(single.value.image) == e.qrCode
  {
    var e := BatchQr(catalog, raw, toKey, render, encode).value[k];
    BatchEntriesRequested(catalog, raw, toKey, render, encode, k);
    var p :| p in catalog && Requested(toKey, raw, p.id) && e == EntryFor(render, encode, p);
    assert Catalog.HasId(catalog, e.id);
    CustomQr.NoParamsGivesDefaults(catalog, e.id, accepts, render, alnum);
  }
}
