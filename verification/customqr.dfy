/** `generate_product_qr`: a downloadable QR code for one product, with size,
    border and colours taken from the query string. */
module CustomQr {
  import opened Wrappers
  import Catalog
  import Decimal
  import Filename

  /** The four error-correction levels of a QR symbol. */
  datatype ErrorCorrection = L | M | Q | H

  /** Everything the renderer is told besides the payload. */
  datatype Style = Style(boxSize: int, border: int, errorCorrection: ErrorCorrection,
                         fill: string, back: string)

  const DefaultSize: string := "10"
  const DefaultBorder: string := "4"
  const DefaultFill: string := "black"
  const DefaultBack: string := "white"

  /** Box size 10, border 4, level M, black on white: the settings the batch view
      uses and that this view resolves to when no parameter is given. */
  const DefaultStyle: Style := Style(10, 4, M, DefaultFill, DefaultBack)

  /** Why the view does not produce an image. `NotFound` is the 404 of
      `get_object_or_404`; the others are exceptions the view does not catch. */
  datatype QrError =
    | NotFound
    | InvalidInteger(param: string, raw: string)
    | InvalidBoxSize(size: int)
    | InvalidBorder(border: int)

  /** The HTTP status each failure reaches the client with. */
  function Status(e: QrError): nat {
    if e.NotFound? then 404 else 500
  }

  /** The query string after the framework has parsed it; a repeated key keeps its last value. */
  type Params = map<string, string>

  /** The value of a query parameter, or `default` when it is absent. */
  function Param(params: Params, key: string, default: string): string {
    if key in params then params[key] else default
  }

  /** The downloadable result: the rendered image, the settings it was rendered
      with, and the attachment name and header. */
  datatype Download<Img> = Download(image: Img, style: Style, filename: string, disposition: string)

  /** A query parameter converted with `int()`, for a default whose text is `str(default)`:
      a missing key yields the default itself (see `DefaultsParse`). */
  function IntParam(params: Params, key: string, default: int): (r: Result<int, QrError>)
    ensures key !in params ==> r == Success(default)
    ensures key in params ==> (r.Success? <==> Decimal.PyInt(params[key]).Some?)
    ensures key in params && r.Success? ==> Decimal.PyInt(params[key]) == Some(r.value)
    ensures r.Failure? ==> key in params && r.error == InvalidInteger(key, params[key])
  {
    if key !in params then Success(default)
    else
      match Decimal.PyInt(params[key])
      case Some(v) => Success(v)
      case None => Failure(InvalidInteger(key, params[key]))
  }

  /** The view's default texts '10' and '4' parse to the integers `IntParam` uses. */
  lemma DefaultsParse()
    ensures Decimal.PyInt(DefaultSize) == Some(10)
    ensures Decimal.PyInt(DefaultBorder) == Some(4)
  {
    DefaultParses(10, DefaultSize);
    DefaultParses(4, DefaultBorder);
  }

  lemma DefaultParses(v: int, text: string)
    requires Decimal.IntToString(v) == text
    ensures Decimal.PyInt(text) == Some(v)
  {
    Decimal.PyIntRoundTrip(v);
  }

  /** The colour pair the image is drawn with: the requested pair when the renderer
      accepts it, and black on white otherwise (the bare `except` around `make_image`). */
  function ResolveColours(fill: string, back: string, accepts: (string, string) -> bool): (c: (string, string))
    ensures c == (fill, back) || c == (DefaultFill, DefaultBack)
    ensures c == (fill, back) <== accepts(fill, back)
    ensures c == (DefaultFill, DefaultBack) <== !accepts(fill, back)
  {
    if accepts(fill, back) then (fill, back) else (DefaultFill, DefaultBack)
  }

  /** The rendering settings of a request: size and border parsed with `int()` (an
      unparsable value is an uncaught `ValueError`), checked by the QR library's
      constructor (box size at least 1, border at least 0), level M, and the
      colours with their fallback. */
  function ResolveStyle(params: Params, accepts: (string, string) -> bool): (r: Result<Style, QrError>)
    ensures r.Success? ==> r.value.errorCorrection == M && r.value.boxSize > 0 && r.value.border >= 0
    ensures r.Success? ==> if "size" in params then Decimal.PyInt(params["size"]) == Some(r.value.boxSize)
                           else r.value.boxSize == 10
    ensures r.Success? ==> if "border" in params then Decimal.PyInt(params["border"]) == Some(r.value.border)
                           else r.value.border == 4
    ensures r.Success? ==>
              (r.value.fill, r.value.back)
              == ResolveColours(Param(params, "fill_color", DefaultFill), Param(params, "back_color", DefaultBack), accepts)
    ensures var size, border := IntParam(params, "size", 10), IntParam(params, "border", 4);
            r.Success? <==> size.Success? && border.Success? && size.value > 0 && border.value >= 0
    ensures var size, border := IntParam(params, "size", 10), IntParam(params, "border", 4);
            r.Failure? ==>
              r.error == if size.Failure? then size.error
                         else if border.Failure? then border.error
                         else if size.value <= 0 then InvalidBoxSize(size.value)
                         else InvalidBorder(border.value)
    ensures "size" !in params && "border" !in params ==>
              r.Success? && r.value.boxSize == 10 && r.value.border == 4
    ensures r.Failure? ==> !r.error.NotFound?
  {
    var size :- IntParam(params, "size", 10);
    var border :- IntParam(params, "border", 4);
    if size <= 0 then Failure(InvalidBoxSize(size))
    else if border < 0 then Failure(InvalidBorder(border))
    else
      var colours := ResolveColours(Param(params, "fill_color", DefaultFill),
                                    Param(params, "back_color", DefaultBack), accepts);
      Success(Style(size, border, M, colours.0, colours.1))
  }

  /** The whole view. `render(style, path)` stands for building the absolute URL
      of `path`, encoding it as a QR symbol and drawing the PNG; `alnum` stands for
      `str.isalnum`. */
  function GenerateProductQr<Img>(catalog: seq<Catalog.Product>, pk: nat, params: Params,
                                  accepts: (string, string) -> bool,
                                  render: (Style, string) -> Img,
                                  alnum: char -> bool): (r: Result<Download<Img>, QrError>)
    ensures r == Failure(NotFound) <==> !Catalog.HasId(catalog, pk)
    ensures Catalog.HasId(catalog, pk) ==> (r.Success? <==> ResolveStyle(params, accepts).Success?)
    ensures Catalog.HasId(catalog, pk) && r.Failure? ==> r.error == ResolveStyle(params, accepts).error
    ensures r.Failure? ==> Status(r.error) == if Catalog.HasId(catalog, pk) then 500 else 404
    ensures r.Success? ==> r.value.style == ResolveStyle(params, accepts).value
    ensures r.Success? ==> r.value.style.errorCorrection == M
    ensures r.Success? ==> r.value.image == render(r.value.style, Catalog.PayloadPath(pk))
    ensures r.Success? ==> exists k :: 0 <= k < |catalog| && catalog[k].id == pk
                              && r.value.filename == Filename.AttachmentFilename(alnum, catalog[k].name)
    ensures r.Success? ==> r.value.disposition == Filename.ContentDisposition(r.value.filename)
  {
    match Catalog.Lookup(catalog, pk)
    case None => Failure(NotFound)
    case Some(product) =>
      var style :- ResolveStyle(params, accepts);
      var filename := Filename.AttachmentFilename(alnum, product.name);
      Success(Download(render(style, Catalog.PayloadPath(pk)), style, filename,
                       Filename.ContentDisposition(filename)))
  }

  /** Which colours the renderer accepts decides only the colours of the style. */
  lemma ResolveStyleColoursOnly(params: Params, accepts1: (string, string) -> bool,
                                accepts2: (string, string) -> bool)
    ensures ResolveStyle(params, accepts1).Success? <==> ResolveStyle(params, accepts2).Success?
    ensures ResolveStyle(params, accepts1).Failure? ==>
              ResolveStyle(params, accepts1).error == ResolveStyle(params, accepts2).error
    ensures ResolveStyle(params, accepts1).Success? ==>
              var s1, s2 := ResolveStyle(params, accepts1).value, ResolveStyle(params, accepts2).value;
              s1.boxSize == s2.boxSize && s1.border == s2.border && s1.errorCorrection == s2.errorCorrection
  {
  }

  /** Colours never make the view fail: changing which colours the renderer accepts
      cannot turn a success into a failure or back, or change the error. */
  lemma ColoursNeverFail<Img>(catalog: seq<Catalog.Product>, pk: nat, params: Params,
                              accepts1: (string, string) -> bool, accepts2: (string, string) -> bool,
                              render: (Style, string) -> Img, alnum: char -> bool)
    ensures GenerateProductQr(catalog, pk, params, accepts1, render, alnum).Success?
        <==> GenerateProductQr(catalog, pk, params, accepts2, render, alnum).Success?
    ensures GenerateProductQr(catalog, pk, params, accepts1, render, alnum).Failure? ==>
              GenerateProductQr(catalog, pk, params, accepts1, render, alnum).error
              == GenerateProductQr(catalog, pk, params, accepts2, render, alnum).error
  {
    ResolveStyleColoursOnly(params, accepts1, accepts2);
  }

  lemma SameParamSameInt(p1: Params, p2: Params, key: string, default: int)
    requires key in p1 <==> key in p2
    requires key in p1 ==> p1[key] == p2[key]
    ensures IntParam(p1, key, default) == IntParam(p2, key, default)
  {
  }

  /** A request whose colours the renderer rejects resolves to the same style as
      the request without colour parameters. */
  lemma RejectedColoursStyle(params: Params, accepts: (string, string) -> bool)
    requires !accepts(Param(params, "fill_color", DefaultFill), Param(params, "back_color", DefaultBack))
    ensures ResolveStyle(params, accepts) == ResolveStyle(params - {"fill_color", "back_color"}, accepts)
  {
    var plain := params - {"fill_color", "back_color"};
    SameParamSameInt(plain, params, "size", 10);
    SameParamSameInt(plain, params, "border", 4);
    assert "fill_color" !in plain && "back_color" !in plain;
  }

  /** Rejected colours give exactly the response of a request that named no colours. */
  lemma RejectedColoursFallBack<Img>(catalog: seq<Catalog.Product>, pk: nat, params: Params,
                                     accepts: (string, string) -> bool,
                                     render: (Style, string) -> Img, alnum: char -> bool)
    requires !accepts(Param(params, "fill_color", DefaultFill), Param(params, "back_color", DefaultBack))
    ensures GenerateProductQr(catalog, pk, params, accepts, render, alnum)
         == GenerateProductQr(catalog, pk, params - {"fill_color", "back_color"}, accepts, render, alnum)
  {
    RejectedColoursStyle(params, accepts);
  }

  /** With no query parameters an existing product is always rendered, with the
      default settings, and the download is named after the product. */
  lemma NoParamsGivesDefaults<Img>(catalog: seq<Catalog.Product>, pk: nat,
                                   accepts: (string, string) -> bool,
                                   render: (Style, string) -> Img, alnum: char -> bool)
    requires Catalog.HasId(catalog, pk)
    ensures var r := GenerateProductQr(catalog, pk, map[], accepts, render, alnum);
            r.Success? && r.value.style == DefaultStyle
            && r.value.image == render(DefaultStyle, Catalog.PayloadPath(pk))
  {
  }
}
