/**
 * The worker's request handler: it turns the path of a request into the info
 * page, an error page, or a preview page carrying Open Graph and Twitter tags
 * and a redirect to the record's `linkproduk`.
 *
 * The store lookup is a parameter: `store` gives, for the record URL the
 * worker would fetch, how the fetch and the parse of its body turned out.
 */
module ShortWorker {
  import opened JsValues
  import opened HtmlEscape

  /** How fetching a record URL and parsing its body turned out. */
  datatype StoreOutcome =
    | NotOk              // the response's `ok` is false
    | Body(data: Json)   // the response is ok and its body parsed to `data`
    | Threw(message: string)  // `fetch` or `json()` rejected, with this `error.message`

  /** The three kinds of page the worker can send. */
  datatype Page =
    | InfoPage
    | ErrorPage(message: string)
      /** The preview page; the first four fields are the strings interpolated into its tags, after escaping. */
    | PreviewPage(title: string, description: string, image: string, url: string, shortCode: string)

  datatype CachePolicy = NoCacheHeader | CacheControl(directive: string)

  datatype Response = Response(status: int, contentType: string, cache: CachePolicy, page: Page)

  const HtmlContentType: string := "text/html; charset=utf-8"
  const PreviewCache: string := "public, max-age=300"

  const StoreBase: string := "https://jejak-mufassir-default-rtdb.firebaseio.com/shortUrls/"

  const DefaultTitle: string := "Buku Beyond The Inspiration"
  const DefaultDescription: string :=
    "Buku Beyond The Inspiration merupakan rujukan yang sangat baik bagi umat Islam"
  const DefaultImage: string :=
    "https://blogger.googleusercontent.com/img/b/R29vZ2xl/AVvXsEhSmej7x_CxfZ6uv2lOESsm1ZzGU7MtsGnWtFdhCDDGaIbSsHles2ErbrWuIIbTay-PFd1dJ6tLXSh10vFgN5IPxlmfn9nGqTT8YU1j3T96VQzyb5Nfr_0ePHL0OzM76y2E3JHEfiAX0r06MX8Bw5b0XnQ2BGNbVgEE7X75UgkOs-iM0ERim6umGQaTeRir/w0/Beyond%20The%20Inspiration;%2099K%20-%20450gr.jpg"

  const MissingTargetMessage: string := "Link tujuan (linkproduk) tidak ditemukan"

  /** The paths the worker answers with its info page instead of a lookup. */
  predicate IsRoot(path: string)
    ensures IsRoot(path) <==> ShortCode(path) == ""
  {
    path == "/" || path == ""
  }

  /** `path.replace(/^\//, '')`: at most one leading slash is removed. */
  function ShortCode(path: string): (code: string)
    ensures |path| > 0 && path[0] == '/' ==> path == "/" + code
    ensures !(|path| > 0 && path[0] == '/') ==> code == path
  {
    if |path| > 0 && path[0] == '/' then path[1..] else path
  }

  /** The record URL the worker fetches for a short code. */
  function RecordUrl(code: string): (url: string)
    ensures |url| == |StoreBase| + |code| + 5
    ensures url[..|StoreBase|] == StoreBase && url[|url| - 5..] == ".json"
    ensures url[|StoreBase|..|url| - 5] == code
  {
    StoreBase + code + ".json"
  }

  /** The not-found message quotes the short code verbatim, unescaped. */
  function NotFoundMessage(code: string): (m: string)
    ensures |m| == |code| + 41 && m[12..12 + |code|] == code
  {
    "Short code \"" + code + "\" tidak ditemukan di database"
  }

  /** The empty-record message quotes the short code verbatim, unescaped. */
  function EmptyDataMessage(code: string): (m: string)
    ensures |m| == |code| + 20 && m[12..12 + |code|] == code
  {
    "Data untuk \"" + code + "\" kosong"
  }

  /** The message for a caught error ends with the error's own message, unescaped. */
  function CaughtMessage(message: string): (m: string)
    ensures |m| == |message| + 15 && m[15..] == message
  {
    "Terjadi error: " + message
  }

  /** `showError(message)`: always status 404. */
  function ShowError(message: string): (r: Response)
    ensures r.status == 404 && r.page == ErrorPage(message)
  {
    Response(404, HtmlContentType, NoCacheHeader, ErrorPage(message))
  }

  /** `data.key || fallback`: the value the preview uses for one of its fields. */
  function Field(data: Json, key: string, fallback: string): (v: JsValue)
    requires WorkerKey(key) && data != JNull && fallback != ""
    ensures Truthy(v)
  {
    OrElse(Property(data, key), fallback)
  }

  /**
   * `createHTMLPage(title, description, image, url, shortCode)`: escapes the
   * four values in that order; the first one that is not a string throws.
   */
  function CreatePage(title: JsValue, description: JsValue, image: JsValue, url: JsValue, code: string)
    : (r: Completion<Page>)
    requires Truthy(title) && Truthy(description) && Truthy(image) && Truthy(url)
    ensures r.Normal? <==>
      title.json.JString? && description.json.JString? && image.json.JString? && url.json.JString?
    ensures r.Throw? ==> r.message == ReplaceNotAFunction
    ensures r.Normal? ==> r.value == PreviewPage(Encode(title.json.s), Encode(description.json.s),
                                                 Encode(image.json.s), Encode(url.json.s), code)
  {
    var safeTitle :- EncodeValue(title);
    var safeDescription :- EncodeValue(description);
    var safeImage :- EncodeValue(image);
    var safeUrl :- EncodeValue(url);
    Normal(PreviewPage(safeTitle, safeDescription, safeImage, safeUrl, code))
  }

  /** The decision `handleRequest` makes once the lookup's outcome is known. */
  function Resolve(code: string, outcome: StoreOutcome): (r: Response)
    ensures r.status == (if r.page.ErrorPage? then 404 else 200)
    ensures !r.page.InfoPage?
    ensures r.page.PreviewPage? ==> r.page.shortCode == code && r.cache == CacheControl(PreviewCache)
  {
    match outcome
    case NotOk => ShowError(NotFoundMessage(code))
    case Threw(m) => ShowError(CaughtMessage(m))
    case Body(data) =>
      if !Truthy(Defined(data)) then ShowError(EmptyDataMessage(code))
      else
        var target := Property(data, "linkproduk");
        if !Truthy(target) then ShowError(MissingTargetMessage)
        else
          var title := Field(data, "name", DefaultTitle);
          var description := Field(data, "description", DefaultDescription);
          var image := Field(data, "image", DefaultImage);
          match CreatePage(title, description, image, target, code)
          case Throw(m) => ShowError(CaughtMessage(m))
          case Normal(page) => Response(200, HtmlContentType, CacheControl(PreviewCache), page)
  }

  /** `handleRequest`: the info page for the root, otherwise a lookup of the short code. */
  function HandleRequest(path: string, store: string -> StoreOutcome): (r: Response)
    ensures r.contentType == HtmlContentType
    ensures r.status == (if r.page.ErrorPage? then 404 else 200)
    ensures r.page.InfoPage? <==> IsRoot(path)
    ensures r.page.PreviewPage? ==> r.page.shortCode == ShortCode(path)
  {
    if IsRoot(path) then Response(200, HtmlContentType, NoCacheHeader, InfoPage)
    else
      var code := ShortCode(path);
      Resolve(code, store(RecordUrl(code)))
  }

  // ---------------------------------------------------------------------------
  // What the handler promises.
  // ---------------------------------------------------------------------------

  /** The root path gets the info page whatever the store would have said: it is never consulted. */
  lemma RootNeverLooksUp(path: string, store1: string -> StoreOutcome, store2: string -> StoreOutcome)
    requires IsRoot(path)
    ensures HandleRequest(path, store1) == HandleRequest(path, store2)
    ensures HandleRequest(path, store1) == Response(200, HtmlContentType, NoCacheHeader, InfoPage)
  {
  }

  /** Any other path is looked up under itself with exactly one leading slash dropped. */
  lemma LookupKey(path: string, store: string -> StoreOutcome)
    requires !IsRoot(path)
    ensures HandleRequest(path, store) == Resolve(ShortCode(path), store(RecordUrl(ShortCode(path))))
    ensures path[0] == '/' ==> path == "/" + ShortCode(path)
  {
  }

  /** Every way the lookup can fail ends on the error page with status 404. */
  lemma FailuresAreNotFound(code: string, outcome: StoreOutcome)
    ensures outcome.NotOk? ==> Resolve(code, outcome) == ShowError(NotFoundMessage(code))
    ensures outcome.Threw? ==> Resolve(code, outcome) == ShowError(CaughtMessage(outcome.message))
    ensures outcome.Body? && !Truthy(Defined(outcome.data)) ==>
            Resolve(code, outcome) == ShowError(EmptyDataMessage(code))
    ensures outcome.Body? && outcome.data != JNull && Truthy(Defined(outcome.data)) &&
            !Truthy(Property(outcome.data, "linkproduk"))
            ==> Resolve(code, outcome) == ShowError(MissingTargetMessage)
    ensures outcome.NotOk? || outcome.Threw? || !Truthy(Defined(outcome.data)) ==>
            Resolve(code, outcome).status == 404
  {
  }

  /** The conditions under which the preview page is sent, both directions. */
  predicate Renderable(data: Json) {
    data != JNull && Truthy(Defined(data)) &&
    var target := Property(data, "linkproduk");
    Truthy(target) && target.json.JString? &&
    Field(data, "name", DefaultTitle).json.JString? &&
    Field(data, "description", DefaultDescription).json.JString? &&
    Field(data, "image", DefaultImage).json.JString?
  }

  /** The text a preview field shows: the record's string when truthy, the fixed default otherwise. */
  function Shown(data: Json, key: string, fallback: string): (s: string)
    requires WorkerKey(key) && data != JNull && fallback != "" && Field(data, key, fallback).json.JString?
    ensures Truthy(Property(data, key)) ==> s == data.members[key].s
    ensures !Truthy(Property(data, key)) ==> s == fallback
  {
    Field(data, key, fallback).json.s
  }

  lemma SuccessExactly(code: string, outcome: StoreOutcome)
    ensures Resolve(code, outcome).status == 200 <==> outcome.Body? && Renderable(outcome.data)
  {
  }

  /** The preview page a renderable record produces, field by field. */
  lemma PreviewShape(code: string, data: Json)
    requires Renderable(data)
    ensures Resolve(code, Body(data)) ==
      Response(200, HtmlContentType, CacheControl(PreviewCache),
               PreviewPage(Encode(Shown(data, "name", DefaultTitle)),
                           Encode(Shown(data, "description", DefaultDescription)),
                           Encode(Shown(data, "image", DefaultImage)),
                           Encode(data.members["linkproduk"].s), code))
  {
    var target := Property(data, "linkproduk");
    var title := Field(data, "name", DefaultTitle);
    var description := Field(data, "description", DefaultDescription);
    var image := Field(data, "image", DefaultImage);
    assert CreatePage(title, description, image, target, code).Normal?;
  }

  /**
   * On success the page leads to exactly `linkproduk`, and the title,
   * description and image are the record's values or, each on its own, the
   * fixed defaults; escaping can be undone, so nothing else is shown.
   */
  lemma {:induction false} SuccessPage(code: string, data: Json)
    requires Renderable(data)
    ensures var r := Resolve(code, Body(data));
      r.status == 200 && r.page.PreviewPage? &&
      Decode(r.page.url) == data.members["linkproduk"].s &&
      Decode(r.page.title) == Shown(data, "name", DefaultTitle) &&
      Decode(r.page.description) == Shown(data, "description", DefaultDescription) &&
      Decode(r.page.image) == Shown(data, "image", DefaultImage)
  {
    PreviewShape(code, data);
    DecodeEncode(data.members["linkproduk"].s);
    DecodeEncode(Shown(data, "name", DefaultTitle));
    DecodeEncode(Shown(data, "description", DefaultDescription));
    DecodeEncode(Shown(data, "image", DefaultImage));
  }

  /** A field escaped for interpolation: no raw markup character, and every `&` starts an entity. */
  predicate Escaped(s: string) {
    (forall x | x in s :: x != '<' && x != '>' && x != '"' && x != '\'') &&
    (forall i | 0 <= i < |s| && s[i] == '&' :: EntityAt(s, i))
  }

  lemma {:induction false} EncodeIsEscaped(s: string)
    ensures Escaped(Encode(s))
  {
    EncodeNoRawSpecials(s);
    EncodeAmpersandsAreEntities(s);
  }

  /**
   * The four escaped fields of any preview page the handler sends cannot
   * close the attribute value or the element they are put into, nor open a
   * new tag. Nothing is claimed about the scheme of the url (a `javascript:`
   * `linkproduk` is still followed by the redirects), nor about backslashes
   * or line breaks inside the script's string literal, which are not escaped.
   * The short code is interpolated raw and is not covered.
   */
  lemma {:induction false} PreviewIsEscaped(path: string, store: string -> StoreOutcome)
    ensures var r := HandleRequest(path, store);
      r.page.PreviewPage? ==>
        Escaped(r.page.title) && Escaped(r.page.description) &&
        Escaped(r.page.image) && Escaped(r.page.url)
  {
    var r := HandleRequest(path, store);
    if r.page.PreviewPage? {
      var data := store(RecordUrl(ShortCode(path))).data;
      EncodeIsEscaped(data.members["linkproduk"].s);
      EncodeIsEscaped(Shown(data, "name", DefaultTitle));
      EncodeIsEscaped(Shown(data, "description", DefaultDescription));
      EncodeIsEscaped(Shown(data, "image", DefaultImage));
    }
  }
}
