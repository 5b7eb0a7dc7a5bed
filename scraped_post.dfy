/**
 * Extraction of a post from the HTML of its public page
 * (imgchest/src/model/scraped_post.rs).
 *
 * The HTML parser and the CSS selector engine are not modelled: a page is
 * given as what each selector the scraper runs finds first (or nothing),
 * plus the ordered list of image containers. An element is its attributes
 * and the text nodes beneath it, in document order.
 */
module ScrapedPosts {
  import opened Wrappers
  import opened Text

  const POST_URL_PREFIX: string := "https://imgchest.com/p/"
  const USER_URL_PREFIX: string := "https://imgchest.com/u/"
  const DESCRIPTION_LABEL: string := "Description"

  /** An element: its attributes and the text nodes beneath it, in document order. */
  datatype Element = Element(attrs: map<string, string>, texts: seq<string>)

  /**
   * One `#post-images > div[id^="image"]` container, with the first match
   * of each selector the file parser runs inside it.
   */
  datatype ImageElement = ImageElement(
    element: Element,
    descriptionWrapper: Option<Element>,  // `.description-wrapper`
    dataUrlLink: Option<Element>,         // `a[data-url]`
    videoSource: Option<Element>)         // `video source`

  /** A post page, as the first match of each selector `from_html` runs. */
  datatype Document = Document(
    ogUrl: Option<Element>,               // `meta[property="og:url"]`
    ogTitle: Option<Element>,             // `meta[property="og:title"]`
    profileLink: Option<Element>,         // `a[href^="https://imgchest.com/u/"]`
    twitterDescription: Option<Element>,  // `meta[name="twitter:description"]`
    postImages: seq<ImageElement>,        // every `#post-images > div[id^="image"]`, in document order
    loadAll: Option<Element>,             // `#post-images .load-all`
    csrfToken: Option<Element>)           // `meta[name="csrf-token"]`

  /** Why an image container could not be read. */
  datatype FromElementError = MissingId | MissingLink

  /** Why a post page could not be read. */
  datatype FromHtmlError =
    | MissingId
    | MissingTitle
    | MissingUsername
    | MissingViews
    | InvalidViews(kind: IntErrorKind)
    | InvalidImage(cause: FromElementError)
    | MissingToken

  /** A post file read from the page. */
  datatype File = File(id: string, description: Option<string>, link: string, videoLink: Option<string>)

  /** A post read from its page. */
  datatype ScrapedPost = ScrapedPost(
    id: string,
    title: string,
    username: string,
    views: U64,
    imageCount: nat,
    images: seq<File>,
    extraImageCount: Option<U32>,
    token: string)

  /** `Element::attr`. */
  function Attr(e: Element, name: string): Option<string> {
    if name in e.attrs then Some(e.attrs[name]) else None
  }

  /** The attribute of the first match of a selector: `select(..).next().and_then(|e| e.attr(name))`. */
  function FirstAttr(first: Option<Element>, name: string): (r: Option<string>)
    ensures r.Some? <==> first.Some? && name in first.value.attrs
  {
    match first
    case None => None
    case Some(e) => Attr(e, name)
  }

  // ---------------------------------------------------------------- description

  /**
   * The pieces a description is made of: each text node trimmed, in order,
   * leaving out the pieces that are exactly the "Description" label.
   */
  function DescriptionPieces(texts: seq<string>): (r: seq<string>)
    ensures |r| <= |texts|
  {
    if texts == [] then []
    else
      var t := Trim(texts[|texts| - 1]);
      DescriptionPieces(texts[..|texts| - 1]) + (if t == DESCRIPTION_LABEL then [] else [t])
  }

  /** The pieces glued together with no separator. */
  function Concat(pieces: seq<string>): string {
    if pieces == [] then [] else Concat(pieces[..|pieces| - 1]) + pieces[|pieces| - 1]
  }

  /** A file's description: the glued pieces of the first description wrapper; an empty text is no description. */
  function DescriptionOf(wrapper: Option<Element>): (r: Option<string>)
    ensures r != Some([])
    ensures wrapper.None? ==> r.None?
    ensures r.Some? ==> r.value == Concat(DescriptionPieces(wrapper.value.texts))
  {
    match wrapper
    case None => None
    case Some(w) =>
      var text := Concat(DescriptionPieces(w.texts));
      if text == [] then None else Some(text)
  }

  /** A text node that contributes nothing: blank, or exactly the label once trimmed. */
  predicate Dropped(text: string) {
    Trim(text) == [] || Trim(text) == DESCRIPTION_LABEL
  }

  lemma PiecesSnoc(texts: seq<string>, t: string)
    ensures DescriptionPieces(texts + [t])
         == DescriptionPieces(texts) + (if Trim(t) == DESCRIPTION_LABEL then [] else [Trim(t)])
  {
    assert (texts + [t])[..|texts|] == texts;
  }

  lemma ConcatSnoc(pieces: seq<string>, p: string)
    ensures Concat(pieces + [p]) == Concat(pieces) + p
  {
    assert (pieces + [p])[..|pieces|] == pieces;
  }

  /** One more text node adds its trimmed text to the description, unless it is the label. */
  lemma AppendText(texts: seq<string>, t: string)
    ensures Concat(DescriptionPieces(texts + [t]))
         == Concat(DescriptionPieces(texts)) + (if Trim(t) == DESCRIPTION_LABEL then [] else Trim(t))
  {
    PiecesSnoc(texts, t);
    if Trim(t) != DESCRIPTION_LABEL {
      ConcatSnoc(DescriptionPieces(texts), Trim(t));
    } else {
      assert DescriptionPieces(texts + [t]) == DescriptionPieces(texts);
    }
  }

  lemma AppendTextAt(texts: seq<string>, i: nat)
    requires i < |texts|
    ensures Concat(DescriptionPieces(texts[..i + 1]))
         == Concat(DescriptionPieces(texts[..i])) + (if Trim(texts[i]) == DESCRIPTION_LABEL then [] else Trim(texts[i]))
  {
    assert texts[..i + 1] == texts[..i] + [texts[i]];
    AppendText(texts[..i], texts[i]);
  }

  /** The pieces glue to nothing exactly when every text node is dropped. */
  lemma {:induction false} DescriptionPiecesEmpty(texts: seq<string>)
    ensures Concat(DescriptionPieces(texts)) == [] <==> forall k :: 0 <= k < |texts| ==> Dropped(texts[k])
    decreases |texts|
  {
    if texts != [] {
      var front, t := texts[..|texts| - 1], texts[|texts| - 1];
      assert texts == front + [t];
      DescriptionPiecesEmpty(front);
      PiecesSnoc(front, t);
      var tail := if Trim(t) == DESCRIPTION_LABEL then [] else [Trim(t)];
      if tail == [] {
        assert DescriptionPieces(texts) == DescriptionPieces(front);
      } else {
        ConcatSnoc(DescriptionPieces(front), Trim(t));
      }
      assert Concat(DescriptionPieces(texts)) == [] <==> Concat(DescriptionPieces(front)) == [] && Dropped(t);
    }
  }

  /**
   * A present wrapper yields no description exactly when all its text is
   * whitespace or the "Description" label: an empty description is None,
   * never Some("").
   */
  lemma DescriptionAbsent(w: Element)
    ensures DescriptionOf(Some(w)).None? <==> forall k :: 0 <= k < |w.texts| ==> Dropped(w.texts[k])
  {
    DescriptionPiecesEmpty(w.texts);
  }

  /** The `push_str` loop of `from_element`: the kept pieces of the text nodes, glued in order. */
  method PushDescription(texts: seq<string>) returns (buffer: string)
    ensures buffer == Concat(DescriptionPieces(texts))
  {
    buffer := [];
    var i := 0;
    while i < |texts|
      invariant 0 <= i <= |texts|
      invariant buffer == Concat(DescriptionPieces(texts[..i]))
    {
      var text := Trim(texts[i]);
      if text != DESCRIPTION_LABEL {
        buffer := buffer + text;
      }
      AppendTextAt(texts, i);
      i := i + 1;
    }
    assert texts[..i] == texts;
  }

  /** The description step of `from_element`: an empty text is no description. */
  method CollectDescription(wrapper: Option<Element>) returns (description: Option<string>)
    ensures description == DescriptionOf(wrapper)
  {
    var buffer: string := [];
    if wrapper.Some? {
      buffer := PushDescription(wrapper.value.texts);
    }
    description := if buffer == [] then None else Some(buffer);
  }

  // ---------------------------------------------------------------- from_element

  /** The file id: the second `-`-separated segment of the container's `id` attribute. */
  function FileId(e: ImageElement): (r: Option<string>)
    ensures r.Some? <==> "id" in e.element.attrs && '-' in e.element.attrs["id"]
    ensures r.Some? ==> '-' !in r.value
    ensures r.Some? ==> exists k ::
      && 0 <= k < |e.element.attrs["id"]| && e.element.attrs["id"][k] == '-' && '-' !in e.element.attrs["id"][..k]
      && r.value == FirstSegment(e.element.attrs["id"][k + 1..], '-')
  {
    match Attr(e.element, "id")
    case None => None
    case Some(id) => SecondSegment(id, '-')
  }

  /** The file link: `data-url` of the first `a[data-url]`. */
  function FileLink(e: ImageElement): Option<string> {
    FirstAttr(e.dataUrlLink, "data-url")
  }

  /** The video link: `src` of the first `video source`, if it has one. */
  function VideoLink(e: ImageElement): Option<string> {
    FirstAttr(e.videoSource, "src")
  }

  /** `File::from_element`: the id is checked first, then the link; the description and the video never fail. */
  function FromElement(e: ImageElement): (r: Result<File, FromElementError>)
    ensures r == Err(FromElementError.MissingId) <==> FileId(e).None?
    ensures r == Err(FromElementError.MissingLink) <==> FileId(e).Some? && FileLink(e).None?
    ensures r.Ok? ==> Some(r.value.id) == FileId(e) && Some(r.value.link) == FileLink(e)
    ensures r.Ok? ==> r.value.description == DescriptionOf(e.descriptionWrapper) && r.value.videoLink == VideoLink(e)
  {
    match FileId(e)
    case None => Err(FromElementError.MissingId)
    case Some(id) =>
      var description := DescriptionOf(e.descriptionWrapper);
      match FileLink(e)
      case None => Err(FromElementError.MissingLink)
      case Some(link) => Ok(File(id, description, link, VideoLink(e)))
  }

  /** Whether a container parses depends on its id and link only: a missing description or video is no error. */
  lemma OptionalPartsNeverFail(e: ImageElement, wrapper: Option<Element>, video: Option<Element>)
    ensures FromElement(e.(descriptionWrapper := wrapper, videoSource := video)).Ok? <==> FromElement(e).Ok?
    ensures video.None? && FromElement(e).Ok? ==> FromElement(e.(videoSource := video)).value.videoLink.None?
  {
  }

  /**
   * A container whose id is `<prefix>-<rest>`, with no `-` in the prefix,
   * gives as file id the text of `rest` up to its first `-` (all of it when
   * it has none).
   */
  lemma FileIdOfDashedId(e: ImageElement, prefix: string, rest: string)
    requires '-' !in prefix
    requires Attr(e.element, "id") == Some(prefix + "-" + rest)
    ensures FileId(e) == Some(FirstSegment(rest, '-'))
  {
    assert prefix + "-" + rest == prefix + ['-'] + rest;
    SecondSegmentOf(prefix, '-', rest);
  }

  /** `.map(File::from_element)`: the outcome for every container, in document order. */
  function ParseFiles(elements: seq<ImageElement>): (rs: seq<Result<File, FromElementError>>)
    ensures |rs| == |elements| && forall i :: 0 <= i < |elements| ==> rs[i] == FromElement(elements[i])
  {
    seq(|elements|, i requires 0 <= i < |elements| => FromElement(elements[i]))
  }

  /** `collect::<Result<Vec<_>, _>>()`: every value in order when all are `Ok`, otherwise the first error. */
  function CollectResults<T, E>(rs: seq<Result<T, E>>): (r: Result<seq<T>, E>)
    ensures r.Ok? <==> forall i :: 0 <= i < |rs| ==> rs[i].Ok?
    ensures r.Ok? ==> |r.value| == |rs| && forall i :: 0 <= i < |rs| ==> rs[i] == Ok(r.value[i])
  {
    if rs == [] then Ok([])
    else
      match rs[0]
      case Err(e) => Err(e)
      case Ok(v) =>
        var rest := CollectResults(rs[1..]);
        assert forall i :: 1 <= i < |rs| ==> rs[i] == rs[1..][i - 1];
        match rest
        case Err(e) => Err(e)
        case Ok(vs) => Ok([v] + vs)
  }

  /** The collection stops at the first error and reports it. */
  lemma {:induction false} CollectResultsFirstError<T, E>(rs: seq<Result<T, E>>, i: nat)
    requires i < |rs| && rs[i].Err?
    requires forall j :: 0 <= j < i ==> rs[j].Ok?
    ensures CollectResults(rs) == Err(rs[i].error)
    decreases i
  {
    if i > 0 {
      assert rs[0].Ok?;
      CollectResultsFirstError(rs[1..], i - 1);
    }
  }

  /** The files of a page, or the error of its first container that cannot be read. */
  function CollectFiles(elements: seq<ImageElement>): Result<seq<File>, FromElementError> {
    CollectResults(ParseFiles(elements))
  }

  // ---------------------------------------------------------------- from_html

  /** The post id: the `og:url` content with the post URL prefix stripped. */
  function PostId(doc: Document): (r: Option<string>)
    ensures r.Some? <==> exists url :: FirstAttr(doc.ogUrl, "content") == Some(url) && POST_URL_PREFIX <= url
    ensures r.Some? ==> FirstAttr(doc.ogUrl, "content") == Some(POST_URL_PREFIX + r.value)
  {
    match FirstAttr(doc.ogUrl, "content")
    case None => None
    case Some(url) => StripPrefix(url, POST_URL_PREFIX)
  }

  /** The title: the `og:title` content, trimmed. */
  function PostTitle(doc: Document): (r: Option<string>)
    ensures r.Some? <==> FirstAttr(doc.ogTitle, "content").Some?
    ensures r.Some? ==> r.value == Trim(FirstAttr(doc.ogTitle, "content").value)
  {
    match FirstAttr(doc.ogTitle, "content")
    case None => None
    case Some(title) => Some(Trim(title))
  }

  /** The username: the profile link's `href` with the user URL prefix stripped. */
  function PostUsername(doc: Document): (r: Option<string>)
    ensures r.Some? <==> exists href :: FirstAttr(doc.profileLink, "href") == Some(href) && USER_URL_PREFIX <= href
    ensures r.Some? ==> FirstAttr(doc.profileLink, "href") == Some(USER_URL_PREFIX + r.value)
  {
    match FirstAttr(doc.profileLink, "href")
    case None => None
    case Some(href) => StripPrefix(href, USER_URL_PREFIX)
  }

  /**
   * The views: the first space-separated token of the `twitter:description`
   * content parsed as a u64; None when the tag or its content is missing.
   */
  function PostViews(doc: Document): (r: Option<Result<nat, IntErrorKind>>)
    ensures r.Some? <==> FirstAttr(doc.twitterDescription, "content").Some?
    ensures r.Some? && r.value.Ok? ==> r.value.value <= U64_MAX
    ensures r.Some? ==> r.value == ParseUnsigned(FirstSegment(FirstAttr(doc.twitterDescription, "content").value, ' '), U64_MAX)
  {
    match FirstAttr(doc.twitterDescription, "content")
    case None => None
    case Some(content) => Some(ParseUnsigned(FirstSegment(content, ' '), U64_MAX))
  }

  /** `.find(|s| !s.is_empty())`: the first non-empty text. */
  function FirstNonEmpty(ss: seq<string>): (r: Option<string>)
    ensures r.Some? ==> r.value != [] && exists k :: 0 <= k < |ss| && r.value == ss[k]
                                                    && forall j :: 0 <= j < k ==> ss[j] == []
    ensures r.None? <==> forall k :: 0 <= k < |ss| ==> ss[k] == []
  {
    if ss == [] then None
    else if ss[0] != [] then Some(ss[0])
    else
      var r := FirstNonEmpty(ss[1..]);
      assert forall k :: 0 < k < |ss| ==> ss[k] == ss[1..][k - 1];
      if r.Some? then
        var k :| 0 <= k < |ss[1..]| && r.value == ss[1..][k] && forall j :: 0 <= j < k ==> ss[1..][j] == [];
        assert forall j :: 0 <= j < k + 1 ==> ss[j] == [] by {
          forall j | 0 < j < k + 1 ensures ss[j] == [] { assert ss[j] == ss[1..][j - 1]; }
        }
        r
      else r
  }

  /** `.map(|text| text.trim()).find(|s| !s.is_empty())`: the first non-blank text, trimmed. */
  function FirstNonEmptyTrimmed(texts: seq<string>): (r: Option<string>)
    ensures r.Some? ==> r.value != [] && exists k :: 0 <= k < |texts| && r.value == Trim(texts[k])
                                                    && forall j :: 0 <= j < k ==> Trim(texts[j]) == []
    ensures r.None? <==> forall k :: 0 <= k < |texts| ==> Trim(texts[k]) == []
  {
    FirstNonEmpty(TrimAll(texts))
  }

  /** `.map(|text| text.trim())`. */
  function TrimAll(texts: seq<string>): (r: seq<string>)
    ensures |r| == |texts| && forall i :: 0 <= i < |texts| ==> r[i] == Trim(texts[i])
  {
    seq(|texts|, i requires 0 <= i < |texts| => Trim(texts[i]))
  }

  /**
   * The count of images not in the page: the second space-separated token
   * of the load-all button's first non-blank text, as a u32. Any failure
   * gives None.
   */
  function ExtraImageCount(doc: Document): (r: Option<U32>)
    ensures doc.loadAll.None? ==> r.None?
    ensures r.Some? <==>
      doc.loadAll.Some? && FirstNonEmptyTrimmed(doc.loadAll.value.texts).Some?
      && SecondSegment(FirstNonEmptyTrimmed(doc.loadAll.value.texts).value, ' ').Some?
      && ParseUnsigned(SecondSegment(FirstNonEmptyTrimmed(doc.loadAll.value.texts).value, ' ').value, U32_MAX).Ok?
    ensures r.Some? ==>
      ParseUnsigned(SecondSegment(FirstNonEmptyTrimmed(doc.loadAll.value.texts).value, ' ').value, U32_MAX) == Ok(r.value as nat)
  {
    match doc.loadAll
    case None => None
    case Some(button) =>
      match FirstNonEmptyTrimmed(button.texts)
      case None => None
      case Some(text) =>
        match SecondSegment(text, ' ')
        case None => None
        case Some(count) =>
          match ParseUnsigned(count, U32_MAX)
          case Err(_) => None
          case Ok(n) => Some(n)
  }

  /** The session token: the `csrf-token` content. */
  function PostToken(doc: Document): (r: Option<string>)
    ensures r.Some? <==> doc.csrfToken.Some? && "content" in doc.csrfToken.value.attrs
    ensures r.Some? ==> r.value == doc.csrfToken.value.attrs["content"]
  {
    FirstAttr(doc.csrfToken, "content")
  }

  /** Every step up to and including the views succeeds. */
  predicate HeadOk(doc: Document) {
    PostId(doc).Some? && PostTitle(doc).Some? && PostUsername(doc).Some?
    && PostViews(doc).Some? && PostViews(doc).value.Ok?
  }

  /** The fields `from_html` reads before the images. */
  datatype PostHead = PostHead(id: string, title: string, username: string, views: U64)

  /** The first steps of `from_html`, in the order id, title, username, views; the first that fails decides the error. */
  function ReadHead(doc: Document): (r: Result<PostHead, FromHtmlError>)
    ensures r == Err(FromHtmlError.MissingId) <==> PostId(doc).None?
    ensures r == Err(MissingTitle) <==> PostId(doc).Some? && PostTitle(doc).None?
    ensures r == Err(MissingUsername) <==> PostId(doc).Some? && PostTitle(doc).Some? && PostUsername(doc).None?
    ensures r == Err(MissingViews)
        <==> PostId(doc).Some? && PostTitle(doc).Some? && PostUsername(doc).Some? && PostViews(doc).None?
    ensures (r.Err? && r.error.InvalidViews?)
        <==> PostId(doc).Some? && PostTitle(doc).Some? && PostUsername(doc).Some?
             && PostViews(doc).Some? && PostViews(doc).value.Err?
    ensures r.Ok? <==> HeadOk(doc)
    ensures r.Ok? ==> Some(r.value.id) == PostId(doc) && Some(r.value.title) == PostTitle(doc)
                      && Some(r.value.username) == PostUsername(doc) && PostViews(doc) == Some(Ok(r.value.views))
  {
    match PostId(doc)
    case None => Err(FromHtmlError.MissingId)
    case Some(id) =>
      match PostTitle(doc)
      case None => Err(MissingTitle)
      case Some(title) =>
        match PostUsername(doc)
        case None => Err(MissingUsername)
        case Some(username) =>
          match PostViews(doc)
          case None => Err(MissingViews)
          case Some(Err(kind)) => Err(InvalidViews(kind))
          case Some(Ok(views)) => Ok(PostHead(id, title, username, views))
  }

  /** The last steps of `from_html`: the images, then the token. */
  function ReadRest(doc: Document, head: PostHead): (r: Result<ScrapedPost, FromHtmlError>)
    ensures (r.Err? && r.error.InvalidImage?) <==> CollectFiles(doc.postImages).Err?
    ensures r == Err(FromHtmlError.MissingToken) <==> CollectFiles(doc.postImages).Ok? && PostToken(doc).None?
    ensures r.Ok? <==> CollectFiles(doc.postImages).Ok? && PostToken(doc).Some?
    ensures r.Ok? ==> r.value.id == head.id && r.value.title == head.title
                      && r.value.username == head.username && r.value.views == head.views
    ensures r.Ok? ==> Some(r.value.token) == PostToken(doc)
    ensures r.Ok? ==> r.value.imageCount == |r.value.images| + r.value.extraImageCount.UnwrapOr(0)
    ensures r.Ok? ==> |r.value.images| == |doc.postImages|
    ensures r.Ok? ==> forall i :: 0 <= i < |doc.postImages| ==> FromElement(doc.postImages[i]) == Ok(r.value.images[i])
    ensures r.Ok? ==> r.value.extraImageCount == ExtraImageCount(doc)
  {
    match CollectFiles(doc.postImages)
    case Err(e) => Err(InvalidImage(e))
    case Ok(images) =>
      var extra := ExtraImageCount(doc);
      var imageCount := |images| + extra.UnwrapOr(0);
      match PostToken(doc)
      case None => Err(FromHtmlError.MissingToken)
      case Some(token) => Ok(ScrapedPost(head.id, head.title, head.username, head.views, imageCount, images, extra, token))
  }

  /**
   * `ScrapedPost::from_html`. The steps run in the order id, title,
   * username, views, images, token, and the first that fails decides the
   * error; the load-all button never causes one. The image count is the
   * number of images on the page plus the extra count.
   */
  function FromHtml(doc: Document): (r: Result<ScrapedPost, FromHtmlError>)
    ensures r.Ok? ==> r.value.imageCount == |r.value.images| + r.value.extraImageCount.UnwrapOr(0)
    ensures r.Ok? ==> |r.value.images| == |doc.postImages|
    ensures r.Ok? ==> forall i :: 0 <= i < |doc.postImages| ==> FromElement(doc.postImages[i]) == Ok(r.value.images[i])
    ensures r.Ok? ==> r.value.extraImageCount == ExtraImageCount(doc)
    ensures r.Ok? ==> FirstAttr(doc.ogUrl, "content") == Some(POST_URL_PREFIX + r.value.id)
    ensures r.Ok? ==> Some(r.value.title) == PostTitle(doc) && Some(r.value.username) == PostUsername(doc)
                      && PostViews(doc) == Some(Ok(r.value.views)) && Some(r.value.token) == PostToken(doc)
  {
    match ReadHead(doc)
    case Err(e) => Err(e)
    case Ok(head) => ReadRest(doc, head)
  }

  /** The error is decided by the first failing step, in the order of the source: up to the views. */
  lemma FromHtmlHeadErrors(doc: Document)
    ensures FromHtml(doc) == Err(FromHtmlError.MissingId) <==> PostId(doc).None?
    ensures FromHtml(doc) == Err(MissingTitle) <==> PostId(doc).Some? && PostTitle(doc).None?
    ensures FromHtml(doc) == Err(MissingUsername)
        <==> PostId(doc).Some? && PostTitle(doc).Some? && PostUsername(doc).None?
    ensures FromHtml(doc) == Err(MissingViews)
        <==> PostId(doc).Some? && PostTitle(doc).Some? && PostUsername(doc).Some? && PostViews(doc).None?
    ensures (FromHtml(doc).Err? && FromHtml(doc).error.InvalidViews?)
        <==> PostId(doc).Some? && PostTitle(doc).Some? && PostUsername(doc).Some?
             && PostViews(doc).Some? && PostViews(doc).value.Err?
  {
    if ReadHead(doc).Ok? {
      var r := ReadRest(doc, ReadHead(doc).value);
      assert r.Err? ==> r.error.InvalidImage? || r.error.MissingToken?;
    }
  }

  /** Once the views are read, the images decide next, then the token. */
  lemma FromHtmlTailErrors(doc: Document)
    ensures (FromHtml(doc).Err? && FromHtml(doc).error.InvalidImage?) <==> HeadOk(doc) && CollectFiles(doc.postImages).Err?
    ensures FromHtml(doc) == Err(FromHtmlError.MissingToken)
        <==> HeadOk(doc) && CollectFiles(doc.postImages).Ok? && PostToken(doc).None?
    ensures FromHtml(doc).Ok? <==> HeadOk(doc) && CollectFiles(doc.postImages).Ok? && PostToken(doc).Some?
  {
  }

  /** The load-all button never decides whether a page parses. */
  lemma LoadAllNeverFails(doc: Document, button: Option<Element>)
    ensures FromHtml(doc.(loadAll := button)).Ok? <==> FromHtml(doc).Ok?
    ensures button.None? && FromHtml(doc).Ok? ==> FromHtml(doc.(loadAll := button)).value.imageCount == |doc.postImages|
  {
    FromHtmlTailErrors(doc);
    FromHtmlTailErrors(doc.(loadAll := button));
  }

  /** Content that is empty, or starts with a space, gives an empty first token: InvalidViews, not MissingViews. */
  lemma EmptyViewsTokenIsInvalid(doc: Document)
    requires FirstAttr(doc.twitterDescription, "content").Some?
    requires var c := FirstAttr(doc.twitterDescription, "content").value; c == [] || c[0] == ' '
    ensures PostViews(doc) == Some(Err(Empty))
  {
    var c := FirstAttr(doc.twitterDescription, "content").value;
    assert FirstSegment(c, ' ') == [];
  }

  /** Content of the form "<n> <rest>" gives n views, for every n a u64 holds. */
  lemma ViewsOfDecimal(doc: Document, n: nat, rest: string)
    requires n <= U64_MAX
    requires FirstAttr(doc.twitterDescription, "content") == Some(ToDecimal(n) + " " + rest)
    ensures PostViews(doc) == Some(Ok(n))
  {
    var d := ToDecimal(n);
    var c := d + " " + rest;
    var f := FirstSegment(c, ' ');
    assert c[|d|] == ' ';
    assert f == d;
    ParseToDecimal(n, U64_MAX);
  }

  /** A load-all button reading "<word> <n>" (then nothing, or a space and more) counts n extra images, for every n a u32 holds. */
  lemma ExtraImageCountOf(doc: Document, button: Element, word: string, n: nat, more: string)
    requires doc.loadAll == Some(button)
    requires ' ' !in word && n <= U32_MAX && (more == [] || more[0] == ' ')
    requires FirstNonEmptyTrimmed(button.texts) == Some(word + " " + ToDecimal(n) + more)
    ensures ExtraImageCount(doc) == Some(n)
  {
    SecondTokenDecimal(word, n, more);
    ParseToDecimal(n, U32_MAX);
  }
}
