/**
 * The API client (imgchest/src/client.rs): the request builders, the token
 * the client holds, and one method per call the client makes.
 *
 * The HTTP client, serde_json and the HTML parser are not modelled: a call
 * is given a `Network`, whose `send` answers a request and whose parsers
 * turn a response text into the JSON shape or the page the call expects.
 * Each call returns the request it sent (None when it failed before
 * sending) together with its outcome.
 */
module ImgchestClient {
  import opened Wrappers
  import opened Text
  import opened Posts
  import opened ApiModel
  import opened ScrapedPosts
  import opened Errors

  const API_URL: string := "https://api.imgchest.com/v1"
  /** `create_post` refuses titles shorter than this many bytes. */
  const TITLE_MIN_LEN: nat := 3
  const FAVORITE_ADDED: string := "Favorite added."
  const FAVORITE_REMOVED: string := "Favorite removed."

  // ---------------------------------------------------------------- requests

  datatype Verb = GET | POST | PATCH | DELETE

  datatype Header = Header(name: string, value: string)

  /** `UploadPostFile`: a file name and the bytes of the file. */
  datatype UploadPostFile = UploadPostFile(fileName: string, body: seq<bv8>)

  /** A part of a multipart form. */
  datatype Part =
    | TextPart(name: string, value: string)
    | FilePart(name: string, fileName: string, bytes: seq<bv8>)

  /** A request body. */
  datatype Body =
    | NoBody
    | Multipart(parts: seq<Part>)                  // `.multipart(form)`
    | UrlEncoded(pairs: seq<(string, string)>)     // `.form(&pairs)`
    | Json(bulk: ApiUpdateFilesBulkRequest)        // `.json(&data)`

  datatype Request = Request(verb: Verb, url: string, headers: seq<Header>, body: Body)

  /** What comes back for a request: nothing (the transport failed), or a status and a body text. */
  datatype Reply = Unreachable | Response(status: nat, text: string)

  /** `imgchest::User`, which `get_user` returns. */
  datatype User = User(name: string, posts: U64, comments: U64, created: Timestamp)

  /**
   * The world outside the model: the transport, serde_json's reading of
   * each response shape, and the HTML parser. Each parser yields None when
   * the text is not of that shape.
   */
  datatype Network = Network(
    send: Request -> Reply,
    postJson: string -> Option<ApiResponse<RawPost>>,
    userJson: string -> Option<ApiResponse<User>>,
    fileJson: string -> Option<ApiResponse<RawFile>>,
    filesJson: string -> Option<ApiResponse<seq<RawFile>>>,
    completedJson: string -> Option<RawCompletedResponse>,
    parseDocument: string -> Document,
    parseFragment: string -> seq<ImageElement>)

  /** `header(AUTHORIZATION, format!("Bearer {token}"))`. */
  function Bearer(token: string): Header {
    Header("authorization", "Bearer " + token)
  }

  /** The token a request carries, read back from its authorization header. */
  function TokenOf(req: Request): Option<string> {
    if |req.headers| == 1 && req.headers[0].name == "authorization" then StripPrefix(req.headers[0].value, "Bearer ")
    else None
  }

  /** A request to the API carrying the token. */
  function Authorized(verb: Verb, url: string, token: string, body: Body): (req: Request)
    ensures TokenOf(req) == Some(token)
  {
    var req := Request(verb, url, [Bearer(token)], body);
    assert StripPrefix(req.headers[0].value, "Bearer ") == Some(token) by {
      assert "Bearer " <= "Bearer " + token;
    }
    req
  }

  /** `reqwest`'s `error_for_status` refuses client and server errors only. */
  predicate IsErrorStatus(status: nat) {
    400 <= status <= 599
  }

  /** `send().await?.error_for_status()?.text().await?`. */
  function ReceiveText(reply: Reply): (r: Result<string, Error>)
    ensures r.Ok? <==> reply.Response? && !IsErrorStatus(reply.status)
    ensures r.Ok? ==> r.value == reply.text
    ensures r.Err? ==> r.error.Reqwest?
  {
    match reply
    case Unreachable => Err(Reqwest(Transport))
    case Response(status, text) => if IsErrorStatus(status) then Err(Reqwest(Status(status))) else Ok(text)
  }

  /** `send().await?.error_for_status()?.json().await?`, with `decode` standing for the JSON reading. */
  function Receive<T>(reply: Reply, decode: string -> Option<T>): (r: Result<T, Error>)
    ensures r.Ok? <==> reply.Response? && !IsErrorStatus(reply.status) && decode(reply.text).Some?
    ensures r.Ok? ==> decode(reply.text) == Some(r.value)
    ensures r.Err? ==> r.error.Reqwest?
    ensures reply.Response? && IsErrorStatus(reply.status) ==> r == Err(Reqwest(Status(reply.status)))
  {
    match ReceiveText(reply)
    case Err(e) => Err(e)
    case Ok(text) =>
      match decode(text)
      case None => Err(Reqwest(Decode))
      case Some(v) => Ok(v)
  }

  /** A post body: the `data` of an `ApiResponse`, then the post's own deserialisation. */
  function PostDecoder(net: Network): string -> Option<Post> {
    text => match net.postJson(text) case None => None case Some(resp) => DecodePost(resp.data)
  }

  function UserDecoder(net: Network): string -> Option<User> {
    text => match net.userJson(text) case None => None case Some(resp) => Some(resp.data)
  }

  function FileDecoder(net: Network): string -> Option<PostFile> {
    text => match net.fileJson(text) case None => None case Some(resp) => DecodeFile(resp.data)
  }

  function FilesDecoder(net: Network): string -> Option<seq<PostFile>> {
    text => match net.filesJson(text) case None => None case Some(resp) => DecodeFiles(resp.data)
  }

  function CompletedDecoder(net: Network): string -> Option<ApiCompletedResponse> {
    text => match net.completedJson(text) case None => None case Some(raw) => DecodeCompleted(raw)
  }

  // ---------------------------------------------------------------- forms

  /** `bool_to_str`. */
  function BoolToStr(b: bool): (s: string)
    ensures StrToBool(s) == Ok(b)
  {
    if b then "true" else "false"
  }

  /** The value of the first text part with this name. */
  function TextValue(parts: seq<Part>, name: string): (r: Option<string>)
    ensures r.Some? ==> TextPart(name, r.value) in parts
  {
    if parts == [] then None
    else if parts[0].TextPart? && parts[0].name == name then Some(parts[0].value)
    else TextValue(parts[1..], name)
  }

  /** The uploads of a form: its file parts in order. */
  function Uploads(parts: seq<Part>): seq<UploadPostFile> {
    if parts == [] then []
    else (if parts[0].FilePart? then [UploadPostFile(parts[0].fileName, parts[0].bytes)] else []) + Uploads(parts[1..])
  }

  /** The part each upload becomes: `Part::stream(body).file_name(name)` under `images[]`. */
  function ImagePart(file: UploadPostFile): Part {
    FilePart("images[]", file.fileName, file.body)
  }

  /** One `images[]` part per upload, in order. */
  function ImageParts(images: seq<UploadPostFile>): (parts: seq<Part>)
    ensures |parts| == |images| && forall i :: 0 <= i < |images| ==> parts[i] == ImagePart(images[i])
  {
    seq(|images|, i requires 0 <= i < |images| => ImagePart(images[i]))
  }

  /** Appending one upload appends its part. */
  lemma ImagePartsSnoc(images: seq<UploadPostFile>, i: nat)
    requires i < |images|
    ensures ImageParts(images[..i + 1]) == ImageParts(images[..i]) + [ImagePart(images[i])]
  {
  }

  /** `create_post`'s `form.text(..)` calls: each field that is set, in the order title, privacy, anonymous, nsfw. */
  method PushFields(title: Option<string>, privacy: Option<Privacy>, anonymous: Option<bool>, nsfw: Option<bool>)
    returns (form: seq<Part>)
    ensures form == CreateFields(title, privacy, anonymous, nsfw)
    ensures |form| <= 4
  {
    form := [];
    if title.Some? {
      form := form + [TextPart("title", title.value)];
    }
    assert form == CreateFields(title, None, None, None);
    if privacy.Some? {
      form := form + [TextPart("privacy", AsStr(privacy.value))];
    }
    assert form == CreateFields(title, privacy, None, None);
    if anonymous.Some? {
      form := form + [TextPart("anonymous", BoolToStr(anonymous.value))];
    }
    assert form == CreateFields(title, privacy, anonymous, None);
    if nsfw.Some? {
      form := form + [TextPart("nsfw", BoolToStr(nsfw.value))];
    }
  }

  /** The `for file in images { form = form.part("images[]", ..) }` loop: one part per upload, appended in order. */
  method PushImages(form: seq<Part>, images: seq<UploadPostFile>) returns (result: seq<Part>)
    ensures result == form + ImageParts(images)
    ensures |result| == |form| + |images|
  {
    result := form;
    var i := 0;
    while i < |images|
      invariant 0 <= i <= |images|
      invariant result == form + ImageParts(images[..i])
    {
      ImagePartsSnoc(images, i);
      result := result + [ImagePart(images[i])];
      i := i + 1;
    }
    assert images[..i] == images;
  }

  /** A part that is present, when its value is. */
  function OptionalPart(name: string, value: Option<string>): (r: seq<Part>)
    ensures |r| == if value.Some? then 1 else 0
    ensures forall i :: 0 <= i < |r| ==> r[i] == TextPart(name, value.value)
  {
    if value.Some? then [TextPart(name, value.value)] else []
  }

  function PrivacyStr(privacy: Option<Privacy>): Option<string> {
    if privacy.Some? then Some(AsStr(privacy.value)) else None
  }

  function BoolStr(b: Option<bool>): Option<string> {
    if b.Some? then Some(BoolToStr(b.value)) else None
  }

  /** The text fields of `create_post`'s form, each present when set, in the order title, privacy, anonymous, nsfw. */
  function CreateFields(title: Option<string>, privacy: Option<Privacy>, anonymous: Option<bool>, nsfw: Option<bool>): (r: seq<Part>)
    ensures |r| == (if title.Some? then 1 else 0) + (if privacy.Some? then 1 else 0)
                   + (if anonymous.Some? then 1 else 0) + (if nsfw.Some? then 1 else 0)
    ensures forall i :: 0 <= i < |r| ==> r[i].TextPart? && r[i].name in {"title", "privacy", "anonymous", "nsfw"}
  {
    OptionalPart("title", title) + OptionalPart("privacy", PrivacyStr(privacy))
    + OptionalPart("anonymous", BoolStr(anonymous)) + OptionalPart("nsfw", BoolStr(nsfw))
  }

  /** The whole form of `create_post`: the text fields, then the uploads. */
  function CreatePostForm(title: Option<string>, privacy: Option<Privacy>, anonymous: Option<bool>, nsfw: Option<bool>,
                          images: seq<UploadPostFile>): (r: seq<Part>)
    ensures var fields := CreateFields(title, privacy, anonymous, nsfw);
      && |r| == |fields| + |images|
      && (forall i :: 0 <= i < |fields| ==> r[i].TextPart?)
      && (forall j :: |fields| <= j < |r| ==> r[j] == ImagePart(images[j - |fields|]))
  {
    var fields, parts := CreateFields(title, privacy, anonymous, nsfw), ImageParts(images);
    fields + parts
  }

  /** Looking a field up in two forms glued together: the first form wins. */
  lemma {:induction false} TextValueConcat(a: seq<Part>, b: seq<Part>, name: string)
    ensures TextValue(a + b, name) == if TextValue(a, name).Some? then TextValue(a, name) else TextValue(b, name)
    decreases |a|
  {
    if a != [] {
      assert (a + b)[0] == a[0];
      assert (a + b)[1..] == a[1..] + b;
      TextValueConcat(a[1..], b, name);
    } else {
      assert a + b == b;
    }
  }

  /** The uploads of two forms glued together. */
  lemma {:induction false} UploadsConcat(a: seq<Part>, b: seq<Part>)
    ensures Uploads(a + b) == Uploads(a) + Uploads(b)
    decreases |a|
  {
    if a != [] {
      assert (a + b)[0] == a[0];
      assert (a + b)[1..] == a[1..] + b;
      UploadsConcat(a[1..], b);
    } else {
      assert a + b == b;
    }
  }

  /** The image parts hold the uploads, in order, and no text field. */
  lemma {:induction false} ImagePartsContents(images: seq<UploadPostFile>, name: string)
    ensures Uploads(ImageParts(images)) == images
    ensures TextValue(ImageParts(images), name).None?
    decreases |images|
  {
    if images != [] {
      assert ImageParts(images)[1..] == ImageParts(images[1..]);
      ImagePartsContents(images[1..], name);
    }
  }

  /** A single optional field holds its value under its own name and nothing under another. */
  lemma OptionalPartLookup(name: string, value: Option<string>, key: string)
    ensures TextValue(OptionalPart(name, value), key) == if name == key then value else None
  {
  }

  /** A field of the text fields of `create_post`, found in the first part that has its name. */
  lemma CreateFieldsLookup(title: Option<string>, privacy: Option<Privacy>, anonymous: Option<bool>, nsfw: Option<bool>,
                           images: seq<UploadPostFile>, name: string)
    ensures var t, p, a, n := OptionalPart("title", title), OptionalPart("privacy", PrivacyStr(privacy)),
                              OptionalPart("anonymous", BoolStr(anonymous)), OptionalPart("nsfw", BoolStr(nsfw));
      TextValue(CreatePostForm(title, privacy, anonymous, nsfw, images), name)
      == if TextValue(t, name).Some? then TextValue(t, name)
         else if TextValue(p, name).Some? then TextValue(p, name)
         else if TextValue(a, name).Some? then TextValue(a, name)
         else TextValue(n, name)
  {
    var t, p, a, n := OptionalPart("title", title), OptionalPart("privacy", PrivacyStr(privacy)),
                      OptionalPart("anonymous", BoolStr(anonymous)), OptionalPart("nsfw", BoolStr(nsfw));
    var imgs := ImageParts(images);
    TextValueConcat(t + p + a + n, imgs, name);
    TextValueConcat(t + p + a, n, name);
    TextValueConcat(t + p, a, name);
    TextValueConcat(t, p, name);
    ImagePartsContents(images, name);
  }

  /**
   * The server reads back from `create_post`'s form every field that was
   * set, and nothing for one that was not; privacy decodes back to the
   * value set (the flags do by `BoolToStr`'s own contract).
   */
  lemma CreatePostFormReadBack(title: Option<string>, privacy: Option<Privacy>, anonymous: Option<bool>, nsfw: Option<bool>,
                               images: seq<UploadPostFile>)
    ensures var form := CreatePostForm(title, privacy, anonymous, nsfw, images);
      && TextValue(form, "title") == title
      && TextValue(form, "privacy") == PrivacyStr(privacy)
      && TextValue(form, "anonymous") == BoolStr(anonymous)
      && TextValue(form, "nsfw") == BoolStr(nsfw)
    ensures privacy.Some? ==> PrivacyFromStr(PrivacyStr(privacy).value) == Ok(privacy.value)
  {
    var form := CreatePostForm(title, privacy, anonymous, nsfw, images);
    var t, p, a, n := OptionalPart("title", title), OptionalPart("privacy", PrivacyStr(privacy)),
                      OptionalPart("anonymous", BoolStr(anonymous)), OptionalPart("nsfw", BoolStr(nsfw));
    assert TextValue(form, "title") == title by {
      CreateFieldsLookup(title, privacy, anonymous, nsfw, images, "title");
      OptionalPartLookup("title", title, "title");
    }
    assert TextValue(form, "privacy") == PrivacyStr(privacy) by {
      CreateFieldsLookup(title, privacy, anonymous, nsfw, images, "privacy");
      OptionalPartLookup("title", title, "privacy");
      OptionalPartLookup("privacy", PrivacyStr(privacy), "privacy");
    }
    assert TextValue(form, "anonymous") == BoolStr(anonymous) by {
      CreateFieldsLookup(title, privacy, anonymous, nsfw, images, "anonymous");
      OptionalPartLookup("title", title, "anonymous");
      OptionalPartLookup("privacy", PrivacyStr(privacy), "anonymous");
      OptionalPartLookup("anonymous", BoolStr(anonymous), "anonymous");
    }
    assert TextValue(form, "nsfw") == BoolStr(nsfw) by {
      CreateFieldsLookup(title, privacy, anonymous, nsfw, images, "nsfw");
      OptionalPartLookup("title", title, "nsfw");
      OptionalPartLookup("privacy", PrivacyStr(privacy), "nsfw");
      OptionalPartLookup("anonymous", BoolStr(anonymous), "nsfw");
      OptionalPartLookup("nsfw", BoolStr(nsfw), "nsfw");
    }
    if privacy.Some? {
      PrivacyRoundTrip(privacy.value, AsStr(privacy.value));
    }
  }

  /** The uploads of `create_post`'s form are the builder's images, in order. */
  lemma CreatePostFormUploads(title: Option<string>, privacy: Option<Privacy>, anonymous: Option<bool>, nsfw: Option<bool>,
                              images: seq<UploadPostFile>)
    ensures Uploads(CreatePostForm(title, privacy, anonymous, nsfw, images)) == images
  {
    var t, p, a, n := OptionalPart("title", title), OptionalPart("privacy", PrivacyStr(privacy)),
                      OptionalPart("anonymous", BoolStr(anonymous)), OptionalPart("nsfw", BoolStr(nsfw));
    UploadsConcat(t + p + a + n, ImageParts(images));
    UploadsConcat(t + p + a, n);
    UploadsConcat(t + p, a);
    UploadsConcat(t, p);
    ImagePartsContents(images, "title");
  }

  /** `create_post`'s title check: the title's length in UTF-8 bytes, not in characters. */
  predicate TitleTooShortFor(title: Option<string>) {
    title.Some? && Utf8Len(title.value) < TITLE_MIN_LEN
  }

  /** An ASCII title passes exactly when it has three characters or more; a two-character title of wider characters passes too. */
  lemma TitleCheckCountsBytes(title: string)
    ensures (forall k :: 0 <= k < |title| ==> IsAscii(title[k])) ==> (TitleTooShortFor(Some(title)) <==> |title| < 3)
    ensures TitleTooShortFor(Some(title)) ==> |title| < 3
    ensures !TitleTooShortFor(Some("éé"))
  {
    assert Utf8Len("éé") == 4 by {
      assert Utf8Width('é') == 2;
      assert "éé"[1..] == "é";
      assert "é"[1..] == "";
    }
  }

  /** `update_post`'s form pairs, each present when set, in the order title, privacy, nsfw. */
  function UpdatePairs(title: Option<string>, privacy: Option<Privacy>, nsfw: Option<bool>): (r: seq<(string, string)>)
    ensures |r| == (if title.Some? then 1 else 0) + (if privacy.Some? then 1 else 0) + (if nsfw.Some? then 1 else 0)
    ensures forall i :: 0 <= i < |r| ==> r[i].0 in {"title", "privacy", "nsfw"}
    ensures forall i, j :: 0 <= i < j < |r| ==> r[i].0 != r[j].0
  {
    (if title.Some? then [("title", title.value)] else [])
    + (if privacy.Some? then [("privacy", AsStr(privacy.value))] else [])
    + (if nsfw.Some? then [("nsfw", BoolToStr(nsfw.value))] else [])
  }

  /** The value of the first pair with this key. */
  function PairValue(pairs: seq<(string, string)>, key: string): (r: Option<string>)
    ensures r.Some? ==> (key, r.value) in pairs
  {
    if pairs == [] then None
    else if pairs[0].0 == key then Some(pairs[0].1)
    else PairValue(pairs[1..], key)
  }

  lemma {:induction false} PairValueConcat(a: seq<(string, string)>, b: seq<(string, string)>, key: string)
    ensures PairValue(a + b, key) == if PairValue(a, key).Some? then PairValue(a, key) else PairValue(b, key)
    decreases |a|
  {
    if a != [] {
      assert (a + b)[0] == a[0];
      assert (a + b)[1..] == a[1..] + b;
      PairValueConcat(a[1..], b, key);
    } else {
      assert a + b == b;
    }
  }

  /**
   * Every field set on an `UpdatePostBuilder` is sent and reads back, and
   * an unset one is not sent; there is no check on the title's length.
   */
  lemma UpdatePairsReadBack(title: Option<string>, privacy: Option<Privacy>, nsfw: Option<bool>)
    ensures var pairs := UpdatePairs(title, privacy, nsfw);
      && PairValue(pairs, "title") == title
      && PairValue(pairs, "privacy") == PrivacyStr(privacy)
      && PairValue(pairs, "nsfw") == BoolStr(nsfw)
      && |pairs| == (if title.Some? then 1 else 0) + (if privacy.Some? then 1 else 0) + (if nsfw.Some? then 1 else 0)
  {
    var t := if title.Some? then [("title", title.value)] else [];
    var p := if privacy.Some? then [("privacy", AsStr(privacy.value))] else [];
    var n := if nsfw.Some? then [("nsfw", BoolToStr(nsfw.value))] else [];
    PairValueConcat(t + p, n, "title");
    PairValueConcat(t + p, n, "privacy");
    PairValueConcat(t + p, n, "nsfw");
    PairValueConcat(t, p, "title");
    PairValueConcat(t, p, "privacy");
    PairValueConcat(t, p, "nsfw");
  }

  // ---------------------------------------------------------------- outcomes

  /** `delete_post`, `update_file`, `delete_file`: a completed response is success only when it says so. */
  function CompletedOutcome(r: Result<ApiCompletedResponse, Error>): (out: Result<(), Error>)
    ensures out.Ok? <==> r.Ok? && r.value.success
    ensures r.Ok? && !r.value.success ==> out == Err(ApiOperationFailed)
    ensures r.Err? ==> out == Err(r.error)
  {
    match r
    case Err(e) => Err(e)
    case Ok(resp) => if !resp.success then Err(ApiOperationFailed) else Ok(())
  }

  /** `favorite_post`: the message of a successful response says whether the favourite was added or removed. */
  function FavoriteOutcome(r: Result<ApiCompletedResponse, Error>): (out: Result<bool, Error>)
    ensures out == Ok(true) <==> r.Ok? && r.value.success && r.value.message == Some(FAVORITE_ADDED)
    ensures out == Ok(false) <==> r.Ok? && r.value.success && r.value.message == Some(FAVORITE_REMOVED)
    ensures out == Err(ApiOperationFailed) <==> (r.Ok? && !r.value.success) || r == Err(ApiOperationFailed)
    ensures out == Err(ApiResponseMissingMessage)
        <==> (r.Ok? && r.value.success && r.value.message.None?) || r == Err(ApiResponseMissingMessage)
    ensures out.Err? && out.error.ApiResponseUnknownMessage? <==>
      || (r.Ok? && r.value.success && r.value.message.Some?
          && r.value.message.value != FAVORITE_ADDED && r.value.message.value != FAVORITE_REMOVED)
      || (r.Err? && r.error.ApiResponseUnknownMessage?)
    ensures out.Err? && out.error.ApiResponseUnknownMessage? && r.Ok? ==> r.value.message == Some(out.error.message)
  {
    match r
    case Err(e) => Err(e)
    case Ok(resp) =>
      if !resp.success then Err(ApiOperationFailed)
      else
        match resp.message
        case None => Err(ApiResponseMissingMessage)
        case Some(message) =>
          if message == FAVORITE_ADDED then Ok(true)
          else if message == FAVORITE_REMOVED then Ok(false)
          else Err(ApiResponseUnknownMessage(message))
  }

  /** `get_scraped_post` after the page text arrived: parse it, then read the post. */
  function ScrapeOutcome(net: Network, text: Result<string, Error>): (r: Result<ScrapedPost, Error>)
    ensures r.Ok? <==> text.Ok? && FromHtml(net.parseDocument(text.value)).Ok?
    ensures r.Ok? ==> Ok(r.value) == FromHtml(net.parseDocument(text.value))
    ensures text.Ok? && r.Err? ==> r == Err(InvalidScrapedPost(FromHtml(net.parseDocument(text.value)).error))
  {
    match text
    case Err(e) => Err(e)
    case Ok(t) =>
      match FromHtml(net.parseDocument(t))
      case Err(e) => Err(InvalidScrapedPost(e))
      case Ok(post) => Ok(post)
  }

  /** `load_extra_files_for_scraped_post` after the fragment arrived: every top-level element is a file. */
  function ExtraFilesOutcome(net: Network, text: Result<string, Error>): (r: Result<seq<ScrapedPosts.File>, Error>)
    ensures r.Ok? <==> text.Ok? && CollectFiles(net.parseFragment(text.value)).Ok?
    ensures r.Ok? ==> Ok(r.value) == CollectFiles(net.parseFragment(text.value))
    ensures text.Ok? && r.Err? ==> r == Err(InvalidScrapedPostFile(CollectFiles(net.parseFragment(text.value)).error))
  {
    match text
    case Err(e) => Err(e)
    case Ok(t) =>
      match CollectFiles(net.parseFragment(t))
      case Err(e) => Err(InvalidScrapedPostFile(e))
      case Ok(files) => Ok(files)
  }

  // ---------------------------------------------------------------- builders

  /** `CreatePostBuilder`. */
  class CreatePostBuilder {
    var title: Option<string>
    var privacy: Option<Privacy>
    var anonymous: Option<bool>
    var nsfw: Option<bool>
    var images: seq<UploadPostFile>

    /** `CreatePostBuilder::new`: nothing set and no images. */
    constructor ()
      ensures title.None? && privacy.None? && anonymous.None? && nsfw.None? && images == []
    {
      title, privacy, anonymous, nsfw, images := None, None, None, None, [];
    }

    method Title(t: string)
      modifies this
      ensures title == Some(t)
      ensures privacy == old(privacy) && anonymous == old(anonymous) && nsfw == old(nsfw) && images == old(images)
    {
      title := Some(t);
    }

    method SetPrivacy(p: Privacy)
      modifies this
      ensures privacy == Some(p)
      ensures title == old(title) && anonymous == old(anonymous) && nsfw == old(nsfw) && images == old(images)
    {
      privacy := Some(p);
    }

    method Anonymous(a: bool)
      modifies this
      ensures anonymous == Some(a)
      ensures title == old(title) && privacy == old(privacy) && nsfw == old(nsfw) && images == old(images)
    {
      anonymous := Some(a);
    }

    method Nsfw(n: bool)
      modifies this
      ensures nsfw == Some(n)
      ensures title == old(title) && privacy == old(privacy) && anonymous == old(anonymous) && images == old(images)
    {
      nsfw := Some(n);
    }

    /** `image`: pushes the upload after those already added. */
    method Image(file: UploadPostFile)
      modifies this
      ensures images == old(images) + [file]
      ensures title == old(title) && privacy == old(privacy) && anonymous == old(anonymous) && nsfw == old(nsfw)
    {
      images := images + [file];
    }
  }

  /** `UpdatePostBuilder`. */
  class UpdatePostBuilder {
    var title: Option<string>
    var privacy: Option<Privacy>
    var nsfw: Option<bool>

    constructor ()
      ensures title.None? && privacy.None? && nsfw.None?
    {
      title, privacy, nsfw := None, None, None;
    }

    method Title(t: string)
      modifies this
      ensures title == Some(t) && privacy == old(privacy) && nsfw == old(nsfw)
    {
      title := Some(t);
    }

    method SetPrivacy(p: Privacy)
      modifies this
      ensures privacy == Some(p) && title == old(title) && nsfw == old(nsfw)
    {
      privacy := Some(p);
    }

    method Nsfw(n: bool)
      modifies this
      ensures nsfw == Some(n) && title == old(title) && privacy == old(privacy)
    {
      nsfw := Some(n);
    }
  }

  /** `UpdateFileBuilder`. */
  class UpdateFileBuilder {
    var description: Option<string>

    constructor ()
      ensures description.None?
    {
      description := None;
    }

    method Description(d: string)
      modifies this
      ensures description == Some(d)
    {
      description := Some(d);
    }
  }

  // ---------------------------------------------------------------- client

  /** `Client`: the token lives behind a lock in the shared state; here it is a field. */
  class Client {
    var token: Option<string>

    /** `Client::new`: no token. */
    constructor ()
      ensures token.None?
    {
      token := None;
    }

    /** `set_token`: every later call uses this token. */
    method SetToken(t: string)
      modifies this
      ensures token == Some(t)
    {
      token := Some(t);
    }

    /** `get_token`: the token last set, if any. */
    method GetToken() returns (t: Option<string>)
      ensures t == token
    {
      t := token;
    }

    /** `get_post`. */
    method GetPost(net: Network, id: string) returns (sent: Option<Request>, r: Result<Post, Error>)
      ensures token.None? ==> sent.None? && r == Err(Error.MissingToken)
      ensures token.Some? ==> sent == Some(Authorized(GET, API_URL + "/post/" + id, token.value, NoBody))
      ensures sent.Some? ==> r == Receive(net.send(sent.value), PostDecoder(net))
    {
      var t := GetToken();
      if t.None? {
        return None, Err(Error.MissingToken);
      }
      var req := Authorized(GET, API_URL + "/post/" + id, t.value, NoBody);
      sent := Some(req);
      r := Receive(net.send(req), PostDecoder(net));
    }

    /**
     * `create_post`: the token is checked, then the title's length, then
     * that there are images; only then is the form sent.
     */
    method CreatePost(net: Network, data: CreatePostBuilder) returns (sent: Option<Request>, r: Result<Post, Error>)
      ensures token.None? ==> sent.None? && r == Err(Error.MissingToken)
      ensures token.Some? && TitleTooShortFor(data.title) ==> sent.None? && r == Err(TitleTooShort)
      ensures token.Some? && !TitleTooShortFor(data.title) && data.images == [] ==> sent.None? && r == Err(MissingImages)
      ensures token.Some? && !TitleTooShortFor(data.title) && data.images != [] ==>
        sent == Some(Authorized(POST, API_URL + "/post", token.value,
                                Multipart(CreatePostForm(data.title, data.privacy, data.anonymous, data.nsfw, data.images))))
      ensures sent.Some? ==> r == Receive(net.send(sent.value), PostDecoder(net))
    {
      var t := GetToken();
      if t.None? {
        return None, Err(Error.MissingToken);
      }
      var title, privacy, anonymous, nsfw, images := data.title, data.privacy, data.anonymous, data.nsfw, data.images;
      if title.Some? && Utf8Len(title.value) < TITLE_MIN_LEN {
        return None, Err(TitleTooShort);
      }
      var form := PushFields(title, privacy, anonymous, nsfw);
      if images == [] {
        return None, Err(MissingImages);
      }
      form := PushImages(form, images);
      var req := Authorized(POST, API_URL + "/post", t.value, Multipart(form));
      sent := Some(req);
      r := Receive(net.send(req), PostDecoder(net));
    }

    /** `update_post`: a form-urlencoded PATCH of the fields set, with no title check. */
    method UpdatePost(net: Network, id: string, data: UpdatePostBuilder) returns (sent: Option<Request>, r: Result<Post, Error>)
      ensures token.None? ==> sent.None? && r == Err(Error.MissingToken)
      ensures token.Some? ==>
        sent == Some(Authorized(PATCH, API_URL + "/post/" + id, token.value, UrlEncoded(UpdatePairs(data.title, data.privacy, data.nsfw))))
      ensures sent.Some? ==> r == Receive(net.send(sent.value), PostDecoder(net))
    {
      var t := GetToken();
      if t.None? {
        return None, Err(Error.MissingToken);
      }
      var form: seq<(string, string)> := [];
      if data.title.Some? {
        form := form + [("title", data.title.value)];
      }
      assert form == UpdatePairs(data.title, None, None);
      if data.privacy.Some? {
        form := form + [("privacy", AsStr(data.privacy.value))];
      }
      assert form == UpdatePairs(data.title, data.privacy, None);
      if data.nsfw.Some? {
        form := form + [("nsfw", BoolToStr(data.nsfw.value))];
      }
      assert form == UpdatePairs(data.title, data.privacy, data.nsfw);
      var req := Authorized(PATCH, API_URL + "/post/" + id, t.value, UrlEncoded(form));
      sent := Some(req);
      r := Receive(net.send(req), PostDecoder(net));
    }

    /** `delete_post`. */
    method DeletePost(net: Network, id: string) returns (sent: Option<Request>, r: Result<(), Error>)
      ensures token.None? ==> sent.None? && r == Err(Error.MissingToken)
      ensures token.Some? ==> sent == Some(Authorized(DELETE, API_URL + "/post/" + id, token.value, NoBody))
      ensures sent.Some? ==> r == CompletedOutcome(Receive(net.send(sent.value), CompletedDecoder(net)))
    {
      var t := GetToken();
      if t.None? {
        return None, Err(Error.MissingToken);
      }
      var req := Authorized(DELETE, API_URL + "/post/" + id, t.value, NoBody);
      sent := Some(req);
      r := CompletedOutcome(Receive(net.send(req), CompletedDecoder(net)));
    }

    /** `favorite_post`. */
    method FavoritePost(net: Network, id: string) returns (sent: Option<Request>, r: Result<bool, Error>)
      ensures token.None? ==> sent.None? && r == Err(Error.MissingToken)
      ensures token.Some? ==> sent == Some(Authorized(POST, API_URL + "/post/" + id + "/favorite", token.value, NoBody))
      ensures sent.Some? ==> r == FavoriteOutcome(Receive(net.send(sent.value), CompletedDecoder(net)))
    {
      var t := GetToken();
      if t.None? {
        return None, Err(Error.MissingToken);
      }
      var req := Authorized(POST, API_URL + "/post/" + id + "/favorite", t.value, NoBody);
      sent := Some(req);
      r := FavoriteOutcome(Receive(net.send(req), CompletedDecoder(net)));
    }

    /** `add_post_images`: unlike `create_post`, an empty list of images is sent as it is. */
    method AddPostImages(net: Network, id: string, images: seq<UploadPostFile>) returns (sent: Option<Request>, r: Result<Post, Error>)
      ensures token.None? ==> sent.None? && r == Err(Error.MissingToken)
      ensures token.Some? ==> sent == Some(Authorized(POST, API_URL + "/post/" + id + "/add", token.value, Multipart(ImageParts(images))))
      ensures sent.Some? ==> r == Receive(net.send(sent.value), PostDecoder(net))
    {
      var t := GetToken();
      if t.None? {
        return None, Err(Error.MissingToken);
      }
      var form := PushImages([], images);
      assert form == ImageParts(images);
      var req := Authorized(POST, API_URL + "/post/" + id + "/add", t.value, Multipart(form));
      sent := Some(req);
      r := Receive(net.send(req), PostDecoder(net));
    }

    /** `get_user`. */
    method GetUser(net: Network, username: string) returns (sent: Option<Request>, r: Result<User, Error>)
      ensures token.None? ==> sent.None? && r == Err(Error.MissingToken)
      ensures token.Some? ==> sent == Some(Authorized(GET, API_URL + "/user/" + username, token.value, NoBody))
      ensures sent.Some? ==> r == Receive(net.send(sent.value), UserDecoder(net))
    {
      var t := GetToken();
      if t.None? {
        return None, Err(Error.MissingToken);
      }
      var req := Authorized(GET, API_URL + "/user/" + username, t.value, NoBody);
      sent := Some(req);
      r := Receive(net.send(req), UserDecoder(net));
    }

    /** `get_file`. */
    method GetFile(net: Network, id: string) returns (sent: Option<Request>, r: Result<PostFile, Error>)
      ensures token.None? ==> sent.None? && r == Err(Error.MissingToken)
      ensures token.Some? ==> sent == Some(Authorized(GET, API_URL + "/file/" + id, token.value, NoBody))
      ensures sent.Some? ==> r == Receive(net.send(sent.value), FileDecoder(net))
    {
      var t := GetToken();
      if t.None? {
        return None, Err(Error.MissingToken);
      }
      var req := Authorized(GET, API_URL + "/file/" + id, t.value, NoBody);
      sent := Some(req);
      r := Receive(net.send(req), FileDecoder(net));
    }

    /** `update_file`: the description goes as a form-urlencoded field. */
    method UpdateFile(net: Network, id: string, description: string) returns (sent: Option<Request>, r: Result<(), Error>)
      ensures token.None? ==> sent.None? && r == Err(Error.MissingToken)
      ensures token.Some? ==> sent == Some(Authorized(PATCH, API_URL + "/file/" + id, token.value, UrlEncoded([("description", description)])))
      ensures sent.Some? ==> r == CompletedOutcome(Receive(net.send(sent.value), CompletedDecoder(net)))
    {
      var t := GetToken();
      if t.None? {
        return None, Err(Error.MissingToken);
      }
      var req := Authorized(PATCH, API_URL + "/file/" + id, t.value, UrlEncoded([("description", description)]));
      sent := Some(req);
      r := CompletedOutcome(Receive(net.send(req), CompletedDecoder(net)));
    }

    /** `delete_file`. */
    method DeleteFile(net: Network, id: string) returns (sent: Option<Request>, r: Result<(), Error>)
      ensures token.None? ==> sent.None? && r == Err(Error.MissingToken)
      ensures token.Some? ==> sent == Some(Authorized(DELETE, API_URL + "/file/" + id, token.value, NoBody))
      ensures sent.Some? ==> r == CompletedOutcome(Receive(net.send(sent.value), CompletedDecoder(net)))
    {
      var t := GetToken();
      if t.None? {
        return None, Err(Error.MissingToken);
      }
      var req := Authorized(DELETE, API_URL + "/file/" + id, t.value, NoBody);
      sent := Some(req);
      r := CompletedOutcome(Receive(net.send(req), CompletedDecoder(net)));
    }

    /** `update_files_bulk`: the updates go, in order, as the JSON `data` array. */
    method UpdateFilesBulk(net: Network, files: seq<FileUpdate>) returns (sent: Option<Request>, r: Result<seq<PostFile>, Error>)
      ensures token.None? ==> sent.None? && r == Err(Error.MissingToken)
      ensures token.Some? ==> sent == Some(Authorized(PATCH, API_URL + "/files", token.value, Json(ApiUpdateFilesBulkRequest(files))))
      ensures sent.Some? ==> r == Receive(net.send(sent.value), FilesDecoder(net))
    {
      var t := GetToken();
      if t.None? {
        return None, Err(Error.MissingToken);
      }
      var req := Authorized(PATCH, API_URL + "/files", t.value, Json(ApiUpdateFilesBulkRequest(files)));
      sent := Some(req);
      r := Receive(net.send(req), FilesDecoder(net));
    }

    /** `get_scraped_post`: a plain GET of the page, with no token, whether one is set or not. */
    method GetScrapedPost(net: Network, url: string) returns (sent: Option<Request>, r: Result<ScrapedPost, Error>)
      ensures sent == Some(Request(GET, url, [], NoBody))
      ensures r == ScrapeOutcome(net, ReceiveText(net.send(sent.value)))
    {
      var req := Request(GET, url, [], NoBody);
      sent := Some(req);
      r := ScrapeOutcome(net, ReceiveText(net.send(req)));
    }

    /** `load_extra_files_for_scraped_post`: posts the page's session token back to the post's `loadAll` page. */
    method LoadExtraFilesForScrapedPost(net: Network, post: ScrapedPost) returns (sent: Option<Request>, r: Result<seq<ScrapedPosts.File>, Error>)
      ensures sent == Some(Request(POST, POST_URL_PREFIX + post.id + "/loadAll",
                                   [Header("x-requested-with", "XMLHttpRequest")], UrlEncoded([("_token", post.token)])))
      ensures r == ExtraFilesOutcome(net, ReceiveText(net.send(sent.value)))
    {
      var req := Request(POST, POST_URL_PREFIX + post.id + "/loadAll",
                         [Header("x-requested-with", "XMLHttpRequest")], UrlEncoded([("_token", post.token)]));
      sent := Some(req);
      r := ExtraFilesOutcome(net, ReceiveText(net.send(req)));
    }
  }

  /** The token never travels to the scraping endpoints. */
  lemma ScrapingCarriesNoToken(url: string, post: ScrapedPost)
    ensures TokenOf(Request(GET, url, [], NoBody)).None?
    ensures TokenOf(Request(POST, POST_URL_PREFIX + post.id + "/loadAll",
                            [Header("x-requested-with", "XMLHttpRequest")], UrlEncoded([("_token", post.token)]))).None?
  {
  }
}
