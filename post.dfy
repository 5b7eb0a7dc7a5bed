/**
 * The API's post and file records (imgchest/src/model/post.rs), with the
 * serde adapters that sit between them and their JSON shape: the privacy
 * renames, `u8_to_bool` for the nsfw flag and `NonZeroU32` for positions.
 */
module Posts {
  import opened Wrappers
  import opened Text

  /** `NonZeroU32`: a file's position in its post, which starts at 1. */
  type NonZeroU32 = n: int | 1 <= n <= U32_MAX witness 1

  /** An ISO 8601 timestamp, kept as the text the API sent. */
  datatype Timestamp = Timestamp(iso8601: string)

  /** The post privacy. */
  datatype Privacy = Public | Hidden | Secret

  /** A serde deserialisation failure, with what serde would name as unexpected. */
  datatype DeError =
    | UnknownVariant(variant: string)
    | InvalidU8Bool(value: U8)
    | ZeroNonZero
    | OutOfRange(number: int)

  /** `Privacy::as_str`, which is also the serde rename of each variant. */
  function AsStr(p: Privacy): (s: string)
    ensures s in {"public", "hidden", "secret"}
    ensures PrivacyFromStr(s) == Ok(p)
  {
    match p
    case Public => "public"
    case Hidden => "hidden"
    case Secret => "secret"
  }

  /** serde's derived deserialisation of `Privacy` under the renames. */
  function PrivacyFromStr(s: string): (r: Result<Privacy, DeError>)
    ensures r == Ok(Public) <==> s == "public"
    ensures r == Ok(Hidden) <==> s == "hidden"
    ensures r == Ok(Secret) <==> s == "secret"
    ensures r.Err? <==> s !in {"public", "hidden", "secret"}
    ensures r.Err? ==> r.error == UnknownVariant(s)
  {
    if s == "public" then Ok(Public)
    else if s == "hidden" then Ok(Hidden)
    else if s == "secret" then Ok(Secret)
    else Err(UnknownVariant(s))
  }

  /** `as_str` agrees with the serde renames in both directions. */
  lemma PrivacyRoundTrip(p: Privacy, s: string)
    ensures PrivacyFromStr(s) == Ok(p) <==> AsStr(p) == s
  {
  }

  /** `u8_to_bool::deserialize`: 0 is false, 1 is true, any other byte is refused. */
  function U8ToBool(n: U8): (r: Result<bool, DeError>)
    ensures r.Ok? <==> n <= 1
    ensures r.Ok? ==> (r.value <==> n == 1)
  {
    match n
    case 0 => Ok(false)
    case 1 => Ok(true)
    case _ => Err(InvalidU8Bool(n))
  }

  /** `u8_to_bool::serialize`: `u8::from(bool)`. */
  function BoolToU8(b: bool): (n: U8)
    ensures n <= 1
  {
    if b then 1 else 0
  }

  /** Deserialising the serialised flag gives the flag back, and every accepted byte is a serialised flag. */
  lemma U8BoolRoundTrip(b: bool, n: U8)
    ensures U8ToBool(BoolToU8(b)) == Ok(b)
    ensures U8ToBool(n) == Ok(b) <==> BoolToU8(b) == n
  {
  }

  /** serde's `NonZeroU32` deserialisation from a JSON integer. */
  function ToNonZeroU32(n: int): (r: Result<NonZeroU32, DeError>)
    ensures r.Ok? <==> 1 <= n <= U32_MAX
    ensures r.Ok? ==> r.value == n
  {
    if n == 0 then Err(ZeroNonZero)
    else if 1 <= n <= U32_MAX then Ok(n)
    else Err(OutOfRange(n))
  }

  /** An API file of a post. */
  datatype PostFile = PostFile(
    id: string,
    description: Option<string>,
    link: string,
    position: NonZeroU32,
    created: Timestamp,
    originalName: Option<string>)

  /** An API post object. */
  datatype Post = Post(
    id: string,
    title: Option<string>,
    username: string,
    privacy: Privacy,
    reportStatus: I32,
    views: U64,
    nsfw: bool,
    imageCount: U64,
    created: Timestamp,
    images: seq<PostFile>,
    deleteUrl: Option<string>)

  /** A file as its JSON object holds it: numbers are unbounded until serde checks them. */
  datatype RawFile = RawFile(
    id: string,
    description: Option<string>,
    link: string,
    position: int,
    created: Timestamp,
    originalName: Option<string>)

  /** A post as its JSON object holds it. */
  datatype RawPost = RawPost(
    id: string,
    title: Option<string>,
    username: string,
    privacy: string,
    reportStatus: int,
    views: int,
    nsfw: int,
    imageCount: int,
    created: Timestamp,
    images: seq<RawFile>,
    deleteUrl: Option<string>)

  /** serde's derived `Deserialize` for `File`. */
  function DecodeFile(raw: RawFile): (r: Option<PostFile>)
    ensures r.Some? <==> 1 <= raw.position <= U32_MAX
    ensures r.Some? ==> r.value.position == raw.position
    ensures r.Some? ==>
      && r.value.id == raw.id && r.value.description == raw.description && r.value.link == raw.link
      && r.value.created == raw.created && r.value.originalName == raw.originalName
  {
    match ToNonZeroU32(raw.position)
    case Err(_) => None
    case Ok(position) => Some(PostFile(raw.id, raw.description, raw.link, position, raw.created, raw.originalName))
  }

  /** serde's derived `Serialize` for `File`: decoding it gives the file back. */
  function EncodeFile(f: PostFile): (raw: RawFile)
    ensures DecodeFile(raw) == Some(f)
  {
    RawFile(f.id, f.description, f.link, f.position, f.created, f.originalName)
  }

  /** Every element of a JSON array decodes, in order; otherwise the array is refused. */
  function DecodeFiles(raws: seq<RawFile>): (r: Option<seq<PostFile>>)
    ensures r.Some? <==> forall i :: 0 <= i < |raws| ==> DecodeFile(raws[i]).Some?
    ensures r.Some? ==> |r.value| == |raws| && forall i :: 0 <= i < |raws| ==> DecodeFile(raws[i]) == Some(r.value[i])
  {
    if raws == [] then Some([])
    else
      match DecodeFile(raws[0])
      case None => None
      case Some(f) =>
        match DecodeFiles(raws[1..])
        case None => None
        case Some(fs) => Some([f] + fs)
  }

  function EncodeFiles(files: seq<PostFile>): (r: seq<RawFile>)
    ensures |r| == |files| && forall i :: 0 <= i < |files| ==> r[i] == EncodeFile(files[i])
  {
    seq(|files|, i requires 0 <= i < |files| => EncodeFile(files[i]))
  }

  /** serde's derived `Deserialize` for `Post`, with `u8_to_bool` on the nsfw flag. */
  function DecodePost(raw: RawPost): (r: Option<Post>)
    ensures r.Some? <==>
      && -0x8000_0000 <= raw.reportStatus <= 0x7FFF_FFFF
      && 0 <= raw.views <= U64_MAX && 0 <= raw.imageCount <= U64_MAX
      && 0 <= raw.nsfw <= 0xFF && U8ToBool(raw.nsfw).Ok?
      && PrivacyFromStr(raw.privacy).Ok?
      && DecodeFiles(raw.images).Some?
    ensures r.Some? ==>
      && r.value.id == raw.id && r.value.title == raw.title && r.value.username == raw.username
      && r.value.reportStatus == raw.reportStatus && r.value.views == raw.views
      && r.value.imageCount == raw.imageCount && r.value.created == raw.created && r.value.deleteUrl == raw.deleteUrl
    ensures r.Some? ==> 0 <= raw.nsfw <= 0xFF && U8ToBool(raw.nsfw) == Ok(r.value.nsfw)
    ensures r.Some? ==> PrivacyFromStr(raw.privacy) == Ok(r.value.privacy)
    ensures r.Some? ==> DecodeFiles(raw.images) == Some(r.value.images)
  {
    if !(0 <= raw.nsfw <= 0xFF && -0x8000_0000 <= raw.reportStatus <= 0x7FFF_FFFF
         && 0 <= raw.views <= U64_MAX && 0 <= raw.imageCount <= U64_MAX) then None
    else
      match (PrivacyFromStr(raw.privacy), U8ToBool(raw.nsfw), DecodeFiles(raw.images))
      case (Ok(privacy), Ok(nsfw), Some(images)) =>
        Some(Post(raw.id, raw.title, raw.username, privacy, raw.reportStatus, raw.views,
                  nsfw, raw.imageCount, raw.created, images, raw.deleteUrl))
      case _ => None
  }

  /** serde's derived `Serialize` for `Post`: decoding it gives the post back. */
  function EncodePost(p: Post): (raw: RawPost)
    ensures DecodePost(raw) == Some(p)
  {
    FilesRoundTrip(p.images);
    RawPost(p.id, p.title, p.username, AsStr(p.privacy), p.reportStatus, p.views,
            BoolToU8(p.nsfw), p.imageCount, p.created, EncodeFiles(p.images), p.deleteUrl)
  }

  lemma {:induction false} FilesRoundTrip(files: seq<PostFile>)
    ensures DecodeFiles(EncodeFiles(files)) == Some(files)
    decreases |files|
  {
    if files != [] {
      FilesRoundTrip(files[1..]);
      assert EncodeFiles(files)[1..] == EncodeFiles(files[1..]);
      assert [files[0]] + files[1..] == files;
    }
  }

  /** Every accepted JSON post is what its decoded post serialises to. */
  lemma PostReEncode(raw: RawPost)
    requires DecodePost(raw).Some?
    ensures EncodePost(DecodePost(raw).value) == raw
  {
    var p := DecodePost(raw).value;
    var files := DecodeFiles(raw.images).value;
    assert EncodeFiles(files) == raw.images;
    U8BoolRoundTrip(p.nsfw, raw.nsfw);
    PrivacyRoundTrip(p.privacy, raw.privacy);
  }
}
