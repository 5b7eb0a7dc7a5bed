# imgchest-rs, modelled in Dafny

A model of the core of imgchest-rs, a Rust client for the imgchest.com image
host, and of the `download` command of its command-line tool.

- **Posts and files of the REST API** (`Posts`, `ApiModel`). These cover:
  - the post privacy and its string form;
  - the `u8_to_bool` adapter for the nsfw flag;
  - the `NonZeroU32` file position;
  - the `{data: T}` envelope;
  - the completion response, whose `success` travels as the string "true" or "false".
  Decoding is modelled from a raw record that holds the JSON values as they
  arrive. Encoding and decoding are proved to round-trip.
- **Scraping a post page** (`ScrapedPosts`):
  - `ScrapedPost::from_html` reads a post from the HTML of its page;
  - `File::from_element` reads one image from its container.
  A page is given as the first match of each CSS selector the scraper runs,
  plus the ordered list of image containers. The description is collected
  by a `push_str` loop, modelled as a method proved against its
  specification.
- **The error type** (`Errors`): the `Error` enum of the library and its
  display strings.
- **The client** (`ImgchestClient`):
  - the three request builders, as classes whose setters change one field each;
  - the `Client` class, which holds the token and has one method per API call.
  Every call returns the request it would send, or none, together with the
  result. The transport and the HTML and JSON parsers are fields of a
  `Network` value.
- **The download command** (`Download`):
  - extracting a post id from a URL or a raw id;
  - deriving the local file name from a link;
  - a download task that skips files already present;
  - a `JoinSet` class;
  - the `exec` loop that joins every task, counts the successes and keeps the
    last error.
  `Url::parse`, the filesystem and the fetch of the post are parameters.
- **The library's own test scenarios** (`Scenarios`), stated for every page or
  response of the same shape.
- **`Text`** holds the Rust standard-library string behaviour the core relies on:
  - `trim`;
  - `split` and its `next`, `nth(1)` and `next_back`;
  - `strip_prefix`;
  - `str::len` as a UTF-8 byte count;
  - `u64`/`u32` parsing;
  - decimal formatting.
- **`Wrappers`** holds `Option` and `Result`.

Two properties of the code, as written:
- The `create_post` title check counts UTF-8 bytes, not characters. A title of
  two two-byte characters passes, although the error text speaks of
  "at least 3 characters" (`ImgchestClient.TitleCheckCountsBytes`).
- `extract_id` does not validate an id taken from a URL. The URL
  `https://imgchest.com/p/` yields the empty id (`Download.UrlIdNotValidated`).

## Model

| member | source | states |
|---|---|---|
| Text.Trim | imgchest/src/model/scraped_post.rs:107 | `str::trim`: the result is a slice of the input with only whitespace before and after it, does not start or end with whitespace, and is empty exactly when the input is all whitespace |
| Text.TrimIdempotent | imgchest/src/model/scraped_post.rs:235 | trimming twice is trimming once |
| Text.Split | imgchest/src/model/scraped_post.rs:130 | `str::split` yields at least one piece, no piece holds the separator, and joining the pieces with it gives the input back |
| Text.SplitJoin | imgchest/src/model/scraped_post.rs:130 | splitting a join of separator-free pieces gives the pieces back |
| Text.SplitCount | imgchest-cli/src/command/download.rs:115 | `split` yields one piece more than there are separators |
| Text.SplitMany | imgchest-cli/src/command/download.rs:115 | `split` yields two or more pieces exactly when the separator occurs |
| Text.FirstSegment | imgchest/src/model/scraped_post.rs:130-131 | the first piece of `split`: a separator-free prefix followed by a separator or the end; the whole input when there is no separator |
| Text.SecondSegment | imgchest/src/model/scraped_post.rs:225 | `split(sep).nth(1)`: present exactly when the separator occurs, and then the separator-free text after the first separator |
| Text.FirstSegmentOf | imgchest/src/model/scraped_post.rs:130-131 | a separator-free text followed by a separator, or by nothing, is the first piece |
| Text.SecondSegmentOf | imgchest/src/model/scraped_post.rs:225 | after a separator-free first piece and a separator, `nth(1)` is the first piece of the rest |
| Text.TwoSegments | imgchest/src/model/scraped_post.rs:225 | `split` of "a/b" with separator-free a and b: the first piece is a and `nth(1)` is b; this is what reads the progress line back |
| Text.SecondTokenDecimal | imgchest/src/model/scraped_post.rs:149-150 | the second space-separated token of "word n..." is the decimal spelling of n |
| Text.LastSegment | imgchest-cli/src/command/download.rs:113-116 | `split(sep).next_back()`: a separator-free suffix preceded by a separator or the start; the whole input when there is no separator |
| Text.StripPrefix | imgchest/src/model/scraped_post.rs:98 | `strip_prefix`: present exactly when the prefix starts the text, and prefix + result is the text |
| Text.Utf8Len | imgchest/src/client.rs:359 | `str::len` counts UTF-8 bytes: between one and four per character, and equal to the character count exactly when every character is ASCII |
| Text.ParseUnsigned | imgchest/src/model/scraped_post.rs:132 | `u64`/`u32` `from_str`: Empty exactly on empty input; Ok exactly when the text after one optional leading '+' is a non-empty digit string whose value fits the maximum, and then that value; InvalidDigit for a lone sign and for a non-digit met before the value overflows; PosOverflow exactly when some digit prefix exceeds the maximum before any non-digit is met |
| Text.ToDecimal | imgchest-cli/src/command/download.rs:60 | formatting a number gives a non-empty string of digits, with no leading zero unless it is "0", whose value is the number |
| Text.ParseToDecimal | imgchest/src/model/scraped_post.rs:132 | parsing the decimal form of any n up to the maximum gives n back |
| Text.ParseDigits | imgchest/src/model/scraped_post.rs:132 | a non-empty digit string parses to its value, or to PosOverflow when that exceeds the maximum |
| Posts.AsStr | imgchest/src/model/post.rs:89-97 | `as_str` gives one of "public", "hidden", "secret", which deserialises back to the same privacy |
| Posts.PrivacyFromStr | imgchest/src/model/post.rs:76-87 | "public", "hidden" and "secret" deserialise to Public, Hidden and Secret and are the only strings that do; any other string is refused as an unknown variant naming it |
| Posts.PrivacyRoundTrip | imgchest/src/model/post.rs:76-97 | `as_str` agrees with the serde renames in both directions |
| Posts.U8ToBool | imgchest/src/model/post.rs:104-117 | `u8_to_bool::deserialize` accepts exactly 0 and 1, and gives true exactly for 1 |
| Posts.BoolToU8 | imgchest/src/model/post.rs:119-124 | `u8_to_bool::serialize` writes 0 or 1 |
| Posts.U8BoolRoundTrip | imgchest/src/model/post.rs:104-124 | deserialising the serialised flag gives it back, and every accepted byte is a serialised flag |
| Posts.ToNonZeroU32 | imgchest/src/model/post.rs:59-62 | a position decodes exactly when it lies in 1..u32::MAX, and keeps its value |
| Posts.DecodeFile | imgchest/src/model/post.rs:47-74 | a file decodes exactly when its position is a valid `NonZeroU32`; every field keeps its value |
| Posts.EncodeFile | imgchest/src/model/post.rs:47-74 | decoding a serialised file gives the file back |
| Posts.DecodeFiles | imgchest/src/model/post.rs:36-37 | a file array decodes exactly when every element does, element by element and in order |
| Posts.DecodePost | imgchest/src/model/post.rs:4-45 | a post decodes exactly when the report status fits an i32, the views and image count fit a u64, the nsfw byte is 0 or 1, the privacy is one of the renames and every file decodes; the other fields keep their values |
| Posts.FilesRoundTrip | imgchest/src/model/post.rs:47-74 | decoding encoded files gives them back |
| Posts.EncodePost | imgchest/src/model/post.rs:4-45 | decoding a serialised post gives the post back |
| Posts.PostReEncode | imgchest/src/model/post.rs:4-45 | every accepted post record is what its decoded post serialises to |
| ApiModel.StrToBool | imgchest/src/model.rs:55-64 | `from_str_to_str::deserialize` at bool accepts exactly "true" and "false" |
| ApiModel.BoolToString | imgchest/src/model.rs:66-73 | `from_str_to_str::serialize` writes "true" or "false" |
| ApiModel.StrBoolRoundTrip | imgchest/src/model.rs:55-73 | reading back the written string gives the bool, and every accepted string is a written one |
| ApiModel.DecodeCompleted | imgchest/src/model.rs:40-49 | the completion response decodes exactly when `success` is present and is "true" or "false"; `message` may be absent |
| ApiModel.EncodeCompleted | imgchest/src/model.rs:40-73 | decoding a serialised completion response gives it back |
| ScrapedPosts.FirstAttr | imgchest/src/model/scraped_post.rs:159-162 | an attribute of the first match is present exactly when there is a match and it has the attribute |
| ScrapedPosts.DescriptionOf | imgchest/src/model/scraped_post.rs:228-244 | the description is never Some(""), is None without a wrapper, and is otherwise the kept text nodes glued in order |
| ScrapedPosts.DescriptionPiecesEmpty | imgchest/src/model/scraped_post.rs:229-244 | the glued description is empty exactly when every text node is blank or the "Description" label once trimmed |
| ScrapedPosts.DescriptionAbsent | imgchest/src/model/scraped_post.rs:241-244 | a wrapper gives no description exactly when all its text nodes are dropped |
| ScrapedPosts.PushDescription | imgchest/src/model/scraped_post.rs:228-240 | the `push_str` loop builds the trimmed, label-free text nodes glued in order |
| ScrapedPosts.CollectDescription | imgchest/src/model/scraped_post.rs:228-244 | the loop followed by the emptiness test gives the specified description |
| ScrapedPosts.FileId | imgchest/src/model/scraped_post.rs:222-226 | the file id is present exactly when the container's `id` holds a '-'; it is then the '-'-free text after the first '-', up to the next one |
| ScrapedPosts.FromElement | imgchest/src/model/scraped_post.rs:214-263 | MissingId exactly when the id is absent; MissingLink exactly when the id is present and the link absent; otherwise the file has that id, link, description and video link |
| ScrapedPosts.OptionalPartsNeverFail | imgchest/src/model/scraped_post.rs:246-255 | the description and the video source never decide whether a container parses |
| ScrapedPosts.FileIdOfDashedId | imgchest/src/model/scraped_post.rs:225 | a container id `<prefix>-<rest>` with a dash-free prefix gives the first '-'-piece of rest as the file id |
| ScrapedPosts.ParseFiles | imgchest/src/model/scraped_post.rs:138-141 | one parse result per container, in page order |
| ScrapedPosts.CollectResults | imgchest/src/model/scraped_post.rs:141 | collecting into `Result<Vec>` is Ok exactly when every element is Ok, with the values in order |
| ScrapedPosts.CollectResultsFirstError | imgchest/src/model/scraped_post.rs:141 | when collecting fails, the error is that of the first failing element |
| ScrapedPosts.PostId | imgchest/src/model/scraped_post.rs:91-102 | the id is present exactly when the og:url content starts with the post URL prefix, and prefix + id is that content |
| ScrapedPosts.PostTitle | imgchest/src/model/scraped_post.rs:104-108 | the title is present exactly when og:title has content, and is that content trimmed |
| ScrapedPosts.PostUsername | imgchest/src/model/scraped_post.rs:110-121 | the username is present exactly when the profile link has an href starting with the user URL prefix, and is then what follows the prefix |
| ScrapedPosts.PostViews | imgchest/src/model/scraped_post.rs:123-136 | the views are present exactly when the twitter:description content is, and are the `u64` parse of its first space-separated piece |
| ScrapedPosts.FirstNonEmptyTrimmed | imgchest/src/model/scraped_post.rs:145-148 | the first text node that is not blank, trimmed, every earlier node being blank; none exactly when every node is blank |
| ScrapedPosts.FirstNonEmpty | imgchest/src/model/scraped_post.rs:148 | `find` of a non-empty text: the first non-empty text, every earlier one empty; none exactly when all are empty |
| ScrapedPosts.TrimAll | imgchest/src/model/scraped_post.rs:147 | the `map` through `trim`: one trimmed text per node, in order |
| ScrapedPosts.ExtraImageCount | imgchest/src/model/scraped_post.rs:143-153 | present exactly when there is a load-all button whose first non-blank text has a second space-separated token that parses as a u32, and then that value; any failure gives none |
| ScrapedPosts.ExtraImageCountOf | imgchest/src/model/scraped_post.rs:143-153 | a button whose first non-blank text is "word n..." gives n extra images, for every n a u32 holds |
| ScrapedPosts.PostToken | imgchest/src/model/scraped_post.rs:159-163 | the token is present exactly when the csrf-token meta tag has a content attribute, and is that content |
| ScrapedPosts.ReadHead | imgchest/src/model/scraped_post.rs:91-136 | id, title, username and views are read in this order, each error occurs exactly when its step is the first to fail, and on success the fields are the values those steps read |
| ScrapedPosts.ReadRest | imgchest/src/model/scraped_post.rs:138-175 | InvalidImage exactly when some container fails; MissingToken exactly when the images parse and the token is absent; on success the head fields are kept, the token is the page's, and the image count is the containers plus the extra count |
| ScrapedPosts.FromHtml | imgchest/src/model/scraped_post.rs:75-176 | a parsed post has one file per container, each read by `from_element`; the image count is those files plus the extra count; its id is the og:url suffix, and its title, username, views and token are the values the page holds |
| ScrapedPosts.FromHtmlHeadErrors | imgchest/src/model/scraped_post.rs:91-136 | each of MissingId, MissingTitle, MissingUsername, MissingViews, InvalidViews is the result exactly when its step is the first to fail |
| ScrapedPosts.FromHtmlTailErrors | imgchest/src/model/scraped_post.rs:138-163 | InvalidImage, MissingToken and success each occur exactly when the earlier steps succeed and the images, then the token, decide as stated |
| ScrapedPosts.LoadAllNeverFails | imgchest/src/model/scraped_post.rs:143-157 | the load-all button never decides whether a page parses; without it the image count is the number of containers |
| ScrapedPosts.EmptyViewsTokenIsInvalid | imgchest/src/model/scraped_post.rs:126-136 | content that is empty or starts with a space gives InvalidViews(Empty), not MissingViews |
| ScrapedPosts.ViewsOfDecimal | imgchest/src/model/scraped_post.rs:126-136 | content "n rest" gives n views for every n a u64 holds |
| Errors.UnknownMessageReadBack | imgchest/src/lib.rs:58-63 | the unknown-message text carries the message, which can be read back from it |
| Errors.Display | imgchest/src/lib.rs:25-72 | every message is non-empty, and only the unknown-message variant's starts with `api response had unknown message "` |
| Errors.DisplayInjective | imgchest/src/lib.rs:42-71 | the library's own error variants have pairwise distinct messages |
| Errors.UnknownMessageInjective | imgchest/src/lib.rs:58-63 | distinct unknown messages display differently |
| ImgchestClient.Authorized | imgchest/src/client.rs:339 | an authorised request carries the client's token as its bearer token |
| ImgchestClient.ReceiveText | imgchest/src/client.rs:253-260 | the body text comes back exactly when a response arrives with a status below 400 or above 599; otherwise a reqwest error |
| ImgchestClient.Receive | imgchest/src/client.rs:343 | Ok exactly when the status is not an error and the body decodes; an error status gives Reqwest(Status) |
| ImgchestClient.BoolToStr | imgchest/src/client.rs:654-660 | `bool_to_str` writes what `bool::from_str` reads back as the same bool |
| ImgchestClient.ImageParts | imgchest/src/client.rs:382-386 | one `images[]` part per file, in order |
| ImgchestClient.ImagePartsContents | imgchest/src/client.rs:382-386 | the image parts carry exactly the files, and no text field |
| ImgchestClient.PushFields | imgchest/src/client.rs:356-376 | the form holds the present fields in the order title, privacy, anonymous, nsfw, and at most four of them |
| ImgchestClient.CreateFields | imgchest/src/client.rs:366-376 | one text part per field that is set, and only the names title, privacy, anonymous and nsfw |
| ImgchestClient.CreatePostForm | imgchest/src/client.rs:356-386 | the form is the text fields followed by one `images[]` part per upload, in order |
| ImgchestClient.PushImages | imgchest/src/client.rs:382-386 | the `for file in data.images` loop appends one part per file, in builder order |
| ImgchestClient.CreatePostFormReadBack | imgchest/src/client.rs:356-386 | each text field reads back as the builder's value (privacy through `as_str`, booleans through `bool_to_str`), and is absent when the builder left it unset |
| ImgchestClient.CreatePostFormUploads | imgchest/src/client.rs:378-386 | the form's uploads are the builder's images, in order |
| ImgchestClient.TitleCheckCountsBytes | imgchest/src/client.rs:358-361 | the title check compares the byte length with 3: for ASCII titles that is the character count, a short title has fewer than 3 characters, and "éé" passes |
| ImgchestClient.UpdatePairsReadBack | imgchest/src/client.rs:409-421 | the url-encoded pairs hold exactly the present fields, each read back as its value, with no title-length check |
| ImgchestClient.UpdatePairs | imgchest/src/client.rs:409-421 | one pair per field that is set, with keys among title, privacy and nsfw and no key twice |
| ImgchestClient.CompletedOutcome | imgchest/src/client.rs:454-459 | Ok exactly when the completion response says success; false success gives ApiOperationFailed; a transport error passes through |
| ImgchestClient.FavoriteOutcome | imgchest/src/client.rs:481-491 | "Favorite added." gives true, "Favorite removed." false; false success gives ApiOperationFailed, a missing message ApiResponseMissingMessage, any other message ApiResponseUnknownMessage with that message |
| ImgchestClient.ScrapeOutcome | imgchest/src/client.rs:262-268 | a fetched page gives its `from_html` post, or InvalidScrapedPost with its error |
| ImgchestClient.ExtraFilesOutcome | imgchest/src/client.rs:292-302 | a fetched fragment gives its files, or InvalidScrapedPostFile with the first failing file's error |
| ImgchestClient.CreatePostBuilder.constructor | imgchest/src/client.rs:45-53 | a new builder has no field set and no images |
| ImgchestClient.CreatePostBuilder.Title | imgchest/src/client.rs:56-59 | sets the title and leaves every other field unchanged |
| ImgchestClient.CreatePostBuilder.SetPrivacy | imgchest/src/client.rs:64-67 | sets the privacy and leaves every other field unchanged |
| ImgchestClient.CreatePostBuilder.Anonymous | imgchest/src/client.rs:70-73 | sets the anonymous flag and leaves every other field unchanged |
| ImgchestClient.CreatePostBuilder.Nsfw | imgchest/src/client.rs:76-79 | sets the nsfw flag and leaves every other field unchanged |
| ImgchestClient.CreatePostBuilder.Image | imgchest/src/client.rs:82-85 | appends the file at the end of the images and leaves the rest unchanged |
| ImgchestClient.UpdatePostBuilder.constructor | imgchest/src/client.rs:162-168 | a new post update sets nothing |
| ImgchestClient.UpdatePostBuilder.Title | imgchest/src/client.rs:171-174 | sets the title only |
| ImgchestClient.UpdatePostBuilder.SetPrivacy | imgchest/src/client.rs:177-180 | sets the privacy only |
| ImgchestClient.UpdatePostBuilder.Nsfw | imgchest/src/client.rs:183-186 | sets the nsfw flag only |
| ImgchestClient.UpdateFileBuilder.constructor | imgchest/src/client.rs:206-208 | a new file update has no description |
| ImgchestClient.UpdateFileBuilder.Description | imgchest/src/client.rs:213-216 | sets the description |
| ImgchestClient.Client.constructor | imgchest/src/client.rs:236-246 | a new client has no token |
| ImgchestClient.Client.SetToken | imgchest/src/client.rs:308-317 | the token becomes the given one |
| ImgchestClient.Client.GetToken | imgchest/src/client.rs:320-326 | returns the latest token set |
| ImgchestClient.Client.GetPost | imgchest/src/client.rs:332-346 | without a token: MissingToken and nothing sent; otherwise an authorised GET of /post/{id}, whose reply decodes to the post |
| ImgchestClient.Client.CreatePost | imgchest/src/client.rs:352-399 | MissingToken, then TitleTooShort for a present title under 3 bytes, then MissingImages for no images, none of them sending anything; otherwise an authorised multipart POST of the specified form |
| ImgchestClient.Client.UpdatePost | imgchest/src/client.rs:405-437 | without a token: MissingToken; otherwise an authorised url-encoded PATCH of the present fields in the order title, privacy, nsfw |
| ImgchestClient.Client.DeletePost | imgchest/src/client.rs:443-460 | without a token: MissingToken; otherwise an authorised DELETE, Ok exactly when the response says success |
| ImgchestClient.Client.FavoritePost | imgchest/src/client.rs:470-492 | without a token: MissingToken; otherwise an authorised POST to /favorite whose response maps as `FavoriteOutcome` states |
| ImgchestClient.Client.AddPostImages | imgchest/src/client.rs:498-524 | without a token: MissingToken; otherwise an authorised multipart POST to /add with one part per image, in order |
| ImgchestClient.Client.GetUser | imgchest/src/client.rs:530-544 | without a token: MissingToken; otherwise an authorised GET of /user/{username} |
| ImgchestClient.Client.GetFile | imgchest/src/client.rs:555-569 | without a token: MissingToken; otherwise an authorised GET of /file/{id} |
| ImgchestClient.Client.UpdateFile | imgchest/src/client.rs:575-593 | without a token: MissingToken; otherwise an authorised PATCH with the single pair description=..., Ok exactly when the response says success |
| ImgchestClient.Client.DeleteFile | imgchest/src/client.rs:599-616 | without a token: MissingToken; otherwise an authorised DELETE, Ok exactly when the response says success |
| ImgchestClient.Client.UpdateFilesBulk | imgchest/src/client.rs:619-640 | without a token: MissingToken; otherwise an authorised PATCH whose JSON body wraps the updates, in order, under `data` |
| ImgchestClient.Client.GetScrapedPost | imgchest/src/client.rs:252-269 | sends an unauthorised GET of the URL and gives the page's `from_html` result |
| ImgchestClient.Client.LoadExtraFilesForScrapedPost | imgchest/src/client.rs:275-303 | sends an unauthorised POST to the post's /loadAll with the x-requested-with header and the page's token, and gives the fragment's files |
| ImgchestClient.ScrapingCarriesNoToken | imgchest/src/client.rs:248-285 | the two scraping requests carry no bearer token |
| Download.IsValidId | imgchest-cli/src/command/download.rs:96-103 | a raw id is valid exactly when it has 11 characters, each an ASCII digit or lower-case letter |
| Download.IsAsciiAlphanumericLowercase | imgchest-cli/src/command/download.rs:101-103 | a character passes exactly when it is one of the ten digits or 26 lower-case ASCII letters |
| Download.ExtractId | imgchest-cli/src/command/download.rs:72-94 | input that is not a URL is returned unchanged exactly when it is a valid id |
| Download.ExtractIdFromUrl | imgchest-cli/src/command/download.rs:73-83 | a URL yields an id exactly when its host is imgchest.com and its path is `p` followed by at least one segment; the id is that segment, whatever follows |
| Download.ExtractIdUrlErrors | imgchest-cli/src/command/download.rs:77-80 | a wrong host, a missing path and a path of `p` alone give their own errors, in the order of the checks |
| Download.UrlIdNotValidated | imgchest-cli/src/command/download.rs:79-82 | an id taken from a URL is not held to the raw-id rule: `p/` followed by an empty segment gives the empty id |
| Download.FileName | imgchest-cli/src/command/download.rs:113-118 | the file name is always present, and it is the text after the last '/', or the whole link |
| Download.SpawnedTask | imgchest-cli/src/command/download.rs:111-118 | the spawned download fetches the file's link into the output directory under the file name |
| Download.RunTask | imgchest-cli/src/command/download.rs:119-131 | Ok(false) exactly when the target exists; Ok(true) exactly when it does not and the download succeeds |
| Download.SpawnedTaskHasFileName | imgchest-cli/src/command/download.rs:113-120 | the "missing file name" error never occurs |
| Download.SpawnedTasks | imgchest-cli/src/command/download.rs:47-49 | one task per scraped file, in order |
| Download.OnlyLinksSpawned | imgchest-cli/src/command/download.rs:47-49 | every task downloads some file's link, never a video link |
| Download.OkPlusErr | imgchest-cli/src/command/download.rs:51-67 | every task counts once, as a success or as an error |
| Download.LastError | imgchest-cli/src/command/download.rs:62-69 | the kept error is that of a joined task after which every joined task succeeded: the last failure in join order |
| Download.LastErrorOk | imgchest-cli/src/command/download.rs:51-69 | the loop ends Ok exactly when every joined task succeeded |
| Download.JoinSet.constructor | imgchest-cli/src/command/download.rs:45 | a new set holds no task |
| Download.JoinSet.Spawn | imgchest-cli/src/command/download.rs:119 | appends the given task to the pending ones |
| Download.JoinSet.JoinNext | imgchest-cli/src/command/download.rs:53 | None once empty; otherwise removes the chosen pending task and returns its outcome |
| Download.SpawnImageDownload | imgchest-cli/src/command/download.rs:105-132 | adds exactly the file's task to the set |
| Download.ProgressLines | imgchest-cli/src/command/download.rs:58-61 | after k successes the printed lines are "1/total..." up to "k/total..." |
| Download.ProgressLine | imgchest-cli/src/command/download.rs:60 | the line reads back as k before the '/' and the total followed by "..." after it |
| Download.PostDir | imgchest-cli/src/command/download.rs:36 | the files go to the output directory joined with the post id |
| Download.SpawnAll | imgchest-cli/src/command/download.rs:47-49 | the loop spawns the scraped files' tasks, in order |
| Download.JoinAll | imgchest-cli/src/command/download.rs:51-67 | every spawned task is joined once, in any order; `downloaded` counts the Ok outcomes; the kept error is the last in join order; one progress line per success |
| Download.Fetched | imgchest-cli/src/command/download.rs:29-34 | an id error or a fetch error ends the command with that error |
| Download.Exec | imgchest-cli/src/command/download.rs:28-70 | every file's task is joined exactly once; Ok exactly when no task failed, otherwise the last error in join order; the progress denominator is the post's image count |
| Download.ProgressStopsShort | imgchest-cli/src/command/download.rs:46 | with extra images the denominator exceeds what can be downloaded |
| Download.ExecCountsEveryTask | imgchest-cli/src/command/download.rs:51-67 | downloaded + errors is the number of tasks spawned |
| Scenarios.GetPostNoToken | imgchest/src/lib.rs:180-189 | a new client's `get_post` fails with MissingToken and sends nothing |
| Scenarios.CreatePostTooShortTitle | imgchest/src/lib.rs:311-325 | an empty title with no images gives TitleTooShort, not MissingImages |
| Scenarios.FourImagePost | imgchest/src/lib.rs:111-153 | four containers and no load-all button give image_count 4, with the containers' ids and links in page order |
| Scenarios.BlankDescriptionScrapedVsApi | imgchest/src/lib.rs:143-250 | a blank description box scrapes as None while the API keeps Some("") |
| Scenarios.ApiPositionsFollowOrder | imgchest/src/lib.rs:222-252 | API positions 1 to 4 decode in array order |
| Scenarios.VideoPost | imgchest/src/lib.rs:155-178 | a video container reads with both links, and the download fetches the link, not the video |

## Left out

- HTTP transport:
  - `reqwest` sending, `error_for_status` and the JSON and text bodies become the `Network` oracles;
  - transport failures become `Reqwest(Transport)`, and undecodable bodies become `Reqwest(Decode)`;
  - the cookie store and streaming bodies are not modelled.
- HTML parsing: `Html::parse_document`, `parse_fragment` and selector matching are oracles. A page is the first match of each selector, and the model does not check that matches are consistent with each other.
- `Url::parse` is a parameter (`ParsedUrl`).
- Filesystem: `try_exists` and `download_to_path` are oracles.
- Download.PostDir, Download.SpawnedTask: a path is a sequence of components and `Path::join` appends one, so two cases are not captured. A link ending in '/' gives the file name ""; the source then joins to the output directory itself, which exists, and skips the file as Ok(false), while the model asks the `tryExists` oracle about `outDir + [""]`. A post id holding '/' makes nested directories in the source and a single component in the model.
- ImgchestClient.Client.GetScrapedPost: in the source, a URL that reqwest cannot parse fails before anything is sent. The model always reports the request and leaves the failure to the transport oracle.
- Download.Exec: `create_dir_all` and the write of post.json are not modelled, and neither are their errors.
- Download.Exec: the fetch is an oracle applied to the id. The source passes the bare id to `get_scraped_post`, which expects a URL; the model does not capture how the client would treat it.
- Concurrency:
  - the runtime, `spawn_blocking` and `JoinError` (`Error::TokioJoin`, and a task that panics) are not modelled;
  - tasks run when joined, against a fixed filesystem;
  - join order is any order a scheduler picks.
- `RwLock` poisoning recovery in `set_token` and `get_token` is not modelled. The token is a plain field.
- JSON and time: serde_json and ISO 8601 parsing are not modelled. Timestamps are opaque strings, and raw records stand for the JSON values.
- ScrapedPosts.FromHtml: `image_count` is an unbounded count. The `u32` conversion and addition, which panic or wrap on overflow, are not modelled.
- ScrapedPosts.ReadRest: the image count is unbounded, as for `FromHtml`.
- Upload files: the `from_file` and `from_path` constructors of `UploadPostFile` are not modelled. A file is its name and its bytes.
- `Error::MissingDescription` is never produced by the core. `Error::Reqwest` and the parser errors are not given display strings of their own.
- The `User` record (imgchest/src/model/user.rs) is given only as a decoded value. Its field decoding is not part of this model.
- Output: stderr diagnostics (`eprintln!`) in `exec` are not modelled. Progress lines are returned as a sequence.
- The builder setters return `&mut Self` for chaining. The model's setters return nothing.
