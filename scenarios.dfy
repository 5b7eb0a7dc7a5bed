/**
 * The behaviours the library's own tests (imgchest/src/lib.rs) check against
 * the live site, stated over the model: each test's inputs become
 * parameters, and what it asserts becomes a postcondition that holds for
 * every page or response of the same shape.
 */
module Scenarios {
  import opened Wrappers
  import opened Text
  import opened Posts
  import opened ScrapedPosts
  import opened Errors
  import opened ImgchestClient
  import opened Download

  /** `get_post_no_token`: a fresh client refuses to fetch a post and sends nothing. */
  method GetPostNoToken(net: Network, id: string) returns (sent: Option<Request>, r: Result<Post, Error>)
    ensures sent.None?
    ensures r == Err(Error.MissingToken)
  {
    var client := new Client();
    sent, r := client.GetPost(net, id);
  }

  /**
   * `create_post_too_short_title`: with a token, an empty title and no
   * images, the title is refused before the missing images are noticed.
   */
  method CreatePostTooShortTitle(net: Network, token: string) returns (sent: Option<Request>, r: Result<Post, Error>)
    ensures sent.None?
    ensures r == Err(TitleTooShort)
  {
    var client := new Client();
    client.SetToken(token);
    var builder := new CreatePostBuilder();
    builder.Title("");
    sent, r := client.CreatePost(net, builder);
  }

  /** A container `image-<id>` has the file id `<id>`. */
  lemma ContainerId(e: ImageElement, id: string)
    requires '-' !in id && Attr(e.element, "id") == Some("image-" + id)
    ensures FileId(e) == Some(id)
  {
    assert "image" + "-" + id == "image-" + id;
    FileIdOfDashedId(e, "image", id);
  }

  /** A container `image-<id>` with a link reads as the file with that id and link. */
  lemma ContainerFile(e: ImageElement, id: string, link: string, f: File)
    requires '-' !in id && Attr(e.element, "id") == Some("image-" + id) && FileLink(e) == Some(link)
    requires FromElement(e) == Ok(f)
    ensures f.id == id && f.link == link
  {
    ContainerId(e, id);
  }

  /**
   * `get_scraped_post`: a page with four image containers `image-<id>` and no
   * load-all button reads as a post of four images, in page order, with the
   * ids and links of their containers.
   */
  lemma FourImagePost(doc: Document, ids: seq<string>, links: seq<string>, post: ScrapedPost)
    requires |doc.postImages| == 4 && |ids| == 4 && |links| == 4 && doc.loadAll.None?
    requires forall i :: 0 <= i < 4 ==>
      '-' !in ids[i] && Attr(doc.postImages[i].element, "id") == Some("image-" + ids[i])
      && FileLink(doc.postImages[i]) == Some(links[i])
    requires FromHtml(doc) == Ok(post)
    ensures post.imageCount == 4
    ensures forall i :: 0 <= i < 4 ==> post.images[i].id == ids[i] && post.images[i].link == links[i]
  {
    assert ExtraImageCount(doc).None?;
    forall i | 0 <= i < 4
      ensures post.images[i].id == ids[i] && post.images[i].link == links[i]
    {
      ContainerFile(doc.postImages[i], ids[i], links[i], post.images[i]);
    }
  }

  /**
   * `get_scraped_post` against `get_post`: a file whose description box holds
   * only blanks or the "Description" label reads as no description from the
   * page, while the API hands the same file back with an empty description.
   */
  lemma BlankDescriptionScrapedVsApi(w: Element, raw: RawFile)
    requires forall k :: 0 <= k < |w.texts| ==> Trim(w.texts[k]) == []
    requires raw.description == Some("") && 1 <= raw.position <= U32_MAX
    ensures DescriptionOf(Some(w)).None?
    ensures DecodeFile(raw).Some? && DecodeFile(raw).value.description == Some("")
  {
    DescriptionAbsent(w);
  }

  /** `get_post`: positions 1 to 4 in the file array decode as positions 1 to 4, in array order. */
  lemma ApiPositionsFollowOrder(raws: seq<RawFile>)
    requires |raws| == 4 && forall i :: 0 <= i < 4 ==> raws[i].position == i + 1
    ensures DecodeFiles(raws).Some?
    ensures forall i :: 0 <= i < 4 ==> DecodeFiles(raws).value[i].position == i + 1
  {
    assert forall i :: 0 <= i < 4 ==> DecodeFile(raws[i]).Some?;
  }

  /**
   * `get_scraped_video_post`: a container with a video source reads with
   * both links, and the download command fetches the link and not the
   * video.
   */
  lemma VideoPost(e: ImageElement, link: string, video: string, dir: Path)
    requires FileId(e).Some? && FileLink(e) == Some(link) && VideoLink(e) == Some(video)
    requires link != video
    ensures FromElement(e).Ok?
    ensures FromElement(e).value.link == link && FromElement(e).value.videoLink == Some(video)
    ensures SpawnedTask(FromElement(e).value, dir).link == link != video
  {
  }
}
