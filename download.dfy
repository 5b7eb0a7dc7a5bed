/**
 * The `download` command of the command-line tool
 * (imgchest-cli/src/command/download.rs): finding the post id in what the
 * user typed, deriving each file's local path from its link, the per-file
 * task that skips files already on disk, and the loop that joins every download,
 * counts the successes and keeps the last error.
 *
 * `Url::parse`, the filesystem and the fetch of the post are parameters:
 * the parsed URL is a `ParsedUrl` value, the filesystem a `FileSystem` of
 * oracles, and the fetch a function from the id to a post or an error.
 */
module Download {
  import opened Wrappers
  import opened Text
  import opened ScrapedPosts
  import opened Errors

  /** The only host a post URL may name. */
  const IMGCHEST_HOST: string := "imgchest.com"

  /** The length of a raw post id, in bytes. */
  const ID_LEN: nat := 11

  // ------------------------------------------------------------------ ids

  /** The characters a raw id may hold, listed. */
  const ID_ALPHABET: string := "0123456789abcdefghijklmnopqrstuvwxyz"

  /** `is_ascii_alphanumeric_lowercase`: an ASCII digit or an ASCII lower-case letter. */
  predicate IsAsciiAlphanumericLowercase(c: char): (b: bool)
    ensures b <==> c in ID_ALPHABET
  {
    ('0' <= c <= '9') || ('a' <= c <= 'z')
  }

  /**
   * `is_valid_id`: 11 bytes, each a lower-case letter or a digit. Since such
   * characters are ASCII, the byte length is the character count.
   */
  function IsValidId(value: string): (b: bool)
    ensures b <==> |value| == ID_LEN && forall k :: 0 <= k < |value| ==> IsAsciiAlphanumericLowercase(value[k])
  {
    var allOk := forall k :: 0 <= k < |value| ==> IsAsciiAlphanumericLowercase(value[k]);
    assert allOk ==> forall k :: 0 <= k < |value| ==> IsAscii(value[k]);
    Utf8Len(value) == ID_LEN && allOk
  }

  /** What `Url::parse` makes of the input: not a URL, or its host and its path segments (None for a cannot-be-a-base URL). */
  datatype ParsedUrl =
    | NotAUrl
    | Url(host: Option<string>, pathSegments: Option<seq<string>>)

  /** Why `extract_id` refused its input. */
  datatype IdError =
    | WrongHost
    | MissingPath
    | NotAPostPath
    | MissingIdSegment
    | InvalidRawId

  /** The first path segment, as `path_iter.next()` yields it. */
  function FirstOf(segments: seq<string>): Option<string> {
    if |segments| >= 1 then Some(segments[0]) else None
  }

  /**
   * `extract_id`: a URL must name imgchest.com and a path starting with `p`,
   * and the id is the segment after it; anything else must itself be a
   * valid raw id.
   */
  function ExtractId(value: string, parsed: ParsedUrl): (r: Result<string, IdError>)
    ensures parsed.NotAUrl? ==> (r.Ok? <==> IsValidId(value)) && (r.Ok? ==> r.value == value)
  {
    match parsed
    case NotAUrl =>
      if IsValidId(value) then Ok(value) else Err(InvalidRawId)
    case Url(host, pathSegments) =>
      if host != Some(IMGCHEST_HOST) then Err(WrongHost)
      else if pathSegments.None? then Err(MissingPath)
      else if FirstOf(pathSegments.value) != Some("p") then Err(NotAPostPath)
      else if |pathSegments.value| < 2 then Err(MissingIdSegment)
      else Ok(pathSegments.value[1])
  }

  /**
   * A URL yields an id exactly when its host is imgchest.com and its path has
   * `p` and one more segment; the id is that segment, whatever follows it.
   */
  lemma ExtractIdFromUrl(value: string, host: Option<string>, segments: Option<seq<string>>)
    ensures var r := ExtractId(value, Url(host, segments));
      (r.Ok? <==> host == Some(IMGCHEST_HOST) && segments.Some? && |segments.value| >= 2 && segments.value[0] == "p")
      && (r.Ok? ==> r.value == segments.value[1])
  {
  }

  /** The URL errors come in the order the checks run. */
  lemma ExtractIdUrlErrors(value: string, host: Option<string>, segments: Option<seq<string>>)
    ensures var r := ExtractId(value, Url(host, segments));
      (r == Err(WrongHost) <==> host != Some(IMGCHEST_HOST))
      && (r == Err(MissingPath) <==> host == Some(IMGCHEST_HOST) && segments.None?)
      && (r == Err(MissingIdSegment) <==> host == Some(IMGCHEST_HOST) && segments == Some(["p"]))
  {
    var r := ExtractId(value, Url(host, segments));
    if r == Err(MissingIdSegment) {
      assert segments.value == [segments.value[0]];
    }
  }

  /** An id taken from a URL is not held to the raw-id rule: even the empty segment is accepted. */
  lemma UrlIdNotValidated(value: string)
    ensures ExtractId(value, Url(Some(IMGCHEST_HOST), Some(["p", ""]))) == Ok("")
    ensures !IsValidId("")
  {
  }

  // ----------------------------------------------------------- file names

  /** A local path, as the list of its components. */
  type Path = seq<string>

  /** `Iterator::next_back` over the pieces of a split. */
  function NextBack(pieces: seq<string>): (r: Option<string>)
    ensures r.Some? <==> pieces != []
  {
    if pieces == [] then None else Some(pieces[|pieces| - 1])
  }

  /**
   * `link.split('/').next_back()`: the local file name. It is never missing:
   * it is the text after the last '/', or the whole link when there is none.
   */
  function FileName(link: string): (r: Option<string>)
    ensures r == Some(LastSegment(link, '/'))
  {
    NextBack(Split(link, '/'))
  }

  // ---------------------------------------------------------------- tasks

  /** A spawned download: the link to fetch and the path computed for it before the download started. */
  datatype Task = Task(link: string, outPath: Option<Path>)

  /** Why a download task failed. */
  datatype TaskError =
    | MissingFileName
    | ExistsCheckFailed
    | DownloadFailed

  /**
   * The filesystem and the downloader: `tryExists` answers `try_exists`
   * (None when the check itself fails) and `download` says whether
   * `download_to_path` succeeded.
   */
  datatype FileSystem = FileSystem(tryExists: Path -> Option<bool>, download: (string, Path) -> bool)

  /** What `spawn_image_download` spawns for a file: only its `link`, never its video link. */
  function SpawnedTask(file: File, outDir: Path): (t: Task)
    ensures t.link == file.link
    ensures t.outPath.Some? && t.outPath.value == outDir + [FileName(file.link).value]
  {
    Task(file.link, match FileName(file.link) case None => None case Some(name) => Some(outDir + [name]))
  }

  /** The body of the spawned task: Ok(false) when the target exists, Ok(true) after a download. */
  function RunTask(fs: FileSystem, task: Task): (r: Result<bool, TaskError>)
    ensures r == Ok(false) <==> task.outPath.Some? && fs.tryExists(task.outPath.value) == Some(true)
    ensures r == Ok(true) <==> task.outPath.Some? && fs.tryExists(task.outPath.value) == Some(false)
                               && fs.download(task.link, task.outPath.value)
    ensures r == Err(MissingFileName) <==> task.outPath.None?
  {
    match task.outPath
    case None => Err(MissingFileName)
    case Some(outPath) =>
      match fs.tryExists(outPath)
      case None => Err(ExistsCheckFailed)
      case Some(true) => Ok(false)
      case Some(false) => if fs.download(task.link, outPath) then Ok(true) else Err(DownloadFailed)
  }

  /** A spawned task never fails for want of a file name. */
  lemma SpawnedTaskHasFileName(fs: FileSystem, file: File, outDir: Path)
    ensures RunTask(fs, SpawnedTask(file, outDir)) != Err(MissingFileName)
  {
  }

  /** The tasks spawned for a list of files, one per file, in order. */
  function SpawnedTasks(files: seq<File>, outDir: Path): (ts: seq<Task>)
    ensures |ts| == |files|
    ensures forall i :: 0 <= i < |files| ==> ts[i] == SpawnedTask(files[i], outDir)
  {
    seq(|files|, i requires 0 <= i < |files| => SpawnedTask(files[i], outDir))
  }

  /** Only links are downloaded: a video link is downloaded only where it is also some file's link. */
  lemma OnlyLinksSpawned(files: seq<File>, outDir: Path, t: Task)
    requires t in SpawnedTasks(files, outDir)
    ensures exists i :: 0 <= i < |files| && t.link == files[i].link
  {
    var ts := SpawnedTasks(files, outDir);
    var i :| 0 <= i < |ts| && ts[i] == t;
    assert t.link == files[i].link;
  }

  /** The number of tasks whose outcome is Ok, skipped or downloaded. */
  function CountOk(fs: FileSystem, tasks: seq<Task>): (n: nat)
    ensures n <= |tasks|
  {
    if tasks == [] then 0
    else CountOk(fs, tasks[..|tasks| - 1]) + (if RunTask(fs, tasks[|tasks| - 1]).Ok? then 1 else 0)
  }

  /** The number of tasks whose outcome is an error. */
  function CountErr(fs: FileSystem, tasks: seq<Task>): (n: nat)
    ensures n <= |tasks|
  {
    if tasks == [] then 0
    else CountErr(fs, tasks[..|tasks| - 1]) + (if RunTask(fs, tasks[|tasks| - 1]).Err? then 1 else 0)
  }

  /** Every task is counted once, either as a success or as an error. */
  lemma {:induction false} OkPlusErr(fs: FileSystem, tasks: seq<Task>)
    ensures CountOk(fs, tasks) + CountErr(fs, tasks) == |tasks|
    decreases |tasks|
  {
    if tasks != [] {
      OkPlusErr(fs, tasks[..|tasks| - 1]);
    }
  }

  lemma {:induction false} CountOkConcat(fs: FileSystem, a: seq<Task>, b: seq<Task>)
    ensures CountOk(fs, a + b) == CountOk(fs, a) + CountOk(fs, b)
    decreases |b|
  {
    if b == [] {
      assert a + b == a;
    } else {
      CountOkConcat(fs, a, b[..|b| - 1]);
      assert (a + b)[..|a + b| - 1] == a + b[..|b| - 1];
    }
  }

  /**
   * The error kept by the join loop: that of the last failed task in join
   * order, i.e. a failed task after which every joined task succeeded.
   */
  function LastError(fs: FileSystem, order: seq<Task>): (r: Result<(), TaskError>)
    ensures r.Err? ==> exists i ::
      && 0 <= i < |order|
      && RunTask(fs, order[i]) == Err(r.error)
      && forall j :: i < j < |order| ==> RunTask(fs, order[j]).Ok?
  {
    if order == [] then Ok(())
    else
      var last := RunTask(fs, order[|order| - 1]);
      if last.Err? then Err(last.error)
      else
        var front := order[..|order| - 1];
        var r := LastError(fs, front);
        if r.Err? then
          var i :|
            && 0 <= i < |front|
            && RunTask(fs, front[i]) == Err(r.error)
            && forall j :: i < j < |front| ==> RunTask(fs, front[j]).Ok?;
          assert front[i] == order[i];
          assert forall j :: i < j < |order| ==> RunTask(fs, order[j]).Ok? by {
            forall j | i < j < |order| ensures RunTask(fs, order[j]).Ok? {
              if j < |front| { assert front[j] == order[j]; }
            }
          }
          r
        else r
  }

  /** The loop ends Ok exactly when every joined task succeeded. */
  lemma {:induction false} LastErrorOk(fs: FileSystem, order: seq<Task>)
    ensures LastError(fs, order).Ok? <==> CountOk(fs, order) == |order|
    decreases |order|
  {
    if order != [] {
      LastErrorOk(fs, order[..|order| - 1]);
    }
  }

  // --------------------------------------------------------- the join set

  /**
   * The `JoinSet` of download tasks: those spawned and not yet joined.
   * Which task `join_next` returns is up to the runtime; here it is chosen
   * by an index the caller supplies.
   */
  class JoinSet {
    var pending: seq<Task>

    constructor()
      ensures pending == []
    {
      pending := [];
    }

    /** `JoinSet::spawn`. */
    method Spawn(task: Task)
      modifies this
      ensures pending == old(pending) + [task]
    {
      pending := pending + [task];
    }

    /**
     * `JoinSet::join_next`: None once every task is joined; otherwise some
     * pending task leaves the set, with its outcome.
     */
    method JoinNext(fs: FileSystem, pick: nat) returns (outcome: Option<Result<bool, TaskError>>, ghost joined: Task)
      modifies this
      ensures old(pending) == [] ==> outcome.None? && pending == []
      ensures old(pending) != [] ==>
        var j := pick % |old(pending)|;
        joined == old(pending)[j] && outcome == Some(RunTask(fs, joined))
        && pending == old(pending)[..j] + old(pending)[j + 1..]
    {
      if pending == [] {
        outcome := None;
        joined := Task("", None);
      } else {
        var j := pick % |pending|;
        joined := pending[j];
        outcome := Some(RunTask(fs, pending[j]));
        pending := pending[..j] + pending[j + 1..];
      }
    }
  }

  /** `spawn_image_download`: computes the file's local path and spawns its task. */
  method SpawnImageDownload(joinSet: JoinSet, file: File, outDir: Path)
    modifies joinSet
    ensures joinSet.pending == old(joinSet.pending) + [SpawnedTask(file, outDir)]
  {
    var name := FileName(file.link);
    var outPath := match name case None => None case Some(n) => Some(outDir + [n]);
    joinSet.Spawn(Task(file.link, outPath));
  }

  // ------------------------------------------------------------------ exec

  /** Why `exec` failed. */
  datatype ExecError =
    | BadId(id: IdError)
    | FetchFailed(cause: Error)
    | TaskFailed(task: TaskError)

  /** The progress line printed after the k-th success. */
  function ProgressLine(k: nat, total: nat): (line: string)
    ensures FirstSegment(line, '/') == ToDecimal(k) && Horner(0, FirstSegment(line, '/')) == k
    ensures SecondSegment(line, '/') == Some(ToDecimal(total) + "...")
    ensures |line| >= 3 && line[|line| - 3..] == "..."
  {
    var done, rest := ToDecimal(k), ToDecimal(total) + "...";
    assert '/' !in done by { assert forall i :: 0 <= i < |done| ==> IsAsciiDigit(done[i]); }
    assert '/' !in rest by { assert forall i :: 0 <= i < |rest| ==> rest[i] == '.' || IsAsciiDigit(rest[i]); }
    TwoSegments(done, '/', rest);
    done + ['/'] + rest
  }

  /** The progress lines after `downloaded` successes: 1/total up to downloaded/total. */
  function ProgressLines(downloaded: nat, total: nat): (lines: seq<string>)
    ensures |lines| == downloaded
    ensures forall k :: 0 <= k < downloaded ==> lines[k] == ProgressLine(k + 1, total)
  {
    seq(downloaded, k requires 0 <= k < downloaded => ProgressLine(k + 1, total))
  }

  /** The directory the files of a post go to: the output directory joined with the post id. */
  function PostDir(outDir: Path, post: ScrapedPost): (dir: Path)
    ensures |dir| == |outDir| + 1 && dir[..|outDir|] == outDir && dir[|outDir|] == post.id
  {
    outDir + [post.id]
  }

  /** The `for image in post.images` loop of `exec`. */
  method SpawnAll(joinSet: JoinSet, images: seq<File>, dir: Path)
    modifies joinSet
    ensures joinSet.pending == old(joinSet.pending) + SpawnedTasks(images, dir)
  {
    ghost var start := joinSet.pending;
    for i := 0 to |images|
      invariant joinSet.pending == start + SpawnedTasks(images[..i], dir)
    {
      SpawnImageDownload(joinSet, images[i], dir);
      assert SpawnedTasks(images[..i + 1], dir) == SpawnedTasks(images[..i], dir) + [SpawnedTask(images[i], dir)];
    }
    assert images[..|images|] == images;
  }

  /**
   * What the loop knows of its downloads: every spawned task is either joined or
   * pending, and the successes among them are split the same way.
   */
  ghost predicate Accounted(fs: FileSystem, tasks: seq<Task>, order: seq<Task>, pending: seq<Task>) {
    && multiset(order) + multiset(pending) == multiset(tasks)
    && CountOk(fs, order) + CountOk(fs, pending) == CountOk(fs, tasks)
  }

  /** Joining the pending task at `j` moves it from the pending list to the end of the join order. */
  lemma JoinStep(fs: FileSystem, tasks: seq<Task>, order: seq<Task>, pending: seq<Task>, j: nat)
    requires j < |pending| && Accounted(fs, tasks, order, pending)
    ensures Accounted(fs, tasks, order + [pending[j]], pending[..j] + pending[j + 1..])
    ensures CountOk(fs, order + [pending[j]]) == CountOk(fs, order) + (if RunTask(fs, pending[j]).Ok? then 1 else 0)
    ensures LastError(fs, order + [pending[j]]) ==
      (if RunTask(fs, pending[j]).Err? then Err(RunTask(fs, pending[j]).error) else LastError(fs, order))
  {
    var t := pending[j];
    var rest := pending[..j] + pending[j + 1..];
    assert pending == pending[..j] + [t] + pending[j + 1..];
    assert (order + [t])[..|order|] == order;
    CountOkConcat(fs, pending[..j] + [t], pending[j + 1..]);
    CountOkConcat(fs, pending[..j], [t]);
    CountOkConcat(fs, pending[..j], pending[j + 1..]);
  }

  /** One more success adds its progress line at the end. */
  lemma ProgressLinesSnoc(downloaded: nat, total: nat)
    ensures ProgressLines(downloaded + 1, total) == ProgressLines(downloaded, total) + [ProgressLine(downloaded + 1, total)]
  {
  }

  /**
   * The join loop of `exec`: takes tasks in the order `schedule` picks them,
   * counts every Ok outcome, prints a progress line for it, and remembers the
   * last error. The loop runs while `join_next` has a task to give, that is,
   * while the set is not empty.
   */
  method JoinAll(joinSet: JoinSet, fs: FileSystem, total: nat, schedule: nat -> nat)
    returns (lastError: Result<(), TaskError>, downloaded: nat, progress: seq<string>, ghost order: seq<Task>)
    modifies joinSet
    ensures joinSet.pending == []
    ensures multiset(order) == multiset(old(joinSet.pending))
    ensures downloaded == CountOk(fs, old(joinSet.pending)) == CountOk(fs, order)
    ensures lastError == LastError(fs, order)
    ensures progress == ProgressLines(downloaded, total)
  {
    ghost var tasks := joinSet.pending;
    lastError := Ok(());
    downloaded := 0;
    progress := [];
    order := [];
    var step := 0;
    while joinSet.pending != []
      invariant Accounted(fs, tasks, order, joinSet.pending)
      invariant downloaded == CountOk(fs, order)
      invariant lastError == LastError(fs, order)
      invariant progress == ProgressLines(downloaded, total)
      decreases |joinSet.pending|
    {
      ghost var pending := joinSet.pending;
      var pick := schedule(step);
      var next, joined := joinSet.JoinNext(fs, pick);
      JoinStep(fs, tasks, order, pending, pick % |pending|);
      order := order + [joined];
      match next.value {
        case Ok(_) =>
          ProgressLinesSnoc(downloaded, total);
          downloaded := downloaded + 1;
          progress := progress + [ProgressLine(downloaded, total)];
        case Err(e) =>
          lastError := Err(e);
      }
      step := step + 1;
    }
  }

  /** The first two steps of `exec`: the id, then the post fetched for it. */
  function Fetched(url: string, parsed: ParsedUrl, fetch: string -> Result<ScrapedPost, Error>): (r: Result<ScrapedPost, ExecError>)
    ensures ExtractId(url, parsed).Err? ==> r == Err(BadId(ExtractId(url, parsed).error))
    ensures ExtractId(url, parsed).Ok? ==>
      (r.Ok? <==> fetch(ExtractId(url, parsed).value).Ok?)
      && (r.Err? ==> r == Err(FetchFailed(fetch(ExtractId(url, parsed).value).error)))
      && (r.Ok? ==> r.value == fetch(ExtractId(url, parsed).value).value)
  {
    match ExtractId(url, parsed)
    case Err(e) => Err(BadId(e))
    case Ok(id) =>
      match fetch(id)
      case Err(e) => Err(FetchFailed(e))
      case Ok(post) => Ok(post)
  }

  /**
   * `exec`: find the id, fetch the post, spawn one task per scraped file into
   * the post's directory, and join them all. The result is the first failing
   * step's error, or the last task error, or Ok.
   */
  method Exec(url: string, parsed: ParsedUrl, fetch: string -> Result<ScrapedPost, Error>,
              outDir: Path, fs: FileSystem, schedule: nat -> nat)
    returns (r: Result<(), ExecError>, progress: seq<string>, ghost order: seq<Task>)
    ensures Fetched(url, parsed, fetch).Err? ==> r == Err(Fetched(url, parsed, fetch).error) && progress == []
    ensures Fetched(url, parsed, fetch).Ok? ==>
      var post := Fetched(url, parsed, fetch).value;
      var tasks := SpawnedTasks(post.images, PostDir(outDir, post));
      && multiset(order) == multiset(tasks)
      && progress == ProgressLines(CountOk(fs, tasks), post.imageCount)
      && (r.Ok? <==> CountOk(fs, tasks) == |tasks|)
      && (r.Err? ==> LastError(fs, order).Err? && r == Err(TaskFailed(LastError(fs, order).error)))
  {
    order := [];
    var fetched := Fetched(url, parsed, fetch);
    if fetched.Err? {
      return Err(fetched.error), [], [];
    }
    var post := fetched.value;
    var dir := PostDir(outDir, post);
    var joinSet := new JoinSet();
    var total := post.imageCount;
    SpawnAll(joinSet, post.images, dir);
    ghost var tasks := joinSet.pending;
    assert tasks == SpawnedTasks(post.images, dir);
    var lastError, downloaded;
    lastError, downloaded, progress, order := JoinAll(joinSet, fs, total, schedule);
    LastErrorOk(fs, order);
    assert |order| == |multiset(order)| == |multiset(tasks)| == |tasks|;
    r := if lastError.Ok? then Ok(()) else Err(TaskFailed(lastError.error));
  }

  /** The progress denominator is the post's image count, which includes the images the page did not list. */
  lemma ProgressStopsShort(fs: FileSystem, post: ScrapedPost, outDir: Path)
    requires post.extraImageCount.Some? && post.extraImageCount.value > 0
    requires post.imageCount == |post.images| + post.extraImageCount.value
    ensures CountOk(fs, SpawnedTasks(post.images, PostDir(outDir, post))) < post.imageCount
  {
  }

  /** Every joined task ends up counted either in `downloaded` or among the errors. */
  lemma ExecCountsEveryTask(fs: FileSystem, tasks: seq<Task>, order: seq<Task>)
    requires multiset(order) == multiset(tasks)
    ensures CountOk(fs, order) + CountErr(fs, order) == |tasks|
  {
    OkPlusErr(fs, order);
    assert |order| == |multiset(order)|;
  }
}
