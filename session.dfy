/**
 * The scrape session of the client, as pure definitions: the status
 * record, the state the client keeps, and what `scrape`,
 * `downloadSelectedContent`, `cancelScraping` and `reset` do to it. The
 * server endpoints, the abort signal and the runtime's `TypeError` text are
 * parameters. Every status assignment is recorded in `shown`, the sequence
 * of values the reactive `status` takes, so that properties of the whole
 * run (the order of the stages, the progress bounds) can be stated.
 */
module Session {
  import opened Wrappers
  import opened Records
  import opened Strings
  import opened Entities
  import opened Selection
  import ProcessGroup
  import ChunkDownload
  import PdfAssembly

  datatype Stage = Idle | Fetching | Parsing | Processing | Downloading | Complete | Error

  /** `progress`; `group` and `downloadProgress` are `None` when absent. */
  datatype Progress = Progress(current: int, total: int, group: Option<string>, downloadProgress: Option<int>)

  datatype Status = Status(stage: Stage, message: string, progress: Option<Progress>, error: Option<string>)

  /** `status`, `groups`, `selections`, and the abort controller: `None` for `null`, otherwise whether its signal is aborted. */
  datatype State = State(status: Status, groups: Groups, selections: Selections, controller: Option<bool>)

  const Ready: Status := Status(Idle, "Ready to start", None, None)
  const Cancelled: string := "Process cancelled by user"
  const ParseFailed: string := "Failed to parse groups"
  const NoneSelected: string := "No items selected for download"
  const DownloadCancelled: string := "Download cancelled by user"

  /** The state before anything is done. */
  function Initial(): State {
    State(Ready, Empty(), Empty(), None)
  }

  /** `isLoading`: a stage other than idle, complete and error. */
  function IsLoading(status: Status): (r: bool)
    ensures r <==> status.stage in {Fetching, Parsing, Processing, Downloading}
  {
    status.stage != Idle && status.stage != Complete && status.stage != Error
  }

  /** `/api/v1/fetch`: it throws, or answers `{success, data, error}`. */
  datatype FetchReply = FetchThrew(message: string) | FetchAnswered(success: bool, data: Option<string>, error: Option<string>)

  /** `/api/v1/parse-groups`: it throws, or answers `success` and `data` when the field is present. */
  datatype ParseReply = ParseThrew(message: string) | ParseAnswered(success: bool, data: Option<Rec<seq<string>>>)

  /** `/api/v1/process-group`: it throws, or answers `success` and the group's entries. */
  datatype GroupReply = GroupThrew(message: string) | GroupAnswered(success: bool, data: seq<LessonItem>)

  /** The endpoints the client calls, and the message of a `TypeError` thrown by the runtime. */
  datatype Client = Client(
    fetch: string -> FetchReply,
    parseGroups: Option<string> -> ParseReply,
    processGroup: ProcessGroup.Body -> GroupReply,
    download: ChunkDownload.DownloadRequest<ImageDescriptor> -> ChunkDownload.Reply,
    typeError: string)

  /** A run in progress: the state, every status shown so far, and the message thrown, if any. */
  datatype Run = Run(state: State, shown: seq<Status>, failure: Option<string>)

  /** `status.value = status` */
  function Show(run: Run, status: Status): Run {
    run.(state := run.state.(status := status), shown := run.shown + [status])
  }

  /** `throw new Error(message)` */
  function Throw(run: Run, message: string): Run {
    run.(failure := Some(message))
  }

  /** `status.value.progress?.current ?? 0` */
  function CurrentOf(status: Status): int {
    if status.progress.Some? then status.progress.value.current else 0
  }

  /** `status.value.progress?.total ?? 0` */
  function TotalOf(status: Status): int {
    if status.progress.Some? then status.progress.value.total else 0
  }

  /** `if (status.value.progress) status.value.progress.current++` */
  function Tick(run: Run): Run {
    var st := run.state.status;
    if st.progress.None? then run
    else Show(run, st.(progress := Some(st.progress.value.(current := st.progress.value.current + 1))))
  }

  /** `cancelScraping()` */
  function Cancel(state: State): State {
    if state.controller.Some? then state.(controller := Some(true), status := Status(Error, Cancelled, None, None))
    else state
  }

  /** `reset()`; `onClient` is `process.client`. An aborted controller is dropped. */
  function Reset(state: State, onClient: bool): State {
    State(Ready, Empty(), Empty(), if onClient && state.controller.Some? then None else state.controller)
  }

  // ---------------------------------------------------------------------------
  // scrape

  /** The entry created for each parsed group that has none. */
  function InitGroups(sel: Selections, names: seq<string>): Selections {
    if names == [] then sel
    else
      var n := |names| - 1;
      Ensure(InitGroups(sel, names[..n]), names[n])
  }

  /** `if (!items[title]) items[title] = false` for each title in turn. */
  function KeepOrFalse(items: Rec<bool>, titles: seq<string>): Rec<bool> {
    if titles == [] then items
    else
      var n := |titles| - 1;
      var acc := KeepOrFalse(items, titles[..n]);
      if Get(acc, titles[n]) == Some(true) then acc else Put(acc, titles[n], false)
  }

  /**
   * A successful group reply: `groups[g] = data`, then each entry's title
   * initialised in `selections[g].items`; reading `selections[g]` throws
   * when it is missing and there is an entry to initialise.
   */
  function StoreGroup(run: Run, g: string, data: seq<LessonItem>, client: Client): Run {
    var stored := run.(state := run.state.(groups := Put(run.state.groups, g, data)));
    if data == [] then stored
    else
      match Get(stored.state.selections, g)
      case None => Throw(stored, client.typeError)
      case Some(e) =>
        stored.(state := stored.state.(selections :=
          Put(stored.state.selections, g, e.(items := KeepOrFalse(e.items, Titles(data))))))
  }

  /** The body posted for group `g`: the selections only in download mode. */
  function GroupBody(run: Run, g: string, data: Rec<seq<string>>, mode: string): ProcessGroup.Body {
    ProcessGroup.Body(Some(g), Get(data, g), Some(mode), if mode == "download" then Some(run.state.selections) else None)
  }

  /** The status shown at the head of the iteration for group `g`. */
  function GroupStatus(status: Status, g: string): Status {
    Status(Processing, "Processing group: " + g, Some(Progress(CurrentOf(status), TotalOf(status), Some(g), None)), None)
  }

  /** The body of the group loop for `g`, once the abort check has passed. */
  function VisitGroup(run: Run, g: string, data: Rec<seq<string>>, mode: string, client: Client): Run {
    var head := Show(run, GroupStatus(run.state.status, g));
    match client.processGroup(GroupBody(head, g, data, mode))
    case GroupThrew(m) => Throw(head, m)
    case GroupAnswered(ok, items) =>
      var after := if ok then StoreGroup(head, g, items, client) else head;
      if after.failure.Some? then after else Tick(after)
  }

  /** Whether the signal reads aborted at the head of iteration `i`; `cancelAt` is the first iteration at which it does. */
  predicate Aborted(cancelAt: Option<nat>, i: nat) {
    cancelAt.Some? && cancelAt.value <= i
  }

  /** Iteration `i` of the group loop, for group `g`. */
  function GroupStep(run: Run, i: nat, g: string, data: Rec<seq<string>>, mode: string, client: Client,
                     cancelAt: Option<nat>): Run
  {
    if run.failure.Some? then run
    else if Aborted(cancelAt, i) then Throw(run, Cancelled)
    else VisitGroup(run, g, data, mode, client)
  }

  /** The group loop over the given names (a prefix of the parsed group names). */
  function GroupsLoop(names: seq<string>, data: Rec<seq<string>>, mode: string, client: Client,
                      cancelAt: Option<nat>, init: Run): Run
  {
    if names == [] then init
    else
      var n := |names| - 1;
      GroupStep(GroupsLoop(names[..n], data, mode, client, cancelAt, init), n, names[n], data, mode, client, cancelAt)
  }

  /** The status shown once the groups are parsed. */
  function ProcessingStatus(total: nat): Status {
    Status(Processing, "Processing groups...", Some(Progress(0, total, None, None)), None)
  }

  /** The groups parsed from the page at `url`, when both requests succeed. */
  function ParsedData(url: string, client: Client): Option<Rec<seq<string>>> {
    match client.fetch(url)
    case FetchThrew(_) => None
    case FetchAnswered(ok, html, _) =>
      if !ok then None
      else
        match client.parseGroups(html)
        case ParseThrew(_) => None
        case ParseAnswered(ok2, data) => if !ok2 then None else data
  }

  /** The `try` block of `scrape`, up to the error it throws. */
  function ScrapeRun(state: State, url: string, mode: string, client: Client, cancelAt: Option<nat>): Run {
    var r0 := Show(Run(state.(controller := Some(false)), [], None), Status(Fetching, "Fetching webpage content...", None, None));
    match client.fetch(url)
    case FetchThrew(m) => Throw(r0, m)
    case FetchAnswered(ok, html, error) =>
      if !ok then Throw(r0, error.GetOr(""))
      else
        var r1 := Show(r0, Status(Parsing, "Parsing course groups...", None, None));
        match client.parseGroups(html)
        case ParseThrew(m) => Throw(r1, m)
        case ParseAnswered(ok2, data) =>
          if !ok2 || data.None? then Throw(r1, ParseFailed)
          else
            var r2 := Show(r1, ProcessingStatus(|data.value.keys|));
            var r3 := r2.(state := r2.state.(selections := InitGroups(r2.state.selections, data.value.keys)));
            GroupsLoop(data.value.keys, data.value, mode, client, cancelAt, r3)
  }

  /** The last status (`complete`, or `error` with the message) and `abortController = null`. */
  function FinishScrape(run: Run): Run {
    var done := if run.failure.None? then Show(run, Status(Complete, "All groups processed successfully", None, None))
      else Show(run, Status(Error, "An error occurred", None, run.failure));
    done.(state := done.state.(controller := None))
  }

  /** `scrape(url, mode = "preview")` */
  function Scrape(state: State, url: string, mode: Option<string>, client: Client, cancelAt: Option<nat>): Run {
    FinishScrape(ScrapeRun(state, url, mode.GetOr("preview"), client, cancelAt))
  }

  /** What `scrape` returns. */
  datatype ScrapeResult = ScrapeOk(data: Groups) | ScrapeErr(error: string)

  function ResultOf(run: Run): ScrapeResult {
    if run.failure.None? then ScrapeOk(run.state.groups) else ScrapeErr(run.failure.value)
  }

  lemma GroupsLoopStep(names: seq<string>, i: nat, data: Rec<seq<string>>, mode: string, client: Client,
                       cancelAt: Option<nat>, init: Run)
    requires i < |names|
    ensures GroupsLoop(names[..i + 1], data, mode, client, cancelAt, init) ==
      GroupStep(GroupsLoop(names[..i], data, mode, client, cancelAt, init), i, names[i], data, mode, client, cancelAt)
  {
    assert names[..i + 1][..i] == names[..i];
  }

  lemma {:induction false} GroupsSticky(names: seq<string>, i: nat, data: Rec<seq<string>>, mode: string, client: Client,
                                        cancelAt: Option<nat>, init: Run)
    requires i <= |names| && GroupsLoop(names[..i], data, mode, client, cancelAt, init).failure.Some?
    ensures GroupsLoop(names, data, mode, client, cancelAt, init) == GroupsLoop(names[..i], data, mode, client, cancelAt, init)
    decreases |names| - i
  {
    if i < |names| {
      GroupsLoopStep(names, i, data, mode, client, cancelAt, init);
      GroupsSticky(names, i + 1, data, mode, client, cancelAt, init);
    } else {
      assert names[..i] == names;
    }
  }

  // ---------------------------------------------------------------------------
  // downloadSelectedContent

  /** `groups[g].find(i => i.title === t)`: the first entry with that title. */
  function Find(items: seq<LessonItem>, t: string): (r: Option<LessonItem>)
    ensures r.Some? ==> r.value in items && r.value.title == t
    ensures r.None? <==> forall k | 0 <= k < |items| :: items[k].title != t
    ensures r.Some? ==> exists k | 0 <= k < |items| :: items[k] == r.value && forall j | 0 <= j < k :: items[j].title != t
  {
    if items == [] then None
    else if items[0].title == t then Some(items[0])
    else
      var r := Find(items[1..], t);
      assert r.Some? ==> exists k | 0 <= k < |items| :: items[k] == r.value && forall j | 0 <= j < k :: items[j].title != t by {
        if r.Some? {
          var rest := items[1..];
          var k :| 0 <= k < |rest| && rest[k] == r.value && forall j | 0 <= j < k :: rest[j].title != t;
          assert forall j | 0 <= j < k + 1 :: items[j].title != t by {
            forall j | 0 <= j < k + 1
              ensures items[j].title != t
            {
              if j > 0 {
                assert items[j] == rest[j - 1];
              }
            }
          }
          assert items[k + 1] == r.value;
        }
      }
      r
  }

  /** A run of the download loop: the run, the requests `downloadContent` posted, and the files it saved. */
  datatype DownloadRun = DownloadRun(
    run: Run,
    requests: seq<ChunkDownload.DownloadRequest<ImageDescriptor>>,
    files: seq<(string, seq<ChunkDownload.byte>)>)

  /** The status shown before title `t` of group `g`. */
  function TitleStatus(status: Status, g: string, t: string): Status {
    Status(Downloading, "Downloading " + g + " - " + t + "...",
           Some(Progress(CurrentOf(status), TotalOf(status), Some(g), Some(0))), None)
  }

  /** The loop body for title `t` of group `g`: the status, then `downloadContent` when the entry is found. */
  function DownloadTitle(d: DownloadRun, g: string, t: string, quality: string, client: Client): DownloadRun {
    if d.run.failure.Some? then d
    else
      var head := Show(d.run, TitleStatus(d.run.state.status, g, t));
      match Get(head.state.groups, g)
      case None => d.(run := Throw(head, client.typeError))
      case Some(items) =>
        match Find(items, t)
        case None => d.(run := head)
        case Some(item) =>
          var sent := d.requests + [ChunkDownload.DownloadRequest(g, t, item.images, quality)];
          match ChunkDownload.DownloadSpec(false, g, t, item.images, Some(quality), client.download)
          case Saved(name, bytes) => DownloadRun(head, sent, d.files + [(name, bytes)])
          case Failed(m) => DownloadRun(Throw(head, m), sent, d.files)
          case NoBody => DownloadRun(Throw(head, client.typeError), sent, d.files)
          case SkippedOnServer => DownloadRun(head, sent, d.files)
  }

  /** The titles of group `g`, in order. */
  function TitlesLoop(titles: seq<string>, g: string, quality: string, client: Client, init: DownloadRun): DownloadRun {
    if titles == [] then init
    else
      var n := |titles| - 1;
      DownloadTitle(TitlesLoop(titles[..n], g, quality, client, init), g, titles[n], quality, client)
  }

  /** One group: its titles, then `progress.current++`. */
  function GroupDownload(d: DownloadRun, g: string, titles: seq<string>, quality: string, client: Client): DownloadRun {
    var after := TitlesLoop(titles, g, quality, client, d);
    if after.run.failure.Some? then after else after.(run := Tick(after.run))
  }

  /** Whether group `i` opens a chunk of `CHUNK_SIZE = 2` groups (`i` is even). */
  function ChunkHead(i: nat): bool {
    if i < 2 then i == 0 else ChunkHead(i - 2)
  }

  /** Group `i` of the selected groups; the abort check runs at the head of each chunk of two. */
  function DownloadStep(d: DownloadRun, i: nat, g: string, selected: Rec<seq<string>>, quality: string,
                        client: Client): DownloadRun
  {
    if d.run.failure.Some? then d
    else if ChunkHead(i) && d.run.state.controller == Some(true) then d.(run := Throw(d.run, DownloadCancelled))
    else
      match Get(selected, g)
      case None => d.(run := Throw(d.run, client.typeError))
      case Some(titles) => GroupDownload(d, g, titles, quality, client)
  }

  function DownloadsLoop(names: seq<string>, selected: Rec<seq<string>>, quality: string, client: Client,
                         init: DownloadRun): DownloadRun
  {
    if names == [] then init
    else
      var n := |names| - 1;
      DownloadStep(DownloadsLoop(names[..n], selected, quality, client, init), n, names[n], selected, quality, client)
  }

  function PreparingStatus(total: nat): Status {
    Status(Downloading, "Preparing downloads...", Some(Progress(0, total, None, None)), None)
  }

  /** The last status: `complete`, or `error` with the message that is rethrown. */
  function FinishDownload(run: Run): Run {
    if run.failure.None? then Show(run, Status(Complete, "All downloads completed successfully", None, None))
    else Show(run, Status(Error, "Download failed", None, run.failure))
  }

  /** The `try` block of `downloadSelectedContent`, up to the error it throws. */
  function DownloadTry(state: State, quality: Option<string>, client: Client): DownloadRun {
    var selected := SelectedItems(state.selections);
    var names := selected.keys;
    var start := DownloadRun(Run(state, [], None), [], []);
    if names == [] then start.(run := Throw(start.run, NoneSelected))
    else DownloadsLoop(names, selected, quality.GetOr(PdfAssembly.DefaultTier), client,
                       start.(run := Show(start.run, PreparingStatus(|names|))))
  }

  /** `downloadSelectedContent(quality = "320p")` */
  function DownloadSelected(state: State, quality: Option<string>, client: Client): DownloadRun {
    var d := DownloadTry(state, quality, client);
    d.(run := FinishDownload(d.run))
  }

  lemma TitlesLoopStep(titles: seq<string>, j: nat, g: string, quality: string, client: Client, init: DownloadRun)
    requires j < |titles|
    ensures TitlesLoop(titles[..j + 1], g, quality, client, init) ==
      DownloadTitle(TitlesLoop(titles[..j], g, quality, client, init), g, titles[j], quality, client)
  {
    assert titles[..j + 1][..j] == titles[..j];
  }

  lemma {:induction false} TitlesSticky(titles: seq<string>, j: nat, g: string, quality: string, client: Client,
                                        init: DownloadRun)
    requires j <= |titles| && TitlesLoop(titles[..j], g, quality, client, init).run.failure.Some?
    ensures TitlesLoop(titles, g, quality, client, init) == TitlesLoop(titles[..j], g, quality, client, init)
    decreases |titles| - j
  {
    if j < |titles| {
      TitlesLoopStep(titles, j, g, quality, client, init);
      TitlesSticky(titles, j + 1, g, quality, client, init);
    } else {
      assert titles[..j] == titles;
    }
  }

  lemma DownloadsLoopStep(names: seq<string>, i: nat, selected: Rec<seq<string>>, quality: string, client: Client,
                          init: DownloadRun)
    requires i < |names|
    ensures DownloadsLoop(names[..i + 1], selected, quality, client, init) ==
      DownloadStep(DownloadsLoop(names[..i], selected, quality, client, init), i, names[i], selected, quality, client)
  {
    assert names[..i + 1][..i] == names[..i];
  }

  lemma {:induction false} DownloadsSticky(names: seq<string>, i: nat, selected: Rec<seq<string>>, quality: string,
                                           client: Client, init: DownloadRun)
    requires i <= |names| && DownloadsLoop(names[..i], selected, quality, client, init).run.failure.Some?
    ensures DownloadsLoop(names, selected, quality, client, init) == DownloadsLoop(names[..i], selected, quality, client, init)
    decreases |names| - i
  {
    if i < |names| {
      DownloadsLoopStep(names, i, selected, quality, client, init);
      DownloadsSticky(names, i + 1, selected, quality, client, init);
    } else {
      assert names[..i] == names;
    }
  }

  /**
   * `ChunkHead` is the `for (let i = 0; i < n; i += 2)` of the chunk loop
   * written as a recursion: the groups it marks, at which the abort check
   * runs, are exactly those at even indices.
   */
  lemma {:induction false} ChunkHeadEven(i: nat)
    ensures ChunkHead(i) <==> i % 2 == 0
  {
    if i >= 2 {
      ChunkHeadEven(i - 2);
    }
  }

  /** The head of chunk `c` is group `2 * c`. */
  lemma {:induction false} ChunkHeadDouble(c: nat)
    ensures ChunkHead(2 * c)
  {
    if c > 0 {
      ChunkHeadDouble(c - 1);
    }
  }

  // ---------------------------------------------------------------------------
  // scrapeLongFind: the batches of lesson links

  const BatchSize: nat := 1
  const LongTotal: nat := 2337 - 1699
  const FirstId: nat := 1690

  /** The lesson page with the given id. */
  function LessonUrl(id: nat): string {
    "https://www.zioncenter.co.kr/web/lection/" + DecimalString(id) + "/show_lection?id=cnEzS2pFN25CeUtoRk1ycUMvbXdjUT09"
  }

  /** The links of `count` consecutive ids from `first`. */
  function LessonUrls(first: nat, count: nat): (r: seq<string>)
    ensures |r| == count && forall k | 0 <= k < count :: r[k] == LessonUrl(first + k)
  {
    seq(count, k requires 0 <= k < count => LessonUrl(first + k))
  }

  /** The batches one after another. */
  function Concat(batches: seq<seq<string>>): seq<string> {
    if batches == [] then [] else Concat(batches[..|batches| - 1]) + batches[|batches| - 1]
  }

  lemma ConcatStep(batches: seq<seq<string>>, links: seq<string>)
    ensures Concat(batches + [links]) == Concat(batches) + links
  {
    assert (batches + [links])[..|batches|] == batches;
  }

  // ---------------------------------------------------------------------------
  // properties: the selections and the groups a scrape leaves

  /** Initialisation keeps every existing entry, and gives each parsed group an entry, a blank one when it had none. */
  lemma {:induction false} InitGroupsEffect(sel: Selections, names: seq<string>)
    ensures var r := InitGroups(sel, names);
      forall g | g in sel.vals :: g in r.vals && r.vals[g] == sel.vals[g]
    ensures var r := InitGroups(sel, names);
      forall g | g in names :: g in r.vals && (g !in sel.vals ==> r.vals[g] == Blank())
    ensures forall g | g !in names :: Get(InitGroups(sel, names), g) == Get(sel, g)
  {
    if names != [] {
      var n := |names| - 1;
      InitGroupsEffect(sel, names[..n]);
      assert names == names[..n] + [names[n]];
    }
  }

  /** Title initialisation: a listed title that is not `true` becomes `false`; a `true` survives; other titles are untouched. */
  lemma {:induction false} KeepOrFalseGet(items: Rec<bool>, titles: seq<string>, t: string)
    ensures Get(KeepOrFalse(items, titles), t) ==
      if t in titles && Get(items, t) != Some(true) then Some(false) else Get(items, t)
  {
    if titles != [] {
      var n := |titles| - 1;
      KeepOrFalseGet(items, titles[..n], t);
      assert titles == titles[..n] + [titles[n]];
    }
  }

  lemma KeepOrFalseStep(items: Rec<bool>, titles: seq<string>, i: nat)
    requires i < |titles|
    ensures var acc := KeepOrFalse(items, titles[..i]);
      KeepOrFalse(items, titles[..i + 1]) == if Get(acc, titles[i]) == Some(true) then acc else Put(acc, titles[i], false)
  {
    assert titles[..i + 1][..i] == titles[..i];
  }

  /** Every entry of `a` is in `b` with the same flag, and every `true` title of `a` is still `true` in `b`. */
  ghost predicate Keeps(a: Selections, b: Selections) {
    forall g | g in a.vals ::
      g in b.vals && b.vals[g].selected == a.vals[g].selected &&
      forall t | Get(a.vals[g].items, t) == Some(true) :: Get(b.vals[g].items, t) == Some(true)
  }

  lemma KeepsTrans(a: Selections, b: Selections, c: Selections)
    requires Keeps(a, b) && Keeps(b, c)
    ensures Keeps(a, c)
  {
  }

  lemma VisitGroupKeeps(run: Run, g: string, data: Rec<seq<string>>, mode: string, client: Client)
    ensures var r := VisitGroup(run, g, data, mode, client);
      Keeps(run.state.selections, r.state.selections) && run.state.groups.vals.Keys <= r.state.groups.vals.Keys
  {
    var head := Show(run, GroupStatus(run.state.status, g));
    match client.processGroup(GroupBody(head, g, data, mode))
    case GroupThrew(_) =>
    case GroupAnswered(ok, items) =>
      var sel := run.state.selections;
      if ok && items != [] && g in sel.vals {
        var e := sel.vals[g];
        var e' := e.(items := KeepOrFalse(e.items, Titles(items)));
        forall t | Get(e.items, t) == Some(true)
          ensures Get(e'.items, t) == Some(true)
        {
          KeepOrFalseGet(e.items, Titles(items), t);
        }
        assert Keeps(sel, Put(sel, g, e'));
      }
  }

  lemma {:induction false} GroupsLoopKeeps(names: seq<string>, data: Rec<seq<string>>, mode: string, client: Client,
                                           cancelAt: Option<nat>, init: Run)
    ensures var r := GroupsLoop(names, data, mode, client, cancelAt, init);
      Keeps(init.state.selections, r.state.selections) && init.state.groups.vals.Keys <= r.state.groups.vals.Keys
  {
    if names != [] {
      var n := |names| - 1;
      var prev := GroupsLoop(names[..n], data, mode, client, cancelAt, init);
      GroupsLoopKeeps(names[..n], data, mode, client, cancelAt, init);
      if prev.failure.None? && !Aborted(cancelAt, n) {
        VisitGroupKeeps(prev, names[n], data, mode, client);
        KeepsTrans(init.state.selections, prev.state.selections,
                   GroupsLoop(names, data, mode, client, cancelAt, init).state.selections);
      }
    }
  }

  /**
   * A scrape never drops a selection: every entry keeps its flag and every
   * `true` title stays `true`; groups stored earlier stay stored, whatever
   * fails; and once the groups are parsed, each of them has an entry.
   */
  lemma ScrapeKeepsChoices(state: State, url: string, mode: Option<string>, client: Client, cancelAt: Option<nat>)
    ensures var run := Scrape(state, url, mode, client, cancelAt);
      Keeps(state.selections, run.state.selections) && state.groups.vals.Keys <= run.state.groups.vals.Keys
    ensures var run := Scrape(state, url, mode, client, cancelAt);
      ParsedData(url, client).Some? ==> forall g | g in ParsedData(url, client).value.keys :: g in run.state.selections.vals
  {
    var m := mode.GetOr("preview");
    var data := ParsedData(url, client);
    if data.Some? {
      var keys := data.value.keys;
      var r0 := Show(Run(state.(controller := Some(false)), [], None), Status(Fetching, "Fetching webpage content...", None, None));
      var r1 := Show(r0, Status(Parsing, "Parsing course groups...", None, None));
      var r2 := Show(r1, ProcessingStatus(|keys|));
      var r3 := r2.(state := r2.state.(selections := InitGroups(r2.state.selections, keys)));
      assert ScrapeRun(state, url, m, client, cancelAt) == GroupsLoop(keys, data.value, m, client, cancelAt, r3);
      InitGroupsEffect(state.selections, keys);
      assert Keeps(state.selections, r3.state.selections);
      GroupsLoopKeeps(keys, data.value, m, client, cancelAt, r3);
      KeepsTrans(state.selections, r3.state.selections, GroupsLoop(keys, data.value, m, client, cancelAt, r3).state.selections);
    }
  }

  /** A failed fetch or parse stores nothing: groups and selections are as they were, and the message is the one thrown. */
  lemma ScrapeEarlyFailure(state: State, url: string, mode: Option<string>, client: Client, cancelAt: Option<nat>)
    requires ParsedData(url, client).None?
    ensures var run := Scrape(state, url, mode, client, cancelAt);
      ResultOf(run).ScrapeErr? && run.state.groups == state.groups && run.state.selections == state.selections
    ensures var run := Scrape(state, url, mode, client, cancelAt);
      match client.fetch(url)
      case FetchThrew(m) => ResultOf(run) == ScrapeErr(m)
      case FetchAnswered(ok, html, error) =>
        if !ok then ResultOf(run) == ScrapeErr(error.GetOr(""))
        else
          match client.parseGroups(html)
          case ParseThrew(m) => ResultOf(run) == ScrapeErr(m)
          case ParseAnswered(_, _) => ResultOf(run) == ScrapeErr(ParseFailed)
  {
  }

  /** An abort seen at the first loop head stores no group and fails with the cancellation message. */
  lemma CancelledBeforeAnyGroup(state: State, url: string, mode: Option<string>, client: Client)
    requires ParsedData(url, client).Some? && ParsedData(url, client).value.keys != []
    ensures var run := Scrape(state, url, mode, client, Some(0));
      ResultOf(run) == ScrapeErr(Cancelled) && run.state.groups == state.groups
  {
    var m := mode.GetOr("preview");
    var data := ParsedData(url, client).value;
    var keys := data.keys;
    var r0 := Show(Run(state.(controller := Some(false)), [], None), Status(Fetching, "Fetching webpage content...", None, None));
    var r1 := Show(r0, Status(Parsing, "Parsing course groups...", None, None));
    var r2 := Show(r1, ProcessingStatus(|keys|));
    var r3 := r2.(state := r2.state.(selections := InitGroups(r2.state.selections, keys)));
    assert ScrapeRun(state, url, m, client, Some(0)) == GroupsLoop(keys, data, m, client, Some(0), r3);
    GroupsLoopStep(keys, 0, data, m, client, Some(0), r3);
    assert keys[..0] == [];
    GroupsSticky(keys, 1, data, m, client, Some(0), r3);
  }

  // ---------------------------------------------------------------------------
  // properties: the statuses a scrape shows

  /** `log` starts with `prefix`. */
  predicate Extends(log: seq<Status>, prefix: seq<Status>) {
    |prefix| <= |log| && log[..|prefix|] == prefix
  }

  /** The status carries progress `current` of `total`. */
  predicate Counted(status: Status, current: int, total: int) {
    status.progress.Some? && status.progress.value.current == current && status.progress.value.total == total
  }

  /** The status carries progress `0 <= current <= total`, with the given total. */
  predicate InRange(status: Status, total: int) {
    status.progress.Some? && 0 <= status.progress.value.current <= status.progress.value.total == total
  }

  /** Every status from position `from` on is at `stage`, with progress in range of `total`. */
  ghost predicate StatusesFrom(log: seq<Status>, from: nat, stage: Stage, total: int) {
    forall k | from <= k < |log| :: log[k].stage == stage && InRange(log[k], total)
  }

  /** `status` holds the last status shown. */
  predicate Current(run: Run) {
    |run.shown| > 0 && run.shown[|run.shown| - 1] == run.state.status
  }

  lemma ExtendsTrans(a: seq<Status>, b: seq<Status>, c: seq<Status>, stage: Stage, total: int)
    requires Extends(b, a) && Extends(c, b)
    requires StatusesFrom(b, |a|, stage, total) && StatusesFrom(c, |b|, stage, total)
    ensures Extends(c, a) && StatusesFrom(c, |a|, stage, total)
  {
    assert c[..|a|] == c[..|b|][..|a|];
    forall k | |a| <= k < |c|
      ensures c[k].stage == stage && InRange(c[k], total)
    {
      if k < |b| {
        assert c[k] == c[..|b|][k];
      }
    }
  }

  lemma VisitGroupLog(run: Run, g: string, data: Rec<seq<string>>, mode: string, client: Client, i: nat, total: int)
    requires Counted(run.state.status, i, total) && i < total
    ensures var r := VisitGroup(run, g, data, mode, client);
      Extends(r.shown, run.shown) && StatusesFrom(r.shown, |run.shown|, Processing, total) && Current(r) &&
      (r.failure.None? ==> Counted(r.state.status, i + 1, total))
  {
    var head := Show(run, GroupStatus(run.state.status, g));
    assert head.shown[..|run.shown|] == run.shown;
    match client.processGroup(GroupBody(head, g, data, mode))
    case GroupThrew(_) =>
    case GroupAnswered(ok, items) =>
      var after := if ok then StoreGroup(head, g, items, client) else head;
      assert after.shown == head.shown && after.state.status == head.state.status;
      if after.failure.None? {
        var r := Tick(after);
        assert r.shown == run.shown + [head.state.status, r.state.status];
        assert r.shown[..|run.shown|] == run.shown;
      }
  }

  lemma {:induction false} GroupsLoopLog(names: seq<string>, data: Rec<seq<string>>, mode: string, client: Client,
                                         cancelAt: Option<nat>, init: Run, total: int)
    requires |names| <= total && Counted(init.state.status, 0, total) && Current(init)
    ensures var r := GroupsLoop(names, data, mode, client, cancelAt, init);
      Extends(r.shown, init.shown) && StatusesFrom(r.shown, |init.shown|, Processing, total) && Current(r) &&
      (r.failure.None? ==> Counted(r.state.status, |names|, total))
  {
    if names == [] {
      assert init.shown[..|init.shown|] == init.shown;
    } else {
      var n := |names| - 1;
      var prev := GroupsLoop(names[..n], data, mode, client, cancelAt, init);
      GroupsLoopLog(names[..n], data, mode, client, cancelAt, init, total);
      if prev.failure.None? && !Aborted(cancelAt, n) {
        var r := VisitGroup(prev, names[n], data, mode, client);
        VisitGroupLog(prev, names[n], data, mode, client, n, total);
        ExtendsTrans(init.shown, prev.shown, r.shown, Processing, total);
      }
    }
  }

  /** The stage order: idle, fetching, parsing, processing and downloading, then complete or error. */
  function Rank(stage: Stage): nat {
    match stage
    case Idle => 0
    case Fetching => 1
    case Parsing => 2
    case Processing => 3
    case Downloading => 3
    case Complete => 4
    case Error => 4
  }

  /** The stages never go back. */
  ghost predicate Ordered(log: seq<Status>) {
    forall i, j | 0 <= i < j < |log| :: Rank(log[i].stage) <= Rank(log[j].stage)
  }

  /** Every status that carries progress has `0 <= current <= total`. */
  ghost predicate Bounded(log: seq<Status>) {
    forall k | 0 <= k < |log| :: log[k].progress.Some? ==> 0 <= log[k].progress.value.current <= log[k].progress.value.total
  }

  /** Fetching, then parsing, then processing from then on. */
  ghost predicate Staged(log: seq<Status>) {
    forall k | 0 <= k < |log| :: Rank(log[k].stage) == if k < 3 then k + 1 else 3
  }

  lemma ScrapeRunLog(state: State, url: string, mode: string, client: Client, cancelAt: Option<nat>)
    ensures var r := ScrapeRun(state, url, mode, client, cancelAt);
      Staged(r.shown) && Bounded(r.shown) && Current(r) && r.state.controller == Some(false)
    ensures var r := ScrapeRun(state, url, mode, client, cancelAt);
      r.failure.None? ==>
        (ParsedData(url, client).Some? &&
         Counted(r.state.status, |ParsedData(url, client).value.keys|, |ParsedData(url, client).value.keys|))
  {
    var r0 := Show(Run(state.(controller := Some(false)), [], None), Status(Fetching, "Fetching webpage content...", None, None));
    assert r0.shown == [Status(Fetching, "Fetching webpage content...", None, None)];
    if client.fetch(url).FetchAnswered? && client.fetch(url).success {
      FetchedRunLog(state, url, mode, client, cancelAt);
    }
  }

  /** `ScrapeRunLog` once the page is fetched. */
  lemma FetchedRunLog(state: State, url: string, mode: string, client: Client, cancelAt: Option<nat>)
    requires client.fetch(url).FetchAnswered? && client.fetch(url).success
    ensures var r := ScrapeRun(state, url, mode, client, cancelAt);
      Staged(r.shown) && Bounded(r.shown) && Current(r) && r.state.controller == Some(false)
    ensures var r := ScrapeRun(state, url, mode, client, cancelAt);
      r.failure.None? ==>
        (ParsedData(url, client).Some? &&
         Counted(r.state.status, |ParsedData(url, client).value.keys|, |ParsedData(url, client).value.keys|))
  {
    var r0 := Show(Run(state.(controller := Some(false)), [], None), Status(Fetching, "Fetching webpage content...", None, None));
    var r1 := Show(r0, Status(Parsing, "Parsing course groups...", None, None));
    assert r1.shown == [Status(Fetching, "Fetching webpage content...", None, None), Status(Parsing, "Parsing course groups...", None, None)];
    var parsed := client.parseGroups(client.fetch(url).data);
    if parsed.ParseAnswered? && parsed.success && parsed.data.Some? {
      var keys := parsed.data.value.keys;
      var r2 := Show(r1, ProcessingStatus(|keys|));
      var r3 := r2.(state := r2.state.(selections := InitGroups(r2.state.selections, keys)));
      assert r3.shown == r1.shown + [ProcessingStatus(|keys|)];
      assert Staged(r3.shown) && Bounded(r3.shown);
      ProcessingLog(keys, parsed.data.value, mode, client, cancelAt, r3);
    }
  }

  /** After the three opening statuses, the group loop keeps the log staged and in range, and keeps the controller. */
  lemma ProcessingLog(keys: seq<string>, data: Rec<seq<string>>, mode: string, client: Client, cancelAt: Option<nat>,
                      r3: Run)
    requires |r3.shown| == 3 && Staged(r3.shown) && Bounded(r3.shown) && Current(r3)
    requires Counted(r3.state.status, 0, |keys|)
    ensures var r := GroupsLoop(keys, data, mode, client, cancelAt, r3);
      Staged(r.shown) && Bounded(r.shown) && Current(r) && r.state.controller == r3.state.controller &&
      (r.failure.None? ==> Counted(r.state.status, |keys|, |keys|))
  {
    var r := GroupsLoop(keys, data, mode, client, cancelAt, r3);
    GroupsLoopLog(keys, data, mode, client, cancelAt, r3, |keys|);
    assert r.shown[..3] == r3.shown;
    forall k | 0 <= k < |r.shown|
      ensures Rank(r.shown[k].stage) == (if k < 3 then k + 1 else 3)
      ensures r.shown[k].progress.Some? ==> 0 <= r.shown[k].progress.value.current <= r.shown[k].progress.value.total
    {
      if k < 3 {
        assert r.shown[k] == r3.shown[k];
      }
    }
    GroupsControllerKept(keys, data, mode, client, cancelAt, r3);
  }

  lemma {:induction false} GroupsControllerKept(names: seq<string>, data: Rec<seq<string>>, mode: string, client: Client,
                                                cancelAt: Option<nat>, init: Run)
    ensures GroupsLoop(names, data, mode, client, cancelAt, init).state.controller == init.state.controller
  {
    if names != [] {
      GroupsControllerKept(names[..|names| - 1], data, mode, client, cancelAt, init);
    }
  }

  /**
   * A scrape starts at `fetching` and ends at `complete` exactly when it
   * succeeds, at `error` with the message otherwise; it is no longer
   * loading, and the controller is dropped.
   */
  lemma ScrapeEnds(state: State, url: string, mode: Option<string>, client: Client, cancelAt: Option<nat>)
    ensures var run := Scrape(state, url, mode, client, cancelAt);
      |run.shown| >= 2 && run.shown[0].stage == Fetching && Current(run) &&
      !IsLoading(run.state.status) && run.state.controller == None
    ensures var run := Scrape(state, url, mode, client, cancelAt);
      ResultOf(run).ScrapeOk? <==> run.state.status == Status(Complete, "All groups processed successfully", None, None)
    ensures var run := Scrape(state, url, mode, client, cancelAt);
      ResultOf(run).ScrapeErr? ==> run.state.status == Status(Error, "An error occurred", None, Some(ResultOf(run).error))
  {
    ScrapeRunLog(state, url, mode.GetOr("preview"), client, cancelAt);
  }

  /**
   * The statuses of a scrape go fetching, parsing, processing, then
   * complete or error, never back; every progress shown has
   * `0 <= current <= total`.
   */
  lemma ScrapeStages(state: State, url: string, mode: Option<string>, client: Client, cancelAt: Option<nat>)
    ensures var run := Scrape(state, url, mode, client, cancelAt);
      Ordered(run.shown) && Bounded(run.shown)
  {
    var r := ScrapeRun(state, url, mode.GetOr("preview"), client, cancelAt);
    ScrapeRunLog(state, url, mode.GetOr("preview"), client, cancelAt);
    var run := Scrape(state, url, mode, client, cancelAt);
    assert run.shown == r.shown + [run.state.status];
    assert Rank(run.state.status.stage) == 4;
    forall i, j | 0 <= i < j < |run.shown|
      ensures Rank(run.shown[i].stage) <= Rank(run.shown[j].stage)
    {
      if j < |r.shown| {
        assert run.shown[i] == r.shown[i] && run.shown[j] == r.shown[j];
      } else {
        assert run.shown[i] == r.shown[i];
      }
    }
    forall k | 0 <= k < |run.shown| && run.shown[k].progress.Some?
      ensures 0 <= run.shown[k].progress.value.current <= run.shown[k].progress.value.total
    {
      assert k < |r.shown|;
      assert run.shown[k] == r.shown[k];
    }
  }

  /**
   * A successful scrape counted every group: the status before the last
   * one has `current == total`, the number of parsed groups.
   */
  lemma ScrapeCountsEveryGroup(state: State, url: string, mode: Option<string>, client: Client, cancelAt: Option<nat>)
    ensures var run := Scrape(state, url, mode, client, cancelAt);
      ResultOf(run).ScrapeOk? ==>
        ParsedData(url, client).Some? && |run.shown| >= 2 &&
        Counted(run.shown[|run.shown| - 2], |ParsedData(url, client).value.keys|, |ParsedData(url, client).value.keys|)
  {
    ScrapeRunLog(state, url, mode.GetOr("preview"), client, cancelAt);
  }

  // ---------------------------------------------------------------------------
  // properties: downloadSelectedContent

  lemma TitleLog(d: DownloadRun, g: string, t: string, quality: string, client: Client, i: nat, total: int)
    requires d.run.failure.None? && Counted(d.run.state.status, i, total) && i < total
    ensures var r := DownloadTitle(d, g, t, quality, client);
      Extends(r.run.shown, d.run.shown) && StatusesFrom(r.run.shown, |d.run.shown|, Downloading, total) &&
      Current(r.run) && r.run.state.status.stage == Downloading &&
      (r.run.failure.None? ==> Counted(r.run.state.status, i, total))
  {
    var head := Show(d.run, TitleStatus(d.run.state.status, g, t));
    assert head.shown[..|d.run.shown|] == d.run.shown;
  }

  lemma {:induction false} TitlesLoopLog(titles: seq<string>, g: string, quality: string, client: Client,
                                         init: DownloadRun, i: nat, total: int)
    requires init.run.failure.None? && Counted(init.run.state.status, i, total) && i < total
    requires Current(init.run) && init.run.state.status.stage == Downloading
    ensures var r := TitlesLoop(titles, g, quality, client, init);
      Extends(r.run.shown, init.run.shown) && StatusesFrom(r.run.shown, |init.run.shown|, Downloading, total) &&
      Current(r.run) && r.run.state.status.stage == Downloading &&
      (r.run.failure.None? ==> Counted(r.run.state.status, i, total))
  {
    if titles == [] {
      assert init.run.shown[..|init.run.shown|] == init.run.shown;
    } else {
      var n := |titles| - 1;
      var prev := TitlesLoop(titles[..n], g, quality, client, init);
      TitlesLoopLog(titles[..n], g, quality, client, init, i, total);
      if prev.run.failure.None? {
        TitleLog(prev, g, titles[n], quality, client, i, total);
        ExtendsTrans(init.run.shown, prev.run.shown, DownloadTitle(prev, g, titles[n], quality, client).run.shown,
                     Downloading, total);
      }
    }
  }

  lemma GroupDownloadLog(d: DownloadRun, g: string, titles: seq<string>, quality: string, client: Client,
                         i: nat, total: int)
    requires d.run.failure.None? && Counted(d.run.state.status, i, total) && i < total
    requires Current(d.run) && d.run.state.status.stage == Downloading
    ensures var r := GroupDownload(d, g, titles, quality, client);
      Extends(r.run.shown, d.run.shown) && StatusesFrom(r.run.shown, |d.run.shown|, Downloading, total) &&
      Current(r.run) && r.run.state.status.stage == Downloading &&
      (r.run.failure.None? ==> Counted(r.run.state.status, i + 1, total))
  {
    var after := TitlesLoop(titles, g, quality, client, d);
    TitlesLoopLog(titles, g, quality, client, d, i, total);
    if after.run.failure.None? {
      var r := Tick(after.run);
      assert r.shown == after.run.shown + [r.state.status];
      assert r.shown[..|after.run.shown|] == after.run.shown;
      ExtendsTrans(d.run.shown, after.run.shown, r.shown, Downloading, total);
    }
  }

  lemma DownloadStepLog(d: DownloadRun, i: nat, g: string, selected: Rec<seq<string>>, quality: string, client: Client,
                        total: int)
    requires d.run.failure.None? && Counted(d.run.state.status, i, total) && i < total
    requires Current(d.run) && d.run.state.status.stage == Downloading
    ensures var r := DownloadStep(d, i, g, selected, quality, client);
      Extends(r.run.shown, d.run.shown) && StatusesFrom(r.run.shown, |d.run.shown|, Downloading, total) &&
      Current(r.run) && r.run.state.status.stage == Downloading &&
      (r.run.failure.None? ==> Counted(r.run.state.status, i + 1, total))
  {
    if !(ChunkHead(i) && d.run.state.controller == Some(true)) && Get(selected, g).Some? {
      GroupDownloadLog(d, g, Get(selected, g).value, quality, client, i, total);
    } else {
      assert d.run.shown[..|d.run.shown|] == d.run.shown;
    }
  }

  lemma {:induction false} DownloadsLoopLog(names: seq<string>, selected: Rec<seq<string>>, quality: string,
                                            client: Client, init: DownloadRun, total: int)
    requires |names| <= total && init.run.failure.None? && Counted(init.run.state.status, 0, total)
    requires Current(init.run) && init.run.state.status.stage == Downloading
    ensures var r := DownloadsLoop(names, selected, quality, client, init);
      Extends(r.run.shown, init.run.shown) && StatusesFrom(r.run.shown, |init.run.shown|, Downloading, total) &&
      Current(r.run) && r.run.state.status.stage == Downloading &&
      (r.run.failure.None? ==> Counted(r.run.state.status, |names|, total))
  {
    if names == [] {
      assert init.run.shown[..|init.run.shown|] == init.run.shown;
    } else {
      var n := |names| - 1;
      var prev := DownloadsLoop(names[..n], selected, quality, client, init);
      DownloadsLoopLog(names[..n], selected, quality, client, init, total);
      if prev.run.failure.None? {
        DownloadStepLog(prev, n, names[n], selected, quality, client, total);
        ExtendsTrans(init.run.shown, prev.run.shown,
                     DownloadsLoop(names, selected, quality, client, init).run.shown, Downloading, total);
      }
    }
  }

  /**
   * `downloadSelectedContent`: with nothing selected it fails at once with
   * "No items selected for download" and requests nothing; otherwise it
   * ends at `complete` exactly when nothing was thrown, at `error` with the
   * message otherwise. The stages never go back, every progress shown is
   * in range, and a successful run counted every selected group.
   */
  lemma DownloadEnds(state: State, quality: Option<string>, client: Client)
    ensures var d := DownloadSelected(state, quality, client);
      SelectedItems(state.selections).keys == [] ==>
        d.run.failure == Some(NoneSelected) && d.requests == [] && d.files == [] &&
        d.run.shown == [Status(Error, "Download failed", None, Some(NoneSelected))]
    ensures var d := DownloadSelected(state, quality, client);
      Current(d.run) && !IsLoading(d.run.state.status) && Ordered(d.run.shown) && Bounded(d.run.shown)
    ensures var d := DownloadSelected(state, quality, client);
      d.run.failure.None? <==> d.run.state.status == Status(Complete, "All downloads completed successfully", None, None)
    ensures var d := DownloadSelected(state, quality, client);
      d.run.failure.Some? ==> d.run.state.status == Status(Error, "Download failed", None, d.run.failure)
    ensures var d := DownloadSelected(state, quality, client);
      var n := |SelectedItems(state.selections).keys|;
      d.run.failure.None? ==> |d.run.shown| >= 2 && Counted(d.run.shown[|d.run.shown| - 2], n, n)
  {
    var selected := SelectedItems(state.selections);
    var names := selected.keys;
    if names != [] {
      var start := DownloadRun(Run(state, [], None), [], []);
      var init := start.(run := Show(start.run, PreparingStatus(|names|)));
      var loop := DownloadsLoop(names, selected, quality.GetOr(PdfAssembly.DefaultTier), client, init);
      DownloadsLoopLog(names, selected, quality.GetOr(PdfAssembly.DefaultTier), client, init, |names|);
      var d := DownloadSelected(state, quality, client);
      assert d.run.shown == loop.run.shown + [d.run.state.status];
      assert loop.run.shown[..1] == [PreparingStatus(|names|)];
      forall k | 0 <= k < |loop.run.shown|
        ensures Rank(loop.run.shown[k].stage) == 3
        ensures loop.run.shown[k].progress.Some? ==> 0 <= loop.run.shown[k].progress.value.current <= loop.run.shown[k].progress.value.total
      {
        if k == 0 {
          assert loop.run.shown[k] == loop.run.shown[..1][0];
        }
      }
      FinishLog(loop.run);
    }
  }

  /** A log at stage rank 3 with progress in range stays ordered and in range once the final status is shown. */
  lemma FinishLog(run: Run)
    requires forall k | 0 <= k < |run.shown| :: Rank(run.shown[k].stage) == 3
    requires Bounded(run.shown)
    ensures Ordered(FinishDownload(run).shown) && Bounded(FinishDownload(run).shown)
  {
    var log := FinishDownload(run).shown;
    assert log == run.shown + [log[|log| - 1]];
    forall i, j | 0 <= i < j < |log|
      ensures Rank(log[i].stage) <= Rank(log[j].stage)
    {
      assert log[i] == run.shown[i];
      if j < |run.shown| {
        assert log[j] == run.shown[j];
      }
    }
    forall k | 0 <= k < |log| && log[k].progress.Some?
      ensures 0 <= log[k].progress.value.current <= log[k].progress.value.total
    {
      assert k < |run.shown|;
      assert log[k] == run.shown[k];
    }
  }

  /** `groups[r.groupName]` has an entry titled `r.lessonName`, and `r` posts that entry's images. */
  predicate Found(groups: Groups, r: ChunkDownload.DownloadRequest<ImageDescriptor>) {
    r.groupName in groups.vals && Find(groups.vals[r.groupName], r.lessonName) == Some(LessonItem(r.lessonName, r.images))
  }

  /** Only the status changes. */
  predicate SameButStatus(a: State, b: State) {
    a.groups == b.groups && a.selections == b.selections && a.controller == b.controller
  }

  lemma TitleRequests(d: DownloadRun, g: string, t: string, quality: string, client: Client)
    ensures var r := DownloadTitle(d, g, t, quality, client);
      SameButStatus(r.run.state, d.run.state) &&
      forall x | x in r.requests ::
        x in d.requests || (x.groupName == g && x.lessonName == t && x.quality == quality && Found(d.run.state.groups, x))
  {
  }

  lemma {:induction false} TitlesLoopRequests(titles: seq<string>, g: string, quality: string, client: Client,
                                              init: DownloadRun)
    ensures var r := TitlesLoop(titles, g, quality, client, init);
      SameButStatus(r.run.state, init.run.state) &&
      forall x | x in r.requests ::
        x in init.requests ||
        (x.groupName == g && x.lessonName in titles && x.quality == quality && Found(init.run.state.groups, x))
  {
    if titles != [] {
      var n := |titles| - 1;
      var prev := TitlesLoop(titles[..n], g, quality, client, init);
      TitlesLoopRequests(titles[..n], g, quality, client, init);
      TitleRequests(prev, g, titles[n], quality, client);
      assert titles == titles[..n] + [titles[n]];
    }
  }

  lemma {:induction false} DownloadsLoopRequests(names: seq<string>, selected: Rec<seq<string>>, quality: string,
                                                 client: Client, init: DownloadRun)
    ensures var r := DownloadsLoop(names, selected, quality, client, init);
      SameButStatus(r.run.state, init.run.state) &&
      forall x | x in r.requests ::
        x in init.requests ||
        (x.groupName in selected.vals && x.lessonName in selected.vals[x.groupName] && x.quality == quality &&
         Found(init.run.state.groups, x))
  {
    if names != [] {
      var n := |names| - 1;
      var prev := DownloadsLoop(names[..n], selected, quality, client, init);
      DownloadsLoopRequests(names[..n], selected, quality, client, init);
      if prev.run.failure.None? && !(ChunkHead(n) && prev.run.state.controller == Some(true)) && names[n] in selected.vals {
        TitlesLoopRequests(selected.vals[names[n]], names[n], quality, client, prev);
      }
    }
  }

  /**
   * `downloadSelectedContent` changes nothing but `status`, and posts a
   * download only for a title that is selected (`true`) and found in
   * `groups`, with that entry's images and the requested quality.
   */
  lemma DownloadRequestsSelected(state: State, quality: Option<string>, client: Client)
    ensures var d := DownloadSelected(state, quality, client);
      SameButStatus(d.run.state, state) &&
      forall x | x in d.requests ::
        Get(ItemsOf(state.selections, x.groupName), x.lessonName) == Some(true) &&
        Found(state.groups, x) && x.quality == quality.GetOr(PdfAssembly.DefaultTier)
  {
    var selected := SelectedItems(state.selections);
    var names := selected.keys;
    if names != [] {
      var start := DownloadRun(Run(state, [], None), [], []);
      var init := start.(run := Show(start.run, PreparingStatus(|names|)));
      DownloadsLoopRequests(names, selected, quality.GetOr(PdfAssembly.DefaultTier), client, init);
      SelectedOfValues(state.selections.keys, state.selections);
      var d := DownloadSelected(state, quality, client);
      forall x | x in d.requests
        ensures Get(ItemsOf(state.selections, x.groupName), x.lessonName) == Some(true)
      {
        TrueOfExact(ItemsOf(state.selections, x.groupName).keys, ItemsOf(state.selections, x.groupName), x.lessonName);
      }
    }
  }

  /** The requests for the given titles of group `g`: one for each title `Find` locates in `items`, in order, with the entry's images. */
  function TitleRequestsFor(items: seq<LessonItem>, g: string, titles: seq<string>, quality: string)
    : seq<ChunkDownload.DownloadRequest<ImageDescriptor>>
  {
    if titles == [] then []
    else
      var n := |titles| - 1;
      TitleRequestsFor(items, g, titles[..n], quality) + TitleRequest(items, g, titles[n], quality)
  }

  /** The request for title `t`, if `Find` locates it in `items`. */
  function TitleRequest(items: seq<LessonItem>, g: string, t: string, quality: string)
    : seq<ChunkDownload.DownloadRequest<ImageDescriptor>>
  {
    match Find(items, t)
    case None => []
    case Some(item) => [ChunkDownload.DownloadRequest(g, t, item.images, quality)]
  }

  lemma DownloadTitleRequestsExact(d: DownloadRun, g: string, t: string, quality: string, client: Client)
    ensures var r := DownloadTitle(d, g, t, quality, client);
      r.run.failure.None? ==>
        d.run.failure.None? && r.run.state.groups == d.run.state.groups &&
        r.requests == d.requests + TitleRequest(Get(d.run.state.groups, g).GetOr([]), g, t, quality)
  {
  }

  /** The requests for the given selected groups, group after group, with the titles `selected` lists for each. */
  function WantedRequests(groups: Groups, names: seq<string>, selected: Rec<seq<string>>, quality: string)
    : seq<ChunkDownload.DownloadRequest<ImageDescriptor>>
  {
    if names == [] then []
    else
      var n := |names| - 1;
      WantedRequests(groups, names[..n], selected, quality) +
        TitleRequestsFor(Get(groups, names[n]).GetOr([]), names[n], Get(selected, names[n]).GetOr([]), quality)
  }

  lemma {:induction false} TitlesLoopRequestsExact(titles: seq<string>, g: string, quality: string, client: Client,
                                                   init: DownloadRun)
    ensures var r := TitlesLoop(titles, g, quality, client, init);
      r.run.failure.None? ==>
        r.run.state.groups == init.run.state.groups &&
        r.requests == init.requests + TitleRequestsFor(Get(init.run.state.groups, g).GetOr([]), g, titles, quality)
  {
    if titles != [] {
      var n := |titles| - 1;
      var prev := TitlesLoop(titles[..n], g, quality, client, init);
      TitlesLoopRequestsExact(titles[..n], g, quality, client, init);
      DownloadTitleRequestsExact(prev, g, titles[n], quality, client);
    }
  }

  lemma DownloadStepRequestsExact(d: DownloadRun, i: nat, g: string, selected: Rec<seq<string>>, quality: string,
                                  client: Client)
    ensures var r := DownloadStep(d, i, g, selected, quality, client);
      r.run.failure.None? ==>
        d.run.failure.None? && r.run.state.groups == d.run.state.groups &&
        r.requests == d.requests + TitleRequestsFor(Get(d.run.state.groups, g).GetOr([]), g, Get(selected, g).GetOr([]), quality)
  {
    if d.run.failure.None? && !(ChunkHead(i) && d.run.state.controller == Some(true)) && g in selected.vals {
      TitlesLoopRequestsExact(selected.vals[g], g, quality, client, d);
    }
  }

  lemma {:induction false} DownloadsLoopRequestsExact(names: seq<string>, selected: Rec<seq<string>>, quality: string,
                                                      client: Client, init: DownloadRun)
    ensures var r := DownloadsLoop(names, selected, quality, client, init);
      r.run.failure.None? ==>
        r.run.state.groups == init.run.state.groups &&
        r.requests == init.requests + WantedRequests(init.run.state.groups, names, selected, quality)
  {
    if names != [] {
      var n := |names| - 1;
      var prev := DownloadsLoop(names[..n], selected, quality, client, init);
      DownloadsLoopRequestsExact(names[..n], selected, quality, client, init);
      DownloadStepRequestsExact(prev, n, names[n], selected, quality, client);
    }
  }

  /**
   * A download that neither fails nor is cancelled posts exactly one
   * request for each selected title found in `groups`, group after group
   * in `getSelectedItems` order and title after title, and nothing else.
   */
  lemma DownloadRequestsExact(state: State, quality: Option<string>, client: Client)
    ensures var d := DownloadSelected(state, quality, client);
      var selected := SelectedItems(state.selections);
      d.run.failure.None? ==> d.requests == WantedRequests(state.groups, selected.keys, selected, quality.GetOr(PdfAssembly.DefaultTier))
  {
    var selected := SelectedItems(state.selections);
    var names := selected.keys;
    if names != [] {
      var start := DownloadRun(Run(state, [], None), [], []);
      var init := start.(run := Show(start.run, PreparingStatus(|names|)));
      DownloadsLoopRequestsExact(names, selected, quality.GetOr(PdfAssembly.DefaultTier), client, init);
    }
  }

  // ---------------------------------------------------------------------------
  // well-formed state

  /** `groups`, `selections` and the `items` of each selection are well-formed objects. */
  ghost predicate WellFormed(state: State) {
    Valid(state.groups) && ValidSelections(state.selections)
  }

  lemma {:induction false} KeepOrFalseValid(items: Rec<bool>, titles: seq<string>)
    requires Valid(items)
    ensures Valid(KeepOrFalse(items, titles))
  {
    if titles != [] {
      KeepOrFalseValid(items, titles[..|titles| - 1]);
    }
  }

  lemma {:induction false} InitGroupsValid(sel: Selections, names: seq<string>)
    requires ValidSelections(sel)
    ensures ValidSelections(InitGroups(sel, names))
  {
    if names != [] {
      var n := |names| - 1;
      InitGroupsValid(sel, names[..n]);
      EnsureValid(InitGroups(sel, names[..n]), names[n]);
    }
  }

  lemma VisitGroupValid(run: Run, g: string, data: Rec<seq<string>>, mode: string, client: Client)
    requires WellFormed(run.state)
    ensures WellFormed(VisitGroup(run, g, data, mode, client).state)
  {
    var head := Show(run, GroupStatus(run.state.status, g));
    match client.processGroup(GroupBody(head, g, data, mode))
    case GroupThrew(_) =>
    case GroupAnswered(ok, items) =>
      var sel := run.state.selections;
      if ok && items != [] && g in sel.vals {
        var e := sel.vals[g];
        KeepOrFalseValid(e.items, Titles(items));
        PutEntryValid(sel, g, e.(items := KeepOrFalse(e.items, Titles(items))));
      }
  }

  lemma {:induction false} GroupsLoopValid(names: seq<string>, data: Rec<seq<string>>, mode: string, client: Client,
                                           cancelAt: Option<nat>, init: Run)
    requires WellFormed(init.state)
    ensures WellFormed(GroupsLoop(names, data, mode, client, cancelAt, init).state)
  {
    if names != [] {
      var n := |names| - 1;
      var prev := GroupsLoop(names[..n], data, mode, client, cancelAt, init);
      GroupsLoopValid(names[..n], data, mode, client, cancelAt, init);
      if prev.failure.None? && !Aborted(cancelAt, n) {
        VisitGroupValid(prev, names[n], data, mode, client);
      }
    }
  }

  /** `scrape` keeps `groups` and `selections` well formed, however it ends. */
  lemma ScrapeValid(state: State, url: string, mode: Option<string>, client: Client, cancelAt: Option<nat>)
    requires WellFormed(state)
    ensures WellFormed(Scrape(state, url, mode, client, cancelAt).state)
  {
    var r0 := Show(Run(state.(controller := Some(false)), [], None), Status(Fetching, "Fetching webpage content...", None, None));
    match client.fetch(url)
    case FetchThrew(_) =>
    case FetchAnswered(ok, html, _) =>
      if ok {
        var r1 := Show(r0, Status(Parsing, "Parsing course groups...", None, None));
        match client.parseGroups(html)
        case ParseThrew(_) =>
        case ParseAnswered(ok2, data) =>
          if ok2 && data.Some? {
            var r2 := Show(r1, ProcessingStatus(|data.value.keys|));
            InitGroupsValid(r2.state.selections, data.value.keys);
            var r3 := r2.(state := r2.state.(selections := InitGroups(r2.state.selections, data.value.keys)));
            GroupsLoopValid(data.value.keys, data.value, mode.GetOr("preview"), client, cancelAt, r3);
          }
      }
  }

  /** `downloadSelectedContent` keeps `groups` and `selections` well formed: it changes neither. */
  lemma DownloadValid(state: State, quality: Option<string>, client: Client)
    requires WellFormed(state)
    ensures WellFormed(DownloadSelected(state, quality, client).run.state)
  {
    DownloadRequestsSelected(state, quality, client);
  }
}
