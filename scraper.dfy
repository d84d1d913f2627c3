/**
 * The scrape client (`useScraper`) as an object whose reactive fields the
 * operations update in place: `status`, `groups`, `selections` and the
 * abort controller. Each method is proved to leave exactly the state that
 * the functions of `Session` and `Selection` compute from the old state,
 * and to show exactly the statuses they record, so the properties proved
 * there hold of the object.
 */
module Scraper {
  import opened Wrappers
  import opened Records
  import opened Entities
  import opened Selection
  import opened Session
  import ProcessGroup
  import ChunkDownload
  import PdfAssembly

  /** A body posted to the `download` handler. */
  type Request = ChunkDownload.DownloadRequest<ImageDescriptor>
  /** A file saved by `downloadContent`: its name and contents. */
  type SavedFile = (string, seq<ChunkDownload.byte>)

  class Scraper {
    var status: Status
    var groups: Groups
    var selections: Selections
    /** `abortController`: `None` for `null`, otherwise whether its signal is aborted. */
    var controller: Option<bool>
    /** Every value `status` has been given, oldest first. */
    ghost var shown: seq<Status>

    function Snapshot(): State
      reads this
    {
      State(status, groups, selections, controller)
    }

    /** `groups`, `selections` and each selection's `items` are well-formed objects, as JavaScript objects are. */
    ghost predicate Valid()
      reads this
    {
      WellFormed(Snapshot())
    }

    /** `useScraper()` */
    constructor ()
      ensures Valid()
      ensures Snapshot() == Initial() && shown == []
    {
      status := Ready;
      groups := Empty();
      selections := Empty();
      controller := None;
      shown := [];
    }

    /** `status.value = st` */
    method SetStatus(st: Status)
      modifies this
      ensures status == st && shown == old(shown) + [st]
      ensures groups == old(groups) && selections == old(selections) && controller == old(controller)
    {
      status := st;
      shown := shown + [st];
    }

    /** `isLoading` */
    function Loading(): (r: bool)
      reads this
      ensures r <==> status.stage in {Fetching, Parsing, Processing, Downloading}
    {
      IsLoading(status)
    }

    /** `groupData.forEach(item => selections.value[g].items[item.title] = v)` */
    method SetGroupTitles(g: string, data: seq<LessonItem>, v: bool)
      requires g in selections.vals
      modifies this
      ensures selections == Put(old(selections), g,
                                old(selections).vals[g].(items := SetTitles(old(selections).vals[g].items, Titles(data), v)))
      ensures groups == old(groups) && status == old(status) && controller == old(controller) && shown == old(shown)
    {
      ghost var s0 := selections;
      ghost var e0 := selections.vals[g];
      PutSame(s0, g);
      var i := 0;
      while i < |data|
        invariant 0 <= i <= |data|
        invariant groups == old(groups) && status == old(status) && controller == old(controller) && shown == old(shown)
        invariant selections == Put(s0, g, e0.(items := SetTitles(e0.items, Titles(data)[..i], v)))
      {
        assert Titles(data)[..i + 1][..i] == Titles(data)[..i];
        var e := selections.vals[g];
        PutPut(s0, g, e, e.(items := Put(e.items, data[i].title, v)));
        selections := Put(selections, g, e.(items := Put(e.items, data[i].title, v)));
        i := i + 1;
      }
      assert Titles(data)[..i] == Titles(data);
    }

    /** `selectGroup(groupName, value)` */
    method SelectGroup(g: string, v: bool)
      requires Valid()
      modifies this
      ensures Valid()
      ensures selections == Selection.SelectGroup(old(groups), old(selections), g, v)
      ensures groups == old(groups) && status == old(status) && controller == old(controller) && shown == old(shown)
    {
      if g !in selections.vals {
        selections := Put(selections, g, Blank());
      }
      ghost var s1 := selections;
      var entry := selections.vals[g].(selected := v);
      selections := Put(selections, g, entry);
      var groupData := Get(groups, g);
      if groupData.Some? {
        SetGroupTitles(g, groupData.value, v);
        PutPut(s1, g, entry, entry.(items := SetTitles(entry.items, Titles(groupData.value), v)));
      } else {
        assert entry.(items := entry.items) == entry;
      }
      SelectGroupValid(old(groups), old(selections), g, v);
    }

    /** `selectItem(groupName, itemTitle, value)` */
    method SelectItem(g: string, t: string, v: bool)
      requires Valid()
      modifies this
      ensures Valid()
      ensures selections == Selection.SelectItem(old(groups), old(selections), g, t, v)
      ensures groups == old(groups) && status == old(status) && controller == old(controller) && shown == old(shown)
    {
      if g !in selections.vals {
        selections := Put(selections, g, Blank());
      }
      ghost var s1 := selections;
      var e := selections.vals[g];
      selections := Put(selections, g, e.(items := Put(e.items, t, v)));
      var groupData := Get(groups, g);
      if groupData.Some? {
        var e2 := selections.vals[g];
        PutPut(s1, g, e2, e2.(selected := AllSelected(e2.items, Titles(groupData.value))));
        selections := Put(selections, g, e2.(selected := AllSelected(e2.items, Titles(groupData.value))));
      }
      SelectItemValid(old(groups), old(selections), g, t, v);
    }

    /** `selectAll(value)`: `selectGroup` for each group, in enumeration order. */
    method SelectAll(v: bool)
      requires Valid()
      modifies this
      ensures Valid()
      ensures selections == Selection.SelectAll(old(groups), old(selections), v)
      ensures groups == old(groups) && status == old(status) && controller == old(controller) && shown == old(shown)
    {
      var names := groups.keys;
      var i := 0;
      while i < |names|
        invariant 0 <= i <= |names|
        invariant groups == old(groups) && status == old(status) && controller == old(controller) && shown == old(shown)
        invariant selections == SelectGroups(groups, names[..i], old(selections), v)
      {
        assert names[..i + 1][..i] == names[..i];
        SelectGroupsValid(groups, names[..i], old(selections), v);
        SelectGroup(names[i], v);
        i := i + 1;
      }
      assert names[..i] == names;
      SelectAllValid(groups, old(selections), v);
    }

    /** `getSelectedItems()`: every group with a `true` title, mapped to those titles. */
    method GetSelectedItems() returns (selected: Rec<seq<string>>)
      requires Valid()
      ensures selected == SelectedItems(selections)
      ensures forall g | g in selected.vals :: selected.vals[g] == TrueTitles(ItemsOf(selections, g)) && selected.vals[g] != []
      ensures forall g, t :: (g in selected.vals && t in selected.vals[g]) <==> Get(ItemsOf(selections, g), t) == Some(true)
    {
      var names := selections.keys;
      selected := Empty();
      var i := 0;
      while i < |names|
        invariant 0 <= i <= |names|
        invariant selected == SelectedOf(names[..i], selections)
        invariant forall g | g in selected.vals :: selected.vals[g] != []
      {
        assert names[..i + 1][..i] == names[..i];
        var selectedItems := TrueTitles(ItemsOf(selections, names[i]));
        if |selectedItems| > 0 {
          selected := Put(selected, names[i], selectedItems);
        }
        i := i + 1;
      }
      assert names[..i] == names;
      SelectedOfValues(names, selections);
      SelectedItemsPairs(selections);
    }

    /** `cancelScraping()` */
    method CancelScraping()
      requires Valid()
      modifies this
      ensures Valid()
      ensures Snapshot() == Cancel(old(Snapshot()))
      ensures shown == old(shown) + if old(controller).Some? then [status] else []
    {
      if controller.Some? {
        controller := Some(true);
        SetStatus(Status(Error, Cancelled, None, None));
      }
    }

    /** `reset()`; `onClient` is `process.client`. */
    method Reset(onClient: bool)
      modifies this
      ensures Valid()
      ensures Snapshot() == Session.Reset(old(Snapshot()), onClient)
      ensures shown == old(shown) + [Ready]
    {
      SetStatus(Ready);
      groups := Empty();
      selections := Empty();
      if onClient && controller.Some? {
        // `abortController.abort()` has no effect the state keeps: the controller is dropped at once.
        controller := None;
      }
    }

    // -------------------------------------------------------------------------
    // scrape

    /** The selections initialised for the parsed group names. */
    method InitGroupSelections(names: seq<string>)
      modifies this
      ensures selections == InitGroups(old(selections), names)
      ensures groups == old(groups) && status == old(status) && controller == old(controller) && shown == old(shown)
    {
      var i := 0;
      while i < |names|
        invariant 0 <= i <= |names|
        invariant groups == old(groups) && status == old(status) && controller == old(controller) && shown == old(shown)
        invariant selections == InitGroups(old(selections), names[..i])
      {
        assert names[..i + 1][..i] == names[..i];
        if names[i] !in selections.vals {
          selections := Put(selections, names[i], Blank());
        }
        i := i + 1;
      }
      assert names[..i] == names;
    }

    /**
     * The item initialisation of one group reply. Reading `selections[g]`
     * fails (`ok` is false) when there is an entry to initialise and the
     * group has no selection; nothing is changed then.
     */
    method InitItemSelections(g: string, data: seq<LessonItem>) returns (ok: bool)
      modifies this
      ensures ok <==> data == [] || g in old(selections).vals
      ensures ok && data != [] ==>
        selections == Put(old(selections), g,
                          old(selections).vals[g].(items := KeepOrFalse(old(selections).vals[g].items, Titles(data))))
      ensures !ok || data == [] ==> selections == old(selections)
      ensures groups == old(groups) && status == old(status) && controller == old(controller) && shown == old(shown)
    {
      if data == [] {
        return true;
      }
      if g !in selections.vals {
        return false;
      }
      ghost var s0 := selections;
      ghost var e0 := selections.vals[g];
      ghost var ts := Titles(data);
      PutSame(s0, g);
      var i := 0;
      while i < |data|
        invariant 0 <= i <= |data|
        invariant groups == old(groups) && status == old(status) && controller == old(controller) && shown == old(shown)
        invariant selections == Put(s0, g, e0.(items := KeepOrFalse(e0.items, ts[..i])))
      {
        KeepOrFalseStep(e0.items, ts, i);
        var e := selections.vals[g];
        assert e == e0.(items := KeepOrFalse(e0.items, ts[..i]));
        assert ts[i] == data[i].title;
        if Get(e.items, data[i].title) != Some(true) {
          PutPut(s0, g, e, e.(items := Put(e.items, data[i].title, false)));
          selections := Put(selections, g, e.(items := Put(e.items, data[i].title, false)));
        }
        i := i + 1;
      }
      assert ts[..i] == ts;
      ok := true;
    }

    /** One iteration of the group loop, once the abort check has passed. */
    method HandleGroup(g: string, data: Rec<seq<string>>, mode: string, client: Client,
                       ghost base: seq<Status>, ghost prev: Run)
      returns (failure: Option<string>)
      requires prev.failure.None? && Snapshot() == prev.state && shown == base + prev.shown
      modifies this
      ensures var r := Session.VisitGroup(prev, g, data, mode, client);
        Snapshot() == r.state && shown == base + r.shown && failure == r.failure
    {
      SetStatus(GroupStatus(status, g));
      ghost var head := Session.Show(prev, GroupStatus(prev.state.status, g));
      var body := ProcessGroup.Body(Some(g), Get(data, g), Some(mode),
                                    if mode == "download" then Some(selections) else None);
      assert body == GroupBody(head, g, data, mode);
      var groupResult := client.processGroup(body);
      if groupResult.GroupThrew? {
        return Some(groupResult.message);
      }
      if groupResult.success {
        groups := Put(groups, g, groupResult.data);
        var ok := InitItemSelections(g, groupResult.data);
        if !ok {
          return Some(client.typeError);
        }
      }
      TickProgress(base, if groupResult.success then StoreGroup(head, g, groupResult.data, client) else head);
      failure := None;
    }

    /** Iteration `i` of the group loop: the abort check, then the group; a throw ends the whole loop. */
    method GroupIteration(names: seq<string>, i: nat, data: Rec<seq<string>>, mode: string, client: Client,
                          cancelAt: Option<nat>, ghost base: seq<Status>, ghost init: Run)
      returns (failure: Option<string>)
      requires i < |names|
      requires var cur := GroupsLoop(names[..i], data, mode, client, cancelAt, init);
        cur.failure.None? && Snapshot() == cur.state && shown == base + cur.shown
      modifies this
      ensures var r := GroupsLoop(names[..i + 1], data, mode, client, cancelAt, init);
        failure.None? ==> r.failure.None? && Snapshot() == r.state && shown == base + r.shown
      ensures var r := GroupsLoop(names, data, mode, client, cancelAt, init);
        failure.Some? ==> Snapshot() == r.state && shown == base + r.shown && failure == r.failure
    {
      ghost var cur := GroupsLoop(names[..i], data, mode, client, cancelAt, init);
      GroupsLoopStep(names, i, data, mode, client, cancelAt, init);
      if Aborted(cancelAt, i) {
        assert GroupsLoop(names[..i + 1], data, mode, client, cancelAt, init) == Throw(cur, Cancelled);
        GroupsSticky(names, i + 1, data, mode, client, cancelAt, init);
        return Some(Cancelled);
      }
      failure := HandleGroup(names[i], data, mode, client, base, cur);
      assert GroupsLoop(names[..i + 1], data, mode, client, cancelAt, init) == Session.VisitGroup(cur, names[i], data, mode, client);
      if failure.Some? {
        GroupsSticky(names, i + 1, data, mode, client, cancelAt, init);
      }
    }

    /** The group loop of `scrape`, from the state `init` describes; the message thrown, if any. */
    method ProcessGroups(data: Rec<seq<string>>, mode: string, client: Client, cancelAt: Option<nat>,
                         ghost base: seq<Status>, ghost init: Run)
      returns (failure: Option<string>)
      requires init.failure.None? && Snapshot() == init.state && shown == base + init.shown
      modifies this
      ensures var r := GroupsLoop(data.keys, data, mode, client, cancelAt, init);
        Snapshot() == r.state && shown == base + r.shown && failure == r.failure
    {
      failure := None;
      var names := data.keys;
      var i := 0;
      while i < |names|
        invariant 0 <= i <= |names| && failure.None?
        invariant var cur := GroupsLoop(names[..i], data, mode, client, cancelAt, init);
          cur.failure.None? && Snapshot() == cur.state && shown == base + cur.shown
      {
        failure := GroupIteration(names, i, data, mode, client, cancelAt, base, init);
        if failure.Some? {
          return;
        }
        i := i + 1;
      }
      assert names[..i] == names;
    }

    /** The `try` block of `scrape`: the state and statuses `ScrapeRun` describes, and the message thrown. */
    method ScrapeTry(url: string, mode: string, client: Client, cancelAt: Option<nat>, ghost base: seq<Status>)
      returns (failure: Option<string>)
      requires shown == base
      modifies this
      ensures var run := ScrapeRun(old(Snapshot()), url, mode, client, cancelAt);
        Snapshot() == run.state && shown == base + run.shown && failure == run.failure
    {
      ghost var start := Snapshot();
      controller := Some(false);
      SetStatus(Status(Fetching, "Fetching webpage content...", None, None));
      ghost var r0 := Session.Show(Run(start.(controller := Some(false)), [], None),
                                   Status(Fetching, "Fetching webpage content...", None, None));
      var initialResponse := client.fetch(url);
      if initialResponse.FetchThrew? {
        return Some(initialResponse.message);
      }
      if !initialResponse.success {
        return Some(initialResponse.error.GetOr(""));
      }
      SetStatus(Status(Parsing, "Parsing course groups...", None, None));
      ghost var r1 := Session.Show(r0, Status(Parsing, "Parsing course groups...", None, None));
      var groupsResponse := client.parseGroups(initialResponse.data);
      if groupsResponse.ParseThrew? {
        return Some(groupsResponse.message);
      }
      if !groupsResponse.success || groupsResponse.data.None? {
        return Some(ParseFailed);
      }
      var data := groupsResponse.data.value;
      SetStatus(ProcessingStatus(|data.keys|));
      ghost var r2 := Session.Show(r1, ProcessingStatus(|data.keys|));
      InitGroupSelections(data.keys);
      ghost var r3 := r2.(state := r2.state.(selections := InitGroups(r2.state.selections, data.keys)));
      failure := ProcessGroups(data, mode, client, cancelAt, base, r3);
    }

    /** `scrape(url, mode = "preview")`: the state and statuses `Session.Scrape` describes, and its result. */
    method Scrape(url: string, mode: Option<string>, client: Client, cancelAt: Option<nat>) returns (result: ScrapeResult)
      requires Valid()
      modifies this
      ensures Valid()
      ensures var run := Session.Scrape(old(Snapshot()), url, mode, client, cancelAt);
        Snapshot() == run.state && shown == old(shown) + run.shown && result == ResultOf(run)
    {
      var failure := ScrapeTry(url, mode.GetOr("preview"), client, cancelAt, shown);
      if failure.None? {
        SetStatus(Status(Complete, "All groups processed successfully", None, None));
        result := ScrapeOk(groups);
      } else {
        SetStatus(Status(Error, "An error occurred", None, failure));
        result := ScrapeErr(failure.value);
      }
      controller := None;
      ScrapeValid(old(Snapshot()), url, mode, client, cancelAt);
    }

    // -------------------------------------------------------------------------
    // downloadSelectedContent

    /** The object is in the state `d` describes, has shown `base` then `d`'s statuses, and has posted and saved what `d` lists. */
    ghost predicate Tracks(base: seq<Status>, d: DownloadRun, requests: seq<Request>, files: seq<SavedFile>)
      reads this
    {
      Snapshot() == d.run.state && shown == base + d.run.shown && requests == d.requests && files == d.files
    }

    /** `if (status.value.progress) status.value.progress.current++` */
    method TickProgress(ghost base: seq<Status>, ghost run: Run)
      requires Snapshot() == run.state && shown == base + run.shown
      modifies this
      ensures Snapshot() == Tick(run).state && shown == base + Tick(run).shown
    {
      if status.progress.Some? {
        SetStatus(status.(progress := Some(status.progress.value.(current := status.progress.value.current + 1))));
      }
    }

    /** One title of a group: the status, then `downloadContent` when the entry is found. */
    method DownloadItem(g: string, t: string, quality: string, client: Client,
                        ghost base: seq<Status>, ghost prev: DownloadRun, requests0: seq<Request>, files0: seq<SavedFile>)
      returns (thrown: Option<string>, requests: seq<Request>, files: seq<SavedFile>)
      requires prev.run.failure.None? && Tracks(base, prev, requests0, files0)
      modifies this
      ensures Tracks(base, DownloadTitle(prev, g, t, quality, client), requests, files)
      ensures thrown == DownloadTitle(prev, g, t, quality, client).run.failure
      ensures controller == old(controller)
    {
      SetStatus(TitleStatus(status, g, t));
      requests, files := requests0, files0;
      var groupData := Get(groups, g);
      if groupData.None? {
        return Some(client.typeError), requests, files;
      }
      var item := Find(groupData.value, t);
      if item.Some? {
        var outcome, request := ChunkDownload.DownloadContent(false, g, t, item.value.images, Some(quality), client.download);
        requests := requests + [request.value];
        match outcome {
          case Saved(name, bytes) =>
            files := files + [(name, bytes)];
          case Failed(message) =>
            return Some(message), requests, files;
          case NoBody =>
            return Some(client.typeError), requests, files;
          case SkippedOnServer =>
        }
      }
      thrown := None;
    }

    /** The titles of one group in turn, then `progress.current++`. */
    method DownloadGroup(g: string, titles: seq<string>, quality: string, client: Client,
                         ghost base: seq<Status>, ghost init: DownloadRun, requests0: seq<Request>, files0: seq<SavedFile>)
      returns (thrown: Option<string>, requests: seq<Request>, files: seq<SavedFile>)
      requires init.run.failure.None? && Tracks(base, init, requests0, files0)
      modifies this
      ensures Tracks(base, GroupDownload(init, g, titles, quality, client), requests, files)
      ensures thrown == GroupDownload(init, g, titles, quality, client).run.failure
      ensures controller == old(controller)
    {
      requests, files := requests0, files0;
      var j := 0;
      while j < |titles|
        invariant 0 <= j <= |titles|
        invariant controller == old(controller)
        invariant TitlesLoop(titles[..j], g, quality, client, init).run.failure.None?
        invariant Tracks(base, TitlesLoop(titles[..j], g, quality, client, init), requests, files)
      {
        TitlesLoopStep(titles, j, g, quality, client, init);
        ghost var prev := TitlesLoop(titles[..j], g, quality, client, init);
        thrown, requests, files := DownloadItem(g, titles[j], quality, client, base, prev, requests, files);
        if thrown.Some? {
          TitlesSticky(titles, j + 1, g, quality, client, init);
          return;
        }
        j := j + 1;
      }
      assert titles[..j] == titles;
      TickProgress(base, TitlesLoop(titles, g, quality, client, init).run);
      thrown := None;
    }

    /** Group `k` of the selected groups, its abort check passed. */
    method DownloadSelectedGroup(k: nat, g: string, selected: Rec<seq<string>>, quality: string, client: Client,
                                 ghost base: seq<Status>, ghost prev: DownloadRun,
                                 requests0: seq<Request>, files0: seq<SavedFile>)
      returns (thrown: Option<string>, requests: seq<Request>, files: seq<SavedFile>)
      requires prev.run.failure.None? && controller != Some(true) && Tracks(base, prev, requests0, files0)
      modifies this
      ensures Tracks(base, DownloadStep(prev, k, g, selected, quality, client), requests, files)
      ensures thrown == DownloadStep(prev, k, g, selected, quality, client).run.failure
      ensures controller == old(controller)
    {
      var items := Get(selected, g);
      if items.None? {
        return Some(client.typeError), requests0, files0;
      }
      thrown, requests, files := DownloadGroup(g, items.value, quality, client, base, prev, requests0, files0);
    }

    /** The groups `names[lo..hi]` of a chunk in turn, the abort check passed; a throw stops the whole loop. */
    method DownloadChunkGroups(names: seq<string>, lo: nat, hi: nat, selected: Rec<seq<string>>, quality: string,
                               client: Client, ghost base: seq<Status>, ghost init: DownloadRun,
                               requests0: seq<Request>, files0: seq<SavedFile>)
      returns (thrown: Option<string>, requests: seq<Request>, files: seq<SavedFile>)
      requires lo <= hi <= |names| && controller != Some(true)
      requires DownloadsLoop(names[..lo], selected, quality, client, init).run.failure.None?
      requires Tracks(base, DownloadsLoop(names[..lo], selected, quality, client, init), requests0, files0)
      modifies this
      ensures thrown.None? ==> DownloadsLoop(names[..hi], selected, quality, client, init).run.failure.None?
      ensures thrown.None? ==> Tracks(base, DownloadsLoop(names[..hi], selected, quality, client, init), requests, files)
      ensures thrown.Some? ==> Tracks(base, DownloadsLoop(names, selected, quality, client, init), requests, files)
      ensures thrown.Some? ==> thrown == DownloadsLoop(names, selected, quality, client, init).run.failure
    {
      requests, files := requests0, files0;
      ghost var cur := DownloadsLoop(names[..lo], selected, quality, client, init);
      var k := lo;
      while k < hi
        invariant lo <= k <= hi
        invariant controller == old(controller)
        invariant cur == DownloadsLoop(names[..k], selected, quality, client, init)
        invariant cur.run.failure.None? && Tracks(base, cur, requests, files)
      {
        DownloadsLoopStep(names, k, selected, quality, client, init);
        thrown, requests, files := DownloadSelectedGroup(k, names[k], selected, quality, client, base, cur, requests, files);
        cur := DownloadStep(cur, k, names[k], selected, quality, client);
        assert DownloadsLoop(names[..k + 1], selected, quality, client, init) == cur;
        if thrown.Some? {
          DownloadsSticky(names, k + 1, selected, quality, client, init);
          return;
        }
        k := k + 1;
      }
      thrown := None;
    }

    /**
     * One chunk: the abort check, then the groups `names[lo..hi]` in turn
     * (the client runs a chunk's groups concurrently). When something is
     * thrown, the state is that of the whole loop, which stops there.
     */
    method DownloadChunk(names: seq<string>, lo: nat, ghost chunk: nat, selected: Rec<seq<string>>, quality: string,
                         client: Client, ghost base: seq<Status>, ghost init: DownloadRun,
                         requests0: seq<Request>, files0: seq<SavedFile>)
      returns (thrown: Option<string>, requests: seq<Request>, files: seq<SavedFile>, hi: nat)
      requires lo < |names| && lo == 2 * chunk
      requires DownloadsLoop(names[..lo], selected, quality, client, init).run.failure.None?
      requires Tracks(base, DownloadsLoop(names[..lo], selected, quality, client, init), requests0, files0)
      modifies this
      ensures hi == if lo + 2 < |names| then lo + 2 else |names|
      ensures thrown.None? ==> DownloadsLoop(names[..hi], selected, quality, client, init).run.failure.None?
      ensures thrown.None? ==> Tracks(base, DownloadsLoop(names[..hi], selected, quality, client, init), requests, files)
      ensures thrown.Some? ==> Tracks(base, DownloadsLoop(names, selected, quality, client, init), requests, files)
      ensures thrown.Some? ==> thrown == DownloadsLoop(names, selected, quality, client, init).run.failure
    {
      hi := if lo + 2 < |names| then lo + 2 else |names|;
      if controller == Some(true) {
        ChunkHeadDouble(chunk);
        DownloadsLoopStep(names, lo, selected, quality, client, init);
        DownloadsSticky(names, lo + 1, selected, quality, client, init);
        return Some(DownloadCancelled), requests0, files0, hi;
      }
      thrown, requests, files := DownloadChunkGroups(names, lo, hi, selected, quality, client, base, init, requests0, files0);
    }

    /** The chunk loop over the selected groups, two groups a chunk. */
    method DownloadGroups(names: seq<string>, selected: Rec<seq<string>>, quality: string, client: Client,
                          ghost base: seq<Status>, ghost init: DownloadRun)
      returns (thrown: Option<string>, requests: seq<Request>, files: seq<SavedFile>)
      requires init.run.failure.None? && Tracks(base, init, [], [])
      modifies this
      ensures Tracks(base, DownloadsLoop(names, selected, quality, client, init), requests, files)
      ensures thrown == DownloadsLoop(names, selected, quality, client, init).run.failure
    {
      requests, files := [], [];
      thrown := None;
      var n := |names|;
      var i := 0;
      ghost var chunk := 0;
      ghost var done := 0;
      while i < n
        invariant i == 2 * chunk && thrown.None? && done <= n && (i < n ==> done == i) && (i >= n ==> done == n)
        invariant DownloadsLoop(names[..done], selected, quality, client, init).run.failure.None?
        invariant Tracks(base, DownloadsLoop(names[..done], selected, quality, client, init), requests, files)
      {
        thrown, requests, files, done := DownloadChunk(names, i, chunk, selected, quality, client, base, init, requests, files);
        if thrown.Some? {
          return;
        }
        i := i + 2;
        chunk := chunk + 1;
      }
      assert names[..done] == names;
    }

    /**
     * `downloadSelectedContent(quality = "320p")`: the state and statuses
     * `Session.DownloadSelected` describes; the message rethrown, if any,
     * with the requests posted and the files saved.
     */
    method DownloadSelectedContent(quality: Option<string>, client: Client)
      returns (thrown: Option<string>, requests: seq<Request>, files: seq<SavedFile>)
      requires Valid()
      modifies this
      ensures Valid()
      ensures var d := DownloadSelected(old(Snapshot()), quality, client);
        Snapshot() == d.run.state && shown == old(shown) + d.run.shown && thrown == d.run.failure &&
        requests == d.requests && files == d.files
    {
      thrown, requests, files := DownloadTryBlock(quality, client, shown);
      if thrown.None? {
        SetStatus(Status(Complete, "All downloads completed successfully", None, None));
      } else {
        SetStatus(Status(Error, "Download failed", None, thrown));
      }
      DownloadValid(old(Snapshot()), quality, client);
    }

    /** The `try` block: the state, statuses, requests and files `Session.DownloadTry` describes. */
    method DownloadTryBlock(quality: Option<string>, client: Client, ghost base: seq<Status>)
      returns (thrown: Option<string>, requests: seq<Request>, files: seq<SavedFile>)
      requires shown == base && Valid()
      modifies this
      ensures var d := DownloadTry(old(Snapshot()), quality, client);
        Tracks(base, d, requests, files) && thrown == d.run.failure
    {
      ghost var start := DownloadRun(Run(Snapshot(), [], None), [], []);
      var selected := GetSelectedItems();
      var selectedGroups := selected.keys;
      if |selectedGroups| == 0 {
        thrown, requests, files := Some(NoneSelected), [], [];
      } else {
        SetStatus(PreparingStatus(|selectedGroups|));
        ghost var init := start.(run := Session.Show(start.run, PreparingStatus(|selectedGroups|)));
        thrown, requests, files := DownloadGroups(selectedGroups, selected, quality.GetOr(PdfAssembly.DefaultTier), client, base, init);
      }
    }
  }

  // ---------------------------------------------------------------------------
  // scrapeLongFind: the batches of lesson links

  /**
   * The batch loop: consecutive links from `FirstId`, `size` to a batch,
   * the last batch holding what is left.
   */
  method Batches(size: nat, total: nat) returns (batches: seq<seq<string>>)
    requires size > 0
    ensures Concat(batches) == LessonUrls(FirstId, total)
    ensures forall k | 0 <= k < |batches| :: 1 <= |batches[k]| <= size
    ensures forall k | 0 <= k < |batches| - 1 :: |batches[k]| == size
  {
    batches := [];
    var i := 0;
    while i < total
      invariant BatchesUpTo(batches, i, size, total)
    {
      var count := if size < total - i then size else total - i;
      var links := seq(count, j requires 0 <= j < count => LessonUrl(i + j + FirstId));
      BatchStep(batches, i, size, total, links);
      batches := batches + [links];
      i := i + size;
    }
  }

  /** The batches built before link `i`: they hold the first `min(i, total)` links, full but for a last short one. */
  ghost predicate BatchesUpTo(batches: seq<seq<string>>, i: nat, size: nat, total: nat) {
    Concat(batches) == LessonUrls(FirstId, Min(i, total)) &&
    (forall k | 0 <= k < |batches| :: 1 <= |batches[k]| <= size) &&
    (forall k | 0 <= k < |batches| - 1 :: |batches[k]| == size) &&
    (i < total ==> forall k | 0 <= k < |batches| :: |batches[k]| == size)
  }

  function Min(a: nat, b: nat): nat {
    if a < b then a else b
  }

  /** One turn of the batch loop keeps `BatchesUpTo`. */
  lemma BatchStep(batches: seq<seq<string>>, i: nat, size: nat, total: nat, links: seq<string>)
    requires size > 0 && i < total && BatchesUpTo(batches, i, size, total)
    requires |links| == Min(size, total - i)
    requires forall j | 0 <= j < |links| :: links[j] == LessonUrl(i + j + FirstId)
    ensures BatchesUpTo(batches + [links], i + size, size, total)
  {
    ConcatStep(batches, links);
    UrlsAppend(i, links);
    assert Min(i + size, total) == i + |links|;
  }

  lemma UrlsAppend(i: nat, links: seq<string>)
    requires forall j | 0 <= j < |links| :: links[j] == LessonUrl(i + j + FirstId)
    ensures LessonUrls(FirstId, i) + links == LessonUrls(FirstId, i + |links|)
  {
  }

  /** With one link a batch, batch `k` is exactly the link of id `FirstId + k`. */
  lemma {:induction false} SingleBatches(batches: seq<seq<string>>)
    requires forall k | 0 <= k < |batches| :: |batches[k]| == 1
    ensures |Concat(batches)| == |batches|
    ensures forall k | 0 <= k < |batches| :: batches[k] == [Concat(batches)[k]]
  {
    if batches != [] {
      var n := |batches| - 1;
      SingleBatches(batches[..n]);
      assert batches == batches[..n] + [batches[n]];
      ConcatStep(batches[..n], batches[n]);
    }
  }

  /** The batches `scrapeLongFind` builds: `2337 - 1699` of them, one link each, ids counting up from 1690. */
  method LongFindBatches() returns (batches: seq<seq<string>>)
    ensures |batches| == LongTotal
    ensures forall k | 0 <= k < |batches| :: batches[k] == [LessonUrl(FirstId + k)]
  {
    batches := Batches(BatchSize, LongTotal);
    SingleBatches(batches);
  }
}
