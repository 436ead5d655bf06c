/**
 * The main loop of the backup script (index.js:35-114) as a state machine.
 * The browser and the libraries it drives are an environment of oracles;
 * the `.lastdone` file, the archive directory and the browser's current
 * page are fields of a `Backup` object that the run updates in place.
 */
module Traversal {
  import opened Wrappers
  import opened Locator
  import opened Progress
  import opened Placement

  const PhotosHost: string := "photos.google.com"

  /** What a download reports: the suggested file name and the capture date of the photo. */
  datatype Fetched = Fetched(fileName: string, year: int, month: Month)

  /** The world outside the script, as seen by it. */
  datatype Env = Env(
    latest: string,                     // what getLatestPhoto reports for the newest photo
    click: string -> Option<string>,    // the page reached by clicking the previous-photo arrow; None when the arrow is missing
    hostOf: string -> Option<string>,   // the host of a URL; None when `new URL` rejects it
    fetch: string -> Option<Fetched>,   // the download started by Shift+D on a page; None when it or reading its metadata throws
    blocked: set<string>,               // destinations moveFile cannot write whatever its options
    retryOverwrite: bool)               // the overwrite setting of the fallback moveFile, which passes no options

  datatype Failure =
    | CheckpointError(reason: ProgressError)
    | InvalidStartLink
    | NoPreviousPhoto(at: string)       // the click on the arrow throws
    | NavigationTimeout(at: string)     // waitForURL never sees a new page on the photos host
    | DownloadFailed(url: string)
    | MoveFailed(path: string)          // the fallback move throws as well

  /** One thing the script does to the outside world. */
  datatype Event =
    | Downloaded(url: string, overwrite: bool)
    | Stepped(from: string, to: string)
    | Saved(url: string)

  /** The start link of a run: the checkpoint, which `new URL` must accept. */
  function StartLink(env: Env, file: Option<string>): (r: Result<string, Failure>)
    ensures r.Success? <==> GetProgress(file).Success? && env.hostOf(file.value).Some?
    ensures r.Success? ==> file == Some(r.value) && r.value != ""
    ensures GetProgress(file).Failure? ==> r == Failure(CheckpointError(GetProgress(file).error))
  {
    match GetProgress(file)
    case Failure(e) => Failure(CheckpointError(e))
    case Success(link) => if env.hostOf(link).None? then Failure(InvalidStartLink) else Success(link)
  }

  /**
   * One press of the previous-photo arrow followed by waitForURL: the wait
   * only accepts a URL on the photos host that differs from the one left.
   */
  function Step(env: Env, cur: string): (r: Result<string, Failure>)
    ensures r.Success? ==> r.value != cur && env.hostOf(r.value) == Some(PhotosHost)
    ensures r.Success? <==> (env.click(cur).Some? && env.click(cur).value != cur
                          && env.hostOf(env.click(cur).value) == Some(PhotosHost))
    ensures r.Success? ==> Some(r.value) == env.click(cur)
  {
    match env.click(cur)
    case None => Failure(NoPreviousPhoto(cur))
    case Some(next) =>
      if env.hostOf(next) == Some(PhotosHost) && next != cur then Success(next)
      else Failure(NavigationTimeout(cur))
  }

  /** downloadPhoto on a page, given the paths already in the archive. */
  function Download(env: Env, existing: set<string>, url: string, overwrite: bool): Result<string, Failure>
  {
    match env.fetch(url)
    case None => Failure(DownloadFailed(url))
    case Some(f) =>
      match Place(existing, env.blocked, f.year, f.month, f.fileName, overwrite, env.retryOverwrite)
      case Some(path) => Success(path)
      case None => Failure(MoveFailed(DestinationPath(f.year, f.month, RetryName(f.fileName))))
  }

  /**
   * A download fails as DownloadFailed when its fetch fails. A fetched
   * photo lands at the first path whenever that move may go ahead, and
   * otherwise at the renamed path in the same directory when that move may;
   * it fails as MoveFailed at the renamed path exactly when neither may.
   * Wherever it lands is in the photo's month directory, at a writable
   * path, and an existing file is replaced only by a move that may overwrite.
   */
  lemma DownloadOutcome(env: Env, existing: set<string>, url: string, overwrite: bool)
    ensures var r := Download(env, existing, url, overwrite);
            && (env.fetch(url).None? ==> r == Failure(DownloadFailed(url)))
            && (env.fetch(url).Some? ==>
                  var f := env.fetch(url).value;
                  var first := DestinationPath(f.year, f.month, f.fileName);
                  var second := DestinationPath(f.year, f.month, RetryName(f.fileName));
                  && (CanMove(existing, env.blocked, first, overwrite) ==> r == Success(first))
                  && ((!CanMove(existing, env.blocked, first, overwrite)
                       && CanMove(existing, env.blocked, second, env.retryOverwrite)) ==> r == Success(second))
                  && (r.Failure? <==> (!CanMove(existing, env.blocked, first, overwrite)
                                       && !CanMove(existing, env.blocked, second, env.retryOverwrite)))
                  && (r.Failure? ==> r == Failure(MoveFailed(second))))
            && (r.Success? ==> env.fetch(url).Some?
                               && Directory(env.fetch(url).value.year, env.fetch(url).value.month) <= r.value
                               && r.value !in env.blocked
                               && (r.value in existing ==> overwrite || env.retryOverwrite))
  {
    if env.fetch(url).Some? {
      var f := env.fetch(url).value;
      PlaceWithin(existing, env.blocked, f.year, f.month, f.fileName, overwrite, env.retryOverwrite);
      PlaceOutcome(existing, env.blocked, f.year, f.month, f.fileName, overwrite, env.retryOverwrite);
    }
  }

  /**
   * The archive after downloading the given pages in order into `files`,
   * the first page with overwrite and the others without; None once one
   * of the downloads fails.
   */
  function Filed(env: Env, files: map<string, string>, pages: seq<string>): (r: Option<map<string, string>>)
    ensures pages == [] ==> r == Some(files)
    decreases |pages|, 1
  {
    if pages == [] then Some(files) else FiledLast(env, files, pages)
  }

  /** The download of the last page, into the archive the pages before it left. */
  function FiledLast(env: Env, files: map<string, string>, pages: seq<string>): Option<map<string, string>>
    requires pages != []
    decreases |pages|, 0
  {
    match Filed(env, files, pages[..|pages| - 1])
    case None => None
    case Some(f) =>
      match Download(env, f.Keys, pages[|pages| - 1], |pages| == 1)
      case Failure(_) => None
      case Success(dest) => Some(f[dest := pages[|pages| - 1]])
  }

  /**
   * Downloading only adds to the archive or replaces an entry by one from
   * the pages downloaded: every path stays, and every entry is either the
   * one it was or comes from one of the pages.
   */
  lemma {:induction false} FiledOnlyAdds(env: Env, files: map<string, string>, pages: seq<string>)
    requires Filed(env, files, pages).Some?
    ensures var f := Filed(env, files, pages).value;
            && files.Keys <= f.Keys
            && forall p :: p in f ==> (p in files && f[p] == files[p]) || f[p] in pages
    decreases |pages|
  {
    if pages != [] {
      var front := pages[..|pages| - 1];
      FiledOnlyAdds(env, files, front);
      var f := Filed(env, files, pages).value;
      var g := Filed(env, files, front).value;
      forall p | p in f ensures (p in files && f[p] == files[p]) || f[p] in pages {
        if p in g && f[p] == g[p] {
          assert g[p] in front ==> g[p] in pages;
        } else {
          assert f[p] == pages[|pages| - 1];
        }
      }
    }
  }

  /** A prefix of a list of pages that is all downloaded was all downloaded too. */
  lemma {:induction false} FiledPrefix(env: Env, files: map<string, string>, pages: seq<string>, k: nat)
    requires k <= |pages| && Filed(env, files, pages).Some?
    ensures Filed(env, files, pages[..k]).Some?
    decreases |pages|
  {
    if k < |pages| {
      var front := pages[..|pages| - 1];
      FiledPrefix(env, files, front, k);
      assert front[..k] == pages[..k];
    } else {
      assert pages[..k] == pages;
    }
  }

  /** The walk from page `cur` stops within n steps: at the latest photo or at a failed step. */
  predicate WalkEnds(env: Env, cur: string, n: nat)
    decreases n
  {
    || SameItem(cur, env.latest)
    || Step(env, cur).Failure?
    || (n > 0 && WalkEnds(env, Step(env, cur).value, n - 1))
  }

  /**
   * The loop, entered at page `cur` with archive `files`, stops within n
   * passes: at the latest photo, at a failed step, or at a failed download
   * of the page a step reached.
   */
  predicate RunEnds(env: Env, files: map<string, string>, cur: string, n: nat)
    decreases n
  {
    || SameItem(cur, env.latest)
    || Step(env, cur).Failure?
    || (var next := Step(env, cur).value;
        match Download(env, files.Keys, next, false)
        case Failure(_) => true
        case Success(dest) => n > 0 && RunEnds(env, files[dest := next], next, n - 1))
  }

  /** A loop whose walk stops within n steps stops within n passes, whatever the archive. */
  lemma {:induction false} WalkEndsRunEnds(env: Env, files: map<string, string>, cur: string, n: nat)
    requires WalkEnds(env, cur, n)
    ensures RunEnds(env, files, cur, n)
    decreases n
  {
    if !SameItem(cur, env.latest) && Step(env, cur).Success? {
      var next := Step(env, cur).value;
      match Download(env, files.Keys, next, false)
      case Failure(_) =>
      case Success(dest) => WalkEndsRunEnds(env, files[dest := next], next, n - 1);
    }
  }

  /**
   * The pages of a run, in order: the cleaned start link, then one
   * successful step after another, none of them but the last at the latest photo.
   */
  ghost predicate Walked(env: Env, start: string, pages: seq<string>) {
    && |pages| >= 1
    && pages[0] == Clean(start)
    && (forall i :: 0 <= i < |pages| - 1 ==> SteppedAt(env, pages, i))
  }

  /** Page i of the walk is not the latest photo, and the step from it leads to page i + 1. */
  ghost predicate SteppedAt(env: Env, pages: seq<string>, i: int) {
    && 0 <= i < |pages| - 1
    && !SameItem(pages[i], env.latest)
    && Step(env, pages[i]) == Success(pages[i + 1])
  }

  /** What a run over the given pages does: the first download overwrites, then step, download, save per page. */
  function RunLog(pages: seq<string>): (log: seq<Event>)
    requires |pages| >= 1
    ensures |log| == 3 * |pages| - 2
    decreases |pages|
  {
    if |pages| == 1 then [Downloaded(pages[0], true)]
    else
      var n := |pages|;
      RunLog(pages[..n - 1]) + [Stepped(pages[n - 2], pages[n - 1]), Downloaded(pages[n - 1], false), Saved(pages[n - 1])]
  }

  /** The log of a run that failed to download the last page it reached. */
  function InterruptedLog(pages: seq<string>): seq<Event>
    requires |pages| >= 1
  {
    var n := |pages|;
    if n == 1 then [] else RunLog(pages[..n - 1]) + [Stepped(pages[n - 2], pages[n - 1])]
  }

  /** The checkpoint after the given events: the last URL saved, or the former one. */
  function LastSaved(events: seq<Event>, before: Option<string>): (r: Option<string>)
    ensures r == before || exists e :: e in events && e.Saved? && r == Some(e.url)
    decreases |events|
  {
    if events == [] then before
    else match events[|events| - 1]
      case Saved(url) => Some(url)
      case _ => LastSaved(events[..|events| - 1], before)
  }

  datatype Kind = DownloadKind | StepKind | SaveKind

  function KindOf(e: Event): Kind {
    match e
    case Downloaded(_, _) => DownloadKind
    case Stepped(_, _) => StepKind
    case Saved(_) => SaveKind
  }

  /** The number of events of one kind. */
  function Count(events: seq<Event>, k: Kind): nat
    decreases |events|
  {
    if events == [] then 0
    else Count(events[..|events| - 1], k) + (if KindOf(events[|events| - 1]) == k then 1 else 0)
  }

  /** The number of downloads that were allowed to overwrite. */
  function Overwrites(events: seq<Event>): nat
    decreases |events|
  {
    if events == [] then 0
    else Overwrites(events[..|events| - 1])
         + (if events[|events| - 1].Downloaded? && events[|events| - 1].overwrite then 1 else 0)
  }

  lemma {:induction false} CountAppend(a: seq<Event>, b: seq<Event>, k: Kind)
    ensures Count(a + b, k) == Count(a, k) + Count(b, k)
    ensures Overwrites(a + b) == Overwrites(a) + Overwrites(b)
    decreases |b|
  {
    if b == [] {
      assert a + b == a;
    } else {
      assert (a + b)[..|a + b| - 1] == a + b[..|b| - 1];
      CountAppend(a, b[..|b| - 1], k);
    }
  }

  lemma {:induction false} CountSingle(e: Event)
    ensures forall k :: Count([e], k) == if KindOf(e) == k then 1 else 0
    ensures Overwrites([e]) == if e.Downloaded? && e.overwrite then 1 else 0
  {
    assert [e][..0] == [];
  }

  lemma {:induction false} CountTriple(x: Event, y: Event, z: Event)
    ensures forall k :: Count([x, y, z], k)
                     == (if KindOf(x) == k then 1 else 0) + (if KindOf(y) == k then 1 else 0)
                      + (if KindOf(z) == k then 1 else 0)
    ensures Overwrites([x, y, z]) == Overwrites([x]) + Overwrites([y]) + Overwrites([z])
  {
    CountSingle(x);
    CountSingle(y);
    CountSingle(z);
    assert [x] + [y] + [z] == [x, y, z];
    forall k ensures Count([x, y, z], k) == Count([x], k) + Count([y], k) + Count([z], k) {
      CountAppend([x], [y], k);
      CountAppend([x] + [y], [z], k);
    }
    CountAppend([x], [y], DownloadKind);
    CountAppend([x] + [y], [z], DownloadKind);
  }

  /**
   * A run over n pages downloads n times, steps and saves n - 1 times, and
   * only its first download may overwrite.
   */
  lemma {:induction false} RunLogCounts(pages: seq<string>)
    requires |pages| >= 1
    ensures Count(RunLog(pages), DownloadKind) == |pages|
    ensures Count(RunLog(pages), StepKind) == |pages| - 1
    ensures Count(RunLog(pages), SaveKind) == |pages| - 1
    ensures Overwrites(RunLog(pages)) == 1
    decreases |pages|
  {
    var n := |pages|;
    if n > 1 {
      var x, y, z := Stepped(pages[n - 2], pages[n - 1]), Downloaded(pages[n - 1], false), Saved(pages[n - 1]);
      var triple := [x, y, z];
      RunLogCounts(pages[..n - 1]);
      CountTriple(x, y, z);
      CountAppend(RunLog(pages[..n - 1]), triple, DownloadKind);
      CountAppend(RunLog(pages[..n - 1]), triple, StepKind);
      CountAppend(RunLog(pages[..n - 1]), triple, SaveKind);
    }
  }

  /**
   * The order of a run: it starts with the overwriting download of the start
   * page; the i-th step goes from page i - 1 to page i and is followed by the
   * download of page i and then by the save of page i.
   */
  lemma {:induction false} RunLogOrder(pages: seq<string>, i: nat)
    requires 1 <= i < |pages|
    ensures RunLog(pages)[0] == Downloaded(pages[0], true)
    ensures RunLog(pages)[3 * i - 2] == Stepped(pages[i - 1], pages[i])
    ensures RunLog(pages)[3 * i - 1] == Downloaded(pages[i], false)
    ensures RunLog(pages)[3 * i] == Saved(pages[i])
    decreases |pages|
  {
    var n := |pages|;
    var front := pages[..n - 1];
    if i < n - 1 {
      RunLogOrder(front, i);
    } else if n > 2 {
      RunLogOrder(front, 1);
    }
  }

  /** After a run over several pages the checkpoint is the last page; a run over one page keeps it. */
  lemma {:induction false} RunLogCheckpoint(pages: seq<string>, before: Option<string>)
    requires |pages| >= 1
    ensures LastSaved(RunLog(pages), before) == if |pages| == 1 then before else Some(pages[|pages| - 1])
  {
    if |pages| > 1 {
      var log := RunLog(pages);
      assert log[|log| - 1] == Saved(pages[|pages| - 1]);
    }
  }

  /** An interrupted run keeps the checkpoint of the last page it completed. */
  lemma {:induction false} InterruptedCheckpoint(pages: seq<string>, before: Option<string>)
    requires |pages| >= 1
    ensures LastSaved(InterruptedLog(pages), before)
         == if |pages| <= 2 then before else Some(pages[|pages| - 2])
  {
    var n := |pages|;
    if n > 1 {
      var log := InterruptedLog(pages);
      assert log[..|log| - 1] == RunLog(pages[..n - 1]);
      RunLogCheckpoint(pages[..n - 1], before);
    }
  }

  /** Every saved checkpoint is a page on the photos host, reached by a real change of page. */
  lemma {:induction false} WalkedPagesOnHost(env: Env, start: string, pages: seq<string>, i: nat)
    requires Walked(env, start, pages)
    requires 1 <= i < |pages|
    ensures env.hostOf(pages[i]) == Some(PhotosHost) && pages[i] != pages[i - 1]
  {
    assert SteppedAt(env, pages, i - 1);
  }

  /** A walk that stops within n steps has at most n + 1 pages. */
  lemma {:induction false} WalkedEndsWithin(env: Env, start: string, pages: seq<string>, n: nat)
    requires Walked(env, start, pages)
    requires WalkEnds(env, Clean(start), n)
    ensures |pages| <= n + 1
  {
    WalkEndsWithinFrom(env, pages, n);
  }

  lemma {:induction false} WalkEndsWithinFrom(env: Env, pages: seq<string>, n: nat)
    requires |pages| >= 1
    requires forall i :: 0 <= i < |pages| - 1 ==> SteppedAt(env, pages, i)
    requires WalkEnds(env, pages[0], n)
    ensures |pages| <= n + 1
    decreases n
  {
    if |pages| > 1 {
      assert SteppedAt(env, pages, 0);
      var rest := pages[1..];
      forall i | 0 <= i < |rest| - 1 ensures SteppedAt(env, rest, i) {
        assert SteppedAt(env, pages, i + 1);
        assert rest[i] == pages[i + 1] && rest[i + 1] == pages[i + 2];
      }
      WalkEndsWithinFrom(env, rest, n - 1);
    }
  }

  /** One more successful step keeps a walk a walk. */
  lemma {:induction false} WalkedExtend(env: Env, start: string, pages: seq<string>, next: string)
    requires Walked(env, start, pages)
    requires !SameItem(pages[|pages| - 1], env.latest)
    requires Step(env, pages[|pages| - 1]) == Success(next)
    ensures Walked(env, start, pages + [next])
  {
    var ext := pages + [next];
    forall i | 0 <= i < |ext| - 1 ensures SteppedAt(env, ext, i) {
      if i < |pages| - 1 {
        assert SteppedAt(env, pages, i);
      }
      assert ext[i] == pages[i] && ext[i + 1] == if i + 1 < |pages| then pages[i + 1] else next;
    }
  }

  /** The log of one more page: a full pass, or a step that went no further. */
  lemma {:induction false} RunLogExtend(pages: seq<string>, next: string)
    requires |pages| >= 1
    ensures RunLog(pages + [next])
         == RunLog(pages) + [Stepped(pages[|pages| - 1], next), Downloaded(next, false), Saved(next)]
    ensures InterruptedLog(pages + [next]) == RunLog(pages) + [Stepped(pages[|pages| - 1], next)]
  {
    var ext := pages + [next];
    assert ext[..|ext| - 1] == pages;
    assert ext[|ext| - 2] == pages[|pages| - 1] && ext[|ext| - 1] == next;
  }

  /** Three events logged one after the other are the three appended at once. */
  lemma EventsAppended(log0: seq<Event>, x: Event, y: Event, z: Event)
    ensures log0 + [x] + [y] + [z] == log0 + [x, y, z]
  {
  }

  /** What the script has changed so far: the checkpoint file, the archive, the browser and the log. */
  datatype Snapshot = Snapshot(lastDone: Option<string>, files: map<string, string>, page: string,
                               pages: seq<string>, log: seq<Event>)

  /** The pages of state s form a walk from `start` and the browser is at the last one. */
  ghost predicate Consistent(env: Env, start: string, s: Snapshot) {
    Walked(env, start, s.pages) && s.page == s.pages[|s.pages| - 1]
  }

  /**
   * Between two passes of the loop, for a run that set out from `start` in
   * state s0: every page reached so far was stepped to, downloaded into the
   * archive and saved, so that the checkpoint is the page the browser shows
   * once the run has taken a step.
   */
  ghost predicate Running(env: Env, start: string, s0: Snapshot, s: Snapshot) {
    && Consistent(env, start, s)
    && Filed(env, s0.files, s.pages) == Some(s.files)
    && s.log == s0.log + RunLog(s.pages)
    && s.lastDone == if |s.pages| == 1 then s0.lastDone else Some(s.page)
  }

  /** The run ended normally: it stands at the latest photo. */
  ghost predicate Reached(env: Env, start: string, s0: Snapshot, s: Snapshot) {
    Running(env, start, s0, s) && SameItem(s.page, env.latest)
  }

  /** The run ended with error e: at a step, or at the download of the page just reached. */
  ghost predicate Halted(env: Env, start: string, s0: Snapshot, s: Snapshot, e: Failure) {
    StepHalted(env, start, s0, s, e) || DownloadHalted(env, start, s0, s, e)
  }

  /** The step from the current page failed with e; everything before it was done. */
  ghost predicate StepHalted(env: Env, start: string, s0: Snapshot, s: Snapshot, e: Failure) {
    && Running(env, start, s0, s)
    && !SameItem(s.page, env.latest)
    && Step(env, s.page).Failure? && e == Step(env, s.page).error
  }

  /** The download of the page just reached failed with e. */
  ghost predicate DownloadHalted(env: Env, start: string, s0: Snapshot, s: Snapshot, e: Failure) {
    && Interrupted(env, start, s0, s)
    && Download(env, s.files.Keys, s.page, |s.pages| == 1) == Failure(e)
  }

  /**
   * The page just reached was stepped to but neither downloaded nor saved:
   * the archive holds the pages before it, and the checkpoint is the page
   * before it.
   */
  ghost predicate Interrupted(env: Env, start: string, s0: Snapshot, s: Snapshot) {
    && Consistent(env, start, s)
    && Filed(env, s0.files, s.pages[..|s.pages| - 1]) == Some(s.files)
    && s.log == s0.log + InterruptedLog(s.pages)
    && s.lastDone == (if |s.pages| <= 2 then s0.lastDone else Some(s.pages[|s.pages| - 2]))
  }

  /** How a run ended: at the latest photo when it passes, halted with its error when it fails. */
  ghost predicate Ended(env: Env, start: string, s0: Snapshot, s: Snapshot, r: Outcome<Failure>) {
    if r.Pass? then Reached(env, start, s0, s) else Halted(env, start, s0, s, r.error)
  }

  /** The state after the cleaned start link is opened. */
  function Opened(s0: Snapshot, link: string): Snapshot {
    s0.(page := link, pages := [link])
  }

  /** The first download of a run, with overwrite, puts the run in its loop. */
  lemma {:induction false} FirstDownloaded(env: Env, start: string, s0: Snapshot, dest: string)
    requires Download(env, s0.files.Keys, Clean(start), true) == Success(dest)
    ensures Running(env, start, s0,
                    Opened(s0, Clean(start)).(files := s0.files[dest := Clean(start)],
                                              log := s0.log + [Downloaded(Clean(start), true)]))
  {
    var s := Opened(s0, Clean(start)).(files := s0.files[dest := Clean(start)],
                                       log := s0.log + [Downloaded(Clean(start), true)]);
    assert s.pages[..0] == [];
    assert s.log[|s0.log|..] == RunLog(s.pages);
  }

  /** A failed first download ends the run with nothing changed but the browser. */
  lemma {:induction false} FirstDownloadFailed(env: Env, start: string, s0: Snapshot)
    ensures Interrupted(env, start, s0, Opened(s0, Clean(start)))
  {
    var s := Opened(s0, Clean(start));
    assert s.pages[..0] == [];
    assert s.log[|s0.log|..] == [];
  }

  /** The state after a step to `next`. */
  function Moved(s: Snapshot, next: string): Snapshot {
    s.(page := next, pages := s.pages + [next], log := s.log + [Stepped(s.page, next)])
  }

  /** A step to `next` from a state whose pages form a walk keeps them a walk, with the browser at `next`. */
  lemma {:induction false} MovedConsistent(env: Env, start: string, s: Snapshot, next: string)
    requires Consistent(env, start, s)
    requires !SameItem(s.page, env.latest) && Step(env, s.page) == Success(next)
    ensures Consistent(env, start, Moved(s, next))
  {
    WalkedExtend(env, start, s.pages, next);
  }

  /** The log of a run after a step to `next`, and after the full pass that downloads and saves `next`. */
  lemma {:induction false} MovedLog(log0: seq<Event>, pages: seq<string>, next: string)
    requires |pages| >= 1
    ensures log0 + RunLog(pages) + [Stepped(pages[|pages| - 1], next)] == log0 + InterruptedLog(pages + [next])
    ensures log0 + RunLog(pages) + [Stepped(pages[|pages| - 1], next), Downloaded(next, false), Saved(next)]
         == log0 + RunLog(pages + [next])
  {
    RunLogExtend(pages, next);
  }

  /** Downloading one more page, without overwrite, into the archive the pages before it left. */
  lemma {:induction false} FiledAppend(env: Env, files: map<string, string>, pages: seq<string>,
                                       f: map<string, string>, next: string, dest: string)
    requires pages != [] && Filed(env, files, pages) == Some(f)
    requires Download(env, f.Keys, next, false) == Success(dest)
    ensures Filed(env, files, pages + [next]) == Some(f[dest := next])
  {
    var ext := pages + [next];
    assert ext[..|ext| - 1] == pages && ext[|ext| - 1] == next;
    assert FiledLast(env, files, ext) == Some(f[dest := next]);
  }

  /** A failed download after a step ends the run at the new page, with the archive and checkpoint of the old one. */
  lemma {:induction false} DownloadAfterStepFailed(env: Env, start: string, s0: Snapshot, s: Snapshot, next: string)
    requires Running(env, start, s0, s)
    requires !SameItem(s.page, env.latest) && Step(env, s.page) == Success(next)
    ensures Interrupted(env, start, s0, Moved(s, next))
  {
    var m := Moved(s, next);
    MovedConsistent(env, start, s, next);
    MovedLog(s0.log, s.pages, next);
    assert m.pages[..|m.pages| - 1] == s.pages;
    assert Filed(env, s0.files, m.pages[..|m.pages| - 1]) == Some(m.files);
    assert m.pages[|m.pages| - 2] == s.page;
    assert m.lastDone == (if |m.pages| <= 2 then s0.lastDone else Some(m.pages[|m.pages| - 2]));
  }

  /** A full pass of the loop: step to `next`, download it into archive f, save `next`. */
  lemma {:induction false} Advanced(env: Env, start: string, s0: Snapshot, s: Snapshot, next: string,
                                    f: map<string, string>)
    requires Running(env, start, s0, s)
    requires !SameItem(s.page, env.latest) && Step(env, s.page) == Success(next)
    requires Filed(env, s0.files, s.pages + [next]) == Some(f)
    ensures Running(env, start, s0,
                    Moved(s, next).(files := f, lastDone := Some(next),
                                    log := s.log + [Stepped(s.page, next), Downloaded(next, false), Saved(next)]))
  {
    MovedConsistent(env, start, s, next);
    MovedLog(s0.log, s.pages, next);
  }

  /** In the loop the checkpoint is the last URL the run saved, or the one it started from. */
  lemma {:induction false} RunningCheckpoint(env: Env, start: string, s0: Snapshot, s: Snapshot)
    requires Running(env, start, s0, s)
    ensures s.lastDone == LastSaved(s.log[|s0.log|..], s0.lastDone)
  {
    assert s.log[|s0.log|..] == RunLog(s.pages);
    RunLogCheckpoint(s.pages, s0.lastDone);
  }

  /** After a failed download the checkpoint is still the last URL the run saved. */
  lemma {:induction false} DownloadHaltedCheckpoint(env: Env, start: string, s0: Snapshot, s: Snapshot)
    requires Interrupted(env, start, s0, s)
    ensures s.lastDone == LastSaved(s.log[|s0.log|..], s0.lastDone)
  {
    assert s.log[|s0.log|..] == InterruptedLog(s.pages);
    InterruptedCheckpoint(s.pages, s0.lastDone);
  }

  /**
   * The archive of a run, in the loop or after a failed download, keeps
   * every path it had, and each entry is the old one or comes from a page
   * of the run.
   */
  lemma {:induction false} RunArchive(env: Env, start: string, s0: Snapshot, s: Snapshot)
    requires Running(env, start, s0, s) || Interrupted(env, start, s0, s)
    ensures s0.files.Keys <= s.files.Keys
    ensures forall p :: p in s.files ==> (p in s0.files && s.files[p] == s0.files[p]) || s.files[p] in s.pages
  {
    if Running(env, start, s0, s) {
      FiledOnlyAdds(env, s0.files, s.pages);
    } else {
      var front := s.pages[..|s.pages| - 1];
      FiledOnlyAdds(env, s0.files, front);
      assert forall p :: p in front ==> p in s.pages;
    }
  }

  /**
   * What the next run starts from, for a run that started from `start`:
   * the page the loop last saved, the same start link when it has not
   * saved one, and the empty-file error if the page saved was empty.
   */
  lemma {:induction false} RunningResumes(env: Env, start: string, s0: Snapshot, s: Snapshot)
    requires Running(env, start, s0, s)
    requires StartLink(env, s0.lastDone) == Success(start)
    ensures |s.pages| == 1 ==> StartLink(env, s.lastDone) == Success(start)
    ensures |s.pages| > 1 && s.page != "" ==> StartLink(env, s.lastDone) == Success(s.page)
    ensures |s.pages| > 1 && s.page == "" ==>
              StartLink(env, s.lastDone) == Failure(CheckpointError(Empty(JsError("Error: " + EmptyMessage))))
  {
    if |s.pages| > 1 {
      WalkedPagesOnHost(env, start, s.pages, |s.pages| - 1);
    }
  }

  /** After a failed download the next run starts from the page before the one that failed. */
  lemma {:induction false} InterruptedResumes(env: Env, start: string, s0: Snapshot, s: Snapshot)
    requires Interrupted(env, start, s0, s)
    requires StartLink(env, s0.lastDone) == Success(start)
    ensures |s.pages| <= 2 ==> StartLink(env, s.lastDone) == Success(start)
    ensures |s.pages| > 2 && s.pages[|s.pages| - 2] != "" ==>
              StartLink(env, s.lastDone) == Success(s.pages[|s.pages| - 2])
    ensures |s.pages| > 2 && s.pages[|s.pages| - 2] == "" ==>
              StartLink(env, s.lastDone) == Failure(CheckpointError(Empty(JsError("Error: " + EmptyMessage))))
  {
    if |s.pages| > 2 {
      WalkedPagesOnHost(env, start, s.pages, |s.pages| - 2);
    }
  }

  /**
   * The events of a run in the loop: one download more than steps, as many
   * saves as steps, and a single download that may overwrite.
   */
  lemma {:induction false} RunningCounts(env: Env, start: string, s0: Snapshot, s: Snapshot)
    requires Running(env, start, s0, s)
    ensures var events := s.log[|s0.log|..];
            && Count(events, DownloadKind) == Count(events, StepKind) + 1
            && Count(events, SaveKind) == Count(events, StepKind)
            && Count(events, StepKind) == |s.pages| - 1
            && Overwrites(events) == 1
  {
    assert s.log[|s0.log|..] == RunLog(s.pages);
    RunLogCounts(s.pages);
  }

  /**
   * A run stops at the first page that is the latest photo up to the account
   * segment: the page it ends on is one, and no page before it is.
   */
  lemma {:induction false} ReachedFirstMatch(env: Env, start: string, s0: Snapshot, s: Snapshot, i: nat)
    requires Reached(env, start, s0, s)
    requires i < |s.pages|
    ensures SameItem(s.pages[i], env.latest) <==> i == |s.pages| - 1
  {
    assert i < |s.pages| - 1 ==> SteppedAt(env, s.pages, i);
  }

  /**
   * A run whose cleaned start link is already the latest photo downloads
   * that one photo with overwrite, takes no step and leaves the checkpoint alone.
   */
  lemma {:induction false} ReachedAtStart(env: Env, start: string, s0: Snapshot, s: Snapshot)
    requires Reached(env, start, s0, s)
    requires SameItem(Clean(start), env.latest)
    ensures s.pages == [Clean(start)] && s.page == Clean(start)
    ensures s.log == s0.log + [Downloaded(Clean(start), true)]
    ensures s.lastDone == s0.lastDone
  {
    assert |s.pages| > 1 ==> SteppedAt(env, s.pages, 0);
    assert s.pages == [s.pages[0]];
  }

  /** Two walks from the same start agree as far as both go. */
  lemma {:induction false} WalkedAgree(env: Env, start: string, a: seq<string>, b: seq<string>, i: nat)
    requires Walked(env, start, a) && Walked(env, start, b)
    requires i < |a| && i < |b|
    ensures a[..i + 1] == b[..i + 1]
    decreases i
  {
    if i > 0 {
      WalkedAgree(env, start, a, b, i - 1);
      assert SteppedAt(env, a, i - 1) && SteppedAt(env, b, i - 1);
      assert a[..i + 1] == a[..i] + [a[i]] && b[..i + 1] == b[..i] + [b[i]];
    }
  }

  /** A page before the last of a run is not where a run can end. */
  lemma {:induction false} NotEndedBefore(env: Env, start: string, s0: Snapshot, s: Snapshot, k: nat)
    requires Running(env, start, s0, s) || Interrupted(env, start, s0, s)
    requires k < |s.pages| - 1
    ensures !SameItem(s.pages[k], env.latest) && Step(env, s.pages[k]).Success?
    ensures Filed(env, s0.files, s.pages[..k + 1]).Some?
  {
    assert SteppedAt(env, s.pages, k);
    if Running(env, start, s0, s) {
      FiledPrefix(env, s0.files, s.pages, k + 1);
    } else {
      var front := s.pages[..|s.pages| - 1];
      FiledPrefix(env, s0.files, front, k + 1);
      assert front[..k + 1] == s.pages[..k + 1];
    }
  }

  /**
   * The last page of an ended run: the latest photo, a failed step, or a
   * failed download; which one is told apart by whether the run's pages
   * were all downloaded.
   */
  lemma {:induction false} EndedAt(env: Env, start: string, s0: Snapshot, s: Snapshot, r: Outcome<Failure>)
    requires Ended(env, start, s0, s, r)
    ensures r.Pass? ==> SameItem(s.page, env.latest) && Running(env, start, s0, s)
    ensures r.Fail? && Filed(env, s0.files, s.pages).Some? ==>
              !SameItem(s.page, env.latest) && StepHalted(env, start, s0, s, r.error)
    ensures r.Fail? && Filed(env, s0.files, s.pages).None? ==> DownloadHalted(env, start, s0, s, r.error)
  {
    if r.Fail? && !StepHalted(env, start, s0, s, r.error) {
      assert DownloadHalted(env, start, s0, s, r.error);
      assert Filed(env, s0.files, s.pages).None? by {
        assert s.pages[|s.pages| - 1] == s.page;
      }
    }
  }

  /**
   * A walk from which a run cannot go on: its last page is the latest
   * photo, has no successful step, or fails to download, while every page
   * before it was downloaded.
   */
  ghost predicate Stops(env: Env, files: map<string, string>, pages: seq<string>) {
    && |pages| >= 1
    && (|| SameItem(pages[|pages| - 1], env.latest)
        || Step(env, pages[|pages| - 1]).Failure?
        || Filed(env, files, pages).None?)
    && (forall k :: 1 <= k < |pages| ==> Filed(env, files, pages[..k]).Some?)
  }

  /** The pages of an ended run form a walk that stops. */
  lemma {:induction false} EndedStops(env: Env, start: string, s0: Snapshot, s: Snapshot, r: Outcome<Failure>)
    requires Ended(env, start, s0, s, r)
    ensures Walked(env, start, s.pages) && Stops(env, s0.files, s.pages)
  {
    EndedAt(env, start, s0, s, r);
    DownloadedBefore(env, start, s0, s);
  }

  /** In the loop or after a failed download, every page before the last was downloaded. */
  lemma {:induction false} DownloadedBefore(env: Env, start: string, s0: Snapshot, s: Snapshot)
    requires Running(env, start, s0, s) || Interrupted(env, start, s0, s)
    ensures forall k :: 1 <= k < |s.pages| ==> Filed(env, s0.files, s.pages[..k]).Some?
  {
    forall k | 1 <= k < |s.pages| ensures Filed(env, s0.files, s.pages[..k]).Some? {
      NotEndedBefore(env, start, s0, s, k - 1);
    }
  }

  /** Two walks from the same start that both stop are the same walk. */
  lemma {:induction false} StoppedWalksAgree(env: Env, start: string, files: map<string, string>,
                                             a: seq<string>, b: seq<string>)
    requires Walked(env, start, a) && Stops(env, files, a)
    requires Walked(env, start, b) && Stops(env, files, b)
    ensures a == b
  {
    var m := if |a| <= |b| then |a| - 1 else |b| - 1;
    var a', b' := a[..m + 1], b[..m + 1];
    WalkedAgree(env, start, a, b, m);
    assert m < |a| - 1 ==> b == a' && SteppedAt(env, a, m) && Filed(env, files, a').Some?;
    assert m < |b| - 1 ==> a == b' && SteppedAt(env, b, m) && Filed(env, files, b').Some?;
    assert |a| == |b|;
    assert a == a' && b == b';
  }

  /** Two states that end the same run stand on the same pages. */
  lemma {:induction false} EndedSamePages(env: Env, start: string, s0: Snapshot,
                                          s: Snapshot, r: Outcome<Failure>, t: Snapshot, q: Outcome<Failure>)
    requires Ended(env, start, s0, s, r) && Ended(env, start, s0, t, q)
    ensures s.pages == t.pages
  {
    EndedStops(env, start, s0, s, r);
    EndedStops(env, start, s0, t, q);
    StoppedWalksAgree(env, start, s0.files, s.pages, t.pages);
  }

  /**
   * The outcome of a run and its final state are determined by the
   * environment, the start link and the state it started in: two states
   * that end the same run are the same state, with the same outcome.
   */
  lemma {:induction false} EndedDetermined(env: Env, start: string, s0: Snapshot,
                                           s: Snapshot, r: Outcome<Failure>, t: Snapshot, q: Outcome<Failure>)
    requires Ended(env, start, s0, s, r) && Ended(env, start, s0, t, q)
    ensures s == t && r == q
  {
    EndedSamePages(env, start, s0, s, r, t, q);
    EndedAt(env, start, s0, s, r);
    EndedAt(env, start, s0, t, q);
  }

  /**
   * A run from the given checkpoint and archive comes to an end: the
   * checkpoint is rejected, the first download fails, or the loop after it
   * stops within some number of passes.
   */
  ghost predicate Finishes(env: Env, checkpoint: Option<string>, files: map<string, string>) {
    match StartLink(env, checkpoint)
    case Failure(_) => true
    case Success(start) =>
      match Download(env, files.Keys, Clean(start), true)
      case Failure(_) => true
      case Success(dest) => LoopEnds(env, files[dest := Clean(start)], Clean(start))
  }

  /** The loop entered at page `cur` with archive `files` stops after finitely many passes. */
  ghost predicate LoopEnds(env: Env, files: map<string, string>, cur: string) {
    exists n :: RunEnds(env, files, cur, n)
  }

  /** A run whose walk from the checkpoint stops within n steps finishes, whatever the archive. */
  lemma WalkEndsFinishes(env: Env, checkpoint: Option<string>, files: map<string, string>, n: nat)
    requires checkpoint.Some? ==> WalkEnds(env, Clean(checkpoint.value), n)
    ensures Finishes(env, checkpoint, files)
  {
    var start := StartLink(env, checkpoint);
    if start.Success? {
      var link := Clean(start.value);
      var first := Download(env, files.Keys, link, true);
      if first.Success? {
        WalkEndsRunEnds(env, files[first.value := link], link, n);
      }
    }
  }

  class Backup {
    var lastDone: Option<string>        // the `.lastdone` file; None when it cannot be read
    var files: map<string, string>      // the archive: destination path -> page the file was downloaded from
    var page: string                    // the URL the browser shows
    ghost var pages: seq<string>        // the pages this run has stood on, in order
    ghost var log: seq<Event>           // what the script has done to the outside world

    constructor (checkpoint: Option<string>, archive: map<string, string>)
      ensures lastDone == checkpoint && files == archive
      ensures page == "" && pages == [] && log == []
    {
      lastDone := checkpoint;
      files := archive;
      page := "";
      pages := [];
      log := [];
    }

    ghost function State(): Snapshot
      reads this
    {
      Snapshot(lastDone, files, page, pages, log)
    }

    /** saveProgress: the current page becomes the checkpoint. */
    method SaveProgress()
      modifies this`lastDone, this`log
      ensures lastDone == Some(page)
      ensures log == old(log) + [Saved(page)]
    {
      lastDone := Some(page);
      log := log + [Saved(page)];
    }

    /** moveFile of the downloaded temporary file to `dest`. */
    method MoveFile(env: Env, dest: string, overwrite: bool) returns (ok: bool)
      modifies this`files
      ensures ok == CanMove(old(files).Keys, env.blocked, dest, overwrite)
      ensures files == if ok then old(files)[dest := page] else old(files)
    {
      ok := CanMove(files.Keys, env.blocked, dest, overwrite);
      if ok {
        files := files[dest := page];
      }
    }

    /** downloadPhoto: download the current page's photo and move it into the archive. */
    method DownloadPhoto(env: Env, overwrite: bool) returns (r: Result<string, Failure>)
      modifies this`files, this`log
      ensures r == Download(env, old(files).Keys, page, overwrite)
      ensures r.Failure? ==> State() == old(State())
      ensures r.Success? ==> State() == old(State()).(files := old(files)[r.value := page],
                                                       log := old(log) + [Downloaded(page, overwrite)])
    {
      var fetched := env.fetch(page);
      if fetched.None? {
        return Failure(DownloadFailed(page));
      }
      var f := fetched.value;
      var first := DestinationPath(f.year, f.month, f.fileName);
      var ok := MoveFile(env, first, overwrite);
      if ok {
        r := Success(first);
      } else {
        var second := DestinationPath(f.year, f.month, RetryName(f.fileName));
        ok := MoveFile(env, second, env.retryOverwrite);
        r := if ok then Success(second) else Failure(MoveFailed(second));
      }
      if r.Success? {
        log := log + [Downloaded(page, overwrite)];
      }
    }

    /** Click the previous-photo arrow and wait for the new page. */
    method StepBack(env: Env) returns (r: Outcome<Failure>)
      modifies this`page, this`pages, this`log
      ensures r.Pass? <==> Step(env, old(page)).Success?
      ensures r.Fail? ==> r.error == Step(env, old(page)).error && State() == old(State())
      ensures r.Pass? ==> State() == Moved(old(State()), Step(env, old(page)).value)
    {
      var next := Step(env, page);
      if next.Failure? {
        return Fail(next.error);
      }
      log := log + [Stepped(page, next.value)];
      page := next.value;
      pages := pages + [page];
      r := Pass;
    }

    /**
     * The whole run: read the checkpoint, open it, download its photo with
     * overwrite, then step, download and save until the page is the latest
     * photo. Runs that go on forever are excluded by the precondition.
     */
    method Run(env: Env) returns (r: Outcome<Failure>)
      requires Finishes(env, lastDone, files)
      modifies this
      ensures StartLink(env, old(lastDone)).Failure? ==>
                r == Fail(StartLink(env, old(lastDone)).error) && State() == old(State())
      ensures StartLink(env, old(lastDone)).Success? ==>
                Ended(env, StartLink(env, old(lastDone)).value, old(State()), State(), r)
    {
      var start := StartLink(env, lastDone);
      if start.Failure? {
        return Fail(start.error);
      }
      ghost var s0 := State();
      page := Clean(start.value);
      pages := [page];
      assert State() == Opened(s0, Clean(start.value));
      var first := DownloadPhoto(env, true);
      if first.Failure? {
        FirstDownloadFailed(env, start.value, s0);
        return Fail(first.error);
      }
      FirstDownloaded(env, start.value, s0, first.value);
      ghost var n :| RunEnds(env, files, page, n);
      r := Traverse(env, start.value, n, s0);
    }

    /** The loop of index.js:60-83, entered after the first download. */
    method Traverse(env: Env, ghost start: string, ghost n: nat, ghost s0: Snapshot)
      returns (r: Outcome<Failure>)
      requires Running(env, start, s0, State())
      requires RunEnds(env, files, page, n)
      modifies this
      ensures Ended(env, start, s0, State(), r)
    {
      ghost var fuel := n;
      while true
        invariant Running(env, start, s0, State())
        invariant RunEnds(env, files, page, fuel)
        decreases fuel
      {
        if SameItem(page, env.latest) {
          return Pass;
        }
        r := Advance(env, start, s0);
        if r.Fail? {
          return;
        }
        fuel := fuel - 1;
      }
    }

    /**
     * One pass of the loop past the latest-photo test: step, download
     * without overwrite, save. A failed step changes nothing; a failed
     * download leaves the browser at the new page.
     */
    method Advance(env: Env, ghost start: string, ghost s0: Snapshot) returns (r: Outcome<Failure>)
      requires Running(env, start, s0, State())
      requires !SameItem(page, env.latest)
      modifies this
      ensures Step(env, old(page)).Failure? ==> r == Fail(Step(env, old(page)).error) && State() == old(State())
      ensures Step(env, old(page)).Success? ==> page == Step(env, old(page)).value
      ensures Step(env, old(page)).Success? && Download(env, old(files).Keys, page, false).Failure? ==>
                && r == Fail(Download(env, old(files).Keys, page, false).error)
                && State() == Moved(old(State()), page)
      ensures Step(env, old(page)).Success? && Download(env, old(files).Keys, page, false).Success? ==>
                && r == Pass
                && State() == Moved(old(State()), page).(
                     files := old(files)[Download(env, old(files).Keys, page, false).value := page],
                     lastDone := Some(page),
                     log := old(log) + [Stepped(old(page), page), Downloaded(page, false), Saved(page)])
      ensures r.Pass? ==> Running(env, start, s0, State())
      ensures r.Fail? ==> Halted(env, start, s0, State(), r.error)
    {
      ghost var s := State();
      r := StepBack(env);
      if r.Fail? {
        return;
      }
      ghost var m := State();
      var got := DownloadPhoto(env, false);
      if got.Failure? {
        DownloadAfterStepFailed(env, start, s0, s, page);
        return Fail(got.error);
      }
      SaveProgress();
      r := Pass;
      FiledAppend(env, s0.files, s.pages, s.files, page, got.value);
      Advanced(env, start, s0, s, page, files);
      EventsAppended(s.log, Stepped(s.page, page), Downloaded(page, false), Saved(page));
    }
  }
}
