# google-photos-backup in Dafny

This project models the core of `index.js` from google-photos-backup. The
script walks a Google Photos library from a saved photo link towards the
newest photo. For each photo it presses the "previous photo" arrow, downloads
the photo into `./download/<year>/<month>/` and stores the page URL in the
`.lastdone` checkpoint file, so that an interrupted run can resume.

The model has six modules:

- `Wrappers`: the `Option`, `Result` and `Outcome` datatypes the others use.
- `Locator`: `clean`, which removes the first `/u/<digits>/` account segment of
  a URL, and `SameItem`, the comparison the loop stops on.
- `Progress`: `getProgress`, which reads the checkpoint and rejects an empty
  one. The error it throws for an empty file is caught by its own `catch`
  and wrapped by `new Error(error)`, so its message gains an `Error: ` prefix.
- `Decimal`: how a template literal prints the year and month, plus a parser
  that reads them back.
- `Placement`: the destination path of a download, the collision name
  `fileName.replaceAll('.', '(1).')`, and the rule for when `moveFile` succeeds.
- `Traversal`: the main async function as a `Backup` object. Its fields are
  the checkpoint file, the archive (destination path to the page the file came
  from) and the page the browser shows. Two ghost fields record history the
  script does not keep: the pages visited so far and a log of the effects on
  the outside world (downloads, steps, saves). The methods update these
  fields in place.

The browser and the libraries behind it are an environment `Env` of oracles:

- the latest photo's locator;
- the page that one click on the arrow leads to;
- the host of a URL, or none for strings `new URL` rejects;
- the file name and the capture year and month of a download;
- the paths `moveFile` cannot write, and the overwrite setting of the
  fallback move.

`Filed` is the archive that downloading a list of pages produces: each page
in turn, the first with overwrite and the rest without. `Running`, `Reached`
and `Halted` describe the states of a run. They relate the object's state to
the state before the run:

- the pages form a walk of successful steps from the cleaned start link;
- the archive is `Filed` of the pages (or of all but the last after a failed
  download);
- the log is exactly the structure the loop produces;
- the checkpoint is the last page saved.

`Run` ends in `Reached` or `Halted`. Lemmas then derive the promised
properties from these predicates: the event counts, their order, the stopping
rule, what the next run resumes from, and that the final state is determined
by the environment and the starting state.

## Model

| member | source | states |
|---|---|---|
| Locator.Clean | index.js:127-130 | the cleaned link is never longer than the link (what it removes and keeps is stated by CleanReplacesFirst and CleanUnchangedIff) |
| Locator.CleanFromFirst | index.js:129 | the search from a position replaces exactly the leftmost occurrence found from there, and nothing when there is none |
| Locator.CleanUnchangedIff | index.js:127-130 | a link is returned unchanged exactly when it holds no `/u/<digits>/` segment |
| Locator.CleanReplacesFirst | index.js:129 | the leftmost `/u/<digits>/` becomes a single `/`, and every character before and after it is kept |
| Locator.FirstSegmentLeftmost | index.js:129 | the match that is found is an occurrence of the pattern with none before it; when none is found, there is none |
| Locator.SegmentEndCorrect | index.js:129 | the pattern matched at a position is exactly `/u/`, one or more digits, `/` |
| Locator.CleanFirstMatchOnly | index.js:129 | the replacement is not global: `/u/0/u/1/` cleans to `/u/1/`, cleaning again gives `/`, so clean is not idempotent |
| Locator.CleanIgnoresAccount | index.js:61-63 | two links that differ only in their account number clean to the same locator, so they count as the same item |
| Progress.GetProgress | index.js:20-28 | success exactly for a readable non-empty file, with the content verbatim; the Empty error exactly for an empty file, carrying the rethrown error whose message is `Error: ` followed by the message thrown at index.js:23; the Unreadable error exactly when reading it fails |
| Decimal.NatToDecimalShape | index.js:104-107 | the rendering of a natural number is non-empty, all digits, free of leading zeros, and one digit long exactly below 10 |
| Decimal.ParseNatDigits | index.js:104-107 | the parser that reads a month back accepts exactly the non-empty strings of digits |
| Decimal.NatRoundTrip | index.js:104-107 | reading the rendered digits back gives the number |
| Decimal.IntRoundTrip | index.js:103-107 | the rendered year, sign included, reads back as the year |
| Decimal.IntToDecimalShape | index.js:103-107 | the rendered year is non-empty and contains no `/`, so it stays one path component |
| Placement.DirectoryShape | index.js:107 | the directory lies under `./download/` and ends in `/` |
| Placement.FindSlashFirst | index.js:107 | the slash search skips no slash, so it splits a path at its first `/` |
| Placement.FindSlashAfter | index.js:107 | a component free of `/` followed by `/` is split off exactly at that slash |
| Placement.ParsePieces | index.js:107 | a path built from a year, a month and a name, the first two free of `/` and readable as numbers, parses back into them |
| Placement.DestinationRoundTrip | index.js:107 | the year, month and file name can be read back from the path |
| Placement.DestinationInjective | index.js:107 | different (year, month, name) triples never share a destination |
| Placement.MonthUnpadded | index.js:104-107 | the month is printed without padding: one digit up to September, two after, never a leading zero |
| Placement.RetryNameUnchangedIff | index.js:110 | the fallback name equals the suggested name exactly when the name has no dot |
| Placement.RetryNameLength | index.js:110 | the fallback name is longer by three characters per dot |
| Placement.RetryNameMarksDots | index.js:110 | every dot of the fallback name comes right after its own "(1)" |
| Placement.RetryNameUndo | index.js:110 | removing each "(1)" before a dot gives the suggested name back |
| Placement.RetryNameEveryDot | index.js:110 | in a two-dot name both dots are marked, not only the one before the extension |
| Placement.RetryNameAppend | index.js:110 | the rename works character by character, so it distributes over concatenation |
| Placement.RetrySameDirectory | index.js:107-111 | read back by the path parser, the first and the fallback path name the same year and month, with the suggested and the renamed file name |
| Placement.PlaceWithin | index.js:106-113 | a placed file lies in the month directory, at the first or the fallback path, never at an unwritable path, and at an existing path only when a move may overwrite |
| Placement.PlaceOutcome | index.js:106-113 | the file lands at the first path whenever the first move may go ahead; an existing file is replaced only by the first move with overwrite or by the fallback move with its overwrite setting; the download fails exactly when neither move may go ahead |
| Placement.FallbackReplaces | index.js:109-111 | when the fallback may overwrite, a third photo named `a.jpg` in the same month replaces the earlier `a(1).jpg` |
| Placement.PlaceNeverClobbers | index.js:106-111 | with overwrite off for both moves, no existing or unwritable path is ever the result |
| Placement.DotlessFallbackSamePath | index.js:109-111 | a dotless name that collides falls back to the same path, so the second move succeeds only if it may overwrite |
| Traversal.StartLink | index.js:36-37 | the run starts exactly when the checkpoint is readable, non-empty and accepted by `new URL`; checkpoint errors pass through unchanged |
| Traversal.Step | index.js:74-79 | a step succeeds exactly when the arrow exists and leads to a page on `photos.google.com` that differs from the current one, and it returns that page |
| Traversal.DownloadOutcome | index.js:87-113 | a download whose fetch fails is a DownloadFailed error; a fetched photo lands at the first path whenever that move may go ahead, otherwise at the renamed path in the same directory when that move may, and fails as MoveFailed at the renamed path exactly when neither move may; wherever it lands is in the month directory, at a writable path, replacing an existing file only when a move may overwrite |
| Traversal.FiledOnlyAdds | index.js:58-82 | downloading pages keeps every path of the archive, and every entry is the old one or comes from a downloaded page |
| Traversal.FiledPrefix | index.js:58-82 | when a list of pages all download, every prefix of it does too |
| Traversal.RunLog | index.js:58-83 | a run over n pages has 3n - 2 events |
| Traversal.LastSaved | index.js:30-33 | the checkpoint after some events is the former one or a URL the events saved |
| Traversal.RunLogCounts | index.js:58-82 | n pages make n downloads, n - 1 steps and n - 1 saves, and exactly one download is called with overwrite set |
| Traversal.RunLogOrder | index.js:58-82 | the first event is the download of the start page called with overwrite set; step i goes from page i - 1 to page i, then page i is downloaded without overwrite, then page i is saved |
| Traversal.RunLogCheckpoint | index.js:81-82 | after a run the checkpoint is the last page, or the old checkpoint if the run never stepped |
| Traversal.InterruptedCheckpoint | index.js:81-82 | after a failed download the checkpoint is the page before the failed one, or the old checkpoint |
| Traversal.WalkedPagesOnHost | index.js:77-79 | every page stepped to is on `photos.google.com` and differs from the page before it |
| Traversal.WalkedEndsWithin | index.js:60-83 | a walk that ends within n steps visits at most n + 1 pages |
| Traversal.WalkEndsRunEnds | index.js:60-83 | a loop whose walk stops within n steps also stops within n passes, whatever the archive: a failed download only ends it sooner |
| Traversal.WalkEndsFinishes | index.js:35-83 | a run whose walk from the checkpoint stops finishes, whatever the archive, so runs that end at a rejected checkpoint or a failed download are not excluded |
| Traversal.WalkedExtend | index.js:60-79 | a successful step from a page that is not the latest photo extends the walk |
| Traversal.WalkedAgree | index.js:60-79 | two walks from the same start visit the same pages as far as both go |
| Traversal.FirstDownloaded | index.js:53-58 | the first download, with overwrite, puts the run into its loop state with the archive gaining that photo |
| Traversal.FirstDownloadFailed | index.js:53-58 | a failed first download ends the run with only the browser moved |
| Traversal.MovedConsistent | index.js:74-79 | a successful step from a page that is not the latest photo keeps the pages a walk ending at the browser's page |
| Traversal.DownloadAfterStepFailed | index.js:74-81 | a failed download after a step ends the run at the new page, with the archive and checkpoint of the page before |
| Traversal.Advanced | index.js:74-82 | a full pass (step, download without overwrite, save) keeps the loop state, with the archive of the longer run |
| Traversal.RunningCheckpoint | index.js:81-82 | while in the loop, the checkpoint is the last URL the run saved, or the one it started from |
| Traversal.DownloadHaltedCheckpoint | index.js:81-82 | after a failed download, the checkpoint is still the last URL the run saved |
| Traversal.RunArchive | index.js:58-82 | during a run the archive keeps every path it had, and each entry is the old one or comes from a page of the run |
| Traversal.RunningResumes | index.js:20-37 | after a pass, the next start reads back the page just saved (or the empty-checkpoint error if that page was empty); before any pass it reads the same start link |
| Traversal.InterruptedResumes | index.js:20-37 | after a failed download, the next start reads back the page before the failed one, or the old start link |
| Traversal.RunningCounts | index.js:58-82 | downloads equal steps plus one, saves equal steps, steps equal pages minus one, and exactly one download is called with overwrite set |
| Traversal.ReachedFirstMatch | index.js:61-67 | a finished run stands at a page that is the latest photo up to the account segment, and no earlier page of the run is |
| Traversal.ReachedAtStart | index.js:53-67 | when the cleaned start link is already the latest photo, the run downloads it once with overwrite, takes no step and leaves the checkpoint alone |
| Traversal.NotEndedBefore | index.js:60-83 | no page before the last of a run is the latest photo or a failed step, and every one of them was downloaded |
| Traversal.EndedAt | index.js:60-83 | an ended run passes at the latest photo, or fails at a step when all its pages were downloaded, or at the download of its last page otherwise |
| Traversal.DownloadedBefore | index.js:60-83 | during a run every page before the last was downloaded |
| Traversal.EndedStops | index.js:60-83 | the pages of an ended run form a walk from the start that cannot go on |
| Traversal.StoppedWalksAgree | index.js:60-83 | two walks from the same start that both cannot go on are the same walk |
| Traversal.EndedSamePages | index.js:60-83 | two states that end the same run stand on the same pages |
| Traversal.EndedDetermined | index.js:35-85 | the final state and the outcome of a run are determined by the environment, the start link and the starting state |
| Traversal.Backup.constructor | index.js:35-45 | the object starts with the checkpoint file and archive it is given, no page open and an empty log |
| Traversal.Backup.SaveProgress | index.js:30-33 | the current page becomes the checkpoint, and the save is logged |
| Traversal.Backup.MoveFile | index.js:106-111 | the move succeeds exactly when moveFile's rule allows it, and only then records the destination |
| Traversal.Backup.DownloadPhoto | index.js:87-113 | the result is Download of the current page; on success the archive gains the destination and the download is logged, on failure nothing changes |
| Traversal.Backup.StepBack | index.js:74-79 | on success the browser moves to the page Step gives and the step is logged; on failure the state is unchanged |
| Traversal.Backup.Run | index.js:35-85 | a bad checkpoint fails with its error and changes nothing; otherwise the run ends at the latest photo (Reached) or with the error of a failed step or download (Halted), with the archive `Filed` of the pages downloaded; it requires only that the run finishes: the checkpoint is rejected, the first download fails, or the loop stops within some number of passes |
| Traversal.Backup.Traverse | index.js:60-83 | the loop keeps the loop state, archive included, and ends at the latest photo or with a halting error; it requires that the loop stops within n passes, at the latest photo, a failed step or a failed download |
| Traversal.Backup.Advance | index.js:69-83 | a failed step fails with its error and changes nothing; a failed download fails with its error at the new page; otherwise the browser, pages, archive, checkpoint and log are given in terms of the old state, and the loop state is kept |

## Left out

- The Playwright calls `evaluate` (the arrow click), `waitForURL` and `waitForEvent('download')` with the Shift+D key presses are oracles in `Env`. Their exceptions and timeouts become the failures `NoPreviousPhoto`, `NavigationTimeout` and `DownloadFailed`.
- Launching the browser and opening a page (index.js:39-47) are not modelled, and neither is a failure of either.
- getLatestPhoto is one oracle value, `Env.latest`. Its key press, `sleep(500)` and `activeElement.toString()` are not modelled.
- After `page.goto(clean(startLink))` the page URL is taken to be the cleaned link. A redirect by the server is not modelled.
- A failing `page.goto` (index.js:47 and 53) is not modelled.
- `sharp`, `exif-reader` and `new Date(dateString)` are not modelled: a download reports its year and month directly. An invalid date, which prints as `NaN`, is not modelled. Neither is the local-time-zone dependence of `getFullYear` and `getMonth`.
- `Placement.CanMove`: the `move-file` library appears only as its observable rule. A move throws when the destination is unwritable or when it exists and overwrite is off. The library's own default for `overwrite` in the fallback call (index.js:111) is the parameter `Env.retryOverwrite`, not a fixed value.
- `Traversal.Backup.Run`: requires `Finishes`: the checkpoint is rejected, or the first download fails, or the loop stops within some number of passes at the latest photo, a failed step or a failed download. Only a run that goes on forever, stepping and downloading successfully without reaching the latest photo, is excluded, because it cannot be the result of a terminating method.
- `Traversal.Backup.SaveProgress`: a failing `writeFile` is not modelled; saving always succeeds.
- `Progress.GetProgress`: every `readFile` failure is one error, `Unreadable`. The message of the error readFile throws, and the file encoding, are not modelled.
- `Traversal.Step`: `waitForURL` compares `url.href` with the string that `page.url()` returned; the model compares the strings as they are, without URL normalisation.
- Console logging, `browser.close()`, the `--headless` flag and setup.js (a manual login helper) are not modelled.
- The comment at index.js:110 says "(1)" is added before the extension. The code replaces every dot, and the model follows the code (`Placement.RetryNameEveryDot`).
