/**
 * Where downloadPhoto puts a downloaded file (index.js:102-113): the path
 * `./download/<year>/<month>/<fileName>`, the fallback name used when the
 * first move throws, and the rule by which a move succeeds.
 */
module Placement {
  import opened Wrappers
  import opened Decimal

  /** A calendar month as `getMonth() + 1` reports it. */
  type Month = m: int | 1 <= m <= 12 witness 1

  const DownloadRoot: string := "./download/"

  /** `${downloadPath}/${year}/${month}/`: the directory of one month. */
  function Directory(year: int, month: Month): string {
    DownloadRoot + IntToDecimal(year) + "/" + NatToDecimal(month) + "/"
  }

  /** `${downloadPath}/${year}/${month}/${fileName}`: where a download is moved to. */
  function DestinationPath(year: int, month: Month, fileName: string): string {
    Directory(year, month) + fileName
  }

  /** A month directory lies under the download root and ends in a slash. */
  lemma DirectoryShape(year: int, month: Month)
    ensures var d := Directory(year, month);
            DownloadRoot <= d && d[|d| - 1] == '/'
  {
  }

  /** A destination is its month directory followed by exactly the file name. */
  lemma DestinationInDirectory(year: int, month: Month, fileName: string)
    ensures var d, p := Directory(year, month), DestinationPath(year, month, fileName);
            d <= p && |p| == |d| + |fileName| && p[|d|..] == fileName
  {
  }

  /** `fileName.replaceAll('.', '(1).')`: "(1)" goes in front of every dot. */
  function RetryName(fileName: string): (r: string)
  {
    if fileName == [] then []
    else (if fileName[0] == '.' then "(1)." else [fileName[0]]) + RetryName(fileName[1..])
  }

  /** The number of dots in a name. */
  function Dots(s: string): nat
  {
    if s == [] then 0 else (if s[0] == '.' then 1 else 0) + Dots(s[1..])
  }

  /** Removes a "(1)" that stands right before a dot: the inverse of RetryName. */
  function UndoRetry(s: string): string
  {
    if s == [] then []
    else if |s| >= 4 && s[..4] == "(1)." then "." + UndoRetry(s[4..])
    else [s[0]] + UndoRetry(s[1..])
  }

  /** Reads a path back into the year, month and file name it was built from. */
  function ParseDestination(p: string): Option<(int, Month, string)>
  {
    if !(DownloadRoot <= p) then None
    else
      var rest := p[|DownloadRoot|..];
      match FindSlash(rest, 0)
      case None => None
      case Some(i) =>
        match ParseInt(rest[..i])
        case None => None
        case Some(year) =>
          var tail := rest[i + 1..];
          match FindSlash(tail, 0)
          case None => None
          case Some(j) =>
            match ParseNat(tail[..j])
            case None => None
            case Some(month) =>
              if 1 <= month <= 12 then Some((year, month as Month, tail[j + 1..])) else None
  }

  /** The position of the first `/` at or after `from`. */
  function FindSlash(s: string, from: nat): (r: Option<nat>)
    ensures r.Some? ==> from <= r.value < |s| && s[r.value] == '/'
    decreases |s| - from
  {
    if |s| <= from then None
    else if s[from] == '/' then Some(from)
    else FindSlash(s, from + 1)
  }

  /** FindSlash skips no slash: before the one it finds, or anywhere when it finds none. */
  lemma {:induction false} FindSlashFirst(s: string, from: nat)
    ensures FindSlash(s, from).Some? ==> forall k :: from <= k < FindSlash(s, from).value ==> s[k] != '/'
    ensures FindSlash(s, from).None? ==> forall k :: from <= k < |s| ==> s[k] != '/'
    decreases |s| - from
  {
    if from < |s| && s[from] != '/' {
      FindSlashFirst(s, from + 1);
    }
  }

  /**
   * What moveFile does with a destination: it throws when the destination
   * cannot be written at all (`blocked`) and, unless overwrite is set, when a
   * file is already there.
   */
  predicate CanMove(existing: set<string>, blocked: set<string>, dest: string, overwrite: bool) {
    dest !in blocked && (overwrite || dest !in existing)
  }

  /**
   * The try/catch of downloadPhoto: the path the file ends up at, or None
   * when the fallback move throws as well. The fallback call passes no
   * options; `retryOverwrite` is the overwrite setting moveFile then uses.
   */
  function Place(existing: set<string>, blocked: set<string>, year: int, month: Month,
                 fileName: string, overwrite: bool, retryOverwrite: bool): Option<string>
  {
    var first := DestinationPath(year, month, fileName);
    if CanMove(existing, blocked, first, overwrite) then Some(first)
    else
      var second := DestinationPath(year, month, RetryName(fileName));
      if CanMove(existing, blocked, second, retryOverwrite) then Some(second) else None
  }

  /** A name without a dot is left as it is; a name with one is changed. */
  lemma {:induction false} RetryNameUnchangedIff(fileName: string)
    ensures RetryName(fileName) == fileName <==> '.' !in fileName
  {
    RetryNameLength(fileName);
    DotsCount(fileName);
    if '.' !in fileName {
      RetryNameNoDot(fileName);
    }
  }

  lemma {:induction false} RetryNameNoDot(fileName: string)
    requires '.' !in fileName
    ensures RetryName(fileName) == fileName
  {
    if fileName != [] {
      assert fileName[0] in fileName;
      assert fileName[1..] <= fileName[1..];
      assert forall c :: c in fileName[1..] ==> c in fileName;
      RetryNameNoDot(fileName[1..]);
    }
  }

  lemma {:induction false} DotsCount(s: string)
    ensures Dots(s) == 0 <==> '.' !in s
  {
    if s != [] {
      DotsCount(s[1..]);
      assert s == [s[0]] + s[1..];
    }
  }

  /** Every dot grows by the three characters of "(1)"; nothing else changes length. */
  lemma {:induction false} RetryNameLength(fileName: string)
    ensures |RetryName(fileName)| == |fileName| + 3 * Dots(fileName)
  {
    if fileName != [] {
      RetryNameLength(fileName[1..]);
    }
  }

  /** Every dot of a fallback name stands right after a "(1)" of its own. */
  lemma {:induction false} RetryNameMarksDots(fileName: string, p: nat)
    requires p < |RetryName(fileName)| && RetryName(fileName)[p] == '.'
    ensures 3 <= p && RetryName(fileName)[p - 3..p] == "(1)"
  {
    var head := if fileName[0] == '.' then "(1)." else [fileName[0]];
    var r := RetryName(fileName);
    assert r == head + RetryName(fileName[1..]);
    if p >= |head| {
      RetryNameMarksDots(fileName[1..], p - |head|);
      assert r[p - 3..p] == RetryName(fileName[1..])[p - |head| - 3..p - |head|];
    }
  }

  /** Removing the inserted "(1)"s gives the suggested name back. */
  lemma {:induction false} RetryNameUndo(fileName: string)
    ensures UndoRetry(RetryName(fileName)) == fileName
  {
    if fileName != [] {
      var r := RetryName(fileName);
      var tail := RetryName(fileName[1..]);
      RetryNameUndo(fileName[1..]);
      if fileName[0] == '.' {
        assert r[..4] == "(1)." && r[4..] == tail;
      } else {
        assert r == [fileName[0]] + tail;
        assert !(|r| >= 4 && r[..4] == "(1).") by {
          if |r| >= 4 && r[..4] == "(1)." {
            assert r[3] == '.' && tail[2] == r[3];
            RetryNameMarksDots(fileName[1..], 2);
          }
        }
        assert r[1..] == tail;
      }
    }
  }

  /** Not only the dot of the extension: every dot of the name is marked. */
  lemma RetryNameEveryDot(stem: string, middle: string, ext: string)
    requires '.' !in stem && '.' !in middle && '.' !in ext
    ensures RetryName(stem + "." + middle + "." + ext) == stem + "(1)." + middle + "(1)." + ext
  {
    RetryNameAppend(stem + "." + middle + ".", ext);
    RetryNameAppend(stem + "." + middle, ".");
    RetryNameAppend(stem + ".", middle);
    RetryNameAppend(stem, ".");
    RetryNameNoDot(stem);
    RetryNameNoDot(middle);
    RetryNameNoDot(ext);
  }

  /** The rename works character by character, so it distributes over concatenation. */
  lemma {:induction false} RetryNameAppend(a: string, b: string)
    ensures RetryName(a + b) == RetryName(a) + RetryName(b)
  {
    if a == [] {
      assert a + b == b;
    } else {
      assert (a + b)[0] == a[0] && (a + b)[1..] == a[1..] + b;
      RetryNameAppend(a[1..], b);
    }
  }

  /** A string without `/`, a slash and anything: the first slash is the one after the string. */
  lemma {:induction false} FindSlashAfter(a: string, b: string)
    requires '/' !in a
    ensures FindSlash(a + "/" + b, 0) == Some(|a|)
    ensures (a + "/" + b)[..|a|] == a && (a + "/" + b)[|a| + 1..] == b
  {
    var s := a + "/" + b;
    FindSlashFirst(s, 0);
    assert forall k :: 0 <= k < |a| ==> s[k] == a[k];
    assert s[|a|] == '/';
  }

  /** Concatenation of six strings, regrouped from the right after the first. */
  lemma RightNested(a: string, b: string, c: string, d: string, e: string, f: string)
    ensures a + b + c + d + e + f == a + (b + c + (d + e + f))
  {
  }

  /** A string is a prefix of its concatenation with another, and the rest is the other. */
  lemma AppendSplit(a: string, b: string)
    ensures a <= a + b && (a + b)[..|a|] == a && (a + b)[|a|..] == b
  {
  }

  /** A path made of a year, a month and a name, none of the first two holding a `/`, parses into them. */
  lemma ParsePieces(y: string, m: string, fileName: string, year: int, month: Month)
    requires '/' !in y && ParseInt(y) == Some(year)
    requires '/' !in m && ParseNat(m) == Some(month as nat)
    ensures ParseDestination(DownloadRoot + (y + "/" + (m + "/" + fileName))) == Some((year, month, fileName))
  {
    var tail := m + "/" + fileName;
    AppendSplit(DownloadRoot, y + "/" + tail);
    FindSlashAfter(y, tail);
    FindSlashAfter(m, fileName);
  }

  /** A path can be read back: distinct buckets and names never share a path. */
  lemma DestinationRoundTrip(year: int, month: Month, fileName: string)
    ensures ParseDestination(DestinationPath(year, month, fileName)) == Some((year, month, fileName))
  {
    var y := IntToDecimal(year);
    var m := NatToDecimal(month);
    assert ParseInt(y) == Some(year) && '/' !in y by {
      IntToDecimalShape(year);
      IntRoundTrip(year);
    }
    assert ParseNat(m) == Some(month as nat) && '/' !in m by {
      NatToDecimalShape(month);
      assert forall k :: 0 <= k < |m| ==> m[k] != '/';
      NatRoundTrip(month);
    }
    ParsePieces(y, m, fileName, year, month);
    RightNested(DownloadRoot, y, "/", m, "/", fileName);
  }

  lemma DestinationInjective(y1: int, m1: Month, f1: string, y2: int, m2: Month, f2: string)
    requires DestinationPath(y1, m1, f1) == DestinationPath(y2, m2, f2)
    ensures y1 == y2 && m1 == m2 && f1 == f2
  {
    DestinationRoundTrip(y1, m1, f1);
    DestinationRoundTrip(y2, m2, f2);
  }

  /** The month is printed without padding: one digit up to September, two after. */
  lemma MonthUnpadded(month: Month)
    ensures |NatToDecimal(month)| == if month < 10 then 1 else 2
    ensures NatToDecimal(month)[0] != '0'
  {
    NatToDecimalShape(month);
    if month >= 10 {
      assert NatToDecimal(month) == NatToDecimal(1) + [DigitChar(month - 10)];
    }
  }

  /**
   * The fallback goes to the same month directory as the first try: read
   * back, both paths name the same year and month, and they differ only in
   * the file name, the fallback's being the renamed one.
   */
  lemma RetrySameDirectory(year: int, month: Month, fileName: string)
    ensures var a := ParseDestination(DestinationPath(year, month, fileName));
            var b := ParseDestination(DestinationPath(year, month, RetryName(fileName)));
            && a.Some? && b.Some?
            && a.value.0 == b.value.0 && a.value.1 == b.value.1
            && a.value.2 == fileName && b.value.2 == RetryName(fileName)
  {
    DestinationRoundTrip(year, month, fileName);
    DestinationRoundTrip(year, month, RetryName(fileName));
  }

  /**
   * Where a download ends up: in the month directory, at the first or at
   * the fallback path, never at an unwritable path, and at an existing one
   * only when a move may overwrite.
   */
  lemma PlaceWithin(existing: set<string>, blocked: set<string>, year: int, month: Month,
                    fileName: string, overwrite: bool, retryOverwrite: bool)
    ensures var r := Place(existing, blocked, year, month, fileName, overwrite, retryOverwrite);
            && (r.Some? ==> Directory(year, month) <= r.value)
            && (r.Some? ==> (r.value == DestinationPath(year, month, fileName)
                          || r.value == DestinationPath(year, month, RetryName(fileName))))
            && (r.Some? ==> r.value !in blocked && (r.value in existing ==> overwrite || retryOverwrite))
  {
    DestinationInDirectory(year, month, fileName);
    DestinationInDirectory(year, month, RetryName(fileName));
  }

  /**
   * Which path a download ends up at: the first path whenever its move may
   * go ahead, an existing file replaced only by a move that may overwrite,
   * and no path exactly when neither move may go ahead.
   */
  lemma PlaceOutcome(existing: set<string>, blocked: set<string>, year: int, month: Month,
                     fileName: string, overwrite: bool, retryOverwrite: bool)
    ensures var r := Place(existing, blocked, year, month, fileName, overwrite, retryOverwrite);
            var first, second := DestinationPath(year, month, fileName), DestinationPath(year, month, RetryName(fileName));
            && (CanMove(existing, blocked, first, overwrite) ==> r == Some(first))
            && (r.Some? && r.value in existing ==>
                  (r.value == first && overwrite) || (r.value == second && retryOverwrite))
            && (r.None? <==> !CanMove(existing, blocked, first, overwrite)
                             && !CanMove(existing, blocked, second, retryOverwrite))
  {
  }

  /**
   * With the fallback allowed to overwrite, a third photo with the same
   * suggested name replaces the file the second one was moved to.
   */
  lemma FallbackReplaces(existing: set<string>, blocked: set<string>, year: int, month: Month,
                         fileName: string)
    requires DestinationPath(year, month, fileName) in existing
    requires DestinationPath(year, month, RetryName(fileName)) in existing
    requires DestinationPath(year, month, RetryName(fileName)) !in blocked
    ensures var r := Place(existing, blocked, year, month, fileName, false, true);
            r.Some? && r.value in existing && r.value == DestinationPath(year, month, RetryName(fileName))
  {
  }

  /** With overwriting off for both moves, no file that was already there is replaced. */
  lemma PlaceNeverClobbers(existing: set<string>, blocked: set<string>, year: int, month: Month,
                           fileName: string)
    ensures var r := Place(existing, blocked, year, month, fileName, false, false);
            r.Some? ==> r.value !in existing && r.value !in blocked
  {
  }

  /**
   * A name without a dot falls back to the very same path, so after a
   * collision the second move succeeds only if it may overwrite.
   */
  lemma DotlessFallbackSamePath(existing: set<string>, blocked: set<string>, year: int, month: Month,
                                fileName: string, retryOverwrite: bool)
    requires '.' !in fileName
    requires DestinationPath(year, month, fileName) in existing
    requires DestinationPath(year, month, fileName) !in blocked
    ensures Place(existing, blocked, year, month, fileName, false, retryOverwrite)
         == if retryOverwrite then Some(DestinationPath(year, month, fileName)) else None
  {
    RetryNameUnchangedIff(fileName);
  }
}
