/** The routeview mirror's decisions: which files the publisher's creation
    log advertises, which of them the bucket lacks, where each one is
    fetched from and stored to, and the pass that transfers them. */
module RouteviewUpdate {
  import opened PyRuntime

  // ---------------------------------------------------------------------
  // The deployed configuration
  // ---------------------------------------------------------------------

  const BucketName := "censoredplanet_geolocation"
  const BucketRouteviewPath := "caida/routeviews/"
  const CaidaRouteviewDirUrl := "http://data.caida.org/datasets/routing/routeviews-prefix2as/"
  /** Lists only the last 30 routeview files created. */
  const CaidaCreationFile := "pfx2as-creation.log"

  // ---------------------------------------------------------------------
  // The creation log
  // ---------------------------------------------------------------------

  /** output.split("\n")[:-1]: the log's lines, without the segment after
      the last newline (empty when the log ends with a newline). */
  function CreationLogLines(text: string): (lines: seq<string>)
    ensures forall k :: 0 <= k < |lines| ==> '\n' !in lines[k]
  {
    var pieces := Split(text, '\n');
    pieces[..|pieces| - 1]
  }

  /** A log of newline-terminated lines followed by an unterminated tail
      gives back exactly those lines; the tail is dropped. */
  lemma CreationLogLinesOf(lines: seq<string>, tail: string)
    requires forall k :: 0 <= k < |lines| ==> '\n' !in lines[k]
    requires '\n' !in tail
    ensures CreationLogLines(Terminated(lines, '\n') + tail) == lines
  {
    SplitTerminated(lines, tail, '\n');
    assert (lines + [tail])[..|lines|] == lines;
  }

  /** line[t..t+9] is a tab followed by \d{4}/\d{2}/. */
  predicate YearMonthDirAt(line: string, t: nat)
  {
    && t + 9 <= |line|
    && line[t] == '\t'
    && IsDigit(line[t + 1]) && IsDigit(line[t + 2]) && IsDigit(line[t + 3]) && IsDigit(line[t + 4])
    && line[t + 5] == '/'
    && IsDigit(line[t + 6]) && IsDigit(line[t + 7])
    && line[t + 8] == '/'
  }

  /** A tab the pattern's second `\t` can sit on: another tab before it
      (for the first `\t`) and YYYY/MM/ right after it. */
  predicate GroupTabAt(line: string, t: nat)
  {
    YearMonthDirAt(line, t) && '\t' in line[..t]
  }

  /** The greatest t < k at which GroupTabAt holds. */
  function LastGroupTab(line: string, k: nat): (r: Option<nat>)
    ensures r.Some? ==> r.value < k && GroupTabAt(line, r.value)
    ensures r.Some? ==> forall t: nat :: r.value < t < k ==> !GroupTabAt(line, t)
    ensures r.None? ==> forall t: nat :: t < k ==> !GroupTabAt(line, t)
    decreases k
  {
    if k == 0 then None
    else if GroupTabAt(line, k - 1) then Some(k - 1)
    else LastGroupTab(line, k - 1)
  }

  /** re.findall(r".*\t.*\t\d{4}/\d{2}/(.*)", line)[0] on a line without a
      newline. A match exists at position 0 whenever one exists at all (the
      leading .* absorbs any prefix), and greedy backtracking settles the
      pattern's second tab on the last tab that has another tab before it
      and YYYY/MM/ after it; the group is the rest of the line. With no
      match, [0] raises IndexError. */
  function ExtractFilename(line: string): (r: Result<string>)
    ensures r.Raise? ==> r.error == IndexError
    ensures r.Ok? ==> |r.value| + 9 <= |line| && r.value == line[|line| - |r.value|..]
  {
    match LastGroupTab(line, |line|)
    case None => Raise(IndexError)
    case Some(t) => Ok(line[t + 9..])
  }

  /** The filename is the text after the last tab that has another tab
      before it and YYYY/MM/ after it; with no such tab the lookup raises. */
  lemma ExtractFilenameMatch(line: string)
    ensures ExtractFilename(line).Raise? <==> forall t: nat :: !GroupTabAt(line, t)
    ensures ExtractFilename(line).Ok? ==>
              exists t: nat :: && GroupTabAt(line, t)
                               && (forall u: nat :: t < u ==> !GroupTabAt(line, u))
                               && ExtractFilename(line).value == line[t + 9..]
  {
    match LastGroupTab(line, |line|)
    case None =>
    case Some(t) =>
      assert forall u: nat :: t < u ==> !GroupTabAt(line, u);
  }

  /** A line that the loop reads as a data line: not empty (line[0] raises
      IndexError on an empty one) and not starting with '#'. */
  predicate IsDataLine(line: string) { line != [] && line[0] != '#' }

  /** The data lines, in order. */
  function DataLines(lines: seq<string>): (d: seq<string>)
    ensures |d| <= |lines| && forall k :: 0 <= k < |d| ==> IsDataLine(d[k])
    decreases |lines|
  {
    if lines == [] then []
    else
      var n := |lines| - 1;
      var init := DataLines(lines[..n]);
      if IsDataLine(lines[n]) then init + [lines[n]] else init
  }

  /** names[i] is the filename in dataLines[i], for every i. */
  predicate FilenamesOf(dataLines: seq<string>, names: seq<string>)
  {
    |names| == |dataLines| && forall i :: 0 <= i < |names| ==> ExtractFilename(dataLines[i]) == Ok(names[i])
  }

  lemma FilenamesOfSnoc(dataLines: seq<string>, names: seq<string>, line: string, name: string)
    requires FilenamesOf(dataLines, names) && ExtractFilename(line) == Ok(name)
    ensures FilenamesOf(dataLines + [line], names + [name])
  {
    forall i | 0 <= i < |names| + 1
      ensures ExtractFilename((dataLines + [line])[i]) == Ok((names + [name])[i])
    {
      if i < |names| {
        assert (dataLines + [line])[i] == dataLines[i];
        assert (names + [name])[i] == names[i];
      }
    }
  }

  /** One pass of the loop body: an empty line raises IndexError (line[0]),
      a comment line is skipped, a data line adds its filename. */
  function ParseLine(files: seq<string>, line: string): (r: Result<seq<string>>)
    ensures r.Raise? ==> r.error == IndexError
  {
    if line == [] then Raise(IndexError)
    else if line[0] == '#' then Ok(files)
    else
      var filename :- ExtractFilename(line);
      Ok(files + [filename])
  }

  /** The loop of _get_latest_generated_routeview_files over the log's
      lines: skip comment lines, take the filename of every other line. */
  function ParseLines(lines: seq<string>): (r: Result<seq<string>>)
    ensures r.Raise? ==> r.error == IndexError
    decreases |lines|
  {
    if lines == [] then Ok([])
    else
      var files :- ParseLines(lines[..|lines| - 1]);
      ParseLine(files, lines[|lines| - 1])
  }

  /** The result lists, in order, the filename of every data line. */
  lemma {:induction false} ParseLinesFilenames(lines: seq<string>)
    ensures ParseLines(lines).Ok? ==> FilenamesOf(DataLines(lines), ParseLines(lines).value)
    decreases |lines|
  {
    if lines != [] {
      var n := |lines| - 1;
      ParseLinesFilenames(lines[..n]);
      var init := ParseLines(lines[..n]);
      if init.Ok? && IsDataLine(lines[n]) && ExtractFilename(lines[n]).Ok? {
        FilenamesOfSnoc(DataLines(lines[..n]), init.value, lines[n], ExtractFilename(lines[n]).value);
      }
    }
  }

  /** A line the loop gets past: a comment, or a data line with a filename. */
  predicate LineParses(line: string)
  {
    line != [] && (line[0] == '#' || ExtractFilename(line).Ok?)
  }

  lemma ParseLineSucceeds(files: seq<string>, line: string)
    ensures ParseLine(files, line).Ok? <==> LineParses(line)
  {
  }

  /** The loop completes exactly when it gets past every line. */
  lemma {:induction false} ParseLinesSucceeds(lines: seq<string>)
    ensures ParseLines(lines).Ok? <==> forall k :: 0 <= k < |lines| ==> LineParses(lines[k])
    decreases |lines|
  {
    if lines != [] {
      var n := |lines| - 1;
      ParseLinesSucceeds(lines[..n]);
      assert forall k :: 0 <= k < n ==> lines[..n][k] == lines[k];
      if ParseLines(lines[..n]).Ok? {
        ParseLineSucceeds(ParseLines(lines[..n]).value, lines[n]);
      }
    }
  }

  /** The filenames the creation log advertises, in log order. */
  function ParseCreationLog(text: string): Result<seq<string>>
  {
    ParseLines(CreationLogLines(text))
  }

  /** Once a prefix of the lines raises, the whole loop raises the same. */
  lemma {:induction false} ParseLinesStopsAtFailure(lines: seq<string>, j: nat)
    requires j <= |lines| && ParseLines(lines[..j]).Raise?
    ensures ParseLines(lines) == ParseLines(lines[..j])
    decreases |lines|
  {
    if j < |lines| {
      var n := |lines| - 1;
      assert lines[..n][..j] == lines[..j];
      ParseLinesStopsAtFailure(lines[..n], j);
    } else {
      assert lines[..j] == lines;
    }
  }

  /** One more line after a prefix that parsed. */
  lemma ParseLinesNext(lines: seq<string>, i: nat, files: seq<string>)
    requires i < |lines| && ParseLines(lines[..i]) == Ok(files)
    ensures ParseLines(lines[..i + 1]) == ParseLine(files, lines[i])
  {
    assert lines[..i + 1][..i] == lines[..i];
  }

  /** One line of a creation log: a comment, or a record of a created file
      ("<id>\t<timestamp>\t<YYYY>/<MM>/<filename>"). */
  datatype LogLine =
    | Comment(text: string)
    | Created(id: string, timestamp: string, year: string, month: string, filename: string)

  predicate WellFormedLine(e: LogLine)
  {
    match e
    case Comment(text) => '\n' !in text
    case Created(id, timestamp, year, month, filename) =>
      && id != [] && id[0] != '#' && '\n' !in id
      && '\n' !in timestamp
      && |year| == 4 && AllDigits(year) && |month| == 2 && AllDigits(month)
      && '\n' !in filename && '\t' !in filename
  }

  function RenderLine(e: LogLine): string
  {
    match e
    case Comment(text) => "#" + text
    case Created(id, timestamp, year, month, filename) =>
      id + "\t" + timestamp + "\t" + year + "/" + month + "/" + filename
  }

  function RenderLines(entries: seq<LogLine>): (lines: seq<string>)
    ensures |lines| == |entries| && forall k :: 0 <= k < |entries| ==> lines[k] == RenderLine(entries[k])
  {
    seq(|entries|, k requires 0 <= k < |entries| => RenderLine(entries[k]))
  }

  /** A creation log file holding these lines, each ended by a newline. */
  function RenderCreationLog(entries: seq<LogLine>): string
  {
    Terminated(RenderLines(entries), '\n')
  }

  /** The filenames of the created-file records, in order. */
  function CreatedFilenames(entries: seq<LogLine>): seq<string>
    decreases |entries|
  {
    if entries == [] then []
    else
      var n := |entries| - 1;
      var init := CreatedFilenames(entries[..n]);
      if entries[n].Created? then init + [entries[n].filename] else init
  }

  /** For a record line the filename is the text after YYYY/MM/. */
  lemma ExtractFromCreatedLine(e: LogLine)
    requires e.Created? && WellFormedLine(e)
    ensures ExtractFilename(RenderLine(e)) == Ok(e.filename)
  {
    var line := RenderLine(e);
    var head := e.id + "\t" + e.timestamp;
    var t := |head|;
    assert line == head + "\t" + e.year + "/" + e.month + "/" + e.filename;
    assert line[|e.id|] == '\t';
    assert line[..t][|e.id|] == '\t';
    assert line[t + 1..t + 5] == e.year;
    assert line[t + 6..t + 8] == e.month;
    assert GroupTabAt(line, t);
    assert line[t + 9..] == e.filename;
    forall u: nat | t < u ensures !GroupTabAt(line, u) {
      if t + 9 <= u < |line| {
        assert line[u] == e.filename[u - (t + 9)];
      }
    }
    match LastGroupTab(line, |line|)
    case None =>
    case Some(v) =>
      assert v == t;
  }

  /** The loop body on one rendered line. */
  lemma ParseRenderedLine(files: seq<string>, entries: seq<LogLine>, k: nat)
    requires forall j :: 0 <= j < |entries| ==> WellFormedLine(entries[j])
    requires k < |entries|
    ensures ParseLine(files, RenderLine(entries[k]))
            == Ok(if entries[k].Created? then files + [entries[k].filename] else files)
  {
    var e := entries[k];
    if e.Created? {
      ExtractFromCreatedLine(e);
      assert RenderLine(e)[0] == e.id[0];
    }
  }

  /** Parsing the rendered lines gives the created filenames in order. */
  lemma {:induction false} ParseRenderedLines(entries: seq<LogLine>)
    requires forall k :: 0 <= k < |entries| ==> WellFormedLine(entries[k])
    ensures ParseLines(RenderLines(entries)) == Ok(CreatedFilenames(entries))
    decreases |entries|
  {
    if entries != [] {
      var n := |entries| - 1;
      var lines := RenderLines(entries);
      assert lines[..n] == RenderLines(entries[..n]);
      ParseRenderedLines(entries[..n]);
      ParseLinesNext(lines, n, CreatedFilenames(entries[..n]));
      assert lines[..n + 1] == lines;
      ParseRenderedLine(CreatedFilenames(entries[..n]), entries, n);
    }
  }

  lemma RenderedLineIsOneLine(e: LogLine)
    requires WellFormedLine(e)
    ensures '\n' !in RenderLine(e)
  {
    if e.Created? {
      var line := RenderLine(e);
      assert line == e.id + "\t" + e.timestamp + "\t" + e.year + "/" + e.month + "/" + e.filename;
      forall c | c in e.year + e.month ensures c != '\n' {
        var k :| 0 <= k < |e.year + e.month| && (e.year + e.month)[k] == c;
        if k < 4 { assert IsDigit(e.year[k]); } else { assert IsDigit(e.month[k - 4]); }
      }
    }
  }

  lemma RenderedLinesAreLines(entries: seq<LogLine>)
    requires forall k :: 0 <= k < |entries| ==> WellFormedLine(entries[k])
    ensures forall k :: 0 <= k < |entries| ==> '\n' !in RenderLines(entries)[k]
  {
    forall k | 0 <= k < |entries| ensures '\n' !in RenderLines(entries)[k] {
      RenderedLineIsOneLine(entries[k]);
    }
  }

  /** A creation log parses to the filenames of its records, in log order:
      comment lines are skipped, and a last line without a newline is
      ignored. */
  lemma ParseRenderedCreationLog(entries: seq<LogLine>, tail: string)
    requires forall k :: 0 <= k < |entries| ==> WellFormedLine(entries[k])
    requires '\n' !in tail
    ensures ParseCreationLog(RenderCreationLog(entries) + tail) == Ok(CreatedFilenames(entries))
  {
    var lines := RenderLines(entries);
    RenderedLinesAreLines(entries);
    SplitTerminated(lines, tail, '\n');
    assert (lines + [tail])[..|lines|] == lines;
    assert CreationLogLines(RenderCreationLog(entries) + tail) == lines;
    ParseRenderedLines(entries);
  }

  // ---------------------------------------------------------------------
  // The bucket listing and the diff
  // ---------------------------------------------------------------------

  /** os.path.basename: the text after the last '/'. */
  function Basename(path: string): (b: string)
    ensures '/' !in b
    ensures '/' !in path ==> b == path
    decreases |path|
  {
    if path == [] then []
    else if path[|path| - 1] == '/' then []
    else Basename(path[..|path| - 1]) + [path[|path| - 1]]
  }

  /** os.path.join(a, b) on POSIX paths: b after a, with one '/' between
      them unless a is empty or already ends with one; an absolute b
      replaces a. */
  function PathJoin(a: string, b: string): string
  {
    if b != [] && b[0] == '/' then b
    else if a == [] || a[|a| - 1] == '/' then a + b
    else a + "/" + b
  }

  /** The joined path ends with b; a relative b follows a and at most one
      added '/'; an absolute b is the whole result. */
  lemma PathJoinShape(a: string, b: string)
    ensures PathJoin(a, b)[|PathJoin(a, b)| - |b|..] == b
    ensures b != [] && b[0] == '/' ==> PathJoin(a, b) == b
    ensures !(b != [] && b[0] == '/') ==>
              && |PathJoin(a, b)| == |a| + |b| + (if a == [] || a[|a| - 1] == '/' then 0 else 1)
              && PathJoin(a, b)[..|a|] == a
  {
  }

  /** A file stored under a directory is listed back under its own name. */
  lemma {:induction false} BasenameOfJoin(dir: string, name: string)
    requires name != [] && '/' !in name
    ensures Basename(PathJoin(dir, name)) == name
  {
    BasenameSuffix(if dir == [] || dir[|dir| - 1] == '/' then dir else dir + "/", name);
  }

  lemma {:induction false} BasenameSuffix(dir: string, name: string)
    requires name != [] && '/' !in name && (dir == [] || dir[|dir| - 1] == '/')
    ensures Basename(dir + name) == name
    decreases |name|
  {
    var p := dir + name;
    var n := |name| - 1;
    assert p[..|p| - 1] == dir + name[..n];
    assert p[|p| - 1] == name[n] && name[n] != '/';
    assert Basename(p) == Basename(dir + name[..n]) + [name[n]];
    if n == 0 {
      assert Basename(dir) == [];
    } else {
      BasenameSuffix(dir, name[..n]);
    }
    assert name == name[..n] + [name[n]];
  }

  /** _get_caida_files_in_bucket: the base name of every blob in the bucket. */
  function CaidaFilesInBucket(blobNames: seq<string>): (files: seq<string>)
    ensures |files| == |blobNames|
    ensures forall k :: 0 <= k < |blobNames| ==> files[k] == Basename(blobNames[k])
  {
    seq(|blobNames|, k requires 0 <= k < |blobNames| => Basename(blobNames[k]))
  }

  /** set(xs). */
  function SetOf(xs: seq<string>): (s: set<string>)
    ensures forall x :: x in s <==> x in xs
    decreases |xs|
  {
    if xs == [] then {}
    else
      var n := |xs| - 1;
      assert xs == xs[..n] + [xs[n]];
      SetOf(xs[..n]) + {xs[n]}
  }

  /** _diff_new_caida_files: set(latest_files) - set(existing_files). The
      list it returns has no specified order, so the model keeps the set. */
  function DiffNewCaidaFiles(latestFiles: seq<string>, existingFiles: seq<string>): (diff: set<string>)
    ensures forall x :: x in diff <==> x in latestFiles && x !in existingFiles
  {
    SetOf(latestFiles) - SetOf(existingFiles)
  }

  /** The docstring example: ['1','2','3'] against ['2','3','4'] is ['1']. */
  lemma DiffExample()
    ensures DiffNewCaidaFiles(["1", "2", "3"], ["2", "3", "4"]) == {"1"}
  {
    var d := DiffNewCaidaFiles(["1", "2", "3"], ["2", "3", "4"]);
    assert "1" in d;
    forall x | x in d ensures x == "1" {
      assert x in ["1", "2", "3"] && x !in ["2", "3", "4"];
    }
  }

  /** Nothing new when every advertised file is stored; every advertised
      file when nothing is stored. */
  lemma DiffBounds(latestFiles: seq<string>, existingFiles: seq<string>)
    ensures (forall x :: x in latestFiles ==> x in existingFiles) ==>
              DiffNewCaidaFiles(latestFiles, existingFiles) == {}
    ensures DiffNewCaidaFiles(latestFiles, []) == SetOf(latestFiles)
  {
  }

  /** The blobs that storing these files under `dir` adds to the bucket. */
  function StoredBlobs(dir: string, files: seq<string>): (blobs: seq<string>)
    ensures |blobs| == |files| && forall k :: 0 <= k < |files| ==> blobs[k] == PathJoin(dir, files[k])
  {
    seq(|files|, k requires 0 <= k < |files| => PathJoin(dir, files[k]))
  }

  /** Re-running after every new file has been stored finds nothing new:
      each stored blob is listed back under the file's own name. */
  lemma RerunFindsNothingNew(latestFiles: seq<string>, blobNames: seq<string>, dir: string, stored: seq<string>)
    requires forall n :: n in stored ==> n != [] && '/' !in n
    requires forall n :: n in DiffNewCaidaFiles(latestFiles, CaidaFilesInBucket(blobNames)) ==> n in stored
    ensures DiffNewCaidaFiles(latestFiles, CaidaFilesInBucket(blobNames + StoredBlobs(dir, stored))) == {}
  {
    var added := StoredBlobs(dir, stored);
    var listed := CaidaFilesInBucket(blobNames + added);
    forall x | x in latestFiles ensures x in listed {
      if x !in CaidaFilesInBucket(blobNames) {
        assert x in DiffNewCaidaFiles(latestFiles, CaidaFilesInBucket(blobNames));
        var k :| 0 <= k < |stored| && stored[k] == x;
        BasenameOfJoin(dir, x);
        assert listed[|blobNames| + k] == x;
      } else {
        var k :| 0 <= k < |blobNames| && CaidaFilesInBucket(blobNames)[k] == x;
        assert listed[k] == x;
      }
    }
  }

  /** Under the deployed routeview path, which ends with '/', a file is
      stored at the path followed directly by its name. */
  /** A name with a '/' is listed back under its last component only, so
      every later pass finds it new again. */
  lemma SlashedNameStaysNew()
    ensures DiffNewCaidaFiles(["sub/x"], CaidaFilesInBucket(StoredBlobs(BucketRouteviewPath, ["sub/x"]))) == {"sub/x"}
  {
    var stored := StoredBlobs(BucketRouteviewPath, ["sub/x"]);
    assert stored[0] == BucketRouteviewPath + "sub/x" by { DeployedBlobPath("sub/x"); }
    BasenameSuffix(BucketRouteviewPath + "sub/", "x");
    assert BucketRouteviewPath + "sub/x" == (BucketRouteviewPath + "sub/") + "x";
    assert CaidaFilesInBucket(stored) == ["x"];
  }

  lemma DeployedBlobPath(filename: string)
    requires filename != [] && filename[0] != '/'
    ensures PathJoin(BucketRouteviewPath, filename) == BucketRouteviewPath + filename
  {
    assert BucketRouteviewPath[|BucketRouteviewPath| - 1] == '/';
  }

  // ---------------------------------------------------------------------
  // Where a file is fetched from
  // ---------------------------------------------------------------------

  /** filename[15:19]: the year in routeviews-rv2-YYYYMMDD-HHMM.pfx2as.gz. */
  function FileYear(filename: string): string { Slice(filename, 15, 19) }

  /** filename[19:21]: the month. */
  function FileMonth(filename: string): string { Slice(filename, 19, 21) }

  /** The url _transfer_new_file fetches: <dir>YYYY/MM/<filename>. */
  function TransferUrl(dirUrl: string, filename: string): (url: string)
    ensures |url| == |dirUrl| + |FileYear(filename)| + |FileMonth(filename)| + 2 + |filename|
    ensures url[..|dirUrl|] == dirUrl && url[|url| - |filename|..] == filename
    ensures url[|dirUrl|..|url| - |filename|] == FileYear(filename) + "/" + FileMonth(filename) + "/"
  {
    var url := dirUrl + FileYear(filename) + "/" + FileMonth(filename) + "/" + filename;
    assert url[|url| - |filename|..] == filename;
    url
  }

  /** A file name as the publisher names its files. */
  function RouteviewFilename(year: string, month: string, day: string, time: string): string
  {
    "routeviews-rv2-" + year + month + day + "-" + time + ".pfx2as.gz"
  }

  /** The fixed offsets find the year and the month of a publisher's file
      name, so its url lies in the YYYY/MM/ directory of its date. */
  lemma TransferUrlOfRouteviewFile(dirUrl: string, year: string, month: string, day: string, time: string)
    requires |year| == 4 && |month| == 2
    ensures FileYear(RouteviewFilename(year, month, day, time)) == year
    ensures FileMonth(RouteviewFilename(year, month, day, time)) == month
    ensures TransferUrl(dirUrl, RouteviewFilename(year, month, day, time))
            == dirUrl + year + "/" + month + "/" + RouteviewFilename(year, month, day, time)
  {
    var f := RouteviewFilename(year, month, day, time);
    assert |"routeviews-rv2-"| == 15;
    assert f[15..19] == year;
    assert f[19..21] == month;
  }

  /** routeviews-rv2-20200719-1200.pfx2as.gz is fetched from 2020/07/. */
  lemma DocstringTransferUrl()
    ensures FileYear("routeviews-rv2-20200719-1200.pfx2as.gz") == "2020"
    ensures FileMonth("routeviews-rv2-20200719-1200.pfx2as.gz") == "07"
  {
    assert RouteviewFilename("2020", "07", "19", "1200") == "routeviews-rv2-20200719-1200.pfx2as.gz";
    TransferUrlOfRouteviewFile("", "2020", "07", "19", "1200");
  }

  /** Slicing never raises: a name too short to hold a date yields empty
      year and month, and the url has two empty directory levels. */
  lemma ShortFilenameUrl(dirUrl: string, filename: string)
    requires |filename| <= 15
    ensures TransferUrl(dirUrl, filename) == dirUrl + "/" + "/" + filename
  {
  }

  // ---------------------------------------------------------------------
  // The transfer pass
  // ---------------------------------------------------------------------

  /** What a pass does that can be observed: its printed progress messages
      and the files it stores. */
  datatype Event =
    | NoNewFiles                                      // "no new CAIDA files to transfer"
    | Transferring(name: string)                      // "transferring file: <name>"
    | Stored(name: string, url: string, blob: string) // the bytes at url written to blob
    | Transferred(name: string)                       // "transferred file: <name>"

  predicate Distinct(s: seq<string>)
  {
    forall i, j :: 0 <= i < j < |s| ==> s[i] != s[j]
  }

  /** How many times `name` was stored. */
  function StoreCount(events: seq<Event>, name: string): nat
    decreases |events|
  {
    if events == [] then 0
    else
      var n := |events| - 1;
      StoreCount(events[..n], name) + (if events[n].Stored? && events[n].name == name then 1 else 0)
  }

  lemma {:induction false} StoreCountAppend(a: seq<Event>, b: seq<Event>, name: string)
    ensures StoreCount(a + b, name) == StoreCount(a, name) + StoreCount(b, name)
    decreases |b|
  {
    if b != [] {
      var n := |b| - 1;
      assert (a + b)[..|a + b| - 1] == a + b[..n];
      StoreCountAppend(a, b[..n], name);
    } else {
      assert a + b == a;
    }
  }

  /** Announcing, storing and reporting one file stores it once. */
  lemma StoreCountOfTransfer(file: string, url: string, blob: string, name: string)
    ensures StoreCount([Transferring(file), Stored(file, url, blob), Transferred(file)], name)
            == if file == name then 1 else 0
  {
    var e0, e1, e2 := Transferring(file), Stored(file, url, blob), Transferred(file);
    assert [e0][..0] == [];
    assert StoreCount([e0], name) == 0;
    assert [e0, e1][..1] == [e0];
    assert StoreCount([e0, e1], name) == if file == name then 1 else 0;
    assert [e0, e1, e2][..2] == [e0, e1];
  }

  /** The events of one transfer appended one by one. */
  lemma AppendThree(before: seq<Event>, a: Event, b: Event, c: Event)
    ensures before + [a] + [b] + [c] == before + [a, b, c]
  {
  }

  /** Attempting one more file, not attempted before, keeps the attempts
      distinct. */
  lemma DistinctSnoc(order: seq<string>, name: string)
    requires Distinct(order) && name !in order
    ensures Distinct(order + [name])
  {
  }

  /** Mirrors the publisher's recent routeview files into a bucket. Its
      configuration is fixed at construction; `events` records what its
      passes print and store. */
  class RouteviewUpdater {
    const bucketName: string
    const bucketRouteviewPath: string
    const caidaRouteviewDirUrl: string
    const caidaCreationFile: string
    ghost var events: seq<Event>

    constructor (bucketName: string, bucketRouteviewPath: string,
                 caidaRouteviewDirUrl: string, caidaCreationFile: string)
      ensures this.bucketName == bucketName && this.bucketRouteviewPath == bucketRouteviewPath
      ensures this.caidaRouteviewDirUrl == caidaRouteviewDirUrl && this.caidaCreationFile == caidaCreationFile
      ensures events == []
    {
      this.bucketName := bucketName;
      this.bucketRouteviewPath := bucketRouteviewPath;
      this.caidaRouteviewDirUrl := caidaRouteviewDirUrl;
      this.caidaCreationFile := caidaCreationFile;
      events := [];
    }

    /** The url of the creation log. */
    function CreationLogUrl(): (url: string)
      ensures |url| == |caidaRouteviewDirUrl| + |caidaCreationFile|
      ensures url[..|caidaRouteviewDirUrl|] == caidaRouteviewDirUrl
      ensures url[|caidaRouteviewDirUrl|..] == caidaCreationFile
    {
      caidaRouteviewDirUrl + caidaCreationFile
    }

    /** The blob a file is stored under. */
    function BlobPath(filename: string): string
    {
      PathJoin(bucketRouteviewPath, filename)
    }

    /** The url a file is fetched from. */
    function FileUrl(filename: string): string
    {
      TransferUrl(caidaRouteviewDirUrl, filename)
    }

    /** What transferring one file prints and stores, when it succeeds. */
    function TransferEvents(name: string): seq<Event>
    {
      [Transferring(name), Stored(name, FileUrl(name), BlobPath(name)), Transferred(name)]
    }

    /** The events of transferring these files in this order. */
    function PassEvents(order: seq<string>): (events: seq<Event>)
      ensures |events| == 3 * |order|
      decreases |order|
    {
      if order == [] then []
      else PassEvents(order[..|order| - 1]) + TransferEvents(order[|order| - 1])
    }

    lemma PassEventsSnoc(start: seq<Event>, order: seq<string>, name: string)
      ensures (order + [name])[..|order|] == order
      ensures start + PassEvents(order + [name]) == start + PassEvents(order) + TransferEvents(name)
    {
      assert (order + [name])[..|order|] == order;
    }

    /** Every file of `order` can be fetched. */
    predicate AllReachable(order: seq<string>, unreachable: set<string>)
    {
      forall n :: n in order ==> FileUrl(n) !in unreachable
    }

    /** In a pass over distinct files, each file in it is stored exactly
        once and no other file is stored. */
    lemma {:induction false} PassStoresEachOnce(order: seq<string>, name: string)
      requires Distinct(order)
      ensures StoreCount(PassEvents(order), name) == if name in order then 1 else 0
      decreases |order|
    {
      if order != [] {
        var n := |order| - 1;
        var init := order[..n];
        PassStoresEachOnce(init, name);
        StoreCountAppend(PassEvents(init), TransferEvents(order[n]), name);
        StoreCountOfTransfer(order[n], FileUrl(order[n]), BlobPath(order[n]), name);
        assert order == init + [order[n]];
        if name == order[n] {
          assert name !in init;
        }
      }
    }

    /** _get_latest_generated_routeview_files on the creation log's text:
        collect the filename of every data line, in order. */
    method LatestGeneratedRouteviewFiles(creationLog: string) returns (r: Result<seq<string>>)
      ensures r == ParseCreationLog(creationLog)
    {
      var output := CreationLogLines(creationLog);
      var files: seq<string> := [];
      for i := 0 to |output|
        invariant ParseLines(output[..i]) == Ok(files)
      {
        var line := output[i];
        ParseLinesNext(output, i, files);
        if line == [] {
          ParseLinesStopsAtFailure(output, i + 1);
          return Raise(IndexError);
        }
        if line[0] != '#' {
          var filename := ExtractFilename(line);
          if filename.Raise? {
            ParseLinesStopsAtFailure(output, i + 1);
            return Raise(filename.error);
          }
          files := files + [filename.value];
        }
      }
      assert output[..|output|] == output;
      return Ok(files);
    }

    /** _transfer_new_file: fetch <dir>YYYY/MM/<filename> and store it under
        the routeview path. A url in `unreachable` is one whose fetch or
        upload raises. */
    method TransferNewFile(filename: string, unreachable: set<string>) returns (r: Result<()>)
      modifies this`events
      ensures FileUrl(filename) in unreachable ==>
                r == Raise(URLError(FileUrl(filename))) && events == old(events)
      ensures FileUrl(filename) !in unreachable ==>
                r == Ok(()) && events == old(events) + [Stored(filename, FileUrl(filename), BlobPath(filename))]
    {
      var url := TransferUrl(caidaRouteviewDirUrl, filename);
      if url in unreachable {
        return Raise(URLError(url));
      }
      events := events + [Stored(filename, url, BlobPath(filename))];
      return Ok(());
    }

    /** The loop of transfer_routeviews: transfer each new file once, in an
        unspecified order, until one raises. `order` is the order the files
        were attempted in. */
    method TransferNewFiles(newFiles: set<string>, unreachable: set<string>)
      returns (r: Result<()>, ghost order: seq<string>)
      modifies this`events
      ensures Distinct(order) && forall n :: n in order ==> n in newFiles
      ensures r.Ok? ==> && (forall n :: n in newFiles ==> n in order)
                        && AllReachable(order, unreachable)
                        && events == old(events) + PassEvents(order)
      ensures r.Raise? ==> && order != []
                           && AllReachable(order[..|order| - 1], unreachable)
                           && FileUrl(order[|order| - 1]) in unreachable
                           && r.error == URLError(FileUrl(order[|order| - 1]))
                           && events == old(events) + PassEvents(order[..|order| - 1]) + [Transferring(order[|order| - 1])]
    {
      order := [];
      var remaining := newFiles;
      while remaining != {}
        invariant remaining <= newFiles
        invariant forall n :: n in order <==> n in newFiles && n !in remaining
        invariant Distinct(order)
        invariant AllReachable(order, unreachable)
        invariant events == old(events) + PassEvents(order)
        decreases remaining
      {
        var newFile :| newFile in remaining;
        ghost var before := events;
        events := events + [Transferring(newFile)];
        var transferred := TransferNewFile(newFile, unreachable);
        PassEventsSnoc(old(events), order, newFile);
        DistinctSnoc(order, newFile);
        if transferred.Raise? {
          order := order + [newFile];
          return Raise(transferred.error), order;
        }
        events := events + [Transferred(newFile)];
        AppendThree(before, Transferring(newFile), Stored(newFile, FileUrl(newFile), BlobPath(newFile)), Transferred(newFile));
        order := order + [newFile];
        remaining := remaining - {newFile};
      }
      r := Ok(());
    }

    /** transfer_routeviews: transfer every advertised file that the bucket
        lacks; say so when there is none. */
    method TransferRouteviews(creationLog: string, blobNames: seq<string>, unreachable: set<string>)
      returns (r: Result<()>, ghost order: seq<string>)
      modifies this`events
      ensures ParseCreationLog(creationLog).Raise? ==>
                r == Raise(ParseCreationLog(creationLog).error) && order == [] && events == old(events)
      ensures ParseCreationLog(creationLog).Ok? ==>
                var newFiles := DiffNewCaidaFiles(ParseCreationLog(creationLog).value, CaidaFilesInBucket(blobNames));
                var notice := if newFiles == {} then [NoNewFiles] else [];
                && Distinct(order)
                && (forall n :: n in order ==> n in newFiles)
                && (r.Ok? ==> && (forall n :: n in newFiles ==> n in order)
                              && AllReachable(order, unreachable)
                              && events == old(events) + notice + PassEvents(order))
                && (r.Raise? ==> && order != []
                                 && AllReachable(order[..|order| - 1], unreachable)
                                 && FileUrl(order[|order| - 1]) in unreachable
                                 && r.error == URLError(FileUrl(order[|order| - 1]))
                                 && events == old(events) + notice + PassEvents(order[..|order| - 1])
                                                          + [Transferring(order[|order| - 1])])
    {
      var latestFiles := LatestGeneratedRouteviewFiles(creationLog);
      if latestFiles.Raise? {
        return Raise(latestFiles.error), [];
      }
      var existingFiles := CaidaFilesInBucket(blobNames);
      var newFiles := DiffNewCaidaFiles(latestFiles.value, existingFiles);
      if newFiles == {} {
        events := events + [NoNewFiles];
      } else {
        assert events == old(events) + [];
      }
      r, order := TransferNewFiles(newFiles, unreachable);
    }
  }

  /** get_firehook_routeview_updater: an updater with the deployed
      configuration. */
  method GetFirehookRouteviewUpdater() returns (updater: RouteviewUpdater)
    ensures fresh(updater)
    ensures updater.bucketName == BucketName && updater.bucketRouteviewPath == BucketRouteviewPath
    ensures updater.caidaRouteviewDirUrl == CaidaRouteviewDirUrl && updater.caidaCreationFile == CaidaCreationFile
    ensures updater.events == []
  {
    updater := new RouteviewUpdater(BucketName, BucketRouteviewPath, CaidaRouteviewDirUrl, CaidaCreationFile);
  }
}
