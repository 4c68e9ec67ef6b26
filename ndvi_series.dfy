/** ndvi.py, `calculate_ndvi_timeseries` and `update_ndvi_timeseries`: the walk
    over scene directories that builds the (date, mean, sd) series, the merge with
    the series already persisted, and the file both of them write. */
module NdviSeries {
  import opened Base
  import opened Text
  import opened Dates
  import opened NdviCalc

  // -------------------------------------------------------- file selection

  /** An entry of `data/`: its name, whether it is a directory, and (for a directory) its
      listing, in listing order. `os.listdir` of a plain file raises NotADirectoryError. */
  datatype SceneDir = SceneDir(name: string, isDir: bool, entries: seq<string>)

  const NotADirectory: Error := OtherError("NotADirectoryError")

  const TiffPattern: string := "AnalyticMS_clip.tif"
  const MetadataPattern: string := "metadata"

  /** `for temp in entries: if pattern in temp: chosen = temp`, where `chosen` starts
      with the value carried over from the previous directory (None: never bound). */
  function LastMatch(entries: seq<string>, pattern: string, carried: Option<string>): Option<string>
    decreases |entries|
  {
    if |entries| == 0 then carried
    else LastMatch(entries[1..], pattern, if IsSubstring(pattern, entries[0]) then Some(entries[0]) else carried)
  }

  /** The chosen name is the LAST listed name containing the pattern; with no such name
      the carried value is kept unchanged. */
  lemma {:induction false} LastMatchSpec(entries: seq<string>, pattern: string, carried: Option<string>)
    ensures (forall k :: 0 <= k < |entries| ==> !IsSubstring(pattern, entries[k])) ==>
      LastMatch(entries, pattern, carried) == carried
    ensures (exists k :: 0 <= k < |entries| && IsSubstring(pattern, entries[k])) ==>
      exists k :: 0 <= k < |entries| && IsSubstring(pattern, entries[k])
        && LastMatch(entries, pattern, carried) == Some(entries[k])
        && forall k' :: k < k' < |entries| ==> !IsSubstring(pattern, entries[k'])
    decreases |entries|
  {
    if |entries| > 0 {
      var next := if IsSubstring(pattern, entries[0]) then Some(entries[0]) else carried;
      var rest := entries[1..];
      LastMatchSpec(rest, pattern, next);
      assert forall k :: 0 <= k < |rest| ==> rest[k] == entries[k + 1];
      if exists k :: 0 <= k < |rest| && IsSubstring(pattern, rest[k]) {
        var k :| 0 <= k < |rest| && IsSubstring(pattern, rest[k])
          && LastMatch(rest, pattern, next) == Some(rest[k])
          && forall k' :: k < k' < |rest| ==> !IsSubstring(pattern, rest[k']);
        assert IsSubstring(pattern, entries[k + 1]);
      } else if IsSubstring(pattern, entries[0]) {
        assert LastMatch(entries, pattern, carried) == Some(entries[0]);
      } else {
        forall k | 0 <= k < |entries| ensures !IsSubstring(pattern, entries[k]) {
          if k > 0 { assert entries[k] == rest[k - 1]; }
        }
      }
    }
  }

  /** Selection over two listings in turn is selection over their concatenation: the
      variable carried between directories behaves as one walk over all listings. */
  lemma {:induction false} LastMatchConcat(a: seq<string>, b: seq<string>, pattern: string, carried: Option<string>)
    ensures LastMatch(a + b, pattern, carried) == LastMatch(b, pattern, LastMatch(a, pattern, carried))
    decreases |a|
  {
    if |a| == 0 {
      assert a + b == b;
    } else {
      assert (a + b)[0] == a[0] && (a + b)[1..] == a[1..] + b;
      LastMatchConcat(a[1..], b, pattern, if IsSubstring(pattern, a[0]) then Some(a[0]) else carried);
    }
  }

  /** The inner loop over one directory's listing (also used by prep_gif.py). */
  method SelectFiles(entries: seq<string>, tiff: Option<string>, meta: Option<string>)
    returns (tiff': Option<string>, meta': Option<string>)
    ensures tiff' == LastMatch(entries, TiffPattern, tiff)
    ensures meta' == LastMatch(entries, MetadataPattern, meta)
  {
    tiff', meta' := tiff, meta;
    for i := 0 to |entries|
      invariant LastMatch(entries, TiffPattern, tiff) == LastMatch(entries[i..], TiffPattern, tiff')
      invariant LastMatch(entries, MetadataPattern, meta) == LastMatch(entries[i..], MetadataPattern, meta')
    {
      var temp := entries[i];
      assert entries[i..][1..] == entries[i + 1..];
      if IsSubstring(TiffPattern, temp) {
        tiff' := Some(temp);
      }
      if IsSubstring(MetadataPattern, temp) {
        meta' := Some(temp);
      }
    }
  }

  // ----------------------------------------------------------- aggregation

  /** The calls the aggregation makes into code outside the model. */
  datatype Env = Env(
    loadImage: (string, string) -> Result<Image>,   // load_image(tiff path, metadata path)
    clipToShape: string -> Result<string>,          // clip_tiff_by_shapefile: the clipped file's name
    readBands: string -> Result<Grid<RawPixel>>,    // rasterio reads of bands 3 and 4
    parseMetadata: string -> Result<seq<BandNode>>, // minidom parse of the band nodes
    mean: Grid<Float> -> real,                      // np.nanmean
    sd: Grid<Float> -> real)                        // np.nanstd

  /** One row of the series: the DataFrame's date index and its columns `m` and `sd`. */
  datatype Row = Row(date: Instant, m: real, sd: real)

  /** The default threshold of `quality_check`. */
  const QualityThreshold: real := 0.25

  /** What the body of the outer loop does for one directory, given the names selected:
      None when the scene fails the quality check, an error when a step raises. The method
      ProcessScene runs the same steps one statement at a time. */
  function SceneRow(env: Env, imagesDir: string, name: string, tiff: Option<string>, meta: Option<string>)
    : Result<Option<Row>>
  {
    if tiff.None? || meta.None? then Err(NameError)
    else
      var tiffPath := imagesDir + name + "/" + tiff.value;
      var metaPath := imagesDir + name + "/" + meta.value;
      match env.loadImage(tiffPath, metaPath)
      case Err(e) => Err(e)
      case Ok(image) =>
        if !QualityCheck(image, QualityThreshold) then Ok(None)
        else match ParseTimestamp(Slice(tiff.value, 0, 15))
          case Err(e) => Err(e)
          case Ok(date) =>
            match env.clipToShape(tiffPath)
            case Err(e) => Err(e)
            case Ok(fn) =>
              match env.readBands(fn)
              case Err(e) => Err(e)
              case Ok(raster) =>
                match env.parseMetadata(metaPath)
                case Err(e) => Err(e)
                case Ok(nodes) =>
                  match NdviOf(raster, nodes)
                  case Err(e) => Err(e)
                  case Ok(ndvi) => Ok(Some(Row(date, env.mean(ndvi), env.sd(ndvi))))
  }

  function RowsOf(row: Option<Row>): seq<Row>
  {
    if row.Some? then [row.value] else []
  }

  /** The walk from directory i on, with the names carried in and the rows built so far. */
  function AggregateFrom(env: Env, imagesDir: string, dirs: seq<SceneDir>, i: nat,
                         tiff: Option<string>, meta: Option<string>, rows: seq<Row>): Result<seq<Row>>
    requires i <= |dirs|
    decreases |dirs| - i
  {
    if i == |dirs| then Ok(rows)
    else if !dirs[i].isDir then Err(NotADirectory)
    else
      var t := LastMatch(dirs[i].entries, TiffPattern, tiff);
      var md := LastMatch(dirs[i].entries, MetadataPattern, meta);
      match SceneRow(env, imagesDir, dirs[i].name, t, md)
      case Err(e) => Err(e)
      case Ok(row) => AggregateFrom(env, imagesDir, dirs, i + 1, t, md, rows + RowsOf(row))
  }

  /** The series `calculate_ndvi_timeseries` returns for the listing `dirs` of `images_dir`. */
  function Aggregation(env: Env, imagesDir: string, dirs: seq<SceneDir>): Result<seq<Row>>
  {
    AggregateFrom(env, imagesDir, dirs, 0, None, None, [])
  }

  function Zip(dates: seq<Instant>, mean: seq<real>, sd: seq<real>): (rows: seq<Row>)
    requires |dates| == |mean| == |sd|
    ensures |rows| == |dates|
    ensures forall k :: 0 <= k < |rows| ==> rows[k] == Row(dates[k], mean[k], sd[k])
  {
    seq(|dates|, k requires 0 <= k < |dates| => Row(dates[k], mean[k], sd[k]))
  }

  /** The body of the outer loop for one directory once its names are selected: load,
      quality check, date parse, clip, read, NDVI, in the order the source runs them; the
      function SceneRow is its specification. */
  method ProcessScene(env: Env, imagesDir: string, name: string, tiff: Option<string>, meta: Option<string>)
    returns (r: Result<Option<Row>>)
    ensures r == SceneRow(env, imagesDir, name, tiff, meta)
  {
    if tiff.None? || meta.None? {
      return Err(NameError);
    }
    var tiffPath := imagesDir + name + "/" + tiff.value;
    var metaPath := imagesDir + name + "/" + meta.value;
    var image := env.loadImage(tiffPath, metaPath);
    if image.Err? {
      return Err(image.error);
    }
    if !QualityCheck(image.value, QualityThreshold) {
      return Ok(None);
    }
    var date := ParseTimestamp(Slice(tiff.value, 0, 15));
    if date.Err? {
      return Err(date.error);
    }
    var fn := env.clipToShape(tiffPath);
    if fn.Err? {
      return Err(fn.error);
    }
    var raster := env.readBands(fn.value);
    if raster.Err? {
      return Err(raster.error);
    }
    var nodes := env.parseMetadata(metaPath);
    if nodes.Err? {
      return Err(nodes.error);
    }
    var ndvi := CalculateNdvi(raster.value, nodes.value);
    if ndvi.Err? {
      return Err(ndvi.error);
    }
    r := Ok(Some(Row(date.value, env.mean(ndvi.value), env.sd(ndvi.value))));
  }

  lemma ZipSnoc(dates: seq<Instant>, mean: seq<real>, sd: seq<real>, row: Row)
    requires |dates| == |mean| == |sd|
    ensures Zip(dates + [row.date], mean + [row.m], sd + [row.sd]) == Zip(dates, mean, sd) + [row]
  {
  }

  /** `calculate_ndvi_timeseries`: the three lists are appended together, so they have equal
      length whenever the loop comes round, and the DataFrame is built from them. */
  method CalculateNdviTimeseries(env: Env, imagesDir: string, dirs: seq<SceneDir>) returns (r: Result<seq<Row>>)
    ensures r == Aggregation(env, imagesDir, dirs)
  {
    var dates: seq<Instant> := [];
    var mean: seq<real> := [];
    var sd: seq<real> := [];
    var tiff: Option<string> := None;
    var meta: Option<string> := None;
    for i := 0 to |dirs|
      invariant |dates| == |mean| == |sd|
      invariant Aggregation(env, imagesDir, dirs) == AggregateFrom(env, imagesDir, dirs, i, tiff, meta, Zip(dates, mean, sd))
    {
      var f := dirs[i];
      if !f.isDir {
        return Err(NotADirectory);
      }
      ghost var rows0 := Zip(dates, mean, sd);
      tiff, meta := SelectFiles(f.entries, tiff, meta);
      var step := ProcessScene(env, imagesDir, f.name, tiff, meta);
      if step.Err? {
        return Err(step.error);
      }
      if step.value.Some? {
        var row := step.value.value;
        ZipSnoc(dates, mean, sd, row);
        dates, mean, sd := dates + [row.date], mean + [row.m], sd + [row.sd];
      }
      assert Zip(dates, mean, sd) == rows0 + RowsOf(step.value);
    }
    r := Ok(Zip(dates, mean, sd));
  }

  /** Each stage appends at most one row per directory. */
  lemma {:induction false} AggregateFromLength(env: Env, imagesDir: string, dirs: seq<SceneDir>, i: nat,
                                               tiff: Option<string>, meta: Option<string>, rows: seq<Row>)
    requires i <= |dirs|
    requires AggregateFrom(env, imagesDir, dirs, i, tiff, meta, rows).Ok?
    ensures var out := AggregateFrom(env, imagesDir, dirs, i, tiff, meta, rows).value;
      |rows| <= |out| <= |rows| + |dirs| - i && out[..|rows|] == rows
    decreases |dirs| - i
  {
    if i < |dirs| {
      var t, md, row := AggregateStep(env, imagesDir, dirs, i, tiff, meta, rows);
      AggregateFromLength(env, imagesDir, dirs, i + 1, t, md, rows + RowsOf(row));
      var out := AggregateFrom(env, imagesDir, dirs, i, tiff, meta, rows).value;
      assert out[..|rows + RowsOf(row)|][..|rows|] == out[..|rows|];
    }
  }

  /** A successful walk from directory i is the walk from i + 1 after that directory's row. */
  lemma AggregateStep(env: Env, imagesDir: string, dirs: seq<SceneDir>, i: nat,
                      tiff: Option<string>, meta: Option<string>, rows: seq<Row>)
    returns (t: Option<string>, md: Option<string>, row: Option<Row>)
    requires i < |dirs|
    requires AggregateFrom(env, imagesDir, dirs, i, tiff, meta, rows).Ok?
    ensures dirs[i].isDir
    ensures t == LastMatch(dirs[i].entries, TiffPattern, tiff)
    ensures md == LastMatch(dirs[i].entries, MetadataPattern, meta)
    ensures row.Some? ==> t.Some? && ParseTimestamp(Slice(t.value, 0, 15)) == Ok(row.value.date)
    ensures AggregateFrom(env, imagesDir, dirs, i, tiff, meta, rows)
         == AggregateFrom(env, imagesDir, dirs, i + 1, t, md, rows + RowsOf(row))
  {
    t := LastMatch(dirs[i].entries, TiffPattern, tiff);
    md := LastMatch(dirs[i].entries, MetadataPattern, meta);
    row := SceneRow(env, imagesDir, dirs[i].name, t, md).value;
  }

  /** The series has at most one row per scene directory. */
  lemma AggregationLength(env: Env, imagesDir: string, dirs: seq<SceneDir>)
    requires Aggregation(env, imagesDir, dirs).Ok?
    ensures |Aggregation(env, imagesDir, dirs).value| <= |dirs|
  {
    AggregateFromLength(env, imagesDir, dirs, 0, None, None, []);
  }

  /** `e` is listed in directory j and contains the TIFF pattern. */
  ghost predicate ListedTiffName(dirs: seq<SceneDir>, j: int, e: string)
  {
    0 <= j < |dirs| && dirs[j].isDir && e in dirs[j].entries && IsSubstring(TiffPattern, e)
  }

  /** `date` is the fixed-width parse of the first 15 characters of a name listed in
      one of the first `i` directories that contains the TIFF pattern. */
  ghost predicate ParsedFromListing(dirs: seq<SceneDir>, i: nat, date: Instant)
  {
    exists j, e :: j < i && ListedTiffName(dirs, j, e) && ParseTimestamp(Slice(e, 0, 15)) == Ok(date)
  }

  /** Every row's date is parsed from a name listed in one of the first `i` directories. */
  ghost predicate AllParsed(dirs: seq<SceneDir>, i: nat, rows: seq<Row>)
  {
    forall k :: 0 <= k < |rows| ==> ParsedFromListing(dirs, i, rows[k].date)
  }

  ghost predicate ListedTiff(dirs: seq<SceneDir>, i: nat, tiff: Option<string>)
  {
    tiff.Some? ==> (exists j :: j < i && ListedTiffName(dirs, j, tiff.value))
  }

  lemma ListedTiffStep(dirs: seq<SceneDir>, i: nat, tiff: Option<string>)
    requires i < |dirs| && dirs[i].isDir && ListedTiff(dirs, i, tiff)
    ensures ListedTiff(dirs, i + 1, LastMatch(dirs[i].entries, TiffPattern, tiff))
  {
    LastMatchSpec(dirs[i].entries, TiffPattern, tiff);
    var t := LastMatch(dirs[i].entries, TiffPattern, tiff);
    if exists k :: 0 <= k < |dirs[i].entries| && IsSubstring(TiffPattern, dirs[i].entries[k]) {
      var k :| 0 <= k < |dirs[i].entries| && IsSubstring(TiffPattern, dirs[i].entries[k])
        && t == Some(dirs[i].entries[k]);
      assert ListedTiffName(dirs, i, t.value);
    } else if tiff.Some? {
      var j :| j < i && ListedTiffName(dirs, j, tiff.value);
      assert j < i + 1;
    }
  }

  lemma {:induction false} AggregateFromDates(env: Env, imagesDir: string, dirs: seq<SceneDir>, i: nat,
                                              tiff: Option<string>, meta: Option<string>, rows: seq<Row>,
                                              out: seq<Row>)
    requires i <= |dirs|
    requires ListedTiff(dirs, i, tiff)
    requires AllParsed(dirs, i, rows)
    requires AggregateFrom(env, imagesDir, dirs, i, tiff, meta, rows) == Ok(out)
    ensures AllParsed(dirs, |dirs|, out)
    decreases |dirs| - i
  {
    if i < |dirs| {
      var t, md, rows' := DatesWalkStep(env, imagesDir, dirs, i, tiff, meta, rows, out);
      AggregateFromDates(env, imagesDir, dirs, i + 1, t, md, rows', out);
    } else {
      assert out == rows;
    }
  }

  /** One directory of the walk keeps both invariants of AggregateFromDates. */
  lemma DatesWalkStep(env: Env, imagesDir: string, dirs: seq<SceneDir>, i: nat,
                      tiff: Option<string>, meta: Option<string>, rows: seq<Row>, out: seq<Row>)
    returns (t: Option<string>, md: Option<string>, rows': seq<Row>)
    requires i < |dirs|
    requires ListedTiff(dirs, i, tiff) && AllParsed(dirs, i, rows)
    requires AggregateFrom(env, imagesDir, dirs, i, tiff, meta, rows) == Ok(out)
    ensures ListedTiff(dirs, i + 1, t) && AllParsed(dirs, i + 1, rows')
    ensures AggregateFrom(env, imagesDir, dirs, i + 1, t, md, rows') == Ok(out)
  {
    var row;
    t, md, row := AggregateStep(env, imagesDir, dirs, i, tiff, meta, rows);
    ListedTiffStep(dirs, i, tiff);
    DatesStep(dirs, i, t, rows, row);
    rows' := rows + RowsOf(row);
  }

  /** Appending the row of directory i, dated from the TIFF name selected there, keeps every
      date parsed from a listed name. */
  lemma DatesStep(dirs: seq<SceneDir>, i: nat, t: Option<string>, rows: seq<Row>, row: Option<Row>)
    requires i < |dirs| && ListedTiff(dirs, i + 1, t)
    requires AllParsed(dirs, i, rows)
    requires row.Some? ==> t.Some? && ParseTimestamp(Slice(t.value, 0, 15)) == Ok(row.value.date)
    ensures AllParsed(dirs, i + 1, rows + RowsOf(row))
  {
    var rows' := rows + RowsOf(row);
    forall k | 0 <= k < |rows'| ensures ParsedFromListing(dirs, i + 1, rows'[k].date) {
      if k < |rows| {
        assert rows'[k] == rows[k];
        var j, e :| j < i && ListedTiffName(dirs, j, e) && ParseTimestamp(Slice(e, 0, 15)) == Ok(rows[k].date);
        assert j < i + 1;
      } else {
        assert rows'[k] == row.value;
        var j :| j < i + 1 && ListedTiffName(dirs, j, t.value);
        assert ParseTimestamp(Slice(t.value, 0, 15)) == Ok(rows'[k].date);
      }
    }
  }

  /** Every date of the series is the fixed-width parse of the first 15 characters of a
      listed name containing 'AnalyticMS_clip.tif'. */
  lemma AggregationDates(env: Env, imagesDir: string, dirs: seq<SceneDir>)
    requires Aggregation(env, imagesDir, dirs).Ok?
    ensures forall k :: 0 <= k < |Aggregation(env, imagesDir, dirs).value| ==>
      ParsedFromListing(dirs, |dirs|, Aggregation(env, imagesDir, dirs).value[k].date)
  {
    AggregateFromDates(env, imagesDir, dirs, 0, None, None, [], Aggregation(env, imagesDir, dirs).value);
  }

  /** When the first directory lists no TIFF, `tiff_file` is unbound and the walk raises. */
  lemma FirstDirWithoutTiff(env: Env, imagesDir: string, dirs: seq<SceneDir>)
    requires |dirs| > 0 && dirs[0].isDir
    requires forall k :: 0 <= k < |dirs[0].entries| ==> !IsSubstring(TiffPattern, dirs[0].entries[k])
    ensures Aggregation(env, imagesDir, dirs) == Err(NameError)
  {
    LastMatchSpec(dirs[0].entries, TiffPattern, None);
  }

  /** A scene that passes the quality check but whose TIFF name does not start with a valid
      `%Y%m%d_%H%M%S` timestamp (a malformed prefix, or a date such as month 13) aborts the
      whole walk with ValueError. */
  lemma MalformedPrefixAborts(env: Env, imagesDir: string, dirs: seq<SceneDir>, i: nat,
                              tiff: Option<string>, meta: Option<string>, rows: seq<Row>, image: Image)
    requires i < |dirs| && dirs[i].isDir
    requires var t := LastMatch(dirs[i].entries, TiffPattern, tiff);
      var md := LastMatch(dirs[i].entries, MetadataPattern, meta);
      t.Some? && md.Some?
      && env.loadImage(imagesDir + dirs[i].name + "/" + t.value, imagesDir + dirs[i].name + "/" + md.value) == Ok(image)
      && ParseTimestamp(Slice(t.value, 0, 15)).Err?
    requires QualityCheck(image, QualityThreshold)
    ensures AggregateFrom(env, imagesDir, dirs, i, tiff, meta, rows) == Err(ValueError)
  {
  }

  /** A plain file among the entries of `data/` aborts the walk when it is reached. */
  lemma NonDirectoryAborts(env: Env, imagesDir: string, dirs: seq<SceneDir>, i: nat,
                           tiff: Option<string>, meta: Option<string>, rows: seq<Row>)
    requires i < |dirs| && !dirs[i].isDir
    ensures AggregateFrom(env, imagesDir, dirs, i, tiff, meta, rows) == Err(OtherError("NotADirectoryError"))
  {
  }

  /** A scene that fails the quality check adds no row and the walk goes on. */
  lemma RejectedSceneSkipped(env: Env, imagesDir: string, dirs: seq<SceneDir>, i: nat,
                             tiff: Option<string>, meta: Option<string>, rows: seq<Row>, image: Image)
    requires i < |dirs| && dirs[i].isDir
    requires var t := LastMatch(dirs[i].entries, TiffPattern, tiff);
      var md := LastMatch(dirs[i].entries, MetadataPattern, meta);
      t.Some? && md.Some?
      && env.loadImage(imagesDir + dirs[i].name + "/" + t.value, imagesDir + dirs[i].name + "/" + md.value) == Ok(image)
    requires !QualityCheck(image, QualityThreshold)
    ensures AggregateFrom(env, imagesDir, dirs, i, tiff, meta, rows)
      == AggregateFrom(env, imagesDir, dirs, i + 1, LastMatch(dirs[i].entries, TiffPattern, tiff),
                       LastMatch(dirs[i].entries, MetadataPattern, meta), rows)
  {
    assert rows + RowsOf(None) == rows;
  }

  // ----------------------------------------------------------------- merge

  /** The columns `drop_duplicates` compares: `m` and `sd`, not the date index. */
  function Key(r: Row): (real, real) { (r.m, r.sd) }

  function Keys(s: seq<Row>): set<(real, real)>
    decreases |s|
  {
    if |s| == 0 then {} else {Key(s[0])} + Keys(s[1..])
  }

  /** Keep each row unless its key was seen earlier (or is in `seen`). */
  function DedupFrom(s: seq<Row>, seen: set<(real, real)>): seq<Row>
    decreases |s|
  {
    if |s| == 0 then []
    else if Key(s[0]) in seen then DedupFrom(s[1..], seen)
    else [s[0]] + DedupFrom(s[1..], seen + {Key(s[0])})
  }

  /** pandas `drop_duplicates()` with its default `keep='first'`. */
  function DropDuplicates(s: seq<Row>): seq<Row>
  {
    DedupFrom(s, {})
  }

  lemma {:induction false} KeysConcat(s: seq<Row>, t: seq<Row>)
    ensures Keys(s + t) == Keys(s) + Keys(t)
    decreases |s|
  {
    if |s| > 0 {
      assert (s + t)[1..] == s[1..] + t;
      KeysConcat(s[1..], t);
    } else {
      assert s + t == t;
    }
  }

  lemma {:induction false} KeysMember(s: seq<Row>, k: nat)
    requires k < |s|
    ensures Key(s[k]) in Keys(s)
    decreases |s|
  {
    if k > 0 { KeysMember(s[1..], k - 1); }
  }

  lemma {:induction false} DedupFromConcat(s: seq<Row>, t: seq<Row>, seen: set<(real, real)>)
    ensures DedupFrom(s + t, seen) == DedupFrom(s, seen) + DedupFrom(t, seen + Keys(s))
    decreases |s|
  {
    if |s| == 0 {
      assert s + t == t;
      assert seen + Keys(s) == seen;
    } else {
      assert (s + t)[1..] == s[1..] + t;
      if Key(s[0]) in seen {
        DedupFromConcat(s[1..], t, seen);
        assert seen + Keys(s[1..]) == seen + Keys(s);
      } else {
        DedupFromConcat(s[1..], t, seen + {Key(s[0])});
        assert seen + {Key(s[0])} + Keys(s[1..]) == seen + Keys(s);
      }
    }
  }

  /** Every row whose key is already seen is dropped. */
  lemma {:induction false} DedupFromSeen(s: seq<Row>, seen: set<(real, real)>)
    requires Keys(s) <= seen
    ensures DedupFrom(s, seen) == []
    decreases |s|
  {
    if |s| > 0 { DedupFromSeen(s[1..], seen); }
  }

  /** The reference characterisation, one row at a time: a row is appended exactly
      when no earlier row has the same (m, sd). */
  lemma DropDuplicatesSnoc(s: seq<Row>, x: Row)
    ensures DropDuplicates(s + [x]) == DropDuplicates(s) + (if Key(x) in Keys(s) then [] else [x])
  {
    DedupFromConcat(s, [x], {});
    assert {} + Keys(s) == Keys(s);
    assert [x][1..] == [];
  }

  /** The result has pairwise distinct keys, none of them in `seen`, and loses no key. */
  lemma {:induction false} DedupFromKeys(s: seq<Row>, seen: set<(real, real)>)
    ensures var d := DedupFrom(s, seen);
      && Keys(d) == Keys(s) - seen
      && (forall a, b :: 0 <= a < b < |d| ==> Key(d[a]) != Key(d[b]))
      && (forall a :: 0 <= a < |d| ==> Key(d[a]) !in seen)
    decreases |s|
  {
    if |s| > 0 {
      var rest := s[1..];
      if Key(s[0]) in seen {
        DedupFromKeys(rest, seen);
      } else {
        var seen' := seen + {Key(s[0])};
        DedupFromKeys(rest, seen');
        var tail := DedupFrom(rest, seen');
        var d := [s[0]] + tail;
        assert d[1..] == tail;
        forall a, b | 0 <= a < b < |d| ensures Key(d[a]) != Key(d[b]) {
          if a == 0 { assert d[b] == tail[b - 1]; }
          else { assert d[a] == tail[a - 1] && d[b] == tail[b - 1]; }
        }
        forall a | 0 <= a < |d| ensures Key(d[a]) !in seen {
          if a > 0 { assert d[a] == tail[a - 1]; }
        }
      }
    }
  }

  /** Deduplication leaves a sequence with distinct keys unchanged past the seen keys. */
  lemma {:induction false} DedupFromDistinct(s: seq<Row>, seen: set<(real, real)>)
    requires forall a, b :: 0 <= a < b < |s| ==> Key(s[a]) != Key(s[b])
    requires forall a :: 0 <= a < |s| ==> Key(s[a]) !in seen
    ensures DedupFrom(s, seen) == s
    decreases |s|
  {
    if |s| > 0 {
      var rest := s[1..];
      var seen' := seen + {Key(s[0])};
      forall a | 0 <= a < |rest| ensures Key(rest[a]) !in seen' {
        assert rest[a] == s[a + 1];
        assert Key(s[0]) != Key(s[a + 1]);
      }
      forall a, b | 0 <= a < b < |rest| ensures Key(rest[a]) != Key(rest[b]) {
        assert rest[a] == s[a + 1] && rest[b] == s[b + 1];
      }
      assert Key(s[0]) !in seen;
      DedupFromDistinct(rest, seen');
      assert DedupFrom(s, seen) == [s[0]] + DedupFrom(rest, seen');
      assert s == [s[0]] + rest;
    }
  }

  /** Deduplicating twice gives the same result as once. */
  lemma DropDuplicatesIdempotent(s: seq<Row>)
    ensures DropDuplicates(DropDuplicates(s)) == DropDuplicates(s)
  {
    DedupFromKeys(s, {});
    DedupFromDistinct(DropDuplicates(s), {});
  }

  /** Merging a series with an exact copy of itself gives the deduplicated series. */
  lemma DropDuplicatesSelfAppend(s: seq<Row>)
    ensures DropDuplicates(s + s) == DropDuplicates(s)
  {
    DedupFromConcat(s, s, {});
    assert {} + Keys(s) == Keys(s);
    DedupFromSeen(s, Keys(s));
  }

  /** Dates are not compared: a second row with another date but the same statistics is dropped. */
  lemma DatesNotCompared(d1: Instant, d2: Instant, m: real, sd: real)
    ensures DropDuplicates([Row(d1, m, sd), Row(d2, m, sd)]) == [Row(d1, m, sd)]
  {
    var s := [Row(d1, m, sd), Row(d2, m, sd)];
    assert s[1..] == [Row(d2, m, sd)] && s[1..][1..] == [];
    var seen: set<(real, real)> := {} + {Key(s[0])};
    assert Key(s[1]) in seen;
    assert DedupFrom(s[1..], seen) == DedupFrom(s[1..][1..], seen) == [];
    assert DropDuplicates(s) == [s[0]] + DedupFrom(s[1..], seen);
  }

  // ---------------------------------------------------------------- the store

  /** A path as its segments (`results_dir + 'data/'` is `resultsDir + ["data"]`). */
  type Path = seq<string>

  /** The directory a path names once each `..` has removed the segment before it. */
  function Resolve(p: Path): Path
    decreases |p|
  {
    if |p| == 0 then []
    else
      var r := Resolve(p[..|p| - 1]);
      if p[|p| - 1] == ".." then (if |r| > 0 then r[..|r| - 1] else r) else r + [p[|p| - 1]]
  }

  lemma {:induction false} ResolveAppend(x: Path, y: Path, b: Path)
    requires Resolve(x) == Resolve(y)
    ensures Resolve(x + b) == Resolve(y + b)
    decreases |b|
  {
    if |b| == 0 {
      assert x + b == x && y + b == y;
    } else {
      var b' := b[..|b| - 1];
      ResolveAppend(x, y, b');
      assert (x + b)[..|x + b| - 1] == x + b';
      assert (y + b)[..|y + b| - 1] == y + b';
    }
  }

  /** `dir/x/../rest` names the same file as `dir/rest`. */
  lemma DotDotCancels(a: Path, x: string, b: Path)
    requires x != ".."
    ensures Resolve(a + [x, ".."] + b) == Resolve(a + b)
  {
    var p := a + [x, ".."];
    assert p[..|p| - 1] == a + [x];
    assert (a + [x])[..|a + [x]| - 1] == a;
    assert Resolve(p) == Resolve(a);
    ResolveAppend(p, a, b);
  }

  /** The persisted files: each resolved path holds one series. */
  type Store = map<Path, seq<Row>>

  function Write(store: Store, p: Path, s: seq<Row>): Store
  {
    store[Resolve(p) := s]
  }

  function ImagesDir(resultsDir: Path): Path { resultsDir + ["data"] }

  /** Line 75: `pd.to_pickle(data, images_dir + '../timeseries.pk')`. */
  function AggregationFile(resultsDir: Path): Path { ImagesDir(resultsDir) + ["..", "timeseries.pk"] }

  /** The file `update_ndvi_timeseries` reads and writes. */
  function SeriesFile(resultsDir: Path): Path { resultsDir + ["timeseries.pk"] }

  /** `update_ndvi_timeseries`: with a prior file, old ++ new without duplicate rows;
      otherwise the new series unchanged. */
  function UpdateNdviTimeseries(data: seq<Row>, resultsDir: Path, store: Store): Store
  {
    var file := Resolve(SeriesFile(resultsDir));
    if file in store then Write(store, SeriesFile(resultsDir), DropDuplicates(store[file] + data))
    else Write(store, SeriesFile(resultsDir), data)
  }

  /** The merge writes only the series file: with a prior series there it stores
      old ++ new minus repeated rows; without one it stores the new series as it is. */
  lemma UpdateNdviTimeseriesSpec(data: seq<Row>, resultsDir: Path, store: Store)
    ensures var file := Resolve(SeriesFile(resultsDir));
      var after := UpdateNdviTimeseries(data, resultsDir, store);
      && file in after
      && after[file] == (if file in store then DropDuplicates(store[file] + data) else data)
      && forall p :: p in store && p != file ==> p in after && after[p] == store[p]
  {
  }

  /** The main flow writes the aggregated series to `data/../timeseries.pk`, the very file the
      merge then reads, so the persisted series ends as dedup(data ++ data) = dedup(data). */
  lemma MainFlowPersistsDedup(data: seq<Row>, resultsDir: Path, store: Store)
    ensures var afterAggregation := Write(store, AggregationFile(resultsDir), data);
      var afterMerge := UpdateNdviTimeseries(data, resultsDir, afterAggregation);
      afterMerge[Resolve(SeriesFile(resultsDir))] == DropDuplicates(data)
  {
    DotDotCancels(resultsDir, "data", ["timeseries.pk"]);
    assert AggregationFile(resultsDir) == resultsDir + ["data", ".."] + ["timeseries.pk"];
    DropDuplicatesSelfAppend(data);
  }
}
