# ndvi-monitoring, modelled in Dafny

ndvi-monitoring watches vegetation at a few study sites using Planet satellite imagery. For each
site it does the following:

- searches the Planet catalogue for scenes over the site's area of interest (AOI) in a time window;
- has each new scene clipped to the AOI and downloads it into `data/<scene id>`;
- computes the NDVI (normalised difference vegetation index) of each scene from its red and
  near-infrared bands, calibrated by the reflectance coefficients in the scene's metadata;
- builds a time series of the mean and standard deviation of NDVI per scene, and merges it into
  the series persisted from earlier runs.

Helper scripts do two more jobs. One prepares GIF frames and PNG plots of the NDVI rasters. The
other purges old keys from an S3 bucket.

This project models the rules that decide what these programs compute, skip, name, write and raise.
The raster, HTTP, plotting, projection and storage libraries are inputs and outputs of the model;
they are not part of it. The modules follow the source files:

- `Base`: Option, Result, Outcome, and the Python exception classes the model raises.
- `Text`: Python string operations (substring test, clamped slices, `split`, decimal digits).
- `Dates`: date-times and the fixed-width `%Y%m%d_%H%M%S` file-name timestamp that `ndvi.py`
  and `prep_gif.py` both parse.
- `Utils` (`utils.py`): `rfc3339`, plus the buffered bounding box and its 5-point ring.
- `NdviCalc` (`ndvi.py`): the coefficient map, the NDVI formula over an explicit
  finite/NaN/infinite value, and `quality_check`.
- `NdviSeries` (`ndvi.py`): file selection, the aggregation loop, `drop_duplicates`, and the
  paths the series is stored at.
- `NdviBatch` (`ndvi.py`): the scene loop of the main program, with its skip rule and exception
  handling.
- `PlUtils` (`pl_utils.py`): the polling loops of `activate_asset` and `clip_asset`, which run
  over a finite sequence of observed responses. It also covers the request bodies built for the
  service, and the names and paths that downloads are written to.
- `S3Utils` (`s3utils.py`): the purge of `delete_old_keys_from_s3`, run over an abstract bucket
  of (name, last-modified) keys, and the behaviour of `list_dir_s3`.
- `PrepGif` (`prep_gif.py`): frame names, the title label, `move_files_to_gif` and the PNG loop.

Loops that update state in the source are methods with loop invariants. Each such method is
proved equal to a recursive specification function, and the lemmas state the properties of that
function. Objects whose state the source changes in place are classes:

- the OGR ring;
- an S3 bucket;
- the local files touched by downloads;
- a site's scene and frame directories;
- a frame directory.

External effects are function-valued parameters of the model:

- loading an image;
- clipping to the shapefile;
- reading bands;
- parsing metadata;
- `nanmean` and `nanstd`;
- a scene's processing step;
- generating a clipped NDVI TIFF.

Values the program gets from the outside world are plain inputs, each at the point where the
program receives it:

- HTTP status codes and responses;
- streamed chunks;
- directory listings;
- the clock.

Where the code and its documentation disagree, the model follows the code:

- A missing band coefficient raises KeyError, not a dedicated error class.
- An image with no pixels is accepted by `quality_check`, because 0/0 is NaN and `NaN > thresh`
  is false. No error is raised for it.
- Only ConnectionError, KeyError and ValueError are caught per scene.
- The clip loop has no failure state: only 'succeeded' ends it.

## Model

| member | source | states |
|---|---|---|
| Text.SplitJoin | pl_utils.py:100 | `str.split` with a one-character separator: joining the parts gives back the text, no part holds the separator, and there are at least two parts exactly when the separator occurs |
| Dates.ParseTimestamp | ndvi.py:65 | a parsed file-name timestamp never carries a sub-second part; every failure is a ValueError |
| Dates.ParseFormatTimestamp | ndvi.py:65 | parsing the 15-character `YYYYMMDD_HHMMSS` form of an instant gives back that instant truncated to whole seconds |
| Dates.FormatParseTimestamp | prep_gif.py:35 | every text the parser accepts is exactly the canonical 15-character form of the instant it yields |
| Utils.Rfc3339 | utils.py:48-52 | the text is 20 characters long, with '-', '-', 'T', ':', ':' and 'Z' at positions 4, 7, 10, 13, 16 and 19 |
| Utils.Rfc3339Fields | utils.py:51-52 | the digit groups at their fixed positions decode back to year, month, day, hour, minute and second |
| Utils.Rfc3339Injective | utils.py:48-52 | two instants give the same text exactly when they agree to the second; sub-seconds are dropped and there is no time-zone conversion |
| Utils.Max | utils.py:16 | the maximum is an element of the coordinates and bounds every one of them |
| Utils.Min | utils.py:17 | the minimum is an element of the coordinates and is bounded by every one of them |
| Utils.BufferedBounds | utils.py:16-19 | fails (ValueError, numpy's reduction of an empty array) exactly when either coordinate list is empty |
| Utils.BoundsContainPoints | utils.py:16-19 | the bounds are max+buf and min-buf on each axis, and with buf >= 0 every input point lies inside them |
| Utils.BoundingRingShape | utils.py:21 | the ring has 5 points, runs (xmax,ymax), (xmax,ymin), (xmin,ymin), (xmin,ymax), is closed, consecutive points share an x or a y, and with buf >= 0 it encloses every input point |
| Utils.LinearRing.AddPoint | utils.py:25 | the point is appended at the end of the ring |
| Utils.BuildRing | utils.py:23-25 | points are added in list order, so the ring's points equal the bbox list |
| NdviCalc.BandIndex | ndvi.py:37-38 | `int(band_num)` of a kept band label is 1..4 and maps back to that label |
| NdviCalc.BuildCoefficients | ndvi.py:34-40 | the coefficient loop yields the specified map, or the ValueError of the first kept band whose coefficient is not a number |
| NdviCalc.CoefficientsErrorIff | ndvi.py:39-40 | the loop raises exactly when some node with band number "1".."4" has a coefficient that is not a number, and then the error is ValueError |
| NdviCalc.CoefficientsKeys | ndvi.py:34-40 | the map has an entry exactly for the band numbers "1".."4" that occur in the nodes; other band numbers are ignored |
| NdviCalc.CoefficientsLastWins | ndvi.py:35-40 | the entry for a band is the coefficient of the last node with that band number |
| NdviCalc.CalculateNdvi | ndvi.py:24-49 | `calculate_ndvi` yields NDVI of the calibrated bands per pixel, KeyError when band 3 or 4 has no coefficient, and the ValueError of a bad coefficient |
| NdviCalc.MissingBandKeyError | ndvi.py:42-43 | when no node carries band 3 (or 4) the computation raises KeyError |
| NdviCalc.NdviRange | ndvi.py:45 | for non-negative calibrated values, not both zero, NDVI is finite and lies in [-1, 1] |
| NdviCalc.NdviBothZero | ndvi.py:22 | both values zero give NaN, not an exception |
| NdviCalc.NdviGridRange | ndvi.py:42-45 | with positive coefficients each pixel is NaN exactly where both raw bands are zero and finite in [-1, 1] elsewhere; the raster keeps its shape |
| NdviCalc.NdviScenario | ndvi.py:42-45 | raw RED=2000, NIR=3000 with c3=0.011, c4=0.009 give NDVI 5/49 |
| NdviCalc.QualityCheckIff | ndvi.py:174-181 | an image with pixels is accepted exactly when zeros <= 3 * thresh * H * W, that is (zeros / 3) / (H * W) <= thresh |
| NdviCalc.QualityMonotone | ndvi.py:178 | raising the threshold never turns an accept into a reject |
| NdviCalc.NoZerosAccepted | ndvi.py:176-181 | an image without zero entries is accepted for every thresh >= 0 |
| NdviCalc.AllBlankRejected | ndvi.py:176-181 | a non-empty all-zero 3-channel image is rejected exactly when thresh < 1 |
| NdviCalc.EmptyImageAccepted | ndvi.py:176-178 | an image with no pixels is accepted, because 0/0 is NaN and `NaN > thresh` is false |
| NdviSeries.LastMatchSpec | ndvi.py:57-61 | the selected name is the last listed name containing the pattern; with no match, the name carried over from the previous directory stays |
| NdviSeries.LastMatchConcat | ndvi.py:56-61 | selecting over two directories in turn is selecting over their listings concatenated, so the choice carries across directories |
| NdviSeries.SelectFiles | ndvi.py:57-61 | the inner loop picks the TIFF and metadata names the selection rule specifies |
| NdviSeries.CalculateNdviTimeseries | ndvi.py:51-77 | the aggregation loop, its three lockstep lists of equal length, yields the specified series or the first exception raised, NotADirectoryError for a plain file among the entries included |
| NdviSeries.ProcessScene | ndvi.py:62-71 | the body of the directory loop yields exactly the row (or the skip, or the first exception) the specified step gives |
| NdviSeries.AggregationLength | ndvi.py:56-69 | at most one row per scene directory |
| NdviSeries.AggregationDates | ndvi.py:65 | every date is the fixed-width parse of the first 15 characters of a listed name that contains 'AnalyticMS_clip.tif' |
| NdviSeries.FirstDirWithoutTiff | ndvi.py:57-63 | when the first directory lists no TIFF, the name is unbound and aggregation raises NameError |
| NdviSeries.MalformedPrefixAborts | ndvi.py:63-65 | at any directory of the walk, a scene that passes the quality check but whose TIFF name does not begin with a valid `%Y%m%d_%H%M%S` timestamp (malformed, or a date such as month 13) aborts aggregation with ValueError |
| NdviSeries.NonDirectoryAborts | ndvi.py:56-57 | a plain file among the entries of `data/` aborts aggregation with NotADirectoryError when the walk reaches it |
| NdviSeries.RejectedSceneSkipped | ndvi.py:64-72 | a scene that fails the quality check adds no row, and the walk continues |
| NdviSeries.DropDuplicatesSnoc | ndvi.py:83 | a row is kept exactly when no earlier row has the same (m, sd); first occurrences and order are kept |
| NdviSeries.DedupFromConcat | ndvi.py:82-83 | deduplicating old ++ new is the deduplicated old followed by the rows of new whose (m, sd) was not seen |
| NdviSeries.DedupFromKeys | ndvi.py:83 | the result keeps every (m, sd) value and has pairwise distinct ones |
| NdviSeries.DedupFromDistinct | ndvi.py:83 | a series with distinct (m, sd) values is unchanged |
| NdviSeries.DropDuplicatesIdempotent | ndvi.py:83 | deduplicating twice is deduplicating once |
| NdviSeries.DropDuplicatesSelfAppend | ndvi.py:82-83 | dedup(s ++ s) = dedup(s) |
| NdviSeries.DatesNotCompared | ndvi.py:83 | two rows with equal (m, sd) but different dates collapse to the first |
| NdviSeries.DotDotCancels | ndvi.py:75 | `dir/x/../rest` names the same file as `dir/rest` |
| NdviSeries.UpdateNdviTimeseriesSpec | ndvi.py:79-86 | with a prior series the file then holds dedup(old ++ new), without one the new series unchanged; no other file changes |
| NdviSeries.MainFlowPersistsDedup | ndvi.py:248-250 | aggregation writes `data/../timeseries.pk`, the file the merge reads, so the persisted series is dedup(data) |
| NdviBatch.DownloadScenes | ndvi.py:236-245 | the scene loop yields the failed list, the processed ids, the final `data/` listing and the stopping exception as specified |
| NdviBatch.AbortPersists | ndvi.py:239-245 | once an exception has escaped the loop, later features change nothing |
| NdviBatch.BatchGrows | ndvi.py:96-97 | the `data/` listing only grows, and every processed id was absent from the listing before the run |
| NdviBatch.AllPresentSkipped | ndvi.py:96-97 | when every scene id is already listed under `data/`, nothing is processed, nothing fails and the listing is unchanged |
| NdviBatch.CompletedScenesListed | ndvi.py:96-109 | after a run that was not stopped, every scene whose processing leaves its directory is listed |
| NdviBatch.ReRunIsNoOp | ndvi.py:96-97 | a second run over the same features after such a run processes nothing |
| NdviBatch.FailureIsolation | ndvi.py:239-245 | with new, distinct, dated scenes raising only caught classes, every scene is processed in search order and `failed` is exactly the scenes that raised, in order |
| NdviBatch.UncaughtStops | ndvi.py:240-242 | an exception of another class stops the loop at that scene; no later scene is processed |
| NdviBatch.NdviErrorsCaught | ndvi.py:34-43 | every exception of the coefficient loop and of the band lookups (`coeff[3]`, `coeff[4]`) is of a class the `except` at ndvi.py:242 catches, so it is a per-scene failure |
| NdviBatch.EmptyClipResultsStop | pl_utils.py:56 | a succeeded clip with an empty result list raises IndexError, which is not caught and stops the batch |
| NdviBatch.ThreeSceneScenario | ndvi.py:239-245 | three scenes with the second raising ConnectionError: all three are processed and only the second is in `failed` |
| NdviBatch.UncaughtScenario | ndvi.py:239-245 | the same batch with the second raising IndexError stops there; the third is never processed |
| NdviBatch.MissingDateStops | ndvi.py:98 | a new scene without an acquisition date is recorded as failed, and the handler's own read of the date at line 245 raises again and stops the batch |
| PlUtils.Get | pl_utils.py:17 | indexing a JSON value by a key: KeyError on an object without it, TypeError on any other value |
| PlUtils.First | pl_utils.py:56 | `[0]` of a JSON value: IndexError on an empty array or string |
| PlUtils.ScanSpec | pl_utils.py:27-32 | a polling loop ends at the first response that passes its test or raises, and every response before it failed the test; with neither it is still polling |
| PlUtils.ActivateAsset | pl_utils.py:16-34 | lookup errors of the links come first; code 204 returns None and 401 returns 401, both without polling; otherwise it polls until 'active' and returns the code; with k non-active responses first it makes k+1 checks and k sleeps |
| PlUtils.ClipAsset | pl_utils.py:36-61 | it posts the clip payload; it stops at the first 'succeeded' response and returns that response's results[0]; it sleeps once after each other response, so immediate success is one check and no sleep |
| PlUtils.OtherStatesNeverEnd | pl_utils.py:52-59 | no state other than 'succeeded', failure states included, ends the clip loop |
| PlUtils.EmptyResultsIndexError | pl_utils.py:56 | a succeeded response with an empty result list raises IndexError |
| PlUtils.ClipPayloadShape | pl_utils.py:37-46 | the payload carries the AOI unchanged and exactly one target (the item id, "PSScene4Band", "analytic"), and it determines both inputs |
| PlUtils.ConfigureFilterShape | pl_utils.py:62-92 | the filter is an AndFilter whose config lists, in order, the date filter over rfc3339(min) and rfc3339(max), the cloud filter and the geometry filter over the AOI |
| PlUtils.DateFilterShape | pl_utils.py:63-70 | the date filter is on field 'acquired', with 'gte' the lower and 'lte' the upper bound text |
| PlUtils.CloudFilterShape | pl_utils.py:72-79 | the cloud filter is on field 'cloud_cover', over the range [0, 0.25] |
| PlUtils.GeometryFilterShape | pl_utils.py:81-86 | the geometry filter is on field 'geometry' and holds the AOI unchanged |
| PlUtils.AndFilterInjective | pl_utils.py:62-92 | two filters built from date texts are equal exactly when their AOIs and both texts are |
| PlUtils.ConfigureFilterInjective | pl_utils.py:68-69 | two filters are equal exactly when their AOIs are and their date bounds agree to the second |
| PlUtils.DownloadName | pl_utils.py:99-100 | a non-empty given name is used as is; otherwise IndexError exactly when the URL has no '=', else at most 10 characters |
| PlUtils.DownloadNameBetween | pl_utils.py:100 | the derived name is the first 10 characters of the text between the first '=' and the next '=' or the end |
| PlUtils.FileSystem.WriteStream | pl_utils.py:102-105 | the file holds the response's chunks concatenated in order |
| PlUtils.DownloadPl | pl_utils.py:96-107 | the response is written only when neither a file nor a directory of that name exists (`os.path.exists`); otherwise nothing is written, and the name is returned either way |
| PlUtils.ClipPaths | pl_utils.py:112-121 | the archive `data_dir + 'data/' + id + '.zip'` differs from the extraction directory `data_dir + 'data/' + id`, whose name under `data/` is the scene id |
| PlUtils.DownloadClip | pl_utils.py:109-121 | the archive is written, extracted into the scene directory and removed; the directory is returned |
| S3Utils.NormaliseSubdirectory | s3utils.py:16-18 | the empty default raises IndexError; otherwise the result ends in '/', which is appended only when missing |
| S3Utils.NormaliseIdempotent | s3utils.py:17-18 | normalising twice is normalising once |
| S3Utils.PurgeSpec | s3utils.py:23-28 | a key is deleted exactly when it is selected, and every other key remains; together they are the bucket's keys |
| S3Utils.Bucket.DeleteOldKeys | s3utils.py:16-28 | the empty subdirectory raises before any key is examined and the bucket is unchanged; otherwise exactly the selected keys of the first listing page are deleted, and the keys after that page remain |
| S3Utils.FirstPage | s3utils.py:23 | `get_all_keys()` returns a prefix of the bucket's listing of at most 1000 keys, and the whole listing when it holds no more |
| S3Utils.Bucket.PurgeListing | s3utils.py:23-28 | the loop over the listed keys deletes exactly the selected ones, in place, and leaves the unlisted keys after them untouched |
| S3Utils.EmptyBadSubstringMatchesAll | s3utils.py:27 | the default empty bad substring matches every name, so only subdirectory and age decide |
| S3Utils.SubdirectoryKeySelected | s3utils.py:24 | the identity test does not spare a key whose name equals the subdirectory |
| S3Utils.AgeInclusive | s3utils.py:26 | the age test is inclusive: a key exactly max_age old is old enough |
| S3Utils.Containing | s3utils.py:34 | the names kept are exactly those containing the directory |
| S3Utils.ListDirNeverReturns | s3utils.py:31-36 | `list_dir_s3` always raises: ValueError when no key name of the first listing page equals the directory, TypeError otherwise |
| PrepGif.GifNameTimestamp | prep_gif.py:72-73 | characters 5 to 20 of a frame name are the scene directory's 15-character timestamp |
| PrepGif.TitleLabel | prep_gif.py:35 | a title that does not parse is a ValueError |
| PrepGif.FrameTitle | prep_gif.py:35 | the frame of a scene directory named after an instant is titled with that instant |
| PrepGif.LabelFields | prep_gif.py:35 | the title reads 'MM/DD/YYYY HH:MM' and its digit groups decode to month, day, year, hour and minute |
| PrepGif.LabelInjective | prep_gif.py:35 | two instants get the same title exactly when they agree to the minute; seconds are dropped |
| PrepGif.PngNameOfPng | prep_gif.py:89 | a '.png' entry maps to itself |
| PrepGif.Site.MoveFilesToGif | prep_gif.py:51-76 | the scene loop's new listings, frames, generated directories and outcome (including NameError, the failure of `make`, and FileNotFoundError of the copy) are those of the specified fold |
| PrepGif.FramesNeverOverwritten | prep_gif.py:72-75 | frames present before the run keep their source; every new frame is named after a listed scene directory it was copied from |
| PrepGif.GeneratedOnlyWithoutClip | prep_gif.py:58 | an NDVI TIFF is generated only for listed directories whose listing lacked 'ndvi_clip.tif', and other listings are left as they were |
| PrepGif.GenerateStep | prep_gif.py:58-70 | a directory that already lists 'ndvi_clip.tif' is left alone; otherwise only its own listing may change, and only by gaining names, and it is added to the generated list; `gif/` is untouched |
| PrepGif.CopyFrame | prep_gif.py:72-75 | a missing frame is copied from the directory's 'ndvi_clip.tif'; copying raises FileNotFoundError exactly when the frame is missing and that file is not listed, and then nothing is copied; nothing else changes |
| PrepGif.RunFramed | prep_gif.py:57-75 | after a run that ended normally, every listed directory has its frame in `gif/`, whatever `make` writes |
| PrepGif.MissingClipRaises | prep_gif.py:58-75 | a directory whose `make` succeeds without writing 'ndvi_clip.tif', and whose frame is missing, is generated and then raises FileNotFoundError at the copy |
| PrepGif.FrameWithoutClip | prep_gif.py:58-75 | a directory whose `make` succeeds without writing 'ndvi_clip.tif', but whose frame is already in `gif/`, is generated, raises nothing and stays without that file |
| PrepGif.RunCompletes | prep_gif.py:57-75 | when every successful `make` writes 'ndvi_clip.tif', after a run that ended normally every listed directory holds that file and its frame is in `gif/` |
| PrepGif.VisitCompletes | prep_gif.py:58-75 | when every successful `make` writes 'ndvi_clip.tif', a visit that raises nothing finishes its directory and keeps every finished one |
| PrepGif.FinishedSiteUnchanged | prep_gif.py:57-75 | when every listed directory already holds 'ndvi_clip.tif' and its frame, the scene loop leaves listings and frames untouched, generates nothing and ends normally |
| PrepGif.MoveRerunIsNoOp | prep_gif.py:57-75 | when every successful `make` writes 'ndvi_clip.tif', a second run after one that ended normally generates nothing and copies nothing |
| PrepGif.GifFolder.PlotMissingPngs | prep_gif.py:88-91 | the PNG loop's new files, plots and outcome are as specified |
| PrepGif.PlotsOfMissing | prep_gif.py:88-91 | the PNG loop only adds files, and each plot it makes is of a listed frame whose PNG was not there before, with that frame's title and PNG name |
| PrepGif.PlotsSpec | prep_gif.py:88-91 | each plot is of a listed frame whose PNG was missing, with that frame's title and PNG name, and never of a '.png' entry |
| PrepGif.PngRerunIsNoOp | prep_gif.py:88-91 | after a loop that ended normally every listed frame has its PNG, so a second loop plots nothing |

## Left out

- Raster I/O and XML parsing are inputs of the model: rasterio reads and writes
  (`save_ndvi_tiff`, `save_all_tiffs`) and minidom. The metadata is a list of (band number,
  coefficient) pairs. A `float()` that fails is a missing coefficient, raising ValueError.
- NdviBatch.NdviErrorsCaught: covers the coefficient loop and the band lookups only. A band node
  without a `ps:bandNumber` or `ps:reflectanceCoefficient` element raises IndexError. An empty
  element raises AttributeError, and a malformed document raises ExpatError. None of these is
  caught at ndvi.py:242, so each would stop the batch; the model's band nodes always carry both
  texts.
- IEEE floating point is out of scope: rounding, signed zero, and `float()` accepting 'nan' or
  'inf'. NDVI is exact real arithmetic, with NaN and infinity as explicit values.
  `np.nanmean`/`np.nanstd` are uninterpreted functions.
- pandas treating NaN as equal to NaN in `drop_duplicates` is not modelled: rows are compared
  as exact reals.
- The order of keys in JSON objects is not modelled; objects are maps. JSON numbers are exact
  reals, so the integer `0` and the float `0.0` of a request body are one value.
- Networking, authentication, sleeping and zip decoding are out of scope. Status codes and
  responses are inputs, and a body that is not JSON is not modelled.
- `session` is never defined in `pl_utils.py`; the activation status code is an input.
- The module globals used implicitly by `download_and_plot_scene` and `plot_image` (`i`,
  `n_scenes`, `results_dir`, `aoi_polygon`) are not modelled.
- PlUtils.ClipAsset and PlUtils.ActivateAsset: polling that never sees its terminal status is reported as still
  polling after the observed responses, because the source loops forever there.
- The processing of one scene (ndvi.py:98-124: asset lookup, clip, download, the sorted listing
  and plots) is an uninterpreted step. The step reports how it ended and whether it left the
  scene's directory.
- Creating the results directories (ndvi.py:89-94) and `gif/` (prep_gif.py:53-54), `chdir`,
  pickle encoding and the saved `.npy` files are not modelled. The store is a map from
  resolved paths to series.
- NdviSeries.Resolve: `..` is resolved textually, as if no path component were a symbolic link.
- Plotting is out of scope (`plot_image`, `plot_ndvi`, `plot_ndvi_timeseries`,
  `MidpointNormalize`); only the title label and PNG name of `plot_ndvi` in `prep_gif.py` are
  modelled.
- OGR/OSR projection, flattening and `loadmat` (utils.py:23-41) are not modelled. The model
  stops at the ring's points.
- The boto connection and the wall clock are out of scope. `now` is an input, and `last_modified`
  is an already-parsed integer time; a timestamp that fails to parse is not modelled.
- `subdirectory[-1] is not '/'` is modelled as an inequality, as CPython shares one-character
  strings. `subdirectory is not key.name` is modelled as always true.
- `load_image` and `clip_tiff_by_shapefile` are defined in no file of this repository and are
  opaque steps that may fail. In `move_files_to_gif` their effect is a parameter that reports
  the names written besides 'ndvi.tif'. When that step fails, the listing is left as it was,
  although `save_ndvi_tiff` may already have written 'ndvi.tif'; the loop stops there.
- PrepGif.RunCompletes: proved only for a `make` that writes 'ndvi_clip.tif' whenever it
  succeeds. For any other `make`, a run that ended normally promises the frames
  (PrepGif.RunFramed). A missing clip with a missing frame raises (PrepGif.MissingClipRaises), and a
  missing clip with a present frame is left as it is (PrepGif.FrameWithoutClip).
- PrepGif.VisitCompletes: the same hypothesis on `make`, for one directory.
- PrepGif.MoveRerunIsNoOp: the same hypothesis on `make`. Without it, a directory whose frame
  existed but that never received 'ndvi_clip.tif' is generated again on the second run.
- Dates.ParseTimestamp: only the canonical 15-character `YYYYMMDD_HHMMSS` form with
  calendar-valid fields is accepted. `strptime` also accepts shorter fields for `%m`, `%d`, `%H`,
  `%M` and `%S`, a space-padded day for `%d` (`"201701 1_123456"` is 2017-01-01 12:34:56), and
  non-ASCII decimal digits such as fullwidth ones; the model rejects all of these with ValueError.
- Utils.Rfc3339: `%Y` is written as four zero-padded digits; C libraries that leave years
  below 1000 unpadded are not modelled.
- PrepGif.Label: the same four-digit `%Y` as Utils.Rfc3339.
- NdviCalc.QualityCheck: images are H x W x C arrays. The two-dimensional case, where numpy's
  `shape[0:2]` is the whole shape, is not modelled.
