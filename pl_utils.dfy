/** pl_utils.py: the two remote-job polling loops (asset activation and clip), the request
    bodies sent to the Planet services, and the names and paths downloads are written to. */
module PlUtils {
  import opened Base
  import opened Text
  import opened Dates
  import opened Utils

  // ---------------------------------------------------------------- JSON values

  /** A decoded JSON document, as `response.json()` hands it over. */
  datatype Json = JNull | JBool(b: bool) | JNum(n: real) | JStr(s: string) | JArr(items: seq<Json>) | JObj(fields: map<string, Json>)

  /** `j[key]` with a string key: KeyError on an object without it, TypeError on anything else. */
  function Get(j: Json, key: string): (r: Result<Json>)
    ensures r.Ok? <==> j.JObj? && key in j.fields
    ensures r.Ok? ==> r.value == j.fields[key]
    ensures r.Err? ==> r.error == (if j.JObj? then KeyError else TypeError)
  {
    match j
    case JObj(fields) => if key in fields then Ok(fields[key]) else Err(KeyError)
    case _ => Err(TypeError)
  }

  /** `j[k0][k1]...`: the lookups in order, stopping at the first one that raises. */
  function Lookup(j: Json, keys: seq<string>): Result<Json>
    decreases |keys|
  {
    if |keys| == 0 then Ok(j)
    else match Get(j, keys[0])
      case Err(e) => Err(e)
      case Ok(v) => Lookup(v, keys[1..])
  }

  /** `j[0]`: the first item of an array or the first character of a string (IndexError when
      empty); an integer key is never a key of a decoded object (KeyError); TypeError otherwise. */
  function First(j: Json): (r: Result<Json>)
    ensures r.Ok? <==> (j.JArr? && |j.items| > 0) || (j.JStr? && |j.s| > 0)
    ensures j.JArr? && |j.items| > 0 ==> r == Ok(j.items[0])
    ensures r.Err? && (j.JArr? || j.JStr?) ==> r.error == IndexError
  {
    match j
    case JArr(items) => if |items| > 0 then Ok(items[0]) else Err(IndexError)
    case JStr(s) => if |s| > 0 then Ok(JStr(s[..1])) else Err(IndexError)
    case JObj(_) => Err(KeyError)
    case _ => Err(TypeError)
  }

  // ---------------------------------------------------------------- polling

  /** How a polling loop stands after the observed responses: ended (normally or by an
      exception), or still waiting for its terminal status. */
  datatype Polled<+T> = Finished(result: Result<T>) | StillPolling

  /** Where the first response that ends a loop is: the first that passes its test (`Hit`),
      the first whose test raises (`Broken`), or none of the responses (`Pending`). */
  datatype Scan = Hit(at: nat) | Broken(at: nat, error: Error) | Pending

  function ScanFrom(polls: seq<Json>, i: nat, test: Json -> Result<bool>): Scan
    requires i <= |polls|
    decreases |polls| - i
  {
    if i == |polls| then Pending
    else match test(polls[i])
      case Err(e) => Broken(i, e)
      case Ok(b) => if b then Hit(i) else ScanFrom(polls, i + 1, test)
  }

  function ScanPolls(polls: seq<Json>, test: Json -> Result<bool>): Scan
  {
    ScanFrom(polls, 0, test)
  }

  /** Every response in `polls` fails its test without raising. */
  predicate AllPending(polls: seq<Json>, test: Json -> Result<bool>)
  {
    forall j :: 0 <= j < |polls| ==> test(polls[j]) == Ok(false)
  }

  lemma {:induction false} ScanFromSpec(polls: seq<Json>, i: nat, test: Json -> Result<bool>)
    requires i <= |polls| && AllPending(polls[..i], test)
    ensures match ScanFrom(polls, i, test)
      case Hit(k) => i <= k < |polls| && test(polls[k]) == Ok(true) && AllPending(polls[..k], test)
      case Broken(k, e) => i <= k < |polls| && test(polls[k]) == Err(e) && AllPending(polls[..k], test)
      case Pending => AllPending(polls, test)
    decreases |polls| - i
  {
    if i == |polls| {
      assert polls[..i] == polls;
    } else if test(polls[i]) == Ok(false) {
      assert forall j :: 0 <= j < i + 1 ==> polls[..i + 1][j] == (if j < i then polls[..i][j] else polls[i]);
      ScanFromSpec(polls, i + 1, test);
    }
  }

  /** The loop ends at the first response that passes its test or raises, and every
      response before it failed the test; `Pending` means none of them passed or raised. */
  lemma ScanSpec(polls: seq<Json>, test: Json -> Result<bool>)
    ensures match ScanPolls(polls, test)
      case Hit(k) => k < |polls| && test(polls[k]) == Ok(true) && AllPending(polls[..k], test)
      case Broken(k, e) => k < |polls| && test(polls[k]) == Err(e) && AllPending(polls[..k], test)
      case Pending => AllPending(polls, test)
  {
    ScanFromSpec(polls, 0, test);
  }

  /** `check_status.json()['status'] == 'active'` */
  function IsActive(resp: Json): Result<bool>
  {
    match Get(resp, "status")
    case Err(e) => Err(e)
    case Ok(v) => Ok(v == JStr("active"))
  }

  /** `check_state_request.json()['state'] == 'succeeded'` */
  function IsSucceeded(resp: Json): Result<bool>
  {
    match Get(resp, "state")
    case Err(e) => Err(e)
    case Ok(v) => Ok(v == JStr("succeeded"))
  }

  /** The two link lookups of lines 17-18, in order. */
  function ActivationLinks(asset: Json): Result<Json>
  {
    match Lookup(asset, ["_links", "_self"])
    case Err(e) => Err(e)
    case Ok(_) => Lookup(asset, ["_links", "activate"])
  }

  /** `activate_asset`, with the activation request's status code and the sequence of status
      responses observed while polling as inputs; it also reports how many status requests
      and how many one-second sleeps the loop made. */
  method ActivateAsset(asset: Json, code: int, polls: seq<Json>)
    returns (r: Polled<Option<int>>, checks: nat, sleeps: nat)
    ensures ActivationLinks(asset).Err? ==> r == Finished(Err(ActivationLinks(asset).error)) && checks == 0
    ensures ActivationLinks(asset).Ok? && code == 204 ==> r == Finished(Ok(None)) && checks == 0
    ensures ActivationLinks(asset).Ok? && code == 401 ==> r == Finished(Ok(Some(401))) && checks == 0
    ensures ActivationLinks(asset).Ok? && code != 204 && code != 401 ==>
      match ScanPolls(polls, IsActive)
      case Hit(k) => r == Finished(Ok(Some(code))) && checks == k + 1 && sleeps == k
      case Broken(k, e) => r == Finished(Err(e)) && checks == k + 1 && sleeps == k
      case Pending => r == StillPolling && checks == |polls| && sleeps == |polls|
  {
    checks, sleeps := 0, 0;
    var links := ActivationLinks(asset);
    if links.Err? {
      return Finished(Err(links.error)), checks, sleeps;
    }
    if code == 204 {
      return Finished(Ok(None)), checks, sleeps;
    }
    if code != 401 {
      var activated := false;
      var i := 0;
      while !activated && i < |polls|
        invariant 0 <= i <= |polls|
        invariant !activated ==> ScanPolls(polls, IsActive) == ScanFrom(polls, i, IsActive) && checks == i && sleeps == i
        invariant activated ==> 1 <= i && ScanPolls(polls, IsActive) == Hit(i - 1) && checks == i && sleeps == i - 1
        decreases |polls| - i, if activated then 0 else 1
      {
        var status := IsActive(polls[i]);
        checks := checks + 1;
        if status.Err? {
          return Finished(Err(status.error)), checks, sleeps;
        }
        if status.value {
          activated := true;
        } else {
          sleeps := sleeps + 1;
        }
        i := i + 1;
      }
      if !activated {
        return StillPolling, checks, sleeps;
      }
    }
    r := Finished(Ok(Some(code)));
  }

  /** `request.json()['_links']['_self']` of the clip request's response. */
  function ClipUrl(post: Json): Result<Json>
  {
    Lookup(post, ["_links", "_self"])
  }

  /** `check_state_request.json()['_links']['results'][0]` */
  function ClipResult(resp: Json): Result<Json>
  {
    match Lookup(resp, ["_links", "results"])
    case Err(e) => Err(e)
    case Ok(results) => First(results)
  }

  /** The body posted by `clip_asset`: the AOI as given and one target. */
  function ClipPayload(aoi: Json, itemId: string): Json
  {
    JObj(map["aoi" := aoi,
             "targets" := JArr([JObj(map["item_id" := JStr(itemId),
                                         "item_type" := JStr("PSScene4Band"),
                                         "asset_type" := JStr("analytic")])])])
  }

  /** `clip_asset`, with the clip request's response and the status responses observed while
      polling as inputs; it also returns the body it posts and its request and sleep counts. */
  method ClipAsset(itemId: string, aoi: Json, post: Json, polls: seq<Json>)
    returns (payload: Json, r: Polled<Json>, checks: nat, sleeps: nat)
    ensures payload == ClipPayload(aoi, itemId)
    ensures ClipUrl(post).Err? ==> r == Finished(Err(ClipUrl(post).error)) && checks == 0
    ensures ClipUrl(post).Ok? ==>
      match ScanPolls(polls, IsSucceeded)
      case Hit(k) => k < |polls| && r == Finished(ClipResult(polls[k])) && checks == k + 1 && sleeps == k
      case Broken(k, e) => r == Finished(Err(e)) && checks == k + 1 && sleeps == k
      case Pending => r == StillPolling && checks == |polls| && sleeps == |polls|
  {
    payload := ClipPayload(aoi, itemId);
    ScanSpec(polls, IsSucceeded);
    checks, sleeps := 0, 0;
    var clipUrl := ClipUrl(post);
    if clipUrl.Err? {
      return payload, Finished(Err(clipUrl.error)), checks, sleeps;
    }
    var succeeded := false;
    var download: Result<Json> := Err(IndexError);
    var i := 0;
    while !succeeded && i < |polls|
      invariant 0 <= i <= |polls|
      invariant !succeeded ==> ScanPolls(polls, IsSucceeded) == ScanFrom(polls, i, IsSucceeded) && checks == i && sleeps == i
      invariant succeeded ==> 1 <= i && ScanPolls(polls, IsSucceeded) == Hit(i - 1) && download == ClipResult(polls[i - 1])
      invariant succeeded ==> checks == i && sleeps == i - 1
      decreases |polls| - i, if succeeded then 0 else 1
    {
      var state := IsSucceeded(polls[i]);
      checks := checks + 1;
      if state.Err? {
        return payload, Finished(Err(state.error)), checks, sleeps;
      }
      if state.value {
        download := ClipResult(polls[i]);
        succeeded := true;
      } else {
        sleeps := sleeps + 1;
      }
      i := i + 1;
    }
    if succeeded {
      r := Finished(download);
    } else {
      r := StillPolling;
    }
  }

  /** A state other than 'succeeded' (a failure state included) never ends the clip loop:
      with only such responses observed, the loop is still polling. */
  lemma {:induction false} OtherStatesNeverEnd(polls: seq<Json>, i: nat)
    requires i <= |polls|
    requires forall k :: 0 <= k < |polls| ==> Get(polls[k], "state").Ok? && Get(polls[k], "state").value != JStr("succeeded")
    ensures ScanFrom(polls, i, IsSucceeded) == Pending
    decreases |polls| - i
  {
    if i < |polls| {
      OtherStatesNeverEnd(polls, i + 1);
    }
  }

  /** A succeeded clip whose result list is empty raises IndexError. */
  lemma EmptyResultsIndexError(resp: Json, links: map<string, Json>)
    requires Get(resp, "_links") == Ok(JObj(links)) && "results" in links && links["results"] == JArr([])
    ensures ClipResult(resp) == Err(IndexError)
  {
    assert Lookup(JObj(links), ["results"]) == Lookup(JArr([]), []);
  }

  /** The payload carries the AOI unchanged and exactly one target, for the given item, of
      item type "PSScene4Band" and asset type "analytic"; and it determines both inputs. */
  lemma ClipPayloadShape(aoi: Json, itemId: string)
    ensures var p := ClipPayload(aoi, itemId);
      && p.JObj? && p.fields.Keys == {"aoi", "targets"}
      && Get(p, "aoi") == Ok(aoi)
      && Get(p, "targets").Ok? && Get(p, "targets").value.JArr? && |Get(p, "targets").value.items| == 1
      && var t := Get(p, "targets").value.items[0];
      && t.JObj? && t.fields.Keys == {"item_id", "item_type", "asset_type"}
      && Get(t, "item_id") == Ok(JStr(itemId))
      && Get(t, "item_type") == Ok(JStr("PSScene4Band"))
      && Get(t, "asset_type") == Ok(JStr("analytic"))
    ensures forall aoi', itemId' :: ClipPayload(aoi', itemId') == ClipPayload(aoi, itemId) ==> aoi' == aoi && itemId' == itemId
  {
    forall aoi', itemId' | ClipPayload(aoi', itemId') == ClipPayload(aoi, itemId) ensures aoi' == aoi && itemId' == itemId {
      assert Get(ClipPayload(aoi', itemId'), "aoi") == Ok(aoi');
      var t' := Get(ClipPayload(aoi', itemId'), "targets").value.items[0];
      assert Get(t', "item_id") == Ok(JStr(itemId'));
    }
  }

  // ---------------------------------------------------------------- search filter

  /** The acquisition-date range, with its bounds already written as text. */
  function DateFilter(gte: string, lte: string): Json
  {
    JObj(map["type" := JStr("DateRangeFilter"), "field_name" := JStr("acquired"),
             "config" := JObj(map["lte" := JStr(lte), "gte" := JStr(gte)])])
  }

  /** JSON numbers are reals here, so the integer bound `0` of the source is JNum(0.0). */
  function CloudFilter(): Json
  {
    JObj(map["type" := JStr("RangeFilter"), "field_name" := JStr("cloud_cover"),
             "config" := JObj(map["lte" := JNum(0.25), "gte" := JNum(0.0)])])
  }

  function GeometryFilter(aoi: Json): Json
  {
    JObj(map["type" := JStr("GeometryFilter"), "field_name" := JStr("geometry"), "config" := aoi])
  }

  /** The AndFilter over the three filters, for date bounds given as text. */
  function AndFilter(aoi: Json, gte: string, lte: string): Json
  {
    JObj(map["type" := JStr("AndFilter"), "config" := JArr([DateFilter(gte, lte), CloudFilter(), GeometryFilter(aoi)])])
  }

  /** `configure_filter`: the date bounds are sent as RFC 3339 texts. */
  function ConfigureFilter(aoi: Json, dmin: Instant, dmax: Instant): Json
  {
    AndFilter(aoi, Rfc3339(dmin), Rfc3339(dmax))
  }

  /** A two-key lookup is the second key's lookup in the first key's value. */
  lemma LookupTwo(j: Json, k0: string, k1: string)
    requires Get(j, k0).Ok?
    ensures Lookup(j, [k0, k1]) == Get(Get(j, k0).value, k1)
  {
    var v := Get(j, k0).value;
    assert [k0, k1][1..] == [k1];
    assert Lookup(j, [k0, k1]) == Lookup(v, [k1]);
    if Get(v, k1).Ok? {
      assert [k1][1..] == [];
      assert Lookup(v, [k1]) == Lookup(Get(v, k1).value, []);
    }
  }

  lemma DateFilterShape(gte: string, lte: string)
    ensures var d := DateFilter(gte, lte);
      && Get(d, "field_name") == Ok(JStr("acquired"))
      && Lookup(d, ["config", "gte"]) == Ok(JStr(gte))
      && Lookup(d, ["config", "lte"]) == Ok(JStr(lte))
  {
    var d := DateFilter(gte, lte);
    LookupTwo(d, "config", "gte");
    LookupTwo(d, "config", "lte");
  }

  lemma CloudFilterShape()
    ensures var c := CloudFilter();
      && Get(c, "field_name") == Ok(JStr("cloud_cover"))
      && Lookup(c, ["config", "gte"]) == Ok(JNum(0.0))
      && Lookup(c, ["config", "lte"]) == Ok(JNum(0.25))
  {
    var c := CloudFilter();
    LookupTwo(c, "config", "gte");
    LookupTwo(c, "config", "lte");
  }

  lemma GeometryFilterShape(aoi: Json)
    ensures Get(GeometryFilter(aoi), "type") == Ok(JStr("GeometryFilter"))
    ensures Get(GeometryFilter(aoi), "field_name") == Ok(JStr("geometry"))
    ensures Get(GeometryFilter(aoi), "config") == Ok(aoi)
  {
  }

  /** The filter is an AndFilter over, in order, the acquisition-date range [min, max] as RFC 3339
      texts, the cloud-cover range [0, 0.25] and the AOI as given (the three shape lemmas
      above say what each of them holds). */
  lemma ConfigureFilterShape(aoi: Json, dmin: Instant, dmax: Instant)
    ensures var f := ConfigureFilter(aoi, dmin, dmax);
      && Get(f, "type") == Ok(JStr("AndFilter"))
      && Get(f, "config") == Ok(JArr([DateFilter(Rfc3339(dmin), Rfc3339(dmax)), CloudFilter(), GeometryFilter(aoi)]))
  {
  }

  /** Two filters are equal exactly when their AOIs are and their date bounds agree to the
      second: sub-second parts of the bounds do not reach the service. */
  lemma ConfigureFilterInjective(aoi1: Json, min1: Instant, max1: Instant, aoi2: Json, min2: Instant, max2: Instant)
    ensures ConfigureFilter(aoi1, min1, max1) == ConfigureFilter(aoi2, min2, max2) <==>
      aoi1 == aoi2 && WholeSeconds(min1) == WholeSeconds(min2) && WholeSeconds(max1) == WholeSeconds(max2)
  {
    Rfc3339Injective(min1, min2);
    Rfc3339Injective(max1, max2);
    AndFilterInjective(aoi1, Rfc3339(min1), Rfc3339(max1), aoi2, Rfc3339(min2), Rfc3339(max2));
  }

  lemma AndFilterInjective(aoi1: Json, gte1: string, lte1: string, aoi2: Json, gte2: string, lte2: string)
    ensures AndFilter(aoi1, gte1, lte1) == AndFilter(aoi2, gte2, lte2) <==> aoi1 == aoi2 && gte1 == gte2 && lte1 == lte2
  {
    if AndFilter(aoi1, gte1, lte1) == AndFilter(aoi2, gte2, lte2) {
      var parts1 := [DateFilter(gte1, lte1), CloudFilter(), GeometryFilter(aoi1)];
      var parts2 := [DateFilter(gte2, lte2), CloudFilter(), GeometryFilter(aoi2)];
      assert Get(AndFilter(aoi1, gte1, lte1), "config") == Ok(JArr(parts1));
      assert Get(AndFilter(aoi2, gte2, lte2), "config") == Ok(JArr(parts2));
      assert parts1[0] == parts2[0] && parts1[2] == parts2[2];
      DateFilterShape(gte1, lte1);
      DateFilterShape(gte2, lte2);
      GeometryFilterShape(aoi1);
      GeometryFilterShape(aoi2);
    }
  }

  // ---------------------------------------------------------------- downloads

  type Byte = b: int | 0 <= b < 256

  /** The bytes of a streamed response, chunk after chunk. */
  function Concat(chunks: seq<seq<Byte>>): seq<Byte>
    decreases |chunks|
  {
    if |chunks| == 0 then [] else Concat(chunks[..|chunks| - 1]) + chunks[|chunks| - 1]
  }

  /** The name `download_pl` writes to: the one given, unless it is missing or empty, in which
      case `url.split('=')[1][:10]`. */
  function DownloadName(url: string, filename: Option<string>): (r: Result<string>)
    ensures r.Err? <==> (filename == None || filename == Some("")) && '=' !in url
    ensures r.Err? ==> r.error == IndexError
    ensures filename.Some? && filename.value != "" ==> r == Ok(filename.value)
    ensures r.Ok? ==> |r.value| <= 10 || (filename.Some? && r == Ok(filename.value))
  {
    if filename.Some? && filename.value != "" then Ok(filename.value)
    else
      SplitJoin(url, '=');
      var parts := Split(url, '=');
      if |parts| < 2 then Err(IndexError) else Ok(Slice(parts[1], 0, 10))
  }

  /** The derived name is the first ten characters of the text between the first '=' and the
      next one (or the end of the URL). */
  lemma DownloadNameBetween(a: string, b: string, tail: string)
    requires '=' !in a && '=' !in b
    requires tail == "" || tail[0] == '='
    ensures DownloadName(a + "=" + b + tail, None) == Ok(Slice(b, 0, 10))
  {
    var url := a + "=" + b + tail;
    assert url == a + ['='] + (b + tail);
    SplitFirst(a, '=', b + tail);
    if tail == "" {
      assert b + tail == b;
      SplitNoSeparator(b, '=');
    } else {
      assert b + tail == b + ['='] + tail[1..];
      SplitFirst(b, '=', tail[1..]);
    }
  }

  /** The local filesystem, as far as downloads touch it: the bytes of each file, and for each
      extracted directory the archive bytes it was extracted from. */
  class FileSystem {
    var files: map<string, seq<Byte>>
    var extracted: map<string, seq<Byte>>

    constructor (files: map<string, seq<Byte>>, extracted: map<string, seq<Byte>>)
      ensures this.files == files && this.extracted == extracted
    {
      this.files := files;
      this.extracted := extracted;
    }

    /** `os.path.exists(path)`: a file or a directory of that name. */
    predicate Exists(path: string)
      reads this
    {
      path in files || path in extracted
    }

    /** `open(path, 'wb')` followed by one `f.write(chunk)` per chunk of the response. */
    method WriteStream(path: string, chunks: seq<seq<Byte>>)
      modifies this
      ensures files == old(files)[path := Concat(chunks)]
      ensures extracted == old(extracted)
    {
      files := files[path := []];
      for i := 0 to |chunks|
        invariant files == old(files)[path := Concat(chunks[..i])]
        invariant extracted == old(extracted)
      {
        assert chunks[..i + 1][..i] == chunks[..i];
        files := files[path := files[path] + chunks[i]];
      }
      assert chunks[..|chunks|] == chunks;
    }

    /** `os.remove(path)` of a path that is there. */
    method Remove(path: string)
      modifies this
      ensures files == old(files) - {path}
      ensures extracted == old(extracted)
    {
      files := files - {path};
    }

    /** `zipfile.ZipFile(archive).extractall(dir)` */
    method ExtractAll(archive: string, dir: string)
      requires archive in files
      modifies this
      ensures extracted == old(extracted)[dir := old(files)[archive]]
      ensures files == old(files)
    {
      extracted := extracted[dir := files[archive]];
    }
  }

  /** `download_pl`: the response is written only when neither a file nor a directory of that
      name exists. */
  method DownloadPl(fs: FileSystem, url: string, filename: Option<string>, chunks: seq<seq<Byte>>)
    returns (r: Result<string>)
    modifies fs
    ensures r == DownloadName(url, filename)
    ensures r.Ok? && !old(fs.Exists(r.value)) ==> fs.files == old(fs.files)[r.value := Concat(chunks)]
    ensures r.Err? || old(fs.Exists(r.value)) ==> fs.files == old(fs.files)
    ensures fs.extracted == old(fs.extracted)
  {
    r := DownloadName(url, filename);
    if r.Ok? && !fs.Exists(r.value) {
      fs.WriteStream(r.value, chunks);
    }
  }

  function ClipDir(dataDir: string, sceneId: string): string
  {
    dataDir + "data/" + sceneId
  }

  function ArchivePath(dataDir: string, sceneId: string): string
  {
    ClipDir(dataDir, sceneId) + ".zip"
  }

  /** The archive lies beside the directory it is extracted into, and the name of that
      directory under `data_dir + 'data/'` is the scene id, which the batch's skip rule looks for. */
  lemma ClipPaths(dataDir: string, sceneId: string)
    ensures ArchivePath(dataDir, sceneId) != ClipDir(dataDir, sceneId)
    ensures ClipDir(dataDir, sceneId)[..|dataDir| + 5] == dataDir + "data/"
    ensures ClipDir(dataDir, sceneId)[|dataDir| + 5..] == sceneId
    ensures forall d, id :: ClipDir(d, id) == ClipDir(dataDir, sceneId) && |d| == |dataDir| ==> d == dataDir && id == sceneId
  {
    assert |ArchivePath(dataDir, sceneId)| == |ClipDir(dataDir, sceneId)| + 4;
    forall d, id | ClipDir(d, id) == ClipDir(dataDir, sceneId) && |d| == |dataDir| ensures d == dataDir && id == sceneId {
      assert ClipDir(d, id)[..|d|] == d && ClipDir(dataDir, sceneId)[..|dataDir|] == dataDir;
      assert ClipDir(d, id)[|d| + 5..] == id;
    }
  }

  /** `download_clip`: the archive is written (overwriting any old one), extracted into the scene's
      directory and removed; the directory is returned. */
  method DownloadClip(fs: FileSystem, url: string, sceneId: string, dataDir: string, chunks: seq<seq<Byte>>)
    returns (dir: string)
    modifies fs
    ensures dir == ClipDir(dataDir, sceneId)
    ensures fs.files == old(fs.files) - {ArchivePath(dataDir, sceneId)}
    ensures fs.extracted == old(fs.extracted)[dir := Concat(chunks)]
  {
    var archive := ArchivePath(dataDir, sceneId);
    dir := ClipDir(dataDir, sceneId);
    fs.WriteStream(archive, chunks);
    fs.ExtractAll(archive, dir);
    fs.Remove(archive);
  }
}
