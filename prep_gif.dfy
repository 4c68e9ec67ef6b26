/** prep_gif.py: the GIF-frame preparation of one site (`move_files_to_gif`), the PNG loop of
    the main program, and the names and title label they derive. */
module PrepGif {
  import opened Base
  import opened Text
  import opened Dates
  import opened NdviSeries

  // ---------------------------------------------------------------- names and label

  /** Line 72-73: the frame name in `gif/` for a scene directory. */
  function GifName(f: string): string
  {
    "ndvi_" + Slice(f, 0, 15) + ".tif"
  }

  /** Line 40 and 89: the last four characters replaced by '.png'. */
  function PngName(f: string): string
  {
    DropLast(f, 4) + ".png"
  }

  predicate HasPngSuffix(f: string) { |f| >= 4 && f[|f| - 4..] == ".png" }

  /** `strftime('%m/%d/%Y %H:%M')` */
  function Label(d: Instant): (s: string)
    ensures |s| == 16
  {
    Pad2(d.month) + "/" + Pad2(d.day) + "/" + Pad4(d.year) + " " + Pad2(d.hour) + ":" + Pad2(d.minute)
  }

  /** Line 35: the plot title, parsed from characters 5 to 20 of the frame name. */
  function TitleLabel(filename: string): (r: Result<string>)
    ensures r.Err? ==> r.error == ValueError
  {
    match ParseTimestamp(Slice(filename, 5, 20))
    case Err(e) => Err(e)
    case Ok(d) => Ok(Label(d))
  }

  /** Round trip: characters 5 to 20 of a frame name are the scene directory's 15-character timestamp. */
  lemma GifNameTimestamp(f: string)
    requires |f| >= 15
    ensures Slice(GifName(f), 5, 20) == f[..15]
  {
    assert GifName(f)[5..20] == f[..15];
  }

  /** The frame of a scene directory named after its acquisition time gets that time as title,
      to the minute. */
  lemma FrameTitle(d: Instant, rest: string)
    ensures TitleLabel(GifName(FormatTimestamp(d) + rest)) == Ok(Label(d))
  {
    var f := FormatTimestamp(d) + rest;
    assert f[..15] == FormatTimestamp(d);
    GifNameTimestamp(f);
    ParseFormatTimestamp(d);
    assert Label(WholeSeconds(d)) == Label(d);
  }

  /** The label's digit groups decode to month, day, year, hour and minute; the seconds are dropped. */
  lemma LabelFields(d: Instant)
    ensures var s := Label(d);
      && s[2] == '/' && s[5] == '/' && s[10] == ' ' && s[13] == ':'
      && AllDigits(s[..2]) && DecimalValue(s[..2]) == d.month
      && AllDigits(s[3..5]) && DecimalValue(s[3..5]) == d.day
      && AllDigits(s[6..10]) && DecimalValue(s[6..10]) == d.year
      && AllDigits(s[11..13]) && DecimalValue(s[11..13]) == d.hour
      && AllDigits(s[14..16]) && DecimalValue(s[14..16]) == d.minute
  {
    var s := Label(d);
    assert s[..2] == Pad2(d.month) && s[3..5] == Pad2(d.day) && s[6..10] == Pad4(d.year);
    assert s[11..13] == Pad2(d.hour) && s[14..16] == Pad2(d.minute);
    Pad2RoundTrip(d.month);
    Pad2RoundTrip(d.day);
    Pad4RoundTrip(d.year);
    Pad2RoundTrip(d.hour);
    Pad2RoundTrip(d.minute);
  }

  /** Two instants get the same label exactly when they agree to the minute. */
  lemma LabelInjective(d1: Instant, d2: Instant)
    ensures Label(d1) == Label(d2) <==>
      d1.year == d2.year && d1.month == d2.month && d1.day == d2.day && d1.hour == d2.hour && d1.minute == d2.minute
  {
    LabelFields(d1);
    LabelFields(d2);
  }

  /** A '.png' entry maps to itself. */
  lemma PngNameOfPng(f: string)
    requires HasPngSuffix(f)
    ensures PngName(f) == f
  {
    assert f == f[..|f| - 4] + f[|f| - 4..];
  }

  // ---------------------------------------------------------------- move_files_to_gif

  const ClipName: string := "ndvi_clip.tif"
  const NdviName: string := "ndvi.tif"

  /** A listing after a file of that name has been written into the directory. */
  function AddEntry(listing: seq<string>, name: string): (r: seq<string>)
    ensures forall n :: n in r <==> n in listing || n == name
  {
    if name in listing then listing else listing + [name]
  }

  /** A listing after files of these names have been written into the directory. */
  function AddEntries(listing: seq<string>, names: seq<string>): (r: seq<string>)
    ensures forall n :: n in r <==> n in listing || n in names
    decreases |names|
  {
    if |names| == 0 then listing
    else AddEntry(AddEntries(listing, names[..|names| - 1]), names[|names| - 1])
  }

  /** `save_ndvi_tiff` followed by `clip_tiff_by_shapefile` in a scene directory, given the
      directory and the selected image and metadata names. `clip_tiff_by_shapefile` is not part
      of this model: its effect is a parameter, giving the names of the files the two steps left
      besides 'ndvi.tif', or the exception either raised. */
  type MakeTiffs = (string, string, string) -> Result<seq<string>>

  /** A `make` whose every success leaves 'ndvi_clip.tif' in the directory. */
  ghost predicate WritesClip(make: MakeTiffs)
  {
    forall f, img, meta :: make(f, img, meta).Ok? ==> ClipName in make(f, img, meta).value
  }

  /** The loop's state: each scene directory's listing, each frame in `gif/` with the scene
      directory it was copied from, the carried-over file selection, the directories for which an
      NDVI TIFF was generated, and the exception that ended the loop, if any. */
  datatype GifState = GifState(scenes: map<string, seq<string>>, gif: map<string, string>,
                               img: Option<string>, meta: Option<string>, generated: seq<string>, error: Option<Error>)

  /** Lines 58-70 for a listed scene directory: a directory without 'ndvi_clip.tif' has its
      names selected and its TIFFs made; on success the directory holds 'ndvi.tif' and whatever
      `make` reports it wrote. */
  function GenerateStep(st: GifState, f: string, make: MakeTiffs): (st1: GifState)
    requires f in st.scenes
    ensures st1.gif == st.gif && st1.scenes.Keys == st.scenes.Keys
    ensures st1.scenes == st.scenes[f := st1.scenes[f]]
    ensures ClipName in st.scenes[f] ==> st1 == st
    ensures st1.error.None? ==> st.error == st1.error
    ensures forall n :: n in st.scenes[f] ==> n in st1.scenes[f]
    ensures st1.generated == st.generated || (ClipName !in st.scenes[f] && st1.generated == st.generated + [f])
  {
    if ClipName in st.scenes[f] then st
    else
      var img := LastMatch(st.scenes[f], TiffPattern, st.img);
      var meta := LastMatch(st.scenes[f], MetadataPattern, st.meta);
      var st0 := st.(img := img, meta := meta);
      if img.None? || meta.None? then st0.(error := Some(NameError))
      else
        var st2 := st0.(generated := st0.generated + [f]);
        match make(f, img.value, meta.value)
        case Err(e) => st2.(error := Some(e))
        case Ok(written) => st2.(scenes := st2.scenes[f := AddEntries(AddEntry(st2.scenes[f], NdviName), written)])
  }

  /** Lines 72-75: the frame is copied from the directory's 'ndvi_clip.tif' unless one of that
      name is already in `gif/`; `copyfile` of a missing file raises FileNotFoundError. */
  function CopyFrame(st: GifState, f: string): (st': GifState)
    requires f in st.scenes && st.error.None?
    ensures st' == st.(gif := st'.gif, error := st'.error)
    ensures st'.error.Some? <==> GifName(f) !in st.gif && ClipName !in st.scenes[f]
    ensures st'.error.Some? ==> st'.error == Some(FileNotFoundError) && st'.gif == st.gif
    ensures st'.error.None? ==> st'.gif.Keys == st.gif.Keys + {GifName(f)}
  {
    if GifName(f) in st.gif then st
    else if ClipName !in st.scenes[f] then st.(error := Some(FileNotFoundError))
    else st.(gif := st.gif[GifName(f) := f])
  }

  /** Lines 58-75 for one entry of `data/`; an entry that is not a directory raises. */
  function VisitScene(st: GifState, f: string, make: MakeTiffs): GifState
  {
    if f !in st.scenes then st.(error := Some(OtherError("NotADirectoryError")))
    else
      var st1 := GenerateStep(st, f, make);
      if st1.error.Some? then st1 else CopyFrame(st1, f)
  }

  /** The state after the loop over `order`, the listing of `data/`. */
  function MoveFold(order: seq<string>, scenes: map<string, seq<string>>, gif: map<string, string>,
                    make: MakeTiffs): GifState
    decreases |order|
  {
    if |order| == 0 then GifState(scenes, gif, None, None, [], None)
    else
      var st := MoveFold(order[..|order| - 1], scenes, gif, make);
      if st.error.Some? then st else VisitScene(st, order[|order| - 1], make)
  }

  lemma {:induction false} MovePersists(order: seq<string>, j: nat, scenes: map<string, seq<string>>, gif: map<string, string>,
                                        make: MakeTiffs)
    requires j <= |order| && MoveFold(order[..j], scenes, gif, make).error.Some?
    ensures MoveFold(order, scenes, gif, make) == MoveFold(order[..j], scenes, gif, make)
    decreases |order| - j
  {
    if j < |order| {
      assert order[..j + 1][..j] == order[..j];
      MovePersists(order, j + 1, scenes, gif, make);
    } else {
      assert order[..j] == order;
    }
  }

  /** One site's scene and frame directories. */
  class Site {
    var scenes: map<string, seq<string>>
    var gif: map<string, string>

    constructor (scenes: map<string, seq<string>>, gif: map<string, string>)
      ensures this.scenes == scenes && this.gif == gif
    {
      this.scenes := scenes;
      this.gif := gif;
    }

    /** `move_files_to_gif` over the listing `order` of `data/`; it returns the directories it
        generated an NDVI TIFF for, and how it ended. */
    method MoveFilesToGif(order: seq<string>, make: MakeTiffs)
      returns (generated: seq<string>, r: Outcome)
      modifies this
      ensures var st := MoveFold(order, old(scenes), old(gif), make);
        && scenes == st.scenes && gif == st.gif && generated == st.generated
        && r == (if st.error.Some? then Fail(st.error.value) else Pass)
    {
      ghost var scenes0, gif0 := scenes, gif;
      var img: Option<string> := None;
      var meta: Option<string> := None;
      generated := [];
      for i := 0 to |order|
        invariant MoveFold(order[..i], scenes0, gif0, make) == GifState(scenes, gif, img, meta, generated, None)
      {
        var f := order[i];
        assert order[..i + 1][..i] == order[..i];
        ghost var st := GifState(scenes, gif, img, meta, generated, None);
        if f !in scenes {
          MovePersists(order, i + 1, scenes0, gif0, make);
          return generated, Fail(OtherError("NotADirectoryError"));
        }
        var listing := scenes[f];
        if ClipName !in listing {
          img, meta := SelectFiles(listing, img, meta);
          if img.None? || meta.None? {
            MovePersists(order, i + 1, scenes0, gif0, make);
            return generated, Fail(NameError);
          }
          generated := generated + [f];
          var out := make(f, img.value, meta.value);
          if out.Err? {
            MovePersists(order, i + 1, scenes0, gif0, make);
            return generated, Fail(out.error);
          }
          scenes := scenes[f := AddEntries(AddEntry(listing, NdviName), out.value)];
        }
        var fn := GifName(f);
        if fn !in gif {
          if ClipName !in scenes[f] {
            MovePersists(order, i + 1, scenes0, gif0, make);
            return generated, Fail(FileNotFoundError);
          }
          gif := gif[fn := f];
        }
        assert VisitScene(st, f, make) == GifState(scenes, gif, img, meta, generated, None);
      }
      assert order[..|order|] == order;
      r := Pass;
    }
  }

  /** One visit adds at most the frame named after the directory it visits. */
  lemma VisitFrames(st: GifState, f: string, make: MakeTiffs)
    ensures var st' := VisitScene(st, f, make);
      && (forall n :: n in st.gif ==> n in st'.gif && st'.gif[n] == st.gif[n])
      && (forall n :: n in st'.gif && n !in st.gif ==> n == GifName(f) && st'.gif[n] == f)
  {
  }

  /** Frames are never overwritten: every frame present before the run keeps its source, and
      every new frame is named after a listed scene directory it came from. */
  lemma {:induction false} FramesNeverOverwritten(order: seq<string>, scenes: map<string, seq<string>>, gif: map<string, string>,
                                                  make: MakeTiffs)
    ensures var st := MoveFold(order, scenes, gif, make);
      && (forall n :: n in gif ==> n in st.gif && st.gif[n] == gif[n])
      && (forall n :: n in st.gif && n !in gif ==> st.gif[n] in order && n == GifName(st.gif[n]))
    decreases |order|
  {
    if |order| > 0 {
      var init, f := order[..|order| - 1], order[|order| - 1];
      assert order == init + [f];
      FramesNeverOverwritten(init, scenes, gif, make);
      var st := MoveFold(init, scenes, gif, make);
      if st.error.None? {
        VisitFrames(st, f, make);
      }
    }
  }

  /** One visit keeps the directories, leaves finished listings alone, and generates at most
      for the directory it visits, when that one is listed and lacks 'ndvi_clip.tif'. */
  lemma VisitGenerated(st: GifState, f: string, make: MakeTiffs)
    ensures var st' := VisitScene(st, f, make);
      && st'.scenes.Keys == st.scenes.Keys
      && (forall g :: g in st.scenes && ClipName in st.scenes[g] ==> st'.scenes[g] == st.scenes[g])
      && (forall g :: g in st'.generated ==> g in st.generated || (g == f && f in st.scenes && ClipName !in st.scenes[f]))
  {
  }

  /** An NDVI TIFF is generated only for listed directories whose listing lacked 'ndvi_clip.tif'. */
  lemma {:induction false} GeneratedOnlyWithoutClip(order: seq<string>, scenes: map<string, seq<string>>, gif: map<string, string>,
                                                    make: MakeTiffs)
    ensures var st := MoveFold(order, scenes, gif, make);
      && st.scenes.Keys == scenes.Keys
      && (forall g :: g in scenes && ClipName in scenes[g] ==> st.scenes[g] == scenes[g])
      && (forall g :: g in st.generated ==> g in order && g in scenes && ClipName !in scenes[g])
    decreases |order|
  {
    if |order| > 0 {
      var init, f := order[..|order| - 1], order[|order| - 1];
      assert order == init + [f];
      GeneratedOnlyWithoutClip(init, scenes, gif, make);
      var st := MoveFold(init, scenes, gif, make);
      if st.error.None? {
        VisitGenerated(st, f, make);
      }
    }
  }

  /** Directory f is listed and its frame is in `gif/`. */
  predicate Framed(st: GifState, f: string)
  {
    f in st.scenes && GifName(f) in st.gif
  }

  /** Directory f holds its clipped NDVI TIFF and its frame is in `gif/`. */
  predicate Finished(st: GifState, f: string)
  {
    Framed(st, f) && ClipName in st.scenes[f]
  }

  /** A visit that raises nothing leaves its directory with a frame, and with 'ndvi_clip.tif'
      unless the frame was there before; frames and clipped TIFFs are kept. */
  lemma VisitFramed(st: GifState, f: string, make: MakeTiffs)
    requires VisitScene(st, f, make).error.None?
    ensures var st' := VisitScene(st, f, make);
      && Framed(st', f) && (ClipName in st'.scenes[f] || GifName(f) in st.gif)
      && (forall g :: Framed(st, g) ==> Framed(st', g))
      && (forall g :: Finished(st, g) ==> Finished(st', g))
  {
  }

  /** After a run that ended normally, every listed directory has its frame in `gif/`. */
  lemma {:induction false} RunFramed(order: seq<string>, scenes: map<string, seq<string>>, gif: map<string, string>,
                                     make: MakeTiffs)
    requires MoveFold(order, scenes, gif, make).error.None?
    ensures forall g :: g in order ==> Framed(MoveFold(order, scenes, gif, make), g)
    decreases |order|
  {
    if |order| > 0 {
      var init, f := order[..|order| - 1], order[|order| - 1];
      assert order == init + [f];
      var st := MoveFold(init, scenes, gif, make);
      assert st.error.None?;
      RunFramed(init, scenes, gif, make);
      VisitFramed(st, f, make);
    }
  }

  /** A directory that lacks 'ndvi_clip.tif' after its TIFFs are made, and whose frame is not yet
      in `gif/`, stops the loop with FileNotFoundError. */
  lemma MissingClipRaises(st: GifState, f: string, make: MakeTiffs, img: string, meta: string)
    requires st.error.None? && f in st.scenes && ClipName !in st.scenes[f] && GifName(f) !in st.gif
    requires LastMatch(st.scenes[f], TiffPattern, st.img) == Some(img)
    requires LastMatch(st.scenes[f], MetadataPattern, st.meta) == Some(meta)
    requires make(f, img, meta).Ok? && ClipName !in make(f, img, meta).value
    ensures VisitScene(st, f, make).error == Some(FileNotFoundError)
    ensures VisitScene(st, f, make).generated == st.generated + [f]
  {
    var st1 := GenerateStep(st, f, make);
    assert ClipName !in st1.scenes[f];
  }

  /** A visit with a `make` that always writes 'ndvi_clip.tif' finishes its directory when it
      raises nothing, and keeps every finished one. */
  lemma VisitCompletes(st: GifState, f: string, make: MakeTiffs)
    requires WritesClip(make)
    requires VisitScene(st, f, make).error.None?
    ensures Finished(VisitScene(st, f, make), f)
    ensures forall g :: Finished(st, g) ==> Finished(VisitScene(st, f, make), g)
  {
    VisitFramed(st, f, make);
  }

  /** With a `make` that always writes 'ndvi_clip.tif', after a run that ended normally every
      listed directory holds its clipped NDVI TIFF and has its frame in `gif/`. */
  lemma {:induction false} RunCompletes(order: seq<string>, scenes: map<string, seq<string>>, gif: map<string, string>,
                                        make: MakeTiffs)
    requires WritesClip(make)
    requires MoveFold(order, scenes, gif, make).error.None?
    ensures forall g :: g in order ==> Finished(MoveFold(order, scenes, gif, make), g)
    decreases |order|
  {
    if |order| > 0 {
      var init, f := order[..|order| - 1], order[|order| - 1];
      assert order == init + [f];
      var st := MoveFold(init, scenes, gif, make);
      assert st.error.None?;
      RunCompletes(init, scenes, gif, make);
      VisitCompletes(st, f, make);
    }
  }

  /** A directory whose `make` succeeds without writing 'ndvi_clip.tif', but whose frame is
      already in `gif/`, is generated, raises nothing and stays without 'ndvi_clip.tif'. */
  lemma FrameWithoutClip(st: GifState, f: string, make: MakeTiffs, img: string, meta: string)
    requires st.error.None? && f in st.scenes && ClipName !in st.scenes[f] && GifName(f) in st.gif
    requires LastMatch(st.scenes[f], TiffPattern, st.img) == Some(img)
    requires LastMatch(st.scenes[f], MetadataPattern, st.meta) == Some(meta)
    requires make(f, img, meta).Ok? && ClipName !in make(f, img, meta).value
    ensures VisitScene(st, f, make).error.None?
    ensures VisitScene(st, f, make).generated == st.generated + [f]
    ensures !Finished(VisitScene(st, f, make), f)
  {
    var st1 := GenerateStep(st, f, make);
    assert ClipName !in st1.scenes[f];
  }

  /** On directories that all hold their clipped TIFF and their frame, the loop changes nothing. */
  lemma {:induction false} FinishedSiteUnchanged(order: seq<string>, scenes: map<string, seq<string>>, gif: map<string, string>,
                                                 make: MakeTiffs)
    requires forall g :: g in order ==> Finished(GifState(scenes, gif, None, None, [], None), g)
    ensures MoveFold(order, scenes, gif, make) == GifState(scenes, gif, None, None, [], None)
    decreases |order|
  {
    if |order| > 0 {
      var init, f := order[..|order| - 1], order[|order| - 1];
      assert order == init + [f];
      assert f in order;
      FinishedSiteUnchanged(init, scenes, gif, make);
    }
  }

  /** With a `make` that always writes 'ndvi_clip.tif', re-running `move_files_to_gif` after a
      run that ended normally generates nothing and copies nothing. */
  lemma MoveRerunIsNoOp(order: seq<string>, scenes: map<string, seq<string>>, gif: map<string, string>,
                        make: MakeTiffs)
    requires WritesClip(make)
    requires MoveFold(order, scenes, gif, make).error.None?
    ensures var st := MoveFold(order, scenes, gif, make);
      MoveFold(order, st.scenes, st.gif, make) == GifState(st.scenes, st.gif, None, None, [], None)
  {
    RunCompletes(order, scenes, gif, make);
    var st := MoveFold(order, scenes, gif, make);
    FinishedSiteUnchanged(order, st.scenes, st.gif, make);
  }

  // ---------------------------------------------------------------- the PNG loop

  /** One call of `plot_ndvi`: the frame, its title and the PNG it saves. */
  datatype Plot = Plot(frame: string, title: string, png: string)

  datatype PngState = PngState(files: set<string>, plots: seq<Plot>, error: Option<Error>)

  /** Lines 89-91 for one entry of `gif/`; a title that does not parse raises out of the program. */
  function PlotStep(st: PngState, f: string): PngState
  {
    if PngName(f) in st.files then st
    else match TitleLabel(f)
      case Err(e) => st.(error := Some(e))
      case Ok(title) => st.(files := st.files + {PngName(f)}, plots := st.plots + [Plot(f, title, PngName(f))])
  }

  function PngFold(listing: seq<string>, files: set<string>): PngState
    decreases |listing|
  {
    if |listing| == 0 then PngState(files, [], None)
    else
      var st := PngFold(listing[..|listing| - 1], files);
      if st.error.Some? then st else PlotStep(st, listing[|listing| - 1])
  }

  lemma {:induction false} PngPersists(listing: seq<string>, j: nat, files: set<string>)
    requires j <= |listing| && PngFold(listing[..j], files).error.Some?
    ensures PngFold(listing, files) == PngFold(listing[..j], files)
    decreases |listing| - j
  {
    if j < |listing| {
      assert listing[..j + 1][..j] == listing[..j];
      PngPersists(listing, j + 1, files);
    } else {
      assert listing[..j] == listing;
    }
  }

  /** The files of one site's `gif/` directory. */
  class GifFolder {
    var files: set<string>

    constructor (files: set<string>)
      ensures this.files == files
    {
      this.files := files;
    }

    /** The loop of lines 88-91 over the listing taken when it starts. */
    method PlotMissingPngs(listing: seq<string>) returns (plots: seq<Plot>, r: Outcome)
      modifies this
      ensures var st := PngFold(listing, old(files));
        && files == st.files && plots == st.plots
        && r == (if st.error.Some? then Fail(st.error.value) else Pass)
    {
      ghost var files0 := files;
      plots := [];
      for i := 0 to |listing|
        invariant PngFold(listing[..i], files0) == PngState(files, plots, None)
      {
        var f := listing[i];
        assert listing[..i + 1][..i] == listing[..i];
        var fn := PngName(f);
        if fn !in files {
          var title := TitleLabel(f);
          if title.Err? {
            PngPersists(listing, i + 1, files0);
            return plots, Fail(title.error);
          }
          files := files + {fn};
          plots := plots + [Plot(f, title.value, fn)];
        }
      }
      assert listing[..|listing|] == listing;
      r := Pass;
    }
  }

  /** Plot p is of a frame in `listing` whose PNG was not among `files`, with that frame's
      title and PNG name. */
  predicate PlotOf(p: Plot, listing: seq<string>, files: set<string>)
  {
    p.frame in listing && TitleLabel(p.frame) == Ok(p.title) && p.png == PngName(p.frame) && p.png !in files
  }

  lemma {:induction false} PlotsOfMissing(listing: seq<string>, files: set<string>)
    ensures var st := PngFold(listing, files);
      files <= st.files && forall p :: p in st.plots ==> PlotOf(p, listing, files)
    decreases |listing|
  {
    if |listing| > 0 {
      var init, f := listing[..|listing| - 1], listing[|listing| - 1];
      assert listing == init + [f];
      PlotsOfMissing(init, files);
    }
  }

  /** Every plot is of a listed frame whose PNG was missing: it carries that frame's title and
      PNG name, and, when the listing is the directory's contents, never a '.png' entry. */
  lemma PlotsSpec(listing: seq<string>, files: set<string>)
    ensures var st := PngFold(listing, files);
      && files <= st.files
      && (forall p :: p in st.plots ==> PlotOf(p, listing, files))
      && ((forall n :: n in listing ==> n in files) ==> forall p :: p in st.plots ==> !HasPngSuffix(p.frame))
  {
    PlotsOfMissing(listing, files);
    var st := PngFold(listing, files);
    if forall n :: n in listing ==> n in files {
      forall p | p in st.plots ensures !HasPngSuffix(p.frame) {
        if HasPngSuffix(p.frame) {
          PngNameOfPng(p.frame);
        }
      }
    }
  }

  /** After a run that ended normally every listed frame has its PNG, so a second run plots nothing. */
  lemma {:induction false} PngRerunIsNoOp(listing: seq<string>, files: set<string>, later: set<string>)
    requires PngFold(listing, files).error.None?
    requires PngFold(listing, files).files <= later
    ensures PngFold(listing, later) == PngState(later, [], None)
    decreases |listing|
  {
    if |listing| > 0 {
      var init := listing[..|listing| - 1];
      PlotsOfMissing(init, files);
      PngRerunIsNoOp(init, files, later);
    }
  }
}
