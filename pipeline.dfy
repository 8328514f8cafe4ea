/**
 * process_image: one texture is decoded, then either copied as it is or
 * resized, staged as a PNG in the temporary directory and re-encoded by
 * texconv as a DXT5 DDS with the DX9 header; every failure on the way
 * becomes an "[ERR]" line instead of an exception.
 */
module Pipeline {
  import opened Paths
  import opened Decimal
  import opened ScalePolicy
  import opened Disk

  datatype Result<T> = Ok(value: T) | Err(message: string)

  /** A decoded image: its size and its pixel data. */
  datatype Image = Image(width: nat, height: nat, pixels: Bytes)

  /**
   * What the program calls but does not define. A failing call yields the
   * text of the exception it raises, which becomes the cause in the log line.
   */
  datatype Externals = Externals(
    // base_path: the directory the program runs from (or its unpacked bundle)
    basePath: Path,
    // the error Image.open raises for a path that is not a regular file
    openError: Path -> string,
    // Image.open and img.size on the bytes of a file
    decode: Bytes -> Result<Image>,
    // img.resize((w, h), LANCZOS)
    resize: (Image, nat, nat) -> Result<Image>,
    // resized.save(path, "PNG"): the bytes of the PNG file
    savePng: Image -> Result<Bytes>,
    // subprocess.run(argv, check=True) of texconv reading the staged PNG:
    // the DDS file it writes, or the failure (a non-zero exit among them)
    texconv: (seq<string>, Bytes) -> Result<Bytes>)

  /** TEMP_DIR: where resized images wait for texconv. */
  const TempDir: Path := "temp_textures"

  /** TEMP_DIR has no separator, so no path written under another directory can be it. */
  lemma TempDirIsName()
    ensures IsName(TempDir)
  {
  }

  /** TEXCONV_PATH for the directory the program runs from. */
  function TexconvPath(basePath: Path): Path {
    Join(basePath, "texconv.exe")
  }

  /** TEXCONV_PATH names texconv.exe, whatever directory the program runs from. */
  lemma TexconvPathNamesTexconv(basePath: Path)
    ensures Basename(TexconvPath(basePath)) == "texconv.exe"
  {
    BasenameJoin(basePath, "texconv.exe");
  }

  /** temp_png_path: the staged PNG, named after the texture without its extension. */
  function StagedPngPath(filePath: Path): Path {
    Join(TempDir, Stem(Basename(filePath)) + ".png")
  }

  /** The texconv command line: DDS container, DXT5 (BC3) pixels, DX9 header, overwrite, output directory, input. */
  function TexconvArgs(exe: Path, outputDir: Path, input: Path): seq<string> {
    [exe, "-ft", "DDS", "-f", "DXT5", "-dx9", "-y", "-o", outputDir, input]
  }

  /** Where texconv writes: into the -o directory, under the input's name with ".dds" for its extension. */
  function TexconvOutputPath(outputDir: Path, input: Path): Path {
    Join(outputDir, StripExtension(Basename(input)) + ".dds")
  }

  /** What happened to one texture. */
  datatype Outcome =
    | Skipped(name: string, width: nat, height: nat)
    | Converted(name: string, width: nat, height: nat, newWidth: nat, newHeight: nat)
    | Failed(name: string, cause: string)

  /** An image size as the log shows it: f"{w}x{h}". */
  function SizeText(w: nat, h: nat): string {
    Show(w) + "x" + Show(h)
  }

  /** The line process_image returns for an outcome. */
  function Render(o: Outcome): string {
    match o
    case Skipped(name, w, h) =>
      "[SKIP] " + name + ": уже " + SizeText(w, h) + ". Скопирован."
    case Converted(name, w, h, nw, nh) =>
      "[OK] " + name + ": " + SizeText(w, h) + " -> " + SizeText(nw, nh)
    case Failed(name, cause) =>
      "[ERR] " + name + ": " + cause
  }

  function Tag(o: Outcome): string {
    match o
    case Skipped(_, _, _) => "[SKIP] "
    case Converted(_, _, _, _, _) => "[OK] "
    case Failed(_, _) => "[ERR] "
  }

  /** Opening the texture: the decoded image, or why it could not be opened. */
  function Decoded(s: Snapshot, filePath: Path, ext: Externals): Result<Image> {
    if filePath in s.files then ext.decode(s.files[filePath]) else Err(ext.openError(filePath))
  }

  /** The staged PNG and texconv's output are different files (".png" against ".dds"). */
  lemma StagedIsNotOutput(filePath: Path, outputDir: Path)
    ensures StagedPngPath(filePath) != TexconvOutputPath(outputDir, StagedPngPath(filePath))
  {
    var staged := StagedPngPath(filePath);
    JoinEnds(TempDir, Stem(Basename(filePath)) + ".png");
    JoinEnds(outputDir, StripExtension(Basename(staged)) + ".dds");
  }

  /**
   * The resize path of process_image for an opened `img` resized to
   * newWidth x newHeight: stage the PNG at `staged`, run texconv with
   * `argv`, which writes `output`, then drop the PNG.
   */
  function ConvertResult(s: Snapshot, img: Image, newWidth: nat, newHeight: nat, name: string,
                         staged: Path, argv: seq<string>, output: Path, ext: Externals): (r: (Snapshot, Outcome))
    requires staged != output
    ensures r.1.name == name && !r.1.Skipped?
    ensures r.1.Converted? ==>
      && r.1 == Converted(name, img.width, img.height, newWidth, newHeight)
      && output in r.0.files
      && staged !in r.0.files
  {
    match ext.resize(img, newWidth, newHeight)
    case Err(e) => (s, Failed(name, e))
    case Ok(resized) =>
      var s1 := if Exists(s, TempDir) then s else Snapshot(s.files, s.dirs + {TempDir});
      match ext.savePng(resized)
      case Err(e) => (s1, Failed(name, e))
      case Ok(png) =>
        var s2 := Snapshot(s1.files[staged := png], s1.dirs);
        match ext.texconv(argv, s2.files[staged])
        case Err(e) => (s2, Failed(name, e))
        case Ok(dds) =>
          var s3 := Snapshot(s2.files[output := dds], s2.dirs);
          var s4 := if Exists(s3, staged) then Snapshot(s3.files - {staged}, s3.dirs) else s3;
          (s4, Converted(name, img.width, img.height, newWidth, newHeight))
  }

  /**
   * What the resize path may change: a failure leaves every file but the
   * staged PNG as it was; otherwise only the staged PNG and texconv's output
   * change; TEMP_DIR is the only directory made, and it exists whenever a
   * new PNG has been staged.
   */
  lemma ConvertFootprint(s: Snapshot, img: Image, newWidth: nat, newHeight: nat, name: string,
                         staged: Path, argv: seq<string>, output: Path, ext: Externals)
    requires staged != output
    ensures var r := ConvertResult(s, img, newWidth, newHeight, name, staged, argv, output, ext);
      && (r.1.Failed? ==> forall p :: p != staged ==> SameAt(s.files, r.0.files, p))
      && (forall p :: p != staged && p != output ==> SameAt(s.files, r.0.files, p))
      && (r.0.dirs == s.dirs || r.0.dirs == s.dirs + {TempDir})
      && (staged in r.0.files && staged !in s.files ==> Exists(r.0, TempDir))
  {
    var r := ConvertResult(s, img, newWidth, newHeight, name, staged, argv, output, ext);
    match ext.resize(img, newWidth, newHeight)
    case Err(_) =>
      assert r.0 == s;
    case Ok(resized) =>
      var s1 := if Exists(s, TempDir) then s else Snapshot(s.files, s.dirs + {TempDir});
      assert Exists(s1, TempDir) && s1.files == s.files;
      match ext.savePng(resized)
      case Err(_) =>
        assert r.0 == s1;
      case Ok(png) =>
        var s2 := Snapshot(s1.files[staged := png], s1.dirs);
        match ext.texconv(argv, png)
        case Err(_) =>
          assert r.0 == s2;
        case Ok(dds) =>
          var s3 := Snapshot(s2.files[output := dds], s2.dirs);
          assert r.0 == Snapshot(s3.files - {staged}, s3.dirs);
  }

  /**
   * The effect of process_image(filePath, outputPath, scale, skipIfSmall) on
   * the disk, and the outcome it reports.
   */
  function ProcessResult(s: Snapshot, filePath: Path, outputPath: Path, scale: Scale, skipIfSmall: bool,
                         ext: Externals): (r: (Snapshot, Outcome))
    // exactly one outcome, about this file
    ensures r.1.name == Basename(filePath)
  {
    var name := Basename(filePath);
    match Decoded(s, filePath, ext)
    case Err(e) => (s, Failed(name, e))
    case Ok(img) =>
      match Decide(img.width, img.height, scale, skipIfSmall)
      case SkipCopy =>
        (Snapshot(s.files[outputPath := s.files[filePath]], s.dirs), Skipped(name, img.width, img.height))
      case Resize(newWidth, newHeight) =>
        var outputDir := Dirname(outputPath);
        var staged := StagedPngPath(filePath);
        StagedIsNotOutput(filePath, outputDir);
        ConvertResult(s, img, newWidth, newHeight, name, staged,
                      TexconvArgs(TexconvPath(ext.basePath), outputDir, staged), TexconvOutputPath(outputDir, staged), ext)
  }

  /** What process_image reports, and what it leaves on disk for each outcome. */
  lemma ProcessOutcome(s: Snapshot, filePath: Path, outputPath: Path, scale: Scale, skipIfSmall: bool,
                       ext: Externals)
    ensures var r := ProcessResult(s, filePath, outputPath, scale, skipIfSmall, ext);
      var d := Decoded(s, filePath, ext);
      // skipped exactly when the texture opens and is small enough for the skip rule
      && (r.1.Skipped? <==> d.Ok? && SkipsSmall(d.value.width, d.value.height, scale, skipIfSmall))
      // a skipped texture is copied byte for byte and reported with its own size
      && (r.1.Skipped? ==>
            && filePath in s.files
            && r.0 == Snapshot(s.files[outputPath := s.files[filePath]], s.dirs)
            && r.1.width == d.value.width && r.1.height == d.value.height)
      // a converted texture is reported with its own size and the scaled size,
      // texconv's output is on disk and the staged PNG is gone
      && (r.1.Converted? ==>
            && d.Ok?
            && r.1.width == d.value.width && r.1.height == d.value.height
            && r.1.newWidth == Scaled(r.1.width, scale) && r.1.newHeight == Scaled(r.1.height, scale)
            && TexconvOutputPath(Dirname(outputPath), StagedPngPath(filePath)) in r.0.files
            && StagedPngPath(filePath) !in r.0.files)
  {
    match Decoded(s, filePath, ext)
    case Err(_) =>
    case Ok(img) =>
      match Decide(img.width, img.height, scale, skipIfSmall)
      case SkipCopy =>
        ProcessSkips(s, filePath, outputPath, scale, skipIfSmall, ext);
      case Resize(newWidth, newHeight) =>
        ProcessConverts(s, filePath, outputPath, scale, skipIfSmall, ext);
  }

  /**
   * What process_image may change on disk: a failure leaves every file but
   * the staged PNG as it was; TEMP_DIR is the only directory it may make,
   * and it exists whenever a new PNG has been staged.
   */
  lemma ProcessFootprint(s: Snapshot, filePath: Path, outputPath: Path, scale: Scale, skipIfSmall: bool,
                         ext: Externals)
    ensures var r := ProcessResult(s, filePath, outputPath, scale, skipIfSmall, ext);
      && (r.1.Failed? ==> forall p :: p != StagedPngPath(filePath) ==> SameAt(s.files, r.0.files, p))
      && (r.0.dirs == s.dirs || r.0.dirs == s.dirs + {TempDir})
      && (StagedPngPath(filePath) != outputPath &&
          StagedPngPath(filePath) in r.0.files && StagedPngPath(filePath) !in s.files ==>
            Exists(r.0, TempDir))
  {
    var staged := StagedPngPath(filePath);
    match Decoded(s, filePath, ext)
    case Err(_) =>
    case Ok(img) =>
      match Decide(img.width, img.height, scale, skipIfSmall)
      case SkipCopy =>
        ProcessSkips(s, filePath, outputPath, scale, skipIfSmall, ext);
      case Resize(newWidth, newHeight) =>
        var outputDir := Dirname(outputPath);
        var argv := TexconvArgs(TexconvPath(ext.basePath), outputDir, staged);
        var output := TexconvOutputPath(outputDir, staged);
        StagedIsNotOutput(filePath, outputDir);
        ConvertFootprint(s, img, newWidth, newHeight, Basename(filePath), staged, argv, output, ext);
        ProcessConverts(s, filePath, outputPath, scale, skipIfSmall, ext);
  }

  /**
   * Otherwise process_image changes no file but the output path, the staged
   * PNG and texconv's output.
   */
  lemma ProcessFrame(s: Snapshot, filePath: Path, outputPath: Path, scale: Scale, skipIfSmall: bool,
                     ext: Externals, p: Path)
    requires p != outputPath && p != StagedPngPath(filePath)
    requires p != TexconvOutputPath(Dirname(outputPath), StagedPngPath(filePath))
    ensures SameAt(s.files, ProcessResult(s, filePath, outputPath, scale, skipIfSmall, ext).0.files, p)
  {
    match Decoded(s, filePath, ext)
    case Err(_) =>
    case Ok(img) =>
      match Decide(img.width, img.height, scale, skipIfSmall)
      case SkipCopy =>
        ProcessSkips(s, filePath, outputPath, scale, skipIfSmall, ext);
        WriteElsewhere(s.files, outputPath, s.files[filePath], p);
      case Resize(newWidth, newHeight) =>
        var staged := StagedPngPath(filePath);
        var outputDir := Dirname(outputPath);
        var argv := TexconvArgs(TexconvPath(ext.basePath), outputDir, staged);
        var output := TexconvOutputPath(outputDir, staged);
        ProcessConverts(s, filePath, outputPath, scale, skipIfSmall, ext);
        ConvertFootprint(s, img, newWidth, newHeight, Basename(filePath), staged, argv, output, ext);
        assert SameAt(s.files, ConvertResult(s, img, newWidth, newHeight, Basename(filePath), staged, argv, output, ext).0.files, p);
  }

  /** The skip path: the texture is copied to the output path. */
  lemma ProcessSkips(s: Snapshot, filePath: Path, outputPath: Path, scale: Scale, skipIfSmall: bool,
                     ext: Externals)
    requires Decoded(s, filePath, ext).Ok?
    requires Decide(Decoded(s, filePath, ext).value.width, Decoded(s, filePath, ext).value.height,
                    scale, skipIfSmall).SkipCopy?
    ensures filePath in s.files
    ensures ProcessResult(s, filePath, outputPath, scale, skipIfSmall, ext).0
      == Snapshot(s.files[outputPath := s.files[filePath]], s.dirs)
  {
  }

  /** The resize path: texconv is run on the staged PNG with the output path's directory as -o. */
  lemma ProcessConverts(s: Snapshot, filePath: Path, outputPath: Path, scale: Scale, skipIfSmall: bool,
                        ext: Externals)
    requires Decoded(s, filePath, ext).Ok?
    requires Decide(Decoded(s, filePath, ext).value.width, Decoded(s, filePath, ext).value.height,
                    scale, skipIfSmall).Resize?
    ensures var img := Decoded(s, filePath, ext).value;
      var d := Decide(img.width, img.height, scale, skipIfSmall);
      var staged := StagedPngPath(filePath);
      var outputDir := Dirname(outputPath);
      staged != TexconvOutputPath(outputDir, staged) &&
      ProcessResult(s, filePath, outputPath, scale, skipIfSmall, ext)
        == ConvertResult(s, img, d.width, d.height, Basename(filePath), staged,
                         TexconvArgs(TexconvPath(ext.basePath), outputDir, staged), TexconvOutputPath(outputDir, staged), ext)
  {
    StagedIsNotOutput(filePath, Dirname(outputPath));
  }

  // ---- properties of one call ----

  /** Every line starts with exactly one of the three tags, followed by the file's base name and ": ". */
  lemma RenderTagged(o: Outcome)
    ensures Tag(o) + o.name + ": " <= Render(o)
    ensures "[SKIP] " <= Render(o) <==> o.Skipped?
    ensures "[OK] " <= Render(o) <==> o.Converted?
    ensures "[ERR] " <= Render(o) <==> o.Failed?
  {
    var line := Render(o);
    assert line[1] == Tag(o)[1];
  }

  /** A size text followed by a non-digit determines the size and what follows. */
  lemma SizeTextThen(w: nat, h: nat, c: char, rest: string, w': nat, h': nat, rest': string)
    requires !IsDigit(c)
    requires SizeText(w, h) + [c] + rest == SizeText(w', h') + [c] + rest'
    ensures w == w' && h == h' && rest == rest'
  {
    var tail := Show(h) + [c] + rest;
    var tail' := Show(h') + [c] + rest';
    assert SizeText(w, h) + [c] + rest == Show(w) + ['x'] + tail;
    assert SizeText(w', h') + [c] + rest' == Show(w') + ['x'] + tail';
    SplitAtNonDigit(Show(w), 'x', tail, Show(w'), 'x', tail');
    SplitAtNonDigit(Show(h), c, rest, Show(h'), c, rest');
    ShowInjective(w, w');
    ShowInjective(h, h');
  }

  /** A size text alone determines the size. */
  lemma SizeTextInjective(w: nat, h: nat, w': nat, h': nat)
    requires SizeText(w, h) == SizeText(w', h')
    ensures w == w' && h == h'
  {
    SplitAtNonDigit(Show(w), 'x', Show(h), Show(w'), 'x', Show(h'));
    ShowInjective(w, w');
    ShowInjective(h, h');
  }

  /** The "[OK]" line of a file determines the original and the new size it reports. */
  lemma ConvertedLineReportsSizes(name: string, w: nat, h: nat, nw: nat, nh: nat,
                                  w': nat, h': nat, nw': nat, nh': nat)
    requires Render(Converted(name, w, h, nw, nh)) == Render(Converted(name, w', h', nw', nh'))
    ensures w == w' && h == h' && nw == nw' && nh == nh'
  {
    var head := "[OK] " + name + ": ";
    var rest := "-> " + SizeText(nw, nh);
    var rest' := "-> " + SizeText(nw', nh');
    ConvertedLineSplits(name, w, h, nw, nh);
    ConvertedLineSplits(name, w', h', nw', nh');
    var tail := SizeText(w, h) + [' '] + rest;
    var tail' := SizeText(w', h') + [' '] + rest';
    assert tail == (head + tail)[|head|..];
    assert tail' == (head + tail')[|head|..];
    SizeTextThen(w, h, ' ', rest, w', h', rest');
    assert SizeText(nw, nh) == rest[3..];
    assert SizeText(nw', nh') == rest'[3..];
    SizeTextInjective(nw, nh, nw', nh');
  }

  /** An "[OK]" line is its head, the old size, a space, and "-> " with the new size. */
  lemma ConvertedLineSplits(name: string, w: nat, h: nat, nw: nat, nh: nat)
    ensures Render(Converted(name, w, h, nw, nh))
      == ("[OK] " + name + ": ") + (SizeText(w, h) + [' '] + ("-> " + SizeText(nw, nh)))
  {
    var a, b := SizeText(w, h), SizeText(nw, nh);
    assert " -> " + b == [' '] + ("-> " + b);
  }

  /** The "[SKIP]" line of a file determines the size it reports. */
  lemma SkippedLineReportsSize(name: string, w: nat, h: nat, w': nat, h': nat)
    requires Render(Skipped(name, w, h)) == Render(Skipped(name, w', h'))
    ensures w == w' && h == h'
  {
    var head := "[SKIP] " + name + ": уже ";
    var rest := " Скопирован.";
    var line := Render(Skipped(name, w, h));
    var line' := Render(Skipped(name, w', h'));
    assert line == head + (SizeText(w, h) + ['.'] + rest);
    assert line' == head + (SizeText(w', h') + ['.'] + rest);
    assert SizeText(w, h) + ['.'] + rest == line[|head|..];
    assert SizeText(w', h') + ['.'] + rest == line'[|head|..];
    SizeTextThen(w, h, '.', rest, w', h', rest);
  }

  /** A texture that cannot be opened or decoded is reported with the error, and nothing changes. */
  lemma DecodeFailureReported(s: Snapshot, filePath: Path, outputPath: Path, scale: Scale, skipIfSmall: bool,
                              ext: Externals)
    requires Decoded(s, filePath, ext).Err?
    ensures ProcessResult(s, filePath, outputPath, scale, skipIfSmall, ext)
      == (s, Failed(Basename(filePath), Decoded(s, filePath, ext).message))
  {
  }

  /** A failing resize is reported with its error, and nothing changes. */
  lemma ResizeFailureReported(s: Snapshot, img: Image, newWidth: nat, newHeight: nat, name: string,
                              staged: Path, argv: seq<string>, output: Path, ext: Externals)
    requires staged != output
    requires ext.resize(img, newWidth, newHeight).Err?
    ensures ConvertResult(s, img, newWidth, newHeight, name, staged, argv, output, ext)
      == (s, Failed(name, ext.resize(img, newWidth, newHeight).message))
  {
  }

  /** A failing PNG save is reported with its error; at most TEMP_DIR has been made. */
  lemma SaveFailureReported(s: Snapshot, img: Image, newWidth: nat, newHeight: nat, name: string,
                            staged: Path, argv: seq<string>, output: Path, ext: Externals)
    requires staged != output
    requires ext.resize(img, newWidth, newHeight).Ok?
    requires ext.savePng(ext.resize(img, newWidth, newHeight).value).Err?
    ensures var r := ConvertResult(s, img, newWidth, newHeight, name, staged, argv, output, ext);
      && r.0.files == s.files
      && r.1 == Failed(name, ext.savePng(ext.resize(img, newWidth, newHeight).value).message)
  {
  }

  /** A failing texconv run is reported with its error, and the staged PNG stays behind. */
  lemma TexconvFailureReported(s: Snapshot, img: Image, newWidth: nat, newHeight: nat, name: string,
                               staged: Path, argv: seq<string>, output: Path, ext: Externals)
    requires staged != output
    requires ext.resize(img, newWidth, newHeight).Ok?
    requires ext.savePng(ext.resize(img, newWidth, newHeight).value).Ok?
    requires ext.texconv(argv, ext.savePng(ext.resize(img, newWidth, newHeight).value).value).Err?
    ensures var r := ConvertResult(s, img, newWidth, newHeight, name, staged, argv, output, ext);
      var png := ext.savePng(ext.resize(img, newWidth, newHeight).value).value;
      && r.0.files == s.files[staged := png]
      && r.1 == Failed(name, ext.texconv(argv, png).message)
  {
  }

  /** When texconv succeeds the staged PNG is removed and its output is in place. */
  lemma TexconvSuccessCleansUp(s: Snapshot, img: Image, newWidth: nat, newHeight: nat, name: string,
                               staged: Path, argv: seq<string>, output: Path, ext: Externals)
    requires staged != output
    requires ext.resize(img, newWidth, newHeight).Ok?
    requires ext.savePng(ext.resize(img, newWidth, newHeight).value).Ok?
    requires ext.texconv(argv, ext.savePng(ext.resize(img, newWidth, newHeight).value).value).Ok?
    ensures var r := ConvertResult(s, img, newWidth, newHeight, name, staged, argv, output, ext);
      var png := ext.savePng(ext.resize(img, newWidth, newHeight).value).value;
      var dds := ext.texconv(argv, png).value;
      && r.0.files == s.files[output := dds] - {staged}
      && r.1 == Converted(name, img.width, img.height, newWidth, newHeight)
  {
    var png := ext.savePng(ext.resize(img, newWidth, newHeight).value).value;
    var dds := ext.texconv(argv, png).value;
    var s3files := s.files[staged := png][output := dds];
    assert staged in s3files;
    assert ConvertResult(s, img, newWidth, newHeight, name, staged, argv, output, ext).0.files == s3files - {staged};
    assert s3files - {staged} == s.files[output := dds] - {staged};
  }

  /** The staged PNG's file name is a single component. */
  lemma StagedPngName(filePath: Path)
    ensures IsName(Stem(Basename(filePath)) + ".png")
  {
    var stem := Stem(Basename(filePath));
    var n := stem + ".png";
    assert forall k :: 0 <= k < |stem| ==> n[k] == Basename(filePath)[k];
    assert forall k :: |stem| <= k < |n| ==> n[k] == ".png"[k - |stem|];
  }

  /** The staged PNG is "temp_textures/<name without extension>.png". */
  lemma StagedPngText(filePath: Path)
    ensures StagedPngPath(filePath) == TempDir + "/" + (Stem(Basename(filePath)) + ".png")
  {
  }

  /** The staged PNG lies directly in TEMP_DIR, named after the texture without its extension. */
  lemma StagedPngLocation(filePath: Path)
    ensures Dirname(StagedPngPath(filePath)) == TempDir
    ensures Basename(StagedPngPath(filePath)) == Stem(Basename(filePath)) + ".png"
  {
    var n := Stem(Basename(filePath)) + ".png";
    StagedPngName(filePath);
    DirnameJoin(TempDir, n);
    BasenameJoin(TempDir, n);
  }

  /**
   * texconv writes its output into the output path's directory, under the
   * texture's name without extension followed by ".dds".
   */
  lemma ConvertedName(outDir: Path, folder: Path, f: string)
    requires outDir != [] && outDir[|outDir| - 1] != Sep
    requires IsName(f)
    ensures TexconvOutputPath(Dirname(Join(outDir, f)), StagedPngPath(Join(folder, f)))
      == Join(outDir, Stem(f) + ".dds")
  {
    var full := Join(folder, f);
    DirnameJoin(outDir, f);
    BasenameJoin(folder, f);
    StagedNameStripped(full);
  }

  /** Taking the extension off the staged PNG's name leaves the texture's name without extension. */
  lemma StagedNameStripped(filePath: Path)
    ensures StripExtension(Basename(StagedPngPath(filePath))) == Stem(Basename(filePath))
  {
    StagedPngLocation(filePath);
    StripPng(Stem(Basename(filePath)));
  }

  lemma StripPng(stem: string)
    ensures StripExtension(stem + ".png") == stem
  {
    assert stem + ".png" == stem + "." + "png";
    StripAddedExtension(stem, "png");
  }

  /** A name ending in lower-case ".dds" after some character other than a dot is its stem plus ".dds". */
  lemma DdsNameKept(f: string)
    requires EndsWith(f, ".dds")
    requires exists k :: 0 <= k < |f| - 4 && f[k] != '.'
    ensures Stem(f) + ".dds" == f
  {
    var s := f[..|f| - 4];
    assert f == s + "." + "dds";
    var k :| 0 <= k < |f| - 4 && f[k] != '.';
    assert s[k] != '.';
    StemOfExtended(s, "dds");
  }

  /** A texture named with an upper-case ".DDS" comes back from texconv named with ".dds". */
  lemma UpperCaseExtensionLowered()
    ensures Stem("skin.DDS") + ".dds" == "skin.dds"
  {
    assert "skin.DDS" == "skin" + "." + "DDS";
    assert "skin"[0] != '.';
    StemOfExtended("skin", "DDS");
  }

  // ---- the texconv command line, read back ----

  /** The job a texconv command line asks for. */
  datatype Job = Job(fileType: string, format: string, dx9Header: bool, overwrite: bool,
                     outputDir: Path, inputs: seq<Path>)

  const NoOptions: Job := Job("", "", false, false, "", [])

  /**
   * Reads texconv options the way texconv takes them: -ft, -f and -o take a
   * value, -dx9 and -y are flags, the rest are files. Options spelled with a
   * leading '/' instead of '-' are not read as options here; no argument
   * main.py builds starts with '/' in an option's place (the staged PNG path
   * is relative), so this does not change the job read back.
   */
  function ReadOptions(args: seq<string>, job: Job): Result<Job>
    decreases |args|
  {
    if args == [] then Ok(job)
    else if args[0] == "-ft" || args[0] == "-f" || args[0] == "-o" then
      if |args| < 2 then Err("missing value for " + args[0])
      else if args[0] == "-ft" then ReadOptions(args[2..], job.(fileType := args[1]))
      else if args[0] == "-f" then ReadOptions(args[2..], job.(format := args[1]))
      else ReadOptions(args[2..], job.(outputDir := args[1]))
    else if args[0] == "-dx9" then ReadOptions(args[1..], job.(dx9Header := true))
    else if args[0] == "-y" then ReadOptions(args[1..], job.(overwrite := true))
    else if args[0] != [] && args[0][0] == '-' then Err("unknown option " + args[0])
    else ReadOptions(args[1..], job.(inputs := job.inputs + [args[0]]))
  }

  /** A last argument that is not an option is the one input file. */
  lemma OneInput(input: Path, job: Job)
    requires input != [] && input[0] != '-' && job.inputs == []
    ensures ReadOptions([input], job) == Ok(job.(inputs := [input]))
  {
    assert input != "-ft" && input != "-f" && input != "-o" && input != "-dx9" && input != "-y" by {
      assert "-ft"[0] == '-' && "-f"[0] == '-' && "-o"[0] == '-' && "-dx9"[0] == '-' && "-y"[0] == '-';
    }
    assert job.inputs + [input] == [input];
    assert [input][1..] == [];
    assert ReadOptions([], job.(inputs := [input])) == Ok(job.(inputs := [input]));
  }

  /** The program a command line runs and the job it asks for. */
  function ReadCommand(argv: seq<string>): Result<(Path, Job)> {
    if argv == [] then Err("empty command")
    else match ReadOptions(argv[1..], NoOptions)
      case Ok(job) => Ok((argv[0], job))
      case Err(e) => Err(e)
  }

  /**
   * The command line runs texconv and asks for a DDS file in DXT5 with the
   * DX9 header, overwriting, in the given directory, of exactly one input.
   */
  lemma TexconvCommandLine(exe: Path, outputDir: Path, input: Path)
    requires input != [] && input[0] != '-'
    ensures ReadCommand(TexconvArgs(exe, outputDir, input))
      == Ok((exe, Job("DDS", "DXT5", true, true, outputDir, [input])))
  {
    var argv := TexconvArgs(exe, outputDir, input);
    var a := argv[1..];
    assert a[2..] == ["-f", "DXT5", "-dx9", "-y", "-o", outputDir, input];
    assert a[2..][2..] == ["-dx9", "-y", "-o", outputDir, input];
    assert a[2..][2..][1..] == ["-y", "-o", outputDir, input];
    assert a[2..][2..][1..][1..] == ["-o", outputDir, input];
    assert a[2..][2..][1..][1..][2..] == [input];
    var j0 := NoOptions.(fileType := "DDS");
    var j1 := j0.(format := "DXT5");
    var j2 := j1.(dx9Header := true);
    var j3 := j2.(overwrite := true);
    var j4 := j3.(outputDir := outputDir);
    OneInput(input, j4);
    assert ReadOptions(a[2..][2..][1..][1..], j3) == Ok(j4.(inputs := [input]));
    assert ReadOptions(a[2..][2..][1..], j2) == Ok(j4.(inputs := [input]));
    assert ReadOptions(a[2..][2..], j1) == Ok(j4.(inputs := [input]));
    assert ReadOptions(a[2..], j0) == Ok(j4.(inputs := [input]));
  }

  /** The staged PNG is read by texconv as a file, never as an option. */
  lemma StagedPngIsNoOption(filePath: Path)
    ensures StagedPngPath(filePath) != [] && StagedPngPath(filePath)[0] != '-'
  {
    StagedPngText(filePath);
  }

  /** process_image, step by step on the file system. */
  method ProcessImage(disk: FileSystem, filePath: Path, outputPath: Path, scale: Scale, skipIfSmall: bool,
                      ext: Externals) returns (message: string)
    modifies disk
    ensures var r := ProcessResult(old(disk.State()), filePath, outputPath, scale, skipIfSmall, ext);
      disk.State() == r.0 && message == Render(r.1)
  {
    var baseName := Basename(filePath);
    var nameNoExt := Stem(baseName);
    var tempPngPath := Join(TempDir, nameNoExt + ".png");

    var decoded := if disk.IsFile(filePath) then ext.decode(disk.Read(filePath)) else Err(ext.openError(filePath));
    if decoded.Err? {
      return Render(Failed(baseName, decoded.message));
    }
    var img := decoded.value;
    var w, h := img.width, img.height;

    var decision := Decide(w, h, scale, skipIfSmall);
    if decision.SkipCopy? {
      disk.Copy2(filePath, outputPath);
      return Render(Skipped(baseName, w, h));
    }

    var newW, newH := decision.width, decision.height;
    var resized := ext.resize(img, newW, newH);
    if resized.Err? {
      return Render(Failed(baseName, resized.message));
    }
    if !disk.PathExists(TempDir) {
      disk.MakeDirs(TempDir);
    }
    var png := ext.savePng(resized.value);
    if png.Err? {
      return Render(Failed(baseName, png.message));
    }
    disk.Write(tempPngPath, png.value);

    var outputDir := Dirname(outputPath);
    var run := ext.texconv(TexconvArgs(TexconvPath(ext.basePath), outputDir, tempPngPath), disk.Read(tempPngPath));
    if run.Err? {
      return Render(Failed(baseName, run.message));
    }
    disk.Write(TexconvOutputPath(outputDir, tempPngPath), run.value);

    if disk.PathExists(tempPngPath) {
      disk.Remove(tempPngPath);
    }
    message := Render(Converted(baseName, w, h, newW, newH));
  }
}
