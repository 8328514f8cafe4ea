/**
 * The "ПУСК" button (App.start): every entry of the chosen skin folder is
 * either a texture, handed to process_image, or a regular file, copied as
 * it is, into Downloads/<folder name>_DSCL; afterwards the temporary
 * directory is removed.
 */
module Batch {
  import opened Paths
  import opened ScalePolicy
  import opened Disk
  import opened Pipeline

  /** out_folder: ~/Downloads/<base name of the chosen folder>_DSCL */
  function OutputFolder(home: Path, folder: Path): Path {
    Join(Join(home, "Downloads"), Basename(folder) + "_DSCL")
  }

  /** f.lower().endswith(".dds") */
  predicate IsTexture(f: string) {
    EndsWith(Lower(f), ".dds")
  }

  /** What one press of the button works with. */
  datatype Settings = Settings(folder: Path, outFolder: Path, scale: Scale, skipIfSmall: bool, ext: Externals)

  /** One entry of the listing: the disk afterwards and the log lines it adds. */
  function Step(s: Snapshot, c: Settings, f: string): (Snapshot, seq<string>) {
    var fullPath := Join(c.folder, f);
    if IsTexture(f) then
      var r := ProcessResult(s, fullPath, Join(c.outFolder, f), c.scale, c.skipIfSmall, c.ext);
      (r.0, [Render(r.1)])
    else if fullPath in s.files then
      (Snapshot(s.files[Join(c.outFolder, f) := s.files[fullPath]], s.dirs), [])
    else (s, [])
  }

  /** The loop over the listing, entry by entry in listing order. */
  function Run(s: Snapshot, c: Settings, entries: seq<string>): (Snapshot, seq<string>)
    decreases |entries|
  {
    if entries == [] then (s, [])
    else
      var before := Run(s, c, entries[..|entries| - 1]);
      var after := Step(before.0, c, entries[|entries| - 1]);
      (after.0, before.1 + after.1)
  }

  /** How a press of the button ends. */
  datatype Report =
    | NoFolder                                   // the folder field is empty: nothing happens
    | ListingFailed(outFolder: Path, cause: string) // os.listdir raised; start stops there
    | Finished(outFolder: Path, log: seq<string>)   // the lines written to the log box

  /** The disk after `if os.path.exists(TEMP_DIR): shutil.rmtree(TEMP_DIR)`. */
  function Cleanup(s: Snapshot): Snapshot {
    if Exists(s, TempDir) then RemoveTree(s, TempDir) else s
  }

  /** The settings App.start runs the loop with. */
  function StartSettings(home: Path, folder: Path, preset: Preset, skipIfSmall: bool, ext: Externals): Settings {
    Settings(folder, OutputFolder(home, folder), Factor(preset), skipIfSmall, ext)
  }

  /** The disk the loop starts from: the output folder made if it did not exist. */
  function Prepared(s: Snapshot, out: Path): Snapshot {
    if Exists(s, out) then s else Snapshot(s.files, s.dirs + {out})
  }

  /**
   * The effect of App.start on the disk. `listing` is what os.listdir(folder)
   * returns, or the text of the error it raises.
   */
  function StartResult(s: Snapshot, home: Path, folder: Path, listing: Result<seq<string>>, preset: Preset,
                       skipIfSmall: bool, ext: Externals): (r: (Snapshot, Report))
    ensures r.1.NoFolder? <==> folder == []
    ensures r.1.NoFolder? ==> r.0 == s
    ensures r.1.ListingFailed? ==>
      && listing.Err? && r.1.cause == listing.message
      && r.1.outFolder == OutputFolder(home, folder)
      && r.0.files == s.files && (r.0.dirs == s.dirs || r.0.dirs == s.dirs + {r.1.outFolder})
      && Exists(r.0, r.1.outFolder)
  {
    if folder == [] then (s, NoFolder)
    else
      var c := StartSettings(home, folder, preset, skipIfSmall, ext);
      var s1 := Prepared(s, c.outFolder);
      match listing
      case Err(e) => (s1, ListingFailed(c.outFolder, e))
      case Ok(entries) =>
        var ran := Run(s1, c, entries);
        (Cleanup(ran.0), Finished(c.outFolder, ran.1))
  }

  /** Run over one more entry is Run followed by Step for it. */
  lemma RunSnoc(s: Snapshot, c: Settings, entries: seq<string>, i: nat)
    requires i < |entries|
    ensures var before := Run(s, c, entries[..i]);
      var after := Step(before.0, c, entries[i]);
      Run(s, c, entries[..i + 1]) == (after.0, before.1 + after.1)
  {
    assert entries[..i + 1][..i] == entries[..i];
  }

  /** A texture's step is process_image on its path and its output path, logging the line it returns. */
  lemma StepTexture(s: Snapshot, c: Settings, f: string)
    requires IsTexture(f)
    ensures var r := ProcessResult(s, Join(c.folder, f), Join(c.outFolder, f), c.scale, c.skipIfSmall, c.ext);
      Step(s, c, f) == (r.0, [Render(r.1)])
  {
  }

  /** The for loop of App.start. */
  method RunEntries(disk: FileSystem, c: Settings, entries: seq<string>) returns (log: seq<string>)
    modifies disk
    ensures (disk.State(), log) == Run(old(disk.State()), c, entries)
  {
    ghost var s1 := disk.State();
    log := [];
    for i := 0 to |entries|
      invariant disk.State() == Run(s1, c, entries[..i]).0
      invariant log == Run(s1, c, entries[..i]).1
    {
      RunSnoc(s1, c, entries, i);
      ghost var before := disk.State();
      var f := entries[i];
      var fullPath := Join(c.folder, f);
      if IsTexture(f) {
        var res := ProcessImage(disk, fullPath, Join(c.outFolder, f), c.scale, c.skipIfSmall, c.ext);
        StepTexture(before, c, f);
        log := log + [res];
      } else if disk.IsFile(fullPath) {
        disk.Copy2(fullPath, Join(c.outFolder, f));
        assert disk.State() == Step(before, c, f).0;
        assert Step(before, c, f).1 == [];
      } else {
        assert Step(before, c, f) == (before, []);
      }
    }
    assert entries[..|entries|] == entries;
  }

  /** App.start, step by step on the file system. */
  method Start(disk: FileSystem, home: Path, folder: Path, listing: Result<seq<string>>, preset: Preset,
               skipIfSmall: bool, ext: Externals) returns (report: Report)
    modifies disk
    ensures (disk.State(), report) == StartResult(old(disk.State()), home, folder, listing, preset, skipIfSmall, ext)
  {
    ghost var s0 := disk.State();
    if folder == [] {
      return NoFolder;
    }
    var outFolder := OutputFolder(home, folder);
    if !disk.PathExists(outFolder) {
      disk.MakeDirs(outFolder);
    }
    ghost var s1 := disk.State();
    assert s1 == Prepared(s0, outFolder);
    if listing.Err? {
      return ListingFailed(outFolder, listing.message);
    }
    var c := StartSettings(home, folder, preset, skipIfSmall, ext);
    var log := RunEntries(disk, c, listing.value);
    ghost var s2 := disk.State();
    if disk.PathExists(TempDir) {
      disk.RmTree(TempDir);
    }
    assert disk.State() == Cleanup(s2);
    report := Finished(outFolder, log);
    StartUnfold(s0, home, folder, listing.value, preset, skipIfSmall, ext);
  }

  // ---- properties of the batch ----

  /** What os.listdir returns: names of single entries. */
  predicate Names(entries: seq<string>) {
    forall k :: 0 <= k < |entries| ==> IsName(entries[k])
  }

  /** The textures among the entries, in listing order. */
  function Textures(entries: seq<string>): seq<string> {
    if entries == [] then []
    else
      var last := entries[|entries| - 1];
      Textures(entries[..|entries| - 1]) + (if IsTexture(last) then [last] else [])
  }

  /** The output folder is a directory path apart from TEMP_DIR. */
  predicate OutApart(c: Settings) {
    c.outFolder != [] && c.outFolder[|c.outFolder| - 1] != Sep && Apart(c.outFolder, TempDir)
  }

  /** The folders the batch works with: the input folder, the output folder and TEMP_DIR lie apart. */
  predicate WellPlaced(c: Settings) {
    OutApart(c) && c.folder != [] && Apart(c.folder, c.outFolder) && Apart(c.folder, TempDir)
  }

  /** A path inside one of two directories that lie apart is not inside the other, nor the other itself. */
  lemma ApartExcludes(p: Path, a: Path, b: Path)
    requires Under(p, a) && Apart(a, b)
    ensures !Under(p, b) && p != b
  {
    var pa, pb := DirPrefix(a), DirPrefix(b);
    assert forall k :: 0 <= k < |pa| ==> p[k] == pa[k];
    assert p <= DirPrefix(p);
  }

  /** The three paths one entry's step may write: its copy, texconv's output and the staged PNG. */
  function CopyPath(c: Settings, f: string): Path { Join(c.outFolder, f) }
  function DdsPath(c: Settings, f: string): Path { Join(c.outFolder, Stem(f) + ".dds") }
  function PngPath(f: string): Path { Join(TempDir, Stem(f) + ".png") }

  /** Where the three paths lie. */
  lemma StepPathsPlaced(c: Settings, f: string)
    requires IsName(f) && c.outFolder != []
    ensures Under(CopyPath(c, f), c.outFolder) && Under(DdsPath(c, f), c.outFolder)
    ensures Under(PngPath(f), TempDir) && PngPath(f) != TempDir
  {
    StemIsName(f);
    var n := Stem(f);
    assert (n + ".dds")[0] == n[0] && (n + ".png")[0] == n[0];
    JoinUnder(c.outFolder, f);
    JoinUnder(c.outFolder, n + ".dds");
    JoinUnder(TempDir, n + ".png");
  }

  /**
   * One entry's step changes no file but its copy in the output folder,
   * texconv's output next to it and the staged PNG, and creates no
   * directory but TEMP_DIR.
   */
  lemma StepFootprint(s: Snapshot, c: Settings, f: string)
    requires IsName(f)
    requires c.outFolder != [] && c.outFolder[|c.outFolder| - 1] != Sep
    ensures forall p :: p != CopyPath(c, f) && p != DdsPath(c, f) && p != PngPath(f) ==>
      SameAt(s.files, Step(s, c, f).0.files, p)
    ensures Step(s, c, f).0.dirs == s.dirs || Step(s, c, f).0.dirs == s.dirs + {TempDir}
  {
    if IsTexture(f) {
      var fullPath := Join(c.folder, f);
      StepTexture(s, c, f);
      ProcessFootprint(s, fullPath, CopyPath(c, f), c.scale, c.skipIfSmall, c.ext);
      ConvertedName(c.outFolder, c.folder, f);
      BasenameJoin(c.folder, f);
      assert StagedPngPath(fullPath) == PngPath(f);
      forall p | p != CopyPath(c, f) && p != DdsPath(c, f) && p != PngPath(f)
        ensures SameAt(s.files, Step(s, c, f).0.files, p)
      {
        ProcessFrame(s, fullPath, CopyPath(c, f), c.scale, c.skipIfSmall, c.ext, p);
      }
    }
  }

  /** The log reports exactly the given names, one line each, in that order. */
  ghost predicate Reports(log: seq<string>, names: seq<string>) {
    && |log| == |names|
    && forall k :: 0 <= k < |log| ==> Reported(log[k], names[k])
  }

  /**
   * `line` is the line process_image returns for some outcome about `name`.
   * The outcome is not unique: the line of Failed("a", "b: x") is also the
   * line of Failed("a: b", "x"), so one line can be about two names, and
   * "each line is about its texture" holds only in this sense.
   */
  ghost predicate Reported(line: string, name: string) {
    exists o: Outcome :: o.name == name && line == Render(o)
  }

  lemma ReportsAppend(log: seq<string>, names: seq<string>, log': seq<string>, names': seq<string>)
    requires Reports(log, names) && Reports(log', names')
    ensures Reports(log + log', names + names')
  {
    forall k | 0 <= k < |log + log'|
      ensures Reported((log + log')[k], (names + names')[k])
    {
      if k < |log| {
        assert (log + log')[k] == log[k] && (names + names')[k] == names[k];
      } else {
        var j := k - |log|;
        assert (log + log')[k] == log'[j] && (names + names')[k] == names'[j];
      }
    }
  }

  lemma ReportsOne(o: Outcome, f: string)
    requires o.name == f
    ensures Reports([Render(o)], [f])
  {
    assert [Render(o)][0] == Render(o);
  }

  /** One entry's step logs one line about it when it is a texture, and nothing otherwise. */
  lemma StepLog(s: Snapshot, c: Settings, f: string)
    requires IsName(f)
    ensures Reports(Step(s, c, f).1, if IsTexture(f) then [f] else [])
  {
    if IsTexture(f) {
      StepTexture(s, c, f);
      BasenameJoin(c.folder, f);
      var o := ProcessResult(s, Join(c.folder, f), Join(c.outFolder, f), c.scale, c.skipIfSmall, c.ext).1;
      var log := Step(s, c, f).1;
      assert log == [Render(o)];
      ReportsOne(o, f);
    } else {
      assert Step(s, c, f).1 == [];
    }
  }

  /** Every line of the log reports one texture, in listing order, and only textures are reported. */
  lemma {:induction false} RunLog(s: Snapshot, c: Settings, entries: seq<string>)
    requires Names(entries)
    ensures Reports(Run(s, c, entries).1, Textures(entries))
  {
    if entries != [] {
      var init := entries[..|entries| - 1];
      var f := entries[|entries| - 1];
      assert Names(init);
      RunLog(s, c, init);
      var before := Run(s, c, init);
      StepLog(before.0, c, f);
      ReportsAppend(before.1, Textures(init), Step(before.0, c, f).1, if IsTexture(f) then [f] else []);
      assert Run(s, c, entries).1 == before.1 + Step(before.0, c, f).1;
    }
  }

  /** The batch changes no file outside the output folder and TEMP_DIR, and creates no directory but TEMP_DIR. */
  lemma {:induction false} RunFrame(s: Snapshot, c: Settings, entries: seq<string>)
    requires Names(entries)
    requires c.outFolder != [] && c.outFolder[|c.outFolder| - 1] != Sep
    ensures forall p :: !Under(p, c.outFolder) && !Under(p, TempDir) ==> SameAt(s.files, Run(s, c, entries).0.files, p)
    ensures s.dirs <= Run(s, c, entries).0.dirs <= s.dirs + {TempDir}
  {
    if entries != [] {
      var init := entries[..|entries| - 1];
      var f := entries[|entries| - 1];
      assert Names(init);
      RunFrame(s, c, init);
      var before := Run(s, c, init).0;
      var after := Step(before, c, f).0;
      assert Run(s, c, entries).0 == after;
      StepFootprint(before, c, f);
      StepPathsPlaced(c, f);
      forall p | !Under(p, c.outFolder) && !Under(p, TempDir)
        ensures SameAt(s.files, after.files, p)
      {
        assert SameAt(s.files, before.files, p);
        assert SameAt(before.files, after.files, p);
      }
    }
  }

  /** TEMP_DIR is not a file, and while it does not exist no file lies inside it. */
  predicate TempClean(s: Snapshot) {
    TempDir !in s.files && (TempDir !in s.dirs ==> forall p :: p in s.files ==> !Under(p, TempDir))
  }

  /** A step stages a new PNG only once TEMP_DIR exists. */
  lemma StepStagesInTemp(s: Snapshot, c: Settings, f: string)
    requires IsName(f) && OutApart(c)
    ensures PngPath(f) in Step(s, c, f).0.files && PngPath(f) !in s.files ==> Exists(Step(s, c, f).0, TempDir)
  {
    StepPathsPlaced(c, f);
    ApartExcludes(CopyPath(c, f), c.outFolder, TempDir);
    if IsTexture(f) {
      var fullPath := Join(c.folder, f);
      StepTexture(s, c, f);
      ProcessFootprint(s, fullPath, CopyPath(c, f), c.scale, c.skipIfSmall, c.ext);
      BasenameJoin(c.folder, f);
      assert StagedPngPath(fullPath) == PngPath(f);
    }
  }

  /** Each step keeps TEMP_DIR clean. */
  lemma StepKeepsTempClean(s: Snapshot, c: Settings, f: string)
    requires TempClean(s)
    requires IsName(f) && OutApart(c)
    ensures TempClean(Step(s, c, f).0)
  {
    var s' := Step(s, c, f).0;
    StepFootprint(s, c, f);
    StepStagesInTemp(s, c, f);
    StepPathsPlaced(c, f);
    ApartExcludes(CopyPath(c, f), c.outFolder, TempDir);
    ApartExcludes(DdsPath(c, f), c.outFolder, TempDir);
    assert SameAt(s.files, s'.files, TempDir);
    if TempDir !in s'.dirs {
      assert TempDir !in s.dirs;
      assert PngPath(f) !in s'.files;
      forall p | p in s'.files ensures !Under(p, TempDir) {
        if p != CopyPath(c, f) && p != DdsPath(c, f) {
          assert SameAt(s.files, s'.files, p);
        }
      }
    }
  }

  lemma {:induction false} RunKeepsTempClean(s: Snapshot, c: Settings, entries: seq<string>)
    requires TempClean(s)
    requires Names(entries) && OutApart(c)
    ensures TempClean(Run(s, c, entries).0)
  {
    if entries != [] {
      var init := entries[..|entries| - 1];
      assert Names(init);
      RunKeepsTempClean(s, c, init);
      StepKeepsTempClean(Run(s, c, init).0, c, entries[|entries| - 1]);
    }
  }

  /** A regular file that is not a texture is copied into the output folder under its own name. */
  lemma StepCopies(s: Snapshot, c: Settings, f: string)
    requires !IsTexture(f) && Join(c.folder, f) in s.files
    ensures Step(s, c, f).0.files == s.files[CopyPath(c, f) := s.files[Join(c.folder, f)]]
    ensures Step(s, c, f).0.dirs == s.dirs && Step(s, c, f).1 == []
  {
  }

  /** The step of another entry leaves the copy of a non-texture alone. */
  lemma StepKeepsCopy(s: Snapshot, c: Settings, g: string, f: string)
    requires IsName(f) && IsName(g) && WellPlaced(c)
    requires g != f && !IsTexture(f)
    ensures SameAt(s.files, Step(s, c, g).0.files, CopyPath(c, f))
  {
    StepFootprint(s, c, g);
    StepPathsPlaced(c, f);
    StepPathsPlaced(c, g);
    ApartExcludes(CopyPath(c, f), c.outFolder, TempDir);
    assert CopyPath(c, f) != CopyPath(c, g) by {
      if CopyPath(c, f) == CopyPath(c, g) {
        JoinInjective(c.outFolder, f, g);
      }
    }
    assert CopyPath(c, f) != DdsPath(c, g) by {
      DdsSuffixLowered(Stem(g));
      StemIsName(g);
      assert (Stem(g) + ".dds")[0] == Stem(g)[0];
      if CopyPath(c, f) == DdsPath(c, g) {
        JoinInjective(c.outFolder, f, Stem(g) + ".dds");
      }
    }
  }

  /** File `p` is on disk with contents `data`. */
  predicate Holds(s: Snapshot, p: Path, data: Bytes) {
    p in s.files && s.files[p] == data
  }

  /** When the loop reaches a non-texture, its source is still as it was and is copied. */
  lemma CopiedWhenReached(s: Snapshot, c: Settings, init: seq<string>, f: string)
    requires Names(init) && WellPlaced(c) && IsName(f)
    requires !IsTexture(f) && Join(c.folder, f) in s.files
    ensures Holds(Step(Run(s, c, init).0, c, f).0, CopyPath(c, f), s.files[Join(c.folder, f)])
  {
    var source := Join(c.folder, f);
    var before := Run(s, c, init).0;
    RunFrame(s, c, init);
    JoinUnder(c.folder, f);
    ApartExcludes(source, c.folder, c.outFolder);
    ApartExcludes(source, c.folder, TempDir);
    assert SameAt(s.files, before.files, source);
    StepCopies(before, c, f);
  }

  /**
   * A regular file of the folder that is not a texture ends up in the
   * output folder byte for byte: later entries never write over it.
   */
  lemma {:induction false} RunCopies(s: Snapshot, c: Settings, entries: seq<string>, f: string)
    requires Names(entries) && WellPlaced(c)
    requires f in entries && !IsTexture(f) && Join(c.folder, f) in s.files
    ensures Holds(Run(s, c, entries).0, CopyPath(c, f), s.files[Join(c.folder, f)])
  {
    var init := entries[..|entries| - 1];
    var g := entries[|entries| - 1];
    assert Run(s, c, entries).0 == Step(Run(s, c, init).0, c, g).0;
    assert Names(init);
    assert IsName(f);
    if g == f {
      CopiedWhenReached(s, c, init, f);
    } else {
      assert f in init by {
        var k :| 0 <= k < |entries| && entries[k] == f;
        assert k < |entries| - 1;
        assert init[k] == f;
      }
      RunCopies(s, c, init, f);
      StepKeepsCopy(Run(s, c, init).0, c, g, f);
    }
  }

  // ---- App.start as a whole ----

  /** The output folder is a non-empty path that does not end with a separator. */
  lemma OutputFolderShape(home: Path, folder: Path)
    ensures var out := OutputFolder(home, folder);
      out != [] && out[|out| - 1] != Sep
  {
    JoinEnds(Join(home, "Downloads"), Basename(folder) + "_DSCL");
  }

  /** The output folder is "<folder name>_DSCL" inside the Downloads folder of the home directory. */
  lemma OutputFolderPlaced(home: Path, folder: Path)
    ensures var out := OutputFolder(home, folder);
      && out != [] && out[|out| - 1] != Sep
      && Basename(out) == Basename(folder) + "_DSCL"
      && Dirname(out) == Join(home, "Downloads")
  {
    var downloads := Join(home, "Downloads");
    var name := Basename(folder) + "_DSCL";
    OutputFolderShape(home, folder);
    DownloadsShape(home);
    SuffixedName(Basename(folder));
    BasenameJoin(downloads, name);
    DirnameJoin(downloads, name);
  }

  /** The Downloads folder is a non-empty path without a trailing separator. */
  lemma DownloadsShape(home: Path)
    ensures Join(home, "Downloads") != [] && Join(home, "Downloads")[|Join(home, "Downloads")| - 1] != Sep
  {
    JoinEnds(home, "Downloads");
  }

  /** A base name followed by "_DSCL" is a single component. */
  lemma SuffixedName(base: string)
    requires Sep !in base
    ensures IsName(base + "_DSCL")
  {
    var name := base + "_DSCL";
    assert forall k :: 0 <= k < |base| ==> name[k] == base[k];
    assert forall k :: |base| <= k < |name| ==> name[k] == "_DSCL"[k - |base|];
  }

  /** A folder typed with a trailing separator has an empty base name, so the output folder is just "_DSCL". */
  lemma TrailingSeparatorFolder()
    ensures OutputFolder("/home/user", "/skins/t-34/") == "/home/user/Downloads/_DSCL"
  {
    var folder := "/skins/t-34/";
    RFindAt(folder, Sep, |folder|);
    assert Basename(folder) == [];
    UserDownloads();
  }

  /** Without the trailing separator the output folder is named after the last component. */
  lemma NamedFolder()
    ensures OutputFolder("/home/user", "/skins/t-34") == "/home/user/Downloads/t-34_DSCL"
  {
    FolderName();
    UserDownloads();
    assert "t-34" + "_DSCL" == "t-34_DSCL";
  }

  lemma FolderName()
    ensures Basename("/skins/t-34") == "t-34"
  {
    var folder := "/skins/t-34";
    assert forall k :: 7 <= k < |folder| ==> folder[k] != Sep;
    RFindAt(folder, Sep, 7);
  }

  lemma UserDownloads()
    ensures Join("/home/user", "Downloads") == "/home/user/Downloads"
  {
  }

  lemma StartUnfold(s: Snapshot, home: Path, folder: Path, entries: seq<string>, preset: Preset,
                    skipIfSmall: bool, ext: Externals)
    requires folder != []
    ensures var c := StartSettings(home, folder, preset, skipIfSmall, ext);
      var ran := Run(Prepared(s, c.outFolder), c, entries);
      StartResult(s, home, folder, Ok(entries), preset, skipIfSmall, ext)
        == (Cleanup(ran.0), Finished(c.outFolder, ran.1))
  {
  }

  /**
   * Removing TEMP_DIR touches nothing outside it: every other file and
   * directory stays; TEMP_DIR itself goes, and, when it existed, so does
   * everything inside it.
   */
  lemma CleanupFrame(s: Snapshot)
    ensures forall p :: !Under(p, TempDir) ==> SameAt(s.files, Cleanup(s).files, p)
    ensures forall q :: q in s.dirs && q != TempDir && !Under(q, TempDir) ==> q in Cleanup(s).dirs
    ensures Cleanup(s).dirs <= s.dirs - {TempDir}
    ensures Exists(s, TempDir) ==>
      forall p :: (p in Cleanup(s).files || p in Cleanup(s).dirs) ==> !Under(p, TempDir)
  {
  }

  /** The log of a finished run has one line per texture of the listing, in order, each about that texture. */
  lemma StartLog(s: Snapshot, home: Path, folder: Path, entries: seq<string>, preset: Preset,
                 skipIfSmall: bool, ext: Externals)
    requires folder != [] && Names(entries)
    ensures var r := StartResult(s, home, folder, Ok(entries), preset, skipIfSmall, ext).1;
      && r == Finished(OutputFolder(home, folder), r.log)
      && Reports(r.log, Textures(entries))
  {
    var c := StartSettings(home, folder, preset, skipIfSmall, ext);
    StartUnfold(s, home, folder, entries, preset, skipIfSmall, ext);
    RunLog(Prepared(s, c.outFolder), c, entries);
  }

  /** App.start changes no file outside the output folder and TEMP_DIR. */
  lemma StartFrame(s: Snapshot, home: Path, folder: Path, entries: seq<string>, preset: Preset,
                   skipIfSmall: bool, ext: Externals, p: Path)
    requires folder != [] && Names(entries)
    requires !Under(p, OutputFolder(home, folder)) && !Under(p, TempDir)
    ensures SameAt(s.files, StartResult(s, home, folder, Ok(entries), preset, skipIfSmall, ext).0.files, p)
  {
    var c := StartSettings(home, folder, preset, skipIfSmall, ext);
    StartUnfold(s, home, folder, entries, preset, skipIfSmall, ext);
    OutputFolderShape(home, folder);
    RunCleanupFrame(Prepared(s, c.outFolder), c, entries, p);
  }

  /** A loop and the cleanup after it leave a file outside the output folder and TEMP_DIR as it was. */
  lemma RunCleanupFrame(s: Snapshot, c: Settings, entries: seq<string>, p: Path)
    requires Names(entries)
    requires c.outFolder != [] && c.outFolder[|c.outFolder| - 1] != Sep
    requires !Under(p, c.outFolder) && !Under(p, TempDir)
    ensures SameAt(s.files, Cleanup(Run(s, c, entries).0).files, p)
  {
    RunFrame(s, c, entries);
    var s2 := Run(s, c, entries).0;
    CleanupFrame(s2);
    assert SameAt(s.files, s2.files, p);
    assert SameAt(s2.files, Cleanup(s2).files, p);
  }

  /** The only directory App.start may leave behind that was not there before is the output folder. */
  lemma StartDirs(s: Snapshot, home: Path, folder: Path, entries: seq<string>, preset: Preset,
                  skipIfSmall: bool, ext: Externals)
    requires folder != [] && Names(entries)
    ensures StartResult(s, home, folder, Ok(entries), preset, skipIfSmall, ext).0.dirs
      <= s.dirs + {OutputFolder(home, folder)}
  {
    var c := StartSettings(home, folder, preset, skipIfSmall, ext);
    var s1 := Prepared(s, c.outFolder);
    StartUnfold(s, home, folder, entries, preset, skipIfSmall, ext);
    OutputFolderShape(home, folder);
    RunFrame(s1, c, entries);
    var s2 := Run(s1, c, entries).0;
    CleanupFrame(s2);
    assert Cleanup(s2).dirs <= s2.dirs - {TempDir} <= s1.dirs <= s.dirs + {c.outFolder};
  }

  /** A loop and the cleanup after it keep an output folder that lies apart from TEMP_DIR. */
  lemma RunKeepsOutFolder(s: Snapshot, c: Settings, entries: seq<string>)
    requires Names(entries) && OutApart(c) && Exists(s, c.outFolder)
    ensures Exists(Cleanup(Run(s, c, entries).0), c.outFolder)
  {
    var out := c.outFolder;
    RunFrame(s, c, entries);
    var s2 := Run(s, c, entries).0;
    CleanupFrame(s2);
    assert !Under(out, out) && !Under(out, TempDir) && out != TempDir by {
      assert !(DirPrefix(TempDir) <= DirPrefix(out));
    }
    if out in s.dirs {
      assert out in s2.dirs;
    } else {
      assert SameAt(s.files, s2.files, out);
      assert SameAt(s2.files, Cleanup(s2).files, out);
    }
  }

  /** After a finished run the output folder exists. */
  lemma StartKeepsOutFolder(s: Snapshot, home: Path, folder: Path, entries: seq<string>, preset: Preset,
                            skipIfSmall: bool, ext: Externals)
    requires folder != [] && Names(entries)
    requires Apart(OutputFolder(home, folder), TempDir)
    ensures Exists(StartResult(s, home, folder, Ok(entries), preset, skipIfSmall, ext).0, OutputFolder(home, folder))
  {
    var c := StartSettings(home, folder, preset, skipIfSmall, ext);
    StartUnfold(s, home, folder, entries, preset, skipIfSmall, ext);
    OutputFolderShape(home, folder);
    RunKeepsOutFolder(Prepared(s, c.outFolder), c, entries);
  }

  /** After a finished run TEMP_DIR is gone and no file is left inside it. */
  lemma StartCleansTemp(s: Snapshot, home: Path, folder: Path, entries: seq<string>, preset: Preset,
                        skipIfSmall: bool, ext: Externals)
    requires folder != [] && Names(entries) && TempClean(s)
    requires Apart(OutputFolder(home, folder), TempDir)
    ensures var r := StartResult(s, home, folder, Ok(entries), preset, skipIfSmall, ext).0;
      && TempDir !in r.dirs && TempDir !in r.files
      && forall p :: p in r.files ==> !Under(p, TempDir)
  {
    var c := StartSettings(home, folder, preset, skipIfSmall, ext);
    var s1 := Prepared(s, c.outFolder);
    StartUnfold(s, home, folder, entries, preset, skipIfSmall, ext);
    OutputFolderShape(home, folder);
    assert c.outFolder != TempDir by {
      assert !(DirPrefix(c.outFolder) <= DirPrefix(TempDir));
    }
    assert TempClean(s1);
    RunKeepsTempClean(s1, c, entries);
  }

  /** A regular file of the folder that is not a texture is in the output folder afterwards, byte for byte. */
  lemma StartCopies(s: Snapshot, home: Path, folder: Path, entries: seq<string>, preset: Preset,
                    skipIfSmall: bool, ext: Externals, f: string)
    requires folder != [] && Names(entries)
    requires Apart(folder, OutputFolder(home, folder)) && Apart(folder, TempDir)
    requires Apart(OutputFolder(home, folder), TempDir)
    requires f in entries && !IsTexture(f) && Join(folder, f) in s.files
    ensures var r := StartResult(s, home, folder, Ok(entries), preset, skipIfSmall, ext).0;
      Join(OutputFolder(home, folder), f) in r.files
      && r.files[Join(OutputFolder(home, folder), f)] == s.files[Join(folder, f)]
  {
    var c := StartSettings(home, folder, preset, skipIfSmall, ext);
    var s1 := Prepared(s, c.outFolder);
    StartUnfold(s, home, folder, entries, preset, skipIfSmall, ext);
    OutputFolderShape(home, folder);
    assert WellPlaced(c);
    RunCopies(s1, c, entries, f);
    var k :| 0 <= k < |entries| && entries[k] == f;
    StepPathsPlaced(c, f);
    ApartExcludes(CopyPath(c, f), c.outFolder, TempDir);
  }

  /** Which names count as textures: the ".dds" ending in any letter case, and nothing else. */
  lemma TextureNames()
    ensures IsTexture("body.dds") && IsTexture("body.DDS") && IsTexture("tank_c.DdS")
    ensures !IsTexture("body.dds.png") && !IsTexture("readme.txt") && !IsTexture("dds")
  {
  }
}
