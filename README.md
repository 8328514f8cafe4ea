# WT Skin Optimizer, modelled in Dafny

WT Skin Optimizer shrinks (or enlarges) the DDS textures of a War Thunder
skin folder. It does this in two parts.

The button handler `App.start` handles every entry of the chosen folder in
listing order:
- It hands each file whose lower-cased name ends in `.dds` to `process_image`.
- It copies every other regular file unchanged into `~/Downloads/<folder name>_DSCL`.
- Afterwards it removes the temporary directory `temp_textures`.

`process_image` handles one texture:
- It opens the texture.
- It copies the texture unchanged when skipping is on, the scale shrinks and neither side exceeds 4096.
- Otherwise it resizes the texture to `int(w * scale) x int(h * scale)` and stages it as `temp_textures/<name>.png`.
- It then runs `texconv -ft DDS -f DXT5 -dx9 -y -o <output dir> <png>` and deletes the staged PNG.
- It returns one `[SKIP]`, `[OK]` or `[ERR]` line. Every exception becomes an `[ERR]` line.

The project has one module per concern:

- `paths.dfy` (`Paths`): `os.path.basename`, `dirname`, `join` and `splitext` on `/` paths, texconv's output naming, and ASCII `str.lower`.
- `decimal.dfy` (`Decimal`): the decimal text of a number as an f-string prints it, and that it can be read back.
- `scale_policy.dfy` (`ScalePolicy`):
  - the three scale presets, as exact fractions;
  - the skip rule and the truncated target size.
- `disk.dfy` (`Disk`):
  - a `FileSystem` class (a map of files to bytes and a set of directories), changed in place by `os.makedirs`, file writes, `shutil.copy2`, `os.remove` and `shutil.rmtree`;
  - `Snapshot` values that the specification functions work on.
- `pipeline.dfy` (`Pipeline`):
  - `process_image` as a specification function (`ProcessResult`) and as an imperative method (`ProcessImage`) proved equal to it;
  - the staged PNG path, the texconv command line, and the log lines.
- `batch.dfy` (`Batch`):
  - the body of `App.start` as a specification function (`StartResult`, with the loop `Run`);
  - the methods `RunEntries` (the `for` loop) and `Start`, proved equal to it;
  - lemmas about the whole batch: log lines, files written, copies, and the cleanup.

Pillow's decoder, resampler and PNG writer, and the texconv program, are
parameters of the model: the `Externals` datatype. Each either yields its
result or fails with the text of the exception it raises. The directory
listing is also a parameter, as is the home directory.

The target size is truncated (`int(...)`), not rounded, and has no lower
bound of one pixel: `ScalePolicy.ZeroSidesPossible` shows a target side of 0.

## Model

| member | source | states |
|---|---|---|
| Pipeline.TexconvPath | main.py:12 | TEXCONV_PATH: `texconv.exe` joined to the program's directory |
| Pipeline.TexconvPathNamesTexconv | main.py:12 | TEXCONV_PATH names `texconv.exe` whatever the program's directory |
| Pipeline.TempDirIsName | main.py:13 | TEMP_DIR is a single path component |
| Pipeline.StagedPngPath | main.py:17-19 | temp_png_path, built from basename, splitext and join; characterised by StagedPngText and StagedPngLocation |
| Paths.Basename | main.py:17 | os.path.basename: the part after the last `/`, which contains no `/` and ends the path |
| Paths.Lower | main.py:98 | str.lower on ASCII letters: same length, each character lower-cased by LowerChar |
| Paths.Stem | main.py:18 | os.path.splitext(...)[0] of a name: a prefix of the name; characterised by StemSplits |
| Paths.Join | main.py:19 | os.path.join of two parts: an absolute second part replaces the first, an empty first part gives the second, a first part ending in `/` is followed directly by the second, otherwise one `/` separates them; inverted by BasenameJoin and DirnameJoin |
| Paths.Dirname | main.py:38 | os.path.dirname: a prefix of the path ending before its last component, with the trailing separators of that prefix dropped, unless that prefix is made of separators only, which is kept |
| Pipeline.Decoded | main.py:22-23 | Image.open and img.size: the decoded image when the path is a regular file and decodes, else the error |
| Pipeline.StagedPngText | main.py:17-19 | the staged PNG is `temp_textures/` + the base name without its extension + `.png` |
| Pipeline.StagedPngLocation | main.py:17-19 | the staged PNG lies directly in TEMP_DIR and its file name is the texture's name without extension plus `.png` |
| Pipeline.StagedPngName | main.py:17-19 | the staged PNG's file name is one non-empty component |
| Paths.StemSplits | main.py:18 | splitext drops exactly the last extension; a name whose dots are all leading (".hidden") keeps them |
| Paths.StemIsName | main.py:18 | the name without extension of a file name is a non-empty name |
| Paths.StemOfExtended | main.py:18 | splitext of `s + "." + ext` gives back `s`, when `s` has a character other than a dot and `ext` has no dot |
| Pipeline.DdsNameKept | main.py:18 | a name ending in lower-case `.dds`, with a character other than a dot before that dot, is its splitext stem plus `.dds` |
| Paths.BasenameJoin | main.py:17 | basename of a joined directory and a listdir name (one non-empty component) is the name |
| Paths.DirnameJoin | main.py:38 | dirname of a joined directory and name is the directory, for a non-empty directory without a trailing separator |
| Paths.JoinInjective | main.py:97 | different names, neither starting with `/`, joined to one non-empty directory are different paths |
| Pipeline.DecodeFailureReported | main.py:22-23 | a file that cannot be opened or decoded gives `[ERR]` with the error and changes nothing |
| ScalePolicy.Decide | main.py:26 | skip exactly when skipping is on, the scale is below 1 and the larger side is at most 4096; otherwise the targets are the scaled sides |
| ScalePolicy.NoSkipWithoutShrinking | main.py:26 | a scale of 1 or more always resizes |
| ScalePolicy.SkipOnlySmall | main.py:26 | a skipped texture has both sides at most 4096 |
| ScalePolicy.SmallTextureSkipped | main.py:26-28 | 2048x2048 at 0.5 with skipping on is copied |
| Pipeline.ProcessSkips | main.py:26-28 | on the skip path the texture exists and is copied byte for byte to the output path, nothing else changes |
| Pipeline.ProcessOutcome | main.py:21-52 | SKIP exactly when the texture opens and the skip rule holds, with its copy and size; OK carries the original size and the truncated scaled size, texconv's output exists and the staged PNG is gone |
| ScalePolicy.ScaledIsFloor | main.py:31 | the target side is the whole part of `x * scale` |
| ScalePolicy.ShrinkShortens | main.py:31 | a shrinking scale never enlarges a side and strictly shortens every non-empty side |
| ScalePolicy.WholeGrowth | main.py:31 | a whole scale k multiplies the side exactly by k |
| ScalePolicy.PresetSides | main.py:31 | 0.5 halves rounding down, 0.25 quarters rounding down, 2.0 doubles |
| ScalePolicy.Scaled | main.py:31 | int(x * scale) for a non-negative side; characterised by ScaledIsFloor |
| ScalePolicy.ZeroSidesPossible | main.py:31 | there is no minimum of one pixel: 1x1 at 0.5 decides Resize(0, 0) |
| ScalePolicy.LargeTextureHalved | main.py:26-31 | 8192x8192 at 0.5 with skipping on is resized to 4096x4096 |
| Pipeline.ResizeFailureReported | main.py:32 | a failing resize gives `[ERR]` with its error and changes nothing |
| Pipeline.SaveFailureReported | main.py:34-35 | a failing PNG save gives `[ERR]` and leaves every file as it was |
| Pipeline.ConvertResult | main.py:32-50 | the resize path reports the file's name, never SKIP; OK carries the sizes, texconv's output exists and the staged PNG is gone |
| Pipeline.ConvertFootprint | main.py:32-50 | a failure changes at most the staged PNG; otherwise only the staged PNG and texconv's output change; only TEMP_DIR may be created, and it exists once a PNG is staged |
| Pipeline.StagedIsNotOutput | main.py:38-47 | the staged PNG and texconv's output are different files |
| Pipeline.TexconvArgs | main.py:39-47 | the argument list handed to subprocess.run; read back by TexconvCommandLine |
| Pipeline.TexconvOutputPath | main.py:38-47 | the file texconv writes: the -o directory joined with the input's name, its extension replaced by `.dds` |
| Pipeline.TexconvCommandLine | main.py:39-47 | for an input that does not start with `-` (the staged PNG never does), the command line runs TEXCONV_PATH and asks for DDS, DXT5, the DX9 header and overwriting, into the output directory, with the staged PNG as the only input |
| Pipeline.OneInput | main.py:46 | an argument that is not an option is read as an input file |
| Pipeline.StagedPngIsNoOption | main.py:46 | the staged PNG path cannot be mistaken for an option |
| Pipeline.ConvertedName | main.py:38-47 | for an output directory without a trailing separator and a listdir name, texconv writes `<output dir>/<name without extension>.dds` |
| Pipeline.StagedNameStripped | main.py:19 | dropping the staged PNG's extension gives the texture's name without extension |
| Pipeline.UpperCaseExtensionLowered | main.py:38-47 | a texture named `skin.DDS` comes back from texconv as `skin.dds` |
| Pipeline.TexconvFailureReported | main.py:39-47 | a failing texconv run (a non-zero exit among them) gives `[ERR]` and leaves the staged PNG behind |
| Pipeline.TexconvSuccessCleansUp | main.py:47-50 | after texconv succeeds its output is written, the staged PNG is removed and the result is OK with both sizes |
| Pipeline.ProcessResult | main.py:16-52 | every call yields exactly one outcome, about the file's base name |
| Pipeline.ProcessFootprint | main.py:16-52 | a failure changes no file but the staged PNG; TEMP_DIR is the only directory that may be created, and it exists whenever a new PNG is staged |
| Pipeline.ProcessFrame | main.py:16-52 | no file other than the output path, the staged PNG and texconv's output changes |
| Pipeline.ProcessImage | main.py:16-52 | the step-by-step method leaves the disk as ProcessResult says and returns its line |
| Pipeline.Render | main.py:28-52 | the f-strings of the three outcomes; partners are RenderTagged and the ...ReportsSize(s) lemmas |
| Pipeline.RenderTagged | main.py:21-52 | each line starts with exactly one of `[SKIP] `, `[OK] `, `[ERR] `, matching the outcome, then the base name and ": " |
| Pipeline.ConvertedLineReportsSizes | main.py:50 | an `[OK]` line determines the original and the new size it reports |
| Pipeline.ConvertedLineSplits | main.py:50 | an `[OK]` line is the name, the original size, " -> " and the new size |
| Pipeline.SkippedLineReportsSize | main.py:28 | a `[SKIP]` line determines the size it reports |
| Pipeline.SizeTextInjective | main.py:50 | the text `{w}x{h}` determines the size |
| Pipeline.SizeTextThen | main.py:50 | `{w}x{h}` followed by a non-digit determines the size and what follows |
| Decimal.Show | main.py:50 | the decimal text of a number is non-empty, has only digits, and starts with 0 only when it is "0" |
| Decimal.ValueOfShow | main.py:50 | reading the decimal text back gives the number |
| Decimal.ShowInjective | main.py:50 | different numbers print differently |
| Decimal.SplitAtNonDigit | main.py:50 | a digit string ended by a non-digit splits the same way in equal texts |
| ScalePolicy.Factor | main.py:71-73 | the three scale choices are 1/2, 1/4 and 2/1 |
| Batch.OutputFolderPlaced | main.py:93 | the output folder is `<folder name>_DSCL` directly in `~/Downloads` |
| Batch.OutputFolderShape | main.py:93 | the output folder is a non-empty path without a trailing separator |
| Batch.NamedFolder | main.py:93 | `/skins/t-34` gives `/home/user/Downloads/t-34_DSCL` |
| Batch.TrailingSeparatorFolder | main.py:93 | a folder typed with a trailing `/` has an empty base name, so the output folder is just `_DSCL` |
| Batch.OutputFolder | main.py:93 | out_folder; characterised by OutputFolderPlaced |
| Batch.IsTexture | main.py:98 | f.lower().endswith(".dds"); exemplified by TextureNames |
| Batch.TextureNames | main.py:98 | `.dds` in any letter case marks a texture; other endings do not |
| Paths.DdsSuffixLowered | main.py:98 | any name given the `.dds` extension reads as a texture |
| Batch.Step | main.py:97-102 | one pass of the loop body: process_image on a texture, copy2 of another regular file, nothing otherwise |
| Batch.Run | main.py:96-102 | the for loop as a left fold over the listing; RunEntries is proved equal to it |
| Batch.StepTexture | main.py:97-100 | a texture's step is process_image on its path and output path, logging the line it returns |
| Batch.StepCopies | main.py:101-102 | a regular file that is not a texture is copied under its own name, and nothing is logged |
| Batch.StepFootprint | main.py:96-102 | for a listdir name and an output folder without a trailing separator (as OutputFolder always is), one entry changes no file but its copy, texconv's output and the staged PNG; only TEMP_DIR may be created |
| Batch.StepLog | main.py:96-102 | for a listdir name, a texture adds one line about itself; any other entry adds none |
| Batch.StepStagesInTemp | main.py:96-102 | given that the output folder lies apart from TEMP_DIR (OutApart), a step stages a new PNG only once TEMP_DIR exists |
| Batch.StepKeepsTempClean | main.py:96-102 | given OutApart and a clean start (TempClean: TEMP_DIR is no file and nothing lies inside it while it is missing), a step never leaves a file inside a missing TEMP_DIR |
| Batch.StepKeepsCopy | main.py:96-102 | given that the chosen folder, the output folder and TEMP_DIR lie apart (WellPlaced), another entry's step leaves the copy of a non-texture alone |
| Batch.CopiedWhenReached | main.py:101-102 | given WellPlaced, when the loop reaches a non-texture, its source is unchanged and is copied |
| Batch.RunEntries | main.py:96-102 | the for loop leaves the disk and the log as Run says |
| Batch.RunLog | main.py:96-102 | for a listing of names, the log has one line per texture, in listing order, each the line of an outcome about that texture |
| Batch.RunFrame | main.py:96-102 | for a listing of names and an output folder without a trailing separator, the loop changes no file outside the output folder and TEMP_DIR, and creates no directory but TEMP_DIR |
| Batch.RunKeepsTempClean | main.py:96-102 | given OutApart and a clean start (TempClean), the loop never leaves a file inside a missing TEMP_DIR |
| Batch.RunCopies | main.py:96-102 | given WellPlaced, every regular non-texture file of the folder ends up in the output folder byte for byte |
| Batch.Prepared | main.py:94 | the disk the loop starts from: out_folder added to the directories unless something already exists there |
| Batch.Cleanup | main.py:104 | `if os.path.exists(TEMP_DIR): shutil.rmtree(TEMP_DIR)` |
| Batch.CleanupFrame | main.py:104 | removing TEMP_DIR keeps every file and directory outside it, removes TEMP_DIR, and, when it existed, everything inside it |
| Batch.StartResult | main.py:89-104 | an empty folder field does nothing; a failing listing stops after the output folder is made; otherwise the loop runs and TEMP_DIR is removed |
| Batch.Start | main.py:89-104 | the step-by-step method leaves the disk and the report as StartResult says |
| Batch.StartLog | main.py:89-104 | when a folder is chosen and the listing succeeds, the run logs one line per texture of the listing, in order |
| Batch.StartFrame | main.py:89-104 | when a folder is chosen and the listing succeeds, App.start changes no file outside the output folder and TEMP_DIR |
| Batch.StartDirs | main.py:89-104 | when a folder is chosen and the listing succeeds, the only directory App.start may add is the output folder (the intermediate directories makedirs creates are not modelled) |
| Batch.RunKeepsOutFolder | main.py:96-104 | given OutApart, the loop and the cleanup keep an output folder that exists |
| Batch.RunCleanupFrame | main.py:96-104 | for a listing of names and an output folder without a trailing separator, the loop and the cleanup leave every file outside the output folder and TEMP_DIR as it was |
| Batch.StartKeepsOutFolder | main.py:94-104 | given that the output folder lies apart from TEMP_DIR, the output folder exists after a finished run |
| Batch.StartCleansTemp | main.py:89-104 | given OutApart and a clean start, after a finished run TEMP_DIR is gone and no file is left inside it |
| Batch.StartCopies | main.py:89-104 | given WellPlaced, after a finished run every regular non-texture file is in the output folder byte for byte |
| Disk.RemoveTree | main.py:104 | rmtree removes the directory and exactly the files and directories inside it; everything else stays with its contents |
| Disk.FileSystem.Copy2 | main.py:102 | the destination gets the source's bytes |
| Disk.FileSystem.MakeDirs | main.py:94 | the directory exists afterwards; files are unchanged |
| Disk.FileSystem.Write | main.py:35 | resized.save (and texconv writing its output): the file gets the new bytes, nothing else changes |
| Disk.FileSystem.Remove | main.py:49 | the file is gone; everything else is unchanged |
| Disk.FileSystem.RmTree | main.py:104 | the disk afterwards is RemoveTree of the disk before |

## Left out

- The GUI is not modelled: the window, the folder dialog, the radio buttons, the check box, the log text box (including the "\n" appended to each line) and the final message box. The scale arrives as one of the three `Preset`s, and the skip option as a boolean.
- How base_path is found (`sys._MEIPASS` or the script's directory) is not modelled; `Externals.basePath` carries the result.
- Pillow (open, size, LANCZOS resize, PNG save) and the texconv run are oracles in `Externals`. The model does not say what pixels or bytes they produce.
- That texconv writes its output as `<-o dir>/<input name without extension>.dds` is texconv's documented behaviour, assumed in `TexconvOutputPath`. It is not something main.py states.
- The unused constant DDS_FORMAT is not modelled.
- Float arithmetic is not modelled. The scale is an exact fraction, which agrees with `int(w * scale)` for the three presets. Other floats are out of scope.
- Only POSIX paths with `/` separators are modelled. Windows separators and drive letters are left out.
- `str.lower` is modelled on ASCII letters only.
- `os.listdir` is a parameter: a list of names, or the text of its error. An error leaves start after the output folder is made and before the loop, as the uncaught exception does.
- `os.path.expanduser("~")` is a parameter, `home`.
- File system details are not modelled:
  - makedirs does not create intermediate directories;
  - copy2 does not fail on a missing parent directory or a directory in the way;
  - a destination equal to its source (SameFileError) is not modelled;
  - the file metadata copy2 preserves is not modelled;
  - rmtree of a TEMP_DIR that is a regular file is not modelled.

  A copy2 on the skip path, or in the loop, always succeeds in the model.
- Paths are compared as text. They are not resolved against the working directory, and not normalised (no `..`, `.` or repeated `/`), and names are case-sensitive. TEMP_DIR is the relative path `temp_textures` (main.py:13), while the chosen folder and the output folder are usually absolute. So the hypotheses `Apart(folder, TempDir)` and `Apart(OutputFolder(...), TempDir)` of the batch lemmas are only textual. If the working directory is `/w` and the chosen folder is `/w/temp_textures`, the staged PNGs land in the chosen folder and the final rmtree removes it. StartCopies, StartFrame and StartCleansTemp do not describe that case.
- Pipeline.ConvertResult: `os.makedirs(TEMP_DIR)` (main.py:34) always succeeds in the model. A failure, for example in a read-only working directory, would give an `[ERR]` line.
- Pipeline.ConvertResult: `os.remove` of the staged PNG (main.py:49) always succeeds in the model. A failure would give an `[ERR]` line after texconv's output was written.
- Pipeline.ConvertResult: when TEMP_DIR exists as a regular file, `resized.save` (main.py:35) raises and the texture gets `[ERR]`. The model writes `temp_textures/<stem>.png` anyway and can report `[OK]`.
- Batch.StartResult: `os.makedirs(out_folder)` (main.py:94) always succeeds in the model. A failure would abort start before the loop.
- Pillow rejects a target side of 0 (a 1-pixel side at 0.5, see ZeroSidesPossible). In the model that is simply what the `resize` oracle returns, so the texture ends as `[ERR]` only if the oracle fails.
- `isfile` is modelled as "is a key of the file map". Directories, links and special files are not modelled.
- Exception texts are opaque strings given by the oracles. `Externals.openError` stands for the error Pillow raises on a path that is not a regular file.
- Pipeline.ProcessResult: its own contract states only that the outcome is about the file's base name. The full characterisation is in the lemmas ProcessOutcome, ProcessFootprint and ProcessFrame.
- Batch.StartCopies: it assumes that the chosen folder, the output folder and TEMP_DIR lie apart, none inside another. Without that, copies and staged files can overwrite the sources, and the source does not guard against it.
- Batch.StepStagesInTemp: it assumes OutApart, that the output folder lies apart from TEMP_DIR.
- Batch.StepKeepsTempClean: it assumes OutApart and a clean start (TempClean).
- Batch.RunKeepsTempClean: it assumes OutApart and a clean start (TempClean).
- Batch.StepKeepsCopy: it assumes WellPlaced, that the chosen folder, the output folder and TEMP_DIR lie apart.
- Batch.CopiedWhenReached: it assumes WellPlaced.
- Batch.RunCopies: it assumes WellPlaced.
- Batch.StartCleansTemp: it assumes that the output folder lies apart from TEMP_DIR. It also assumes the disk starts "clean": TEMP_DIR is not a file, and no file sits inside it while it is missing.
