# data_process_util, modelled in Dafny

data_process_util is a set of command-line Python scripts for preparing computer-vision datasets. This project models the bookkeeping logic of those scripts: which files they select, which names they compute, which label lines they write and which counters they report. It then proves what each script promises about that logic.

The scripts fall into these families. Each Dafny module is named after its script.

- **YOLO tiling and its cleanup.**
  - `SplitImagesYolo` cuts an image into four overlapping quadrants and an optional centre tile. It re-projects every YOLO box into each tile's frame and writes a tile only under the require-full-box policy.
  - `CleanupSplitYolo` recognises the derived tiles by their nine suffixes. It then deletes or moves either the tiles or their originals.
  - `YoloFormat` holds the label-line format the two share.
- **YOLO label filters and editors:**
  - `FilterYoloByBboxSize`: pixel-size filter;
  - `DeleteYoloByCondition`: `count` conditions and keep-suffix;
  - `ChangeYoloId`: class-id rewrite;
  - `ExtractYoloFromeId`: class extraction;
  - `DeleteYoloFilesByName`: delete by labelled name;
  - `GenerateEmptyYoloLabels`: empty labels for unlabelled images;
  - `CheckImageLabelConsistency`: stem-set comparison.
- **Dataset splitters and samplers:** `CopyYoloDataByRatio`, `SplitYoloData`, `SplitYoloDataset`, `SplitClassifyData`, `SplitFilesByCount`, `MoveSubfoldersByRatio`, `SplitImagesToFolders`.
- **Annotation-list builders** for MMAction2 and Kinetics-400: `CreateMmaction2AnnfileRawFrameDataset`, `CreateMmaciton2Annfile`, `GenerateK400Csv`.
- **Video and frame tools:**
  - `BatchVideoCreationFromProjects`, `GenerateVideoFromImages`: frame lists and chunking;
  - `ExtractVideoFrames`, `GetJpgFromeVideos`, `GetJpgFromeVideos2`: frame sampling, timestamps and output names;
  - `RenameFilenames`: sequential frame renaming.
- **Image geometry:**
  - `ResizeImagesRecursive`: letterbox resize in place;
  - `GenerateClassifyImages`: padded, clamped object crops;
  - `GenerateIrstd1k`: centred crops.
- **COCO annotation repair:** `ReplaceSlashInFilename` replaces `/` in every image `file_name`.
- **Shared modules:**
  - `Common` models the Python built-ins the scripts rely on: `str.split()`, `int()` and `float()` parsing, `str.zfill`, `os.path.splitext`, `pathlib` suffixes, and truncation and rounding of floats.
  - `Sorting` models `sorted()` on strings and a stable sort by an integer key.
  - `DirTree` models a directory tree and the `os.walk` order over it.

How the model represents the environment:

- **Filesystem.** The filesystem is a value: a set of existing paths, a directory listing or a `DirTree`, passed in.
- **State.** Scripts that work step by step are methods whose loops carry invariants. Each one is proved against a function that says what the whole run produces: files written, deleted or moved, and counters.
- **Randomness.** `random.shuffle` and `random.sample` are parameters: an arbitrary permutation, or distinct positions.
- **Arithmetic.** Floats are `real`. Python's `int()` on a float truncates toward zero. `//` and `%` by a positive divisor agree with Dafny's. `get_jpg_frome_videos2.py` also takes `%` by a negative frame interval; Python's remainder then differs from Dafny's, but whether it is zero does not, which is all the script tests (`GetJpgFromeVideos2` proves this).

## Model

| member | source | states |
|---|---|---|
| YoloFormat.ParseLabelLine | split_images_yolo.py:298-302 | a line with fewer than five whitespace tokens is short; a parsed line's class is int() of token 0 and its box is float() of tokens 1 to 4 |
| YoloFormat.Round6Close | split_images_yolo.py:341 | writing with six decimals moves a coordinate by at most half a millionth |
| YoloFormat.Fixed6RoundTrip | split_images_yolo.py:341 | the six-decimal text of a coordinate is one token and float() reads it back as the coordinate rounded to six decimals |
| YoloFormat.ParseFloatPlain | split_images_yolo.py:301 | float() of digits with an optional dot and a leading minus is the decimal value, negated by the minus |
| YoloFormat.FixedLineRoundTrip | split_images_yolo.py:294-341 | a label line the tiler writes reads back as the same class and the box rounded to six decimals |
| SplitImagesYolo.CalculateSplitRegions | split_images_yolo.py:133-186 | four quadrant tiles named top_left, top_right, bottom_left, bottom_right in that order, and a fifth named center exactly when the centre tile is asked for |
| SplitImagesYolo.SplitPointsBounds | split_images_yolo.py:147-158 | with a ratio in [0, 0.5] the split points satisfy 0 <= left <= size div 2 <= right <= size, and right - left is the overlap rounded down to an even number of pixels |
| SplitImagesYolo.OverlapHalf | split_images_yolo.py:147-149 | truncating an overlap between zero and half the size gives at most half the size |
| SplitImagesYolo.CenterSpanUnclamped | split_images_yolo.py:167-184 | with a ratio in [0, 0.5] the centre tile starts sub div 2 before the middle, is sub long and needs no clamping |
| SplitImagesYolo.RegionsInsideImage | split_images_yolo.py:159-184 | every tile lies inside the image |
| SplitImagesYolo.QuadrantsCoverImage | split_images_yolo.py:159-164 | every pixel of the image lies in at least one of the four quadrants |
| SplitImagesYolo.QuadrantOverlap | split_images_yolo.py:147-164 | adjacent quadrants share exactly 2 * (overlap div 2) columns and rows |
| SplitImagesYolo.CenterTileMatchesCorner | split_images_yolo.py:167-184 | the centre tile has the size of the top-left tile and its middle is within one pixel of the image's middle |
| SplitImagesYolo.Clamp01 | split_images_yolo.py:255-260 | the clamp lands in [0, 1] and leaves values already there unchanged |
| SplitImagesYolo.Normalise | split_images_yolo.py:240-260 | a non-empty clipped box normalised to a tile lies in the unit square with positive width and height |
| SplitImagesYolo.ConvertBboxMeaning | split_images_yolo.py:221-262 | a box is rejected exactly when its clipped part is empty or keeps less than a tenth of its area (a zero-area box counts as ratio 0); an accepted box lies in the unit square and is full exactly when its area ratio is at least 1 |
| SplitImagesYolo.RatioOneIffUnclipped | split_images_yolo.py:231-262 | among boxes overlapping the tile, the area ratio reaches 1 exactly when clipping removed nothing |
| SplitImagesYolo.ClippedRatioOne | split_images_yolo.py:221-234 | a non-empty clipped part has all of the box's area exactly when nothing was cut |
| SplitImagesYolo.AreaFull | split_images_yolo.py:231-234 | a non-empty sub-rectangle has all of a rectangle's area exactly when it is the whole rectangle |
| SplitImagesYolo.FullIffUnclipped | split_images_yolo.py:262 | a kept box is flagged full exactly when clipping to the tile removed nothing |
| SplitImagesYolo.NormaliseInside | split_images_yolo.py:240-260 | a rectangle inside the tile normalises without clamping, to its offset from the tile's corner over the tile's size |
| SplitImagesYolo.InsideRatioOne | split_images_yolo.py:221-234 | a box inside the tile is not clipped and keeps area ratio 1 |
| SplitImagesYolo.InsideMapsExactly | split_images_yolo.py:240-262 | a box wholly inside the tile is kept, full, and becomes its pixel box shifted by the tile's corner and divided by the tile's size |
| SplitImagesYolo.OutsideRejected | split_images_yolo.py:221-229 | a box entirely outside the tile is dropped |
| SplitImagesYolo.ParseLinesFailsIff | split_images_yolo.py:294-302 | reading a label file fails exactly when some line of five or more tokens has a class or coordinate that does not convert |
| SplitImagesYolo.ParseLinesStaysFailed | split_images_yolo.py:296-302 | once a line has raised, the lines after it cannot undo the failure |
| SplitImagesYolo.ParseLinesFromLines | split_images_yolo.py:296-302 | each annotation read comes from a line of at least five tokens, and every such line gives one |
| SplitImagesYolo.ReadAnnotations | split_images_yolo.py:292-302 | the line-by-line read loop yields the parse of the label file, or no annotations when the file is missing |
| SplitImagesYolo.AnyFullIff | split_images_yolo.py:322-330 | a region has a full box exactly when some annotation's re-projection is accepted and full |
| SplitImagesYolo.ReprojectAllNormalised | split_images_yolo.py:322-330 | a tile's labels are at most the image's annotations, each in the unit square with positive size |
| SplitImagesYolo.EveryRegionTiled | split_images_yolo.py:308-345 | without the full-box requirement every region yields a tile, in region order |
| SplitImagesYolo.RequiredTilesHoldFullBox | split_images_yolo.py:332-334 | with the full-box requirement every written tile holds a full box |
| SplitImagesYolo.FullRegions | split_images_yolo.py:332-334 | the regions kept under the full-box requirement are exactly the given regions that hold a full box |
| SplitImagesYolo.RequiredTilesExactlyFullRegions | split_images_yolo.py:308-345 | with the full-box requirement there is exactly one tile per region holding a full box, in region order, so no such region is skipped |
| SplitImagesYolo.LabelFileReadsBack | split_images_yolo.py:338-342 | the label file written for a tile reads back as its annotations rounded to six decimals |
| SplitImagesYolo.YoloImageSplitter.constructor | split_images_yolo.py:20-62 | a splitter starts with the given settings and both counters at zero |
| SplitImagesYolo.YoloImageSplitter.ValidateInputs | split_images_yolo.py:64-91 | accepted settings have all three input directories present, the ratio in [0, 0.5], and an existing output or export directory only with overwrite |
| SplitImagesYolo.YoloImageSplitter.ReprojectRegion | split_images_yolo.py:322-330 | the annotation loop for one region yields the accepted boxes in input order and whether any is full |
| SplitImagesYolo.YoloImageSplitter.WriteTiles | split_images_yolo.py:308-345 | the region loop writes the tiles of the specification and adds their label count to the annotation counter |
| SplitImagesYolo.YoloImageSplitter.RegionTile | split_images_yolo.py:308-345 | one region adds its tile and label count, unless full boxes are required and it has none |
| SplitImagesYolo.YoloImageSplitter.SplitImageAndLabels | split_images_yolo.py:264-359 | an unreadable image or a label file that raises writes nothing and leaves the counters; otherwise the tiles of the specification are written and both counters grow by the tiles and labels written |
| SplitImagesYolo.ValidatedRegionsCoverImage | split_images_yolo.py:64-91 | validated settings give tiles inside the image that together cover every pixel |
| CleanupSplitYolo.SuffixShape | cleanup_split_yolo.py:18-28 | each of the nine split suffixes starts with an underscore and is told apart by its last two characters and, for the long ones, by its length and fourth character |
| CleanupSplitYolo.SuffixPair | cleanup_split_yolo.py:18-28 | no split suffix ends with a different one |
| CleanupSplitYolo.SuffixesUnique | cleanup_split_yolo.py:18-28 | no split suffix is a suffix of another |
| CleanupSplitYolo.AtMostOneSuffix | cleanup_split_yolo.py:81-84 | a stem ends with at most one split suffix, so the order the suffix set is searched in does not matter |
| CleanupSplitYolo.SuffixIndex | cleanup_split_yolo.py:81-84 | the index found is the first suffix from the start index on that the stem ends with, or the count of suffixes when there is none |
| CleanupSplitYolo.OriginalStemAnySuffix | cleanup_split_yolo.py:141-148 | whichever matching suffix is removed, the original stem is the same, and appending the suffix gives the tile's stem back |
| CleanupSplitYolo.RegionSuffix | cleanup_split_yolo.py:18-28 | each region name of the tiler, with an underscore before it, is one of the split suffixes |
| CleanupSplitYolo.TileNamesRecognised | cleanup_split_yolo.py:66-86 | a tile named `{stem}_{region}{ext}` with a supported extension is recognised as a tile and its original stem is `stem` |
| CleanupSplitYolo.MatchesSplitSuffix | cleanup_split_yolo.py:81-84 | the suffix search for one stem finds a suffix exactly when the stem ends with one of the nine |
| CleanupSplitYolo.IdentifySplitImages | cleanup_split_yolo.py:66-86 | the scan of images/ yields exactly the supported images whose stem ends with a split suffix |
| CleanupSplitYolo.TileFilesContents | cleanup_split_yolo.py:100-111 | with keep_original the list holds exactly the tiles that exist in images/ and the existing labels named after them |
| CleanupSplitYolo.FirstImageWithStem | cleanup_split_yolo.py:152-157 | the image found is a supported listed image with that stem, and none is found exactly when no supported image has that stem |
| CleanupSplitYolo.OriginalImagesContents | cleanup_split_yolo.py:141-157 | each original image is a supported image whose stem is one searched for, every searched stem with a supported image contributes one, and there are at most as many as stems |
| CleanupSplitYolo.OriginalImagesOnePerStem | cleanup_split_yolo.py:151-157 | with the stems listed once each, no two original images share a stem |
| CleanupSplitYolo.ExistingLabelsContents | cleanup_split_yolo.py:159-163 | the labels found are exactly the existing `{stem}.txt` files of the original images |
| CleanupSplitYolo.FindOriginalFiles | cleanup_split_yolo.py:120-165 | the method yields the original images of the specification, in stem order, and exactly their existing labels |
| CleanupSplitYolo.FindImageWithStem | cleanup_split_yolo.py:154-157 | the scan yields the first supported image in listing order with the stem |
| CleanupSplitYolo.FindExistingLabels | cleanup_split_yolo.py:159-163 | the label loop yields the existing labels of the original images, in order |
| CleanupSplitYolo.TilesWithoutOriginalContributeNothing | cleanup_split_yolo.py:141-163 | without keep_original, a stem that has no supported image puts no image on the list |
| CleanupSplitYolo.CleanupEffects | cleanup_split_yolo.py:233-276 | an empty list or a dry run touches nothing; otherwise every listed file, in order, is removed or moved |
| CleanupSplitYolo.TileMovesKeepDirectory | cleanup_split_yolo.py:252-259 | moving the tiles and their labels sends each image to the backup's images/ and each label to its labels/ |
| CleanupSplitYolo.OriginalMovesKeepDirectory | cleanup_split_yolo.py:252-259 | moving the originals and their labels sends each image to the backup's images/ and each label to its labels/ |
| CleanupSplitYolo.BackupDir | cleanup_split_yolo.py:42 | a backup directory is kept exactly when it is given and not empty |
| CleanupSplitYolo.MainSettings | cleanup_split_yolo.py:354-360 | the flags are refused exactly when --delete comes with a non-empty --backup; otherwise the run is a dry run exactly when neither --delete nor --move is given, and the backup and keep-original settings are passed through |
| CleanupSplitYolo.NoFlagNoEffect | cleanup_split_yolo.py:359 | without --delete or --move the run is a dry run and no file is touched |
| CleanupSplitYolo.DeleteOnlyRemoves | cleanup_split_yolo.py:354-360 | an accepted --delete never moves: every effect is a removal |
| CleanupSplitYolo.MoveWithoutBackupRemoves | cleanup_split_yolo.py:242-276 | --move without --backup, or with an empty one, is not a dry run and has no backup to move to, so it removes every listed file |
| CleanupSplitYolo.EmptyBackupDeletes | cleanup_split_yolo.py:354-360 | `--delete -b ""` is accepted, since the empty name is false, and removes every listed file |
| CleanupSplitYolo.SplitYoloCleaner.constructor | cleanup_split_yolo.py:30-48 | a cleaner starts with the given dry-run and keep-original settings, an empty list of files, and a backup directory exactly when a non-empty one is given |
| CleanupSplitYolo.SplitYoloCleaner.Preview | cleanup_split_yolo.py:167-200 | without tiles the list is left as it was; otherwise it becomes the tiles and their labels (keep_original) or the originals and their labels |
| CleanupSplitYolo.SplitYoloCleaner.Cleanup | cleanup_split_yolo.py:217-286 | after the preview, the effects are those of the list under the dry-run and backup settings |
| FilterYoloByBboxSize.LoadYoloAnnotation | filter_yolo_by_bbox_size.py:48-79 | the read loop yields the annotations of the lines that parse, and none for a missing label file |
| FilterYoloByBboxSize.LoadStep | filter_yolo_by_bbox_size.py:66-77 | reading one more line appends its annotation when it has five tokens that convert, and nothing otherwise |
| FilterYoloByBboxSize.LoadLinesContents | filter_yolo_by_bbox_size.py:66-77 | the annotations loaded are exactly those of the lines that parse, at most one per line; a bad line costs only itself |
| FilterYoloByBboxSize.LoadAgreesWithTiler | filter_yolo_by_bbox_size.py:66-77 | where the tiler's strict reading succeeds, this lenient reading gives the same annotations |
| FilterYoloByBboxSize.SaveLines | filter_yolo_by_bbox_size.py:82-94 | one line is written per annotation |
| FilterYoloByBboxSize.SaveLineRoundTrip | filter_yolo_by_bbox_size.py:94 | a saved line, with coordinates shown as text float() reads back exactly, parses to the same annotation |
| FilterYoloByBboxSize.SaveLoadRoundTrip | filter_yolo_by_bbox_size.py:48-94 | saving then loading gives back the annotations |
| FilterYoloByBboxSize.FilterAnnotations | filter_yolo_by_bbox_size.py:97-135 | the loop yields the kept annotations and the removed indices of the specification |
| FilterYoloByBboxSize.RemovedMeaning | filter_yolo_by_bbox_size.py:124-133 | the removed indices are exactly those whose pixel size is outside the bounds, in ascending order |
| FilterYoloByBboxSize.FilterPartitions | filter_yolo_by_bbox_size.py:124-135 | every kept box is an input box within the bounds, and kept plus removed account for every input |
| FilterYoloByBboxSize.Decide | filter_yolo_by_bbox_size.py:250-300 | an image without label or readable image is skipped; otherwise image and label are deleted exactly when all of a non-empty list was removed, the label is rewritten exactly when some but not all were removed, and it is unchanged exactly when nothing was removed |
| FilterYoloByBboxSize.KeptAllIsIdentity | filter_yolo_by_bbox_size.py:124-135 | the kept list is never longer than the input, and is the input exactly when nothing was removed |
| FilterYoloByBboxSize.CountsConserved | filter_yolo_by_bbox_size.py:250-300 | every loaded annotation is counted once, as deleted or as kept, and deleted plus kept images are at most the images examined |
| FilterYoloByBboxSize.ProcessYoloDataset | filter_yolo_by_bbox_size.py:199-316 | the counters are those of the specification with the total set to the number of images, and a dry run changes no file |
| FilterYoloByBboxSize.ProcessStep | filter_yolo_by_bbox_size.py:250-300 | one more image adds its counts and its file changes |
| FilterYoloByBboxSize.ProcessImage | filter_yolo_by_bbox_size.py:250-300 | the loop body for one image counts it and, outside a dry run, makes its change |
| FilterYoloByBboxSize.GlobbedNames | filter_yolo_by_bbox_size.py:230-234 | exactly the listed names matched by one of the extension globs, in either case |
| Common.Dedup | filter_yolo_by_bbox_size.py:236 | `set()` of a list: every element of the list once, and nothing else |
| FilterYoloByBboxSize.ImageListing | filter_yolo_by_bbox_size.py:230-236 | the globbed names, without duplicates, in code-point order |
| FilterYoloByBboxSize.ValidBoundsKeepSomething | filter_yolo_by_bbox_size.py:371-377 | bounds that pass the command-line checks keep at least a box of exactly the minimum size |
| FilterYoloByBboxSize.InvertedBoundsKeepNothing | filter_yolo_by_bbox_size.py:375-377 | with a minimum above its maximum no box is kept, which is why such bounds are refused |
| DeleteYoloByCondition.NonBlankCount | delete_yolo_by_condition.py:57-72 | the count of a label file is at most its number of lines |
| DeleteYoloByCondition.NonBlankCountMeaning | delete_yolo_by_condition.py:70-72 | the count is zero exactly when every line is blank once stripped, and equals the number of lines exactly when none is |
| DeleteYoloByCondition.FindCorrespondingImage | delete_yolo_by_condition.py:80-99 | the image found is the label's stem with the first extension, in the fixed order, for which an image exists, and none when no extension gives one |
| DeleteYoloByCondition.FirstOp | delete_yolo_by_condition.py:230-232 | the operator chosen is the first of the search order whose text occurs in the condition, and none is chosen exactly when none occurs |
| DeleteYoloByCondition.ParseCondition | delete_yolo_by_condition.py:220-251 | a condition that parses starts with `count` once stripped and its operator occurs in the stripped rest |
| DeleteYoloByCondition.ParseComparison | delete_yolo_by_condition.py:229-251 | a comparison that parses contains its operator's text |
| DeleteYoloByCondition.EarlierOpsAbsent | delete_yolo_by_condition.py:229-232 | in `OP value` no operator searched before OP occurs, so a one-character operator is never mistaken for part of a two-character one |
| DeleteYoloByCondition.FindsFormattedOp | delete_yolo_by_condition.py:230-234 | in `OP value` the operator search stops at OP and the text after it is the value |
| DeleteYoloByCondition.ParseFormatRoundTrip | delete_yolo_by_condition.py:220-251 | parsing the spelling `count` OP value gives back the operator and the value |
| DeleteYoloByCondition.ComparisonRoundTrip | delete_yolo_by_condition.py:229-249 | parsing `OP value` gives back the operator and the value |
| DeleteYoloByCondition.ParseConditions | delete_yolo_by_condition.py:254 | when every condition parses, the conditions are their parses in order; otherwise some condition does not parse, and the script stops |
| DeleteYoloByCondition.DeleteStep | delete_yolo_by_condition.py:140-173 | one more listed label adds itself to the selection when selected, and then its image and its effects |
| DeleteYoloByCondition.DeleteFiles | delete_yolo_by_condition.py:102-175 | the method refuses a missing labels/ or images/ directory and otherwise selects, counts and removes or backs up as the specification does |
| DeleteYoloByCondition.VisitEntry | delete_yolo_by_condition.py:141-173 | one label is selected exactly by the combined condition, and a real run touches it and its image only when selected |
| DeleteYoloByCondition.DeleteCounts | delete_yolo_by_condition.py:140-175 | every deleted image belongs to a deleted label, every deleted label was listed, and a dry run reports the same counts as a real one while touching nothing |
| DeleteYoloByCondition.SelectionRule | delete_yolo_by_condition.py:257-265 | a label is deleted exactly when it is a `*.txt` entry meeting every condition and its stem does not end with the keep suffix; with no conditions and no keep suffix every label goes |
| DeleteYoloByCondition.EffectsTouchSelected | delete_yolo_by_condition.py:155-170 | a real run touches only selected labels and existing paired images, and moves exactly when there is a backup directory |
| ChangeYoloId.RewriteLines | change_yolo_id.py:22-40 | the rewrite keeps the number of lines |
| ChangeYoloId.ProcessLabelFile | change_yolo_id.py:14-49 | the file is rewritten exactly when it was read and some line's first token is the old id, and then with the rewritten lines; an unreadable file reports False |
| ChangeYoloId.StepLine | change_yolo_id.py:22-40 | one more line appends its rewrite, and the file matches when the prefix or that line does |
| ChangeYoloId.OtherLinesKept | change_yolo_id.py:22-40 | the line count is kept, and every line that does not start with the old id, blank lines included, is kept byte for byte |
| ChangeYoloId.RewrittenTokens | change_yolo_id.py:33-36 | a rewritten line reads back as the new id followed by the line's remaining tokens |
| ChangeYoloId.IdTextInjective | change_yolo_id.py:33 | different ids never have the same text |
| ChangeYoloId.SecondRunChangesNothing | change_yolo_id.py:14-49 | with distinct ids, after a run no line starts with the old id, so a second run rewrites nothing |
| ChangeYoloId.ModifiedCount | change_yolo_id.py:66-72 | at most every file is modified |
| ChangeYoloId.WalkStep | change_yolo_id.py:66-72 | one more walked name adds one to the scanned count when it is a `.txt` file, and one to the modified count and its rewritten lines to the files written when that file holds the old id |
| ChangeYoloId.RewrittenMeaning | change_yolo_id.py:14-72 | there is one rewritten file per modified file, each a walked file that was read and holds the old id, with its lines rewritten; with distinct ids none of them still holds the old id |
| ChangeYoloId.ChangeIds | change_yolo_id.py:66-72 | every walked `.txt` file counts as scanned, exactly those holding the old id count as modified, and the files written are exactly those, in walk order, each with its lines rewritten |
| ExtractYoloFromeId.PairOf | extract_yolo_frome_id.py:29-55 | a recorded pair names the label file and an existing image |
| ExtractYoloFromeId.ContainsClass | extract_yolo_frome_id.py:37-55 | the scan of one label file finds the class exactly when some line's first token is the class id |
| ExtractYoloFromeId.FilterFiles | extract_yolo_frome_id.py:24-56 | the loop yields the pairs of the specification, in listing order |
| ExtractYoloFromeId.MatchedPairsContents | extract_yolo_frome_id.py:24-56 | a label is extracted exactly when it is a listed `.txt` file with a line of the class whose image exists, and it comes with the first such image in extension order; there are at most as many pairs as entries |
| ExtractYoloFromeId.OnePairPerLabel | extract_yolo_frome_id.py:29-56 | with distinct names in the listing, no label file appears in two pairs |
| ExtractYoloFromeId.PairFromListing | extract_yolo_frome_id.py:29-56 | every pair names the label file of some listed entry |
| ExtractYoloFromeId.CopyFiles | extract_yolo_frome_id.py:59-77 | every pair is copied under its own names and both counters end at the number of pairs |
| DeleteYoloFilesByName.GetLabeledFilenames | delete_yolo_files_by_name.py:17-44 | the names collected are the stems of the `.txt` files of the walk, and none when labels/ is missing |
| DeleteYoloFilesByName.DirLabelStems | delete_yolo_files_by_name.py:37-42 | the loop over one directory yields the stems of its `.txt` files |
| DeleteYoloFilesByName.DirStemsHas | delete_yolo_files_by_name.py:37-42 | a stem is collected from a directory exactly when one of its files is that stem plus `.txt` |
| DeleteYoloFilesByName.WalkStemsHas | delete_yolo_files_by_name.py:36-42 | a stem is collected exactly when some walked directory holds that stem's `.txt` file |
| DeleteYoloFilesByName.WalkStemsMeaning | delete_yolo_files_by_name.py:36-44 | the collected names are the set of splitext stems of the walked `.txt` files |
| DeleteYoloFilesByName.FindInTreeMeaning | delete_yolo_files_by_name.py:79-93 | a hit is a file of some walked directory that is that directory's first match in extension order, and there is no hit exactly when no directory matches |
| DeleteYoloFilesByName.ImagesFound | delete_yolo_files_by_name.py:75-96 | at most one image is found per name |
| DeleteYoloFilesByName.LabelsFound | delete_yolo_files_by_name.py:98-115 | at most one label is found per name |
| DeleteYoloFilesByName.DeleteStep | delete_yolo_files_by_name.py:75-115 | one more name appends its image and label hits to the removals and adds them to the counts |
| DeleteYoloFilesByName.SearchTree | delete_yolo_files_by_name.py:79-93 | the walk for one name stops at the first directory and extension that hit |
| DeleteYoloFilesByName.FindBoth | delete_yolo_files_by_name.py:75-115 | the image and the label search for one name give the specification's hits |
| DeleteYoloFilesByName.DeleteFilesFromYolo | delete_yolo_files_by_name.py:47-117 | each name counts exactly one of deleted and not found for its image and for its label, the deleted counts are the hits, and a dry run removes nothing |
| DeleteYoloFilesByName.DeleteName | delete_yolo_files_by_name.py:75-115 | the loop body keeps the counts and the removals in step with the names visited |
| DeleteYoloFilesByName.RemovalsFound | delete_yolo_files_by_name.py:75-115 | every removed file is one the search found for a name, at most two per name |
| GenerateEmptyYoloLabels.NormaliseExt | generate_empty_yolo_labels.py:90 | a normalised extension starts with a dot and is lower case |
| GenerateEmptyYoloLabels.NormaliseExts | generate_empty_yolo_labels.py:90 | the extension set holds the normalised form of every argument and nothing else |
| GenerateEmptyYoloLabels.FindImages | generate_empty_yolo_labels.py:58-66 | the images are exactly the listed files whose lower-cased suffix is one of the extensions |
| GenerateEmptyYoloLabels.LabelPath | generate_empty_yolo_labels.py:99-113 | a label path is the labels root, then the image's sub-directories, then the image's stem with `.txt` |
| GenerateEmptyYoloLabels.LabelPathMirrorsImage | generate_empty_yolo_labels.py:99-113 | the label of an image in a sub-directory lands in the matching sub-directory of the labels root, named after the image's stem |
| GenerateEmptyYoloLabels.LabelPaths | generate_empty_yolo_labels.py:99-113 | there is one label path per image |
| GenerateEmptyYoloLabels.RealRunCountsEveryImage | generate_empty_yolo_labels.py:115-144 | outside a dry run every image is counted exactly once, as created, overwritten or skipped |
| GenerateEmptyYoloLabels.DryRunTally | generate_empty_yolo_labels.py:115-144 | a dry run creates and overwrites nothing and writes no file; only existing labels without --overwrite are counted, as skipped |
| GenerateEmptyYoloLabels.ExistingKeptWithoutOverwrite | generate_empty_yolo_labels.py:122-135 | without --overwrite an existing label is never rewritten |
| GenerateEmptyYoloLabels.GenerateLabels | generate_empty_yolo_labels.py:69-154 | a missing images directory exits with status 2 and an empty listing with status 0, both before any change; otherwise the tally and the files written are those of the specification |
| GenerateEmptyYoloLabels.GenerateFor | generate_empty_yolo_labels.py:93-144 | the same outcome, given the image listing |
| GenerateEmptyYoloLabels.ApplyLabels | generate_empty_yolo_labels.py:115-144 | the second loop yields the tally and the files written of the specification, checking each label against the files present when it is reached |
| CheckImageLabelConsistency.DirMatchesContents | check_image_label_consistency.py:7-9 | a path is collected from one directory exactly when one of its files matches the extension case-insensitively |
| CheckImageLabelConsistency.CollectedContents | check_image_label_consistency.py:4-10 | a path is collected exactly when the walk lists a file with the extension |
| CheckImageLabelConsistency.ListFilesWithExt | check_image_label_consistency.py:4-10 | the walk loop yields the collected paths sorted |
| CheckImageLabelConsistency.ListingMeaning | check_image_label_consistency.py:4-10 | the listing is sorted and holds exactly the walked files whose lower-cased name ends with the extension, so `A.JPG` counts as `.jpg` |
| CheckImageLabelConsistency.ListTextRoundTrip | check_image_label_consistency.py:17-22 | reading a list file back line by line gives the paths written, when no path holds a newline |
| CheckImageLabelConsistency.WriteList | check_image_label_consistency.py:17-22 | a list file holds one path per line, in listing order |
| CheckImageLabelConsistency.StemsOfListing | check_image_label_consistency.py:24-27 | a stem is compared exactly when some walked file with the extension has that base-name stem, whatever sub-directory it sits in |
| CheckImageLabelConsistency.Dedup | check_image_label_consistency.py:24-27 | dropping repeats of a sorted list gives a strictly sorted list with the same members |
| CheckImageLabelConsistency.StemList | check_image_label_consistency.py:24-27 | the stem list holds exactly the stems of the paths |
| CheckImageLabelConsistency.Missing | check_image_label_consistency.py:29-30 | exactly the names not among the others, in order |
| CheckImageLabelConsistency.OnlyIn | check_image_label_consistency.py:29-38 | the stems of one listing missing from the other, strictly sorted |
| CheckImageLabelConsistency.NameLines | check_image_label_consistency.py:34-39 | one printed line per name, the name followed by the extension |
| CheckImageLabelConsistency.EmptyDifferences | check_image_label_consistency.py:29-41 | both differences are empty exactly when the two stem sets are equal |
| CheckImageLabelConsistency.ReportMeaning | check_image_label_consistency.py:29-41 | the two differences share no stem, and the one-to-one message is printed exactly when the stem sets are equal, and is then all that is printed |
| CheckImageLabelConsistency.Check | check_image_label_consistency.py:13-41 | both list files hold the sorted listings and the output is the report of the specification |
| CheckImageLabelConsistency.PrintReport | check_image_label_consistency.py:32-41 | the printing part yields the report of the two differences |
| CheckImageLabelConsistency.PrintNames | check_image_label_consistency.py:34-39 | the printing loop yields one line per name |
| CopyYoloDataByRatio.ImageCount | copy_yolo_data_by_ratio.py:50-53 | at most every file of a directory is an image |
| CopyYoloDataByRatio.DirPairsShape | copy_yolo_data_by_ratio.py:50-67 | one directory gives one well-formed pair per image file, each in that directory |
| CopyYoloDataByRatio.PairsShape | copy_yolo_data_by_ratio.py:49-67 | discovery yields exactly one well-formed pair per image file of the walk, its label present exactly when the mirrored `.txt` exists |
| CopyYoloDataByRatio.FindImageLabelPairs | copy_yolo_data_by_ratio.py:27-69 | the walk loop yields the pairs of the specification, and none when images/ is missing |
| CopyYoloDataByRatio.ScanDir | copy_yolo_data_by_ratio.py:50-67 | the loop over one directory yields its pairs in listing order |
| CopyYoloDataByRatio.LabeledCount | copy_yolo_data_by_ratio.py:213 | at most every pair is labelled |
| CopyYoloDataByRatio.StatsBalance | copy_yolo_data_by_ratio.py:99-125 | every copied image is copied with its label or counted as unlabelled, the labels copied are the labelled pairs, copy_only_labeled skips the unlabelled pairs, and otherwise every image is copied |
| CopyYoloDataByRatio.CopyYoloPairs | copy_yolo_data_by_ratio.py:72-125 | the loop yields the statistics and the copies of the specification |
| CopyYoloDataByRatio.CopyCountBounds | copy_yolo_data_by_ratio.py:228-235 | with valid arguments the copy count is at most the number of pairs, min(count, n) for a count, all pairs for ratio 1, and zero only when there are no pairs or the ratio is below 1/n |
| CopyYoloDataByRatio.RatioCount | copy_yolo_data_by_ratio.py:228-229 | for a ratio, the count int(n * ratio) lies in [0, n], is zero exactly when n * ratio < 1, and is n for ratio 1 |
| CopyYoloDataByRatio.SelectMeaning | copy_yolo_data_by_ratio.py:240-244 | the sample has the count's number of pairs, each from the pool: the first ones with --no_shuffle, the drawn distinct positions otherwise |
| CopyYoloDataByRatio.CopyByRatio | copy_yolo_data_by_ratio.py:128-258 | each outcome happens exactly when its condition holds: a missing source, a bad ratio, a bad count and a refused confirmation end the run in that order, then no image, then a count that rounds to 0; otherwise the run copies the selected sample, a positive count within the pool |
| SplitYoloData.MatchedContents | split_yolo_data.py:24-47 | a pair is matched exactly when it comes from a listed regular file with an allowed lower-cased extension whose label file exists, and carries the file's base name |
| SplitYoloData.GetMatchedFiles | split_yolo_data.py:24-47 | the listing loop yields the matched pairs in listing order |
| SplitYoloData.SplitFiles | split_yolo_data.py:50-54 | train and val together are the shuffled list, a permutation of the input; train has int(n * ratio) items, and val is non-empty when the input is |
| SplitYoloData.CopiesShape | split_yolo_data.py:64-82 | every pair is copied twice: the image into {mode}/images and the label `{base}.txt` into {mode}/labels |
| SplitYoloData.CopyDatasetFiles | split_yolo_data.py:64-82 | the loop yields the copies of the specification |
| SplitYoloData.SplitYolo | split_yolo_data.py:16-129 | each outcome happens exactly when its condition holds: an invalid ratio is refused first, then a missing directory, then an empty match, all before any output; otherwise train and val are copied as split, with ratio 0.9 by default |
| SplitYoloDataset.GlobStem | split_yolo_dataset.py:28-29 | the glob also matches hidden names; the stem of a globbed name is the name without `.jpg`, except that the stem of `.jpg` itself is `.jpg` |
| SplitYoloDataset.StemOfGlobbed | split_yolo_dataset.py:28-29 | a globbed name has stem s exactly when it is `{s}.jpg` with s not empty, or s and the name are both `.jpg` |
| SplitYoloDataset.CandidatesCount | split_yolo_dataset.py:28-37 | there are at most as many candidates as globbed names; a stem s occurs once for each `{s}.jpg` listed (s not empty), once more for each `.jpg` when s is `.jpg`, and never without `labels/{s}.txt` |
| SplitYoloDataset.CandidatesContents | split_yolo_dataset.py:28-37 | a stem is a candidate exactly when `{stem}.txt` is a label file and either `{stem}.jpg` is a globbed name or stem and name are both `.jpg` |
| SplitYoloDataset.CandidatesDistinct | split_yolo_dataset.py:28-37 | with distinct names in images/, the candidates repeat exactly when `.jpg` and `.jpg.jpg` are both listed and `labels/.jpg.txt` exists |
| SplitYoloDataset.HiddenTwinRepeats | split_yolo_dataset.py:28-37 | the names `.jpg` and `.jpg.jpg` with the label `.jpg.txt` give the candidate `.jpg` twice |
| SplitYoloDataset.CopiesShape | split_yolo_dataset.py:48-57 | every selected stem is copied twice, its `.jpg` into images/ and its `.txt` into labels/ |
| SplitYoloDataset.CopyPairs | split_yolo_dataset.py:48-57 | the copy loop copies every selected pair when all the images `{s}.jpg` exist; otherwise it copies the pairs before the first missing image and then raises |
| SplitYoloDataset.SplitYoloDatasetRun | split_yolo_dataset.py:7-59 | the target directories are always created; no amount raises, a negative sample size raises; otherwise min(size, n) candidates are sampled at the drawn positions, and they are all copied unless one has no `{s}.jpg`, when the copies stop at the first such stem and the copy raises |
| SplitYoloDataset.SampleDistinct | split_yolo_dataset.py:45 | every sampled stem is a candidate with a label; with distinct names in images/ and no hidden twin the sample is distinct, and only the stem `.jpg` taken from the name `.jpg` can lack `{s}.jpg` |
| SplitClassifyData.ValidateArguments | split_classify_data.py:8-13 | the arguments pass exactly when the root is a directory and the ratio lies strictly between 0 and 1 |
| SplitClassifyData.Categories | split_classify_data.py:16-19 | the categories are exactly the listed entries that are directories |
| SplitClassifyData.ImageFiles | split_classify_data.py:26-27 | the files split are exactly the names whose lower-cased extension is an image extension |
| SplitClassifyData.SplitCategoryFiles | split_classify_data.py:22-34 | train and val together are the shuffled image files, a permutation of them, and train has int(n * ratio) of them |
| SplitClassifyData.DirsFor | split_classify_data.py:37-42 | one directory `{split}/{category}` per category, in category order |
| SplitClassifyData.CreateDirectoryStructure | split_classify_data.py:37-42 | the directories made are train/ for every category, then val/ for every category |
| SplitClassifyData.CopiesFor | split_classify_data.py:45-50 | one copy per file, into the split's category directory |
| SplitClassifyData.Shuffled | split_classify_data.py:30-31 | the shuffled list of a category is a permutation of its image files |
| SplitClassifyData.CutCopies | split_classify_data.py:88-97 | cutting a list in two and copying the parts copies every file of the list to one of the splits, and nothing else |
| SplitClassifyData.CategoryCopiesMeaning | split_classify_data.py:86-97 | each category copies each of its image files, as often as listed, into its own directory of one split, and nothing else |
| SplitClassifyData.SplitClassify | split_classify_data.py:53-110 | the run fails exactly when the arguments are invalid or there is no category, with that error; a finished run makes train/ and val/ for every category, copies each category's shuffled image files cut at int(n * ratio), one category after another, and counts int(n * ratio) per category as train and all image files in total |
| SplitFilesByCount.DirNamesContents | split_files_by_count.py:29-33 | a name is collected exactly when it is listed as a directory |
| SplitFilesByCount.SubfoldersMeaning | split_files_by_count.py:15-35 | the sub-folders are exactly the immediate directories, sorted, whatever order the folder was listed in |
| SplitFilesByCount.GetAllSubfolders | split_files_by_count.py:15-35 | the loop yields the sorted sub-folders |
| SplitFilesByCount.CopiesTo | split_files_by_count.py:99-114 | one copy per sub-folder, into the given part |
| SplitFilesByCount.SplitFiles | split_files_by_count.py:38-123 | each outcome happens exactly when its condition holds: a missing source, no sub-folders and a count outside [0, total] each end the run before any copy, in that order; otherwise the first part is the first count shuffled sub-folders and the second part the rest, each copied to its folder |
| SplitFilesByCount.PartsPartition | split_files_by_count.py:82-87 | the parts have count and total - count sub-folders, share none, and together hold every sub-folder exactly once |
| SplitFilesByCount.NoDuplicateSubfolders | split_files_by_count.py:29-35 | a folder lists each name once, so no sub-folder is listed twice |
| SplitFilesByCount.DefaultOutput | split_files_by_count.py:157-158 | the default output path has as many components as the source, or one for `.` |
| SplitFilesByCount.DefaultOutputBeside | split_files_by_count.py:157-158 | the default output folder sits beside the source, is named after it with `_split`, and is never the source itself |
| MoveSubfoldersByRatio.NamesContents | move_subfolders_by_ratio.py:17-23 | a name is collected exactly when it is a listed directory, not hidden unless hidden ones are included |
| MoveSubfoldersByRatio.SubdirectoriesMeaning | move_subfolders_by_ratio.py:8-25 | the sub-directories are sorted and are exactly the listed directories, hidden ones only when asked for |
| MoveSubfoldersByRatio.ListSubdirectories | move_subfolders_by_ratio.py:8-25 | the listing loop yields the sorted sub-directories |
| MoveSubfoldersByRatio.MoveCountBounds | move_subfolders_by_ratio.py:65-67 | at least one and at most all of the sub-folders are moved |
| MoveSubfoldersByRatio.SuffixedInjective | move_subfolders_by_ratio.py:92-97 | different indices give different `{base}_{i}` names |
| MoveSubfoldersByRatio.SuffixedCount | move_subfolders_by_ratio.py:92-97 | the names base_1 to base_n are n different names |
| MoveSubfoldersByRatio.TakenBound | move_subfolders_by_ratio.py:92-97 | when base_1 to base_n all exist there are at least n entries, so the renaming loop ends |
| MoveSubfoldersByRatio.FreeFrom | move_subfolders_by_ratio.py:92-97 | the name found does not exist, and is the first free base_i from the start index on |
| MoveSubfoldersByRatio.FreeName | move_subfolders_by_ratio.py:90-98 | the conflict rename does not exist and is base_i for the smallest i >= 1 that is free |
| MoveSubfoldersByRatio.RenameOnConflict | move_subfolders_by_ratio.py:92-97 | the renaming loop yields the smallest free base_i |
| MoveSubfoldersByRatio.MovedCount | move_subfolders_by_ratio.py:85-108 | at most every step moves a folder |
| MoveSubfoldersByRatio.StepsMeaning | move_subfolders_by_ratio.py:85-108 | one step per selected folder, in order; a move never lands on an existing entry or on an earlier move's target; with renaming off a clash is skipped; the moved count never exceeds the number selected |
| MoveSubfoldersByRatio.MoveSelected | move_subfolders_by_ratio.py:85-108 | the move loop yields the steps of the specification and counts the moves |
| MoveSubfoldersByRatio.MoveOne | move_subfolders_by_ratio.py:85-108 | one pass of the move loop keeps the steps and the count in step with the folders visited |
| MoveSubfoldersByRatio.StepsFrom | move_subfolders_by_ratio.py:85-108 | the steps from a position on are that folder's step, then the steps of those after it |
| MoveSubfoldersByRatio.NextStep | move_subfolders_by_ratio.py:86-108 | the loop body for one folder gives that folder's step |
| MoveSubfoldersByRatio.MoveSubfolders | move_subfolders_by_ratio.py:39-110 | each outcome happens exactly when its condition holds: a missing source is refused, no sub-folders moves nothing, a dry run plans k = max(1, round(total * ratio)) drawn folders, and any other run moves them as the steps say, counting at most k |
| SplitImagesToFolders.ImageFiles | split_images_to_folders.py:7-21 | the images are exactly the names matched by an extension glob, sorted |
| SplitImagesToFolders.Sizes | split_images_to_folders.py:55-71 | one size per folder, that folder's share |
| SplitImagesToFolders.SizesBalanced | split_images_to_folders.py:55-71 | sizes never grow from one folder to the next and differ by at most one: the first n mod k folders hold one extra file |
| SplitImagesToFolders.PartStartClosed | split_images_to_folders.py:65-75 | folder i starts at i * (n div k) + min(i, n mod k) |
| SplitImagesToFolders.SizesSum | split_images_to_folders.py:65-75 | the folders together hold all n files |
| SplitImagesToFolders.PartStartMonotone | split_images_to_folders.py:65-75 | the folders' start positions never decrease |
| SplitImagesToFolders.PartOfPosition | split_images_to_folders.py:65-75 | every file position lies in exactly one folder's range |
| SplitImagesToFolders.Deal | split_images_to_folders.py:65-90 | the split loop moves every file, in order, into the folder whose range holds its position |
| SplitImagesToFolders.SplitImagesRun | split_images_to_folders.py:24-145 | each outcome happens exactly when its condition holds: a non-positive count is refused first; a dry run lists the sizes; then a missing input, then no images end the run; otherwise num_splits folders are made and the files dealt out in sorted order |
| CreateMmaction2AnnfileRawFrameDataset.CountFramesMeaning | create_mmaction2_annfile_RawFrameDataset.py:5-28 | a path that is not a directory has no frames; the count is at most the number of entries and is positive exactly when the directory holds a file with a frame extension |
| CreateMmaction2AnnfileRawFrameDataset.Level2LinesMeaning | create_mmaction2_annfile_RawFrameDataset.py:110-133 | every level-2 line names the class, the item and a listed sub-directory with frames, and every such sub-directory gives a line |
| CreateMmaction2AnnfileRawFrameDataset.ItemLinesShape | create_mmaction2_annfile_RawFrameDataset.py:91-108 | a level-1 directory with frames gives exactly its own line, and every line names the class and the item first |
| CreateMmaction2AnnfileRawFrameDataset.ItemLinesMeaning | create_mmaction2_annfile_RawFrameDataset.py:108-133 | a level-1 directory without frames gives one line per level-2 sub-directory with frames, and no other |
| CreateMmaction2AnnfileRawFrameDataset.Level2Exact | create_mmaction2_annfile_RawFrameDataset.py:120-131 | the line of a level-2 directory carries that directory's frame count |
| CreateMmaction2AnnfileRawFrameDataset.ItemBlockMeaning | create_mmaction2_annfile_RawFrameDataset.py:91-133 | the lines of one level-1 directory belong to its class and name that item |
| CreateMmaction2AnnfileRawFrameDataset.ClassLinesMeaning | create_mmaction2_annfile_RawFrameDataset.py:86-133 | the lines of a class directory belong to its class and name one of its listed items |
| CreateMmaction2AnnfileRawFrameDataset.ClassBlockMeaning | create_mmaction2_annfile_RawFrameDataset.py:75-133 | a class block holds lines of its class only |
| CreateMmaction2AnnfileRawFrameDataset.AnnotationsMeaning | create_mmaction2_annfile_RawFrameDataset.py:66-133 | every line has frames, names its class first and carries that class's position as label; labels never decrease down the file |
| CreateMmaction2AnnfileRawFrameDataset.LineReadsBack | create_mmaction2_annfile_RawFrameDataset.py:100-103 | when the directory names hold no whitespace, a line splits back into the frame directory, its frame count and its label |
| CreateMmaction2AnnfileRawFrameDataset.Level2Annotations | create_mmaction2_annfile_RawFrameDataset.py:110-133 | the level-2 loop yields the level-2 lines of the sorted sub-directories |
| CreateMmaction2AnnfileRawFrameDataset.Level2Loop | create_mmaction2_annfile_RawFrameDataset.py:120-133 | the loop over the sorted level-2 names yields their lines |
| CreateMmaction2AnnfileRawFrameDataset.Level2Item | create_mmaction2_annfile_RawFrameDataset.py:121-133 | one level-2 directory gives its line when it has frames |
| CreateMmaction2AnnfileRawFrameDataset.ItemAnnotations | create_mmaction2_annfile_RawFrameDataset.py:91-133 | one level-1 directory gives its own line when it has frames, otherwise those of its level-2 directories |
| CreateMmaction2AnnfileRawFrameDataset.ClassAnnotations | create_mmaction2_annfile_RawFrameDataset.py:86-133 | the level-1 loop for one class yields the lines of its sorted sub-directories |
| CreateMmaction2AnnfileRawFrameDataset.ClassLoop | create_mmaction2_annfile_RawFrameDataset.py:91-133 | the loop over the sorted level-1 names yields their lines |
| CreateMmaction2AnnfileRawFrameDataset.WriteAnnotations | create_mmaction2_annfile_RawFrameDataset.py:144-145 | the file holds each line followed by a newline |
| CreateMmaction2AnnfileRawFrameDataset.AnnotateClasses | create_mmaction2_annfile_RawFrameDataset.py:75-133 | the class loop yields the lines of the specification, and class i gets label i |
| CreateMmaction2AnnfileRawFrameDataset.AnnotateClass | create_mmaction2_annfile_RawFrameDataset.py:81-133 | one class directory gives its block |
| CreateMmaction2AnnfileRawFrameDataset.GenerateRawframesAnnotation | create_mmaction2_annfile_RawFrameDataset.py:31-152 | a missing root, no class directory and no line each end the run without a file; otherwise the file under the root holds one line per annotation, and class i of the sorted classes has label i |
| CreateMmaciton2Annfile.DirNamesContents | create_mmaciton2_annfile.py:20-21 | a name is collected exactly when it is listed as a directory |
| CreateMmaciton2Annfile.DirNamesOnce | create_mmaciton2_annfile.py:20-22 | with unique listed names, no class directory is collected twice |
| CreateMmaciton2Annfile.ClassVideosContents | create_mmaciton2_annfile.py:28-30 | a sample comes from a class directory exactly when a listed name ends with a video extension case-insensitively, recorded as `{class}/{fname}` with the class's label |
| CreateMmaciton2Annfile.VideoListContents | create_mmaciton2_annfile.py:19-32 | a sample is exactly a video file name of some class directory, recorded as `{class}/{fname}` with that class's position as label |
| CreateMmaciton2Annfile.CollectClass | create_mmaciton2_annfile.py:28-30 | the loop over one class directory yields its samples in listing order |
| CreateMmaciton2Annfile.GetAllVideoFiles | create_mmaciton2_annfile.py:19-32 | the video list is that of the specification and label_map sends class i of the sorted class directories to i |
| CreateMmaciton2Annfile.AddClass | create_mmaciton2_annfile.py:25-30 | one turn of the class loop appends the class's videos and gives it the next label |
| CreateMmaciton2Annfile.PrefixLength | create_mmaciton2_annfile.py:38-39 | the slice `[:k]` keeps k items for k within the list, all of them for a larger k, and counts from the end for a negative k |
| CreateMmaciton2Annfile.SplitDataset | create_mmaciton2_annfile.py:35-40 | train and val together are the shuffled list, a permutation of the input; train keeps int(n * ratio) items as a slice does, which is within the list for a ratio in [0, 1] |
| CreateMmaciton2Annfile.TrainSize | create_mmaciton2_annfile.py:37 | int(n * ratio) lies in [0, n] for a ratio in [0, 1] and is not positive for a negative ratio |
| CreateMmaciton2Annfile.SampleLineReadsBack | create_mmaciton2_annfile.py:43-46 | a list line splits back into the path and the label when the path has no whitespace |
| CreateMmaciton2Annfile.WriteListFile | create_mmaciton2_annfile.py:43-46 | the list file holds `{rel_path} {label}` per sample |
| CreateMmaciton2Annfile.WriteLabelMap | create_mmaciton2_annfile.py:53-55 | the label map file holds `{label} {class}` for each class in sorted order |
| CreateMmaciton2Annfile.CreateAnnfiles | create_mmaciton2_annfile.py:49-63 | the label map, the train list and the val list are written, named after the root, and the two lists split the shuffled videos as split_dataset does |
| GenerateK400Csv.ClassSamplesContents | generate_k400_csv.py:41-48 | a sample comes from a class exactly when a globbed path below it ends with a video extension case-insensitively, paired with the class index |
| GenerateK400Csv.VideoPathsContents | generate_k400_csv.py:35-48 | a sample is exactly a globbed video path below some class directory, paired with that class's index in the sorted class list |
| GenerateK400Csv.CollectClass | generate_k400_csv.py:43-48 | the glob-and-filter loop for one class yields its samples |
| GenerateK400Csv.ClassToIdx | generate_k400_csv.py:37 | the map sends class i of distinct classes to i and holds no other key |
| GenerateK400Csv.CollectVideos | generate_k400_csv.py:35-48 | the class loop yields the samples of the specification and class_to_idx sends class i to i |
| GenerateK400Csv.ClassLoop | generate_k400_csv.py:41-48 | the loop over the sorted classes globs each under its index |
| GenerateK400Csv.UndoubleDouble | generate_k400_csv.py:58-60 | undoubling the doubled quotes of a field gives the field back |
| GenerateK400Csv.FieldRoundTrip | generate_k400_csv.py:58-60 | a written field reads back as itself, quoted or not |
| GenerateK400Csv.RowReadsBack | generate_k400_csv.py:58-67 | a row whose path has no whitespace and no quote splits back into the path and the label |
| GenerateK400Csv.WriteCsv | generate_k400_csv.py:58-67 | the file holds one space-delimited row per sample |
| GenerateK400Csv.GenerateKineticsStyleCsv | generate_k400_csv.py:22-71 | train and val together are the shuffled samples, train keeping int(n * ratio) of them as a slice does, written to train.csv and val.csv in the output directory, which defaults to the root |
| BatchVideoCreationFromProjects.NumericDirs | batch_video_creation_from_projects.py:6-14 | the names kept are exactly the all-digit sub-directory names, ordered by their integer value; a path that is not a directory gives none |
| BatchVideoCreationFromProjects.FoundFramesContents | batch_video_creation_from_projects.py:21-27 | a frame is collected exactly when a listed name ends with `.jpg` in any case and its stem is all digits, paired with the stem's value and the joined path |
| BatchVideoCreationFromProjects.SortedFrames | batch_video_creation_from_projects.py:17-28 | the frames after the sort are ordered by frame number and are exactly the frames of the listing; a folder that is not a directory has none |
| BatchVideoCreationFromProjects.NumericImagesOrdered | batch_video_creation_from_projects.py:28-29 | the returned paths are those of the sorted frames, in non-decreasing frame-number order |
| BatchVideoCreationFromProjects.NumericImagesComplete | batch_video_creation_from_projects.py:22-29 | every frame name of the folder has its joined path returned |
| BatchVideoCreationFromProjects.CollectFrames | batch_video_creation_from_projects.py:21-27 | the listing loop collects the frames of the specification |
| BatchVideoCreationFromProjects.GetSortedNumericImages | batch_video_creation_from_projects.py:17-29 | the method returns the frame paths of the folder in frame-number order |
| BatchVideoCreationFromProjects.SortedFramesFound | batch_video_creation_from_projects.py:28 | for a directory the sorted frames are the stable sort of the collected frames by frame number |
| BatchVideoCreationFromProjects.PathsOf | batch_video_creation_from_projects.py:29 | the path-keeping loop keeps each frame's path, in order |
| BatchVideoCreationFromProjects.FramesOfContents | batch_video_creation_from_projects.py:99-111 | a path is collected for a project exactly when it is a frame of one of its numeric sequence folders |
| BatchVideoCreationFromProjects.JobsMeaning | batch_video_creation_from_projects.py:86-120 | a project folder yields a video exactly when it collects a frame; every video has frames and the given fps, is named `{project}.mp4` beside the projects and holds that project's frames |
| BatchVideoCreationFromProjects.CollectProject | batch_video_creation_from_projects.py:93-111 | one project collects the frames of its sorted sequence folders, folder after folder |
| BatchVideoCreationFromProjects.CollectFolders | batch_video_creation_from_projects.py:101-111 | the sequence-folder loop concatenates each folder's sorted frames |
| BatchVideoCreationFromProjects.ProcessAllProjects | batch_video_creation_from_projects.py:77-122 | a missing root ends the run; otherwise one video per project folder with frames, in listing order |
| BatchVideoCreationFromProjects.ProcessProject | batch_video_creation_from_projects.py:87-122 | one turn of the project loop adds that entry's video, if any |
| GenerateVideoFromImages.Halves | generate_video_from_images.py:15-18 | the two borders of a side add up to the padding and differ by at most one, the larger at the bottom or right |
| GenerateVideoFromImages.PadMeaning | generate_video_from_images.py:13-21 | padding a scaled size that fits the target, one side exactly, gives borders that make up the rest of each side, split as evenly as they can be; a non-positive side is the error |
| GenerateVideoFromImages.ScaledFits | generate_video_from_images.py:10-11 | with a positive target, both scaled sides are positive, fit the target, and one of them fills its side before truncation |
| GenerateVideoFromImages.ScaledNonPositive | generate_video_from_images.py:10-11 | a non-positive target side makes the scale, and with it a scaled side, non-positive |
| GenerateVideoFromImages.ScaledSidesMeaning | generate_video_from_images.py:10-11 | the truncated scaled sides are not both positive for a non-positive target, and otherwise lie within the target with one of them equal to it |
| GenerateVideoFromImages.LetterboxMeaning | generate_video_from_images.py:8-22 | the scaled image fits the target, one side exactly; the borders make up the rest of each side and the two borders of a side differ by at most one; a non-positive target is the error |
| GenerateVideoFromImages.GlobPaths | generate_video_from_images.py:32 | a path is globbed exactly when a listed name matches `*.jpg`, joined to the folder |
| GenerateVideoFromImages.ImageFilesMeaning | generate_video_from_images.py:32-34 | the sort raises exactly when some globbed name has no integer stem; otherwise it keeps every globbed path, as often as globbed, in non-decreasing frame-number order |
| GenerateVideoFromImages.ChunksUpToPrefix | generate_video_from_images.py:42-45 | the first k chunks in order make up the first min(k * chunk_size, n) frames |
| GenerateVideoFromImages.CeilBounds | generate_video_from_images.py:40 | ceil(n / chunk_size) chunks reach the end of the list and one fewer does not |
| GenerateVideoFromImages.ChunkSize | generate_video_from_images.py:43-45 | every chunk is non-empty and at most chunk_size long, and all but the last are exactly chunk_size long |
| GenerateVideoFromImages.ChunksPartition | generate_video_from_images.py:39-47 | the chunks in order make up the whole frame list, every one is non-empty (so the empty-chunk guard never fires), all but the last hold chunk_size frames |
| GenerateVideoFromImages.OutNamesDistinct | generate_video_from_images.py:50-54 | different chunks never write to the same file |
| GenerateVideoFromImages.CancelAround | generate_video_from_images.py:53-54 | equal names with a common prefix and suffix have equal middles, so `{base}_{k}{ext}` determines k |
| GenerateVideoFromImages.ThinFrameRejected | generate_video_from_images.py:8-12 | a readable 1000×1 frame letterboxed into 224×224 scales to no rows, so `cv2.resize` raises on it |
| GenerateVideoFromImages.ReadableFramesContents | generate_video_from_images.py:65-69 | the frames read are exactly the chunk's frames that can be read |
| GenerateVideoFromImages.FramePassMeaning | generate_video_from_images.py:65-74 | the frame loop raises exactly when a readable frame of the chunk cannot be resized, on the first such frame and after writing the readable frames before it; otherwise it writes every readable frame |
| GenerateVideoFromImages.ChunkVideoMeaning | generate_video_from_images.py:42-77 | a chunk raises exactly when it is not skipped and holds a frame that cannot be resized; its video has the shared settings, the chunk's output name and the frames written, which are all the chunk's readable frames, at least one, when nothing raised |
| GenerateVideoFromImages.VideosFailMeaning | generate_video_from_images.py:42-77 | the chunk loop raises exactly when some chunk that is not skipped holds a frame that cannot be resized, and then on such a frame |
| GenerateVideoFromImages.VideosMeaning | generate_video_from_images.py:42-77 | every video opened is named after its chunk and holds the frames written for that chunk; when nothing raised, it holds all the readable frames of the chunk, at least one |
| GenerateVideoFromImages.SingleChunkName | generate_video_from_images.py:50-51 | with a single chunk the given output name is kept |
| GenerateVideoFromImages.RunResizeErrorMeaning | generate_video_from_images.py:30-77 | `main` raises in `cv2.resize` exactly when the frames sort, there are some, the chunk size is positive and a chunk that is not skipped holds a frame that cannot be resized |
| GenerateVideoFromImages.CollectReadable | generate_video_from_images.py:65-74 | the frame loop writes the readable frames of the chunk in order and stops at the first one `cv2.resize` rejects |
| GenerateVideoFromImages.WriteChunk | generate_video_from_images.py:43-77 | one pass of the chunk loop gives the chunk's video, or none when its first frame cannot be read |
| GenerateVideoFromImages.WriteChunks | generate_video_from_images.py:42-77 | the chunk loop gives the videos of the ceil(n / chunk_size) chunks, up to the first chunk that raises |
| GenerateVideoFromImages.GenerateVideos | generate_video_from_images.py:30-77 | a stem that is not an integer raises, no frames ends the run, a zero chunk size raises, a negative one writes nothing; otherwise the chunk videos are written, unless `cv2.resize` raises on a frame |
| RenameFilenames.RunStart | rename_filenames.py:17 | the run of digits the pattern `(\d+)\.jpg$` captures starts right after the last non-digit before the final `.jpg` |
| RenameFilenames.UpperCaseRaises | rename_filenames.py:14-17 | a name ending in `.JPG` or another casing passes the case-insensitive selection but has no key, so the sort raises |
| RenameFilenames.JpgKeyExists | rename_filenames.py:17 | a name has a key exactly when it ends with a lower-case `.jpg` right after a digit |
| RenameFilenames.SortedSelectionMeaning | rename_filenames.py:14-17 | the sort raises exactly when a selected name has no key; otherwise it orders exactly the selected names, each once per listing, by key |
| RenameFilenames.NewNamesDistinct | rename_filenames.py:20-22 | no two positions get the same new name |
| RenameFilenames.RunStartOfDigits | rename_filenames.py:17 | a maximal run of digits ending at a position starts where the run starts |
| RenameFilenames.NewNameKey | rename_filenames.py:17-22 | with a prefix that does not end in a digit, the key of the i-th new name is i, so a second run keeps the order |
| RenameFilenames.KeyOfDigits | rename_filenames.py:17 | a run of digits between a prefix not ending in a digit and a final `.jpg` is the key |
| RenameFilenames.Plan | rename_filenames.py:20-26 | the i-th file of the order, counted from 1, is renamed to `{prefix}{i:05d}.jpg` |
| RenameFilenames.RenamesKeepContents | rename_filenames.py:20-29 | when no rename lands on a name still to be moved, after the first k renames each renamed content sits under its new name and each file still to rename is where it was |
| RenameFilenames.FreshPrefixNoOverlap | rename_filenames.py:4-26 | when no listed name starts with the non-empty prefix, no rename lands on a file still to be renamed |
| RenameFilenames.ClobberExample | rename_filenames.py:14-29 | the listing `1.jpg`, `img_00001.jpg` loses a file: the first rename overwrites `img_00001.jpg` and the folder ends with one file |
| RenameFilenames.ExampleNames | rename_filenames.py:22 | positions 1 and 2 under `img_` are named `img_00001.jpg` and `img_00002.jpg` |
| RenameFilenames.ExampleKeys | rename_filenames.py:17 | `1.jpg` and `img_00001.jpg` both have the key 1 |
| RenameFilenames.Folder.constructor | rename_filenames.py:4 | the folder starts with the given files |
| RenameFilenames.Folder.Rename | rename_filenames.py:29 | the content moves to the new name, overwriting whatever was there, and the old name is gone |
| RenameFilenames.RunPlan | rename_filenames.py:20-29 | the rename loop applies the planned renames one after another |
| RenameFilenames.RenameFiles | rename_filenames.py:4-29 | a raising sort leaves the folder unchanged; otherwise every selected file is renamed in key order as the plan says |
| RenameFilenames.FilterDistinct | rename_filenames.py:14 | the selection of a listing without repeats has no repeats |
| ResizeImagesRecursive.ExtSet | resize_images_recursive.py:13 | no extensions or an empty collection selects the supported set; otherwise the lower case of each given extension, and no other |
| ResizeImagesRecursive.IsImageFileMeaning | resize_images_recursive.py:10-15 | a stem with a non-dot character plus an extension is an image exactly when the extension's lower case is wanted, whatever the case of its letters |
| ResizeImagesRecursive.SplitExtOfJoin | resize_images_recursive.py:14 | splitting the extension off a stem joined to an extension gives both back |
| ResizeImagesRecursive.NoDotNoImage | resize_images_recursive.py:14-15 | a name without a dot has no extension and is never an image with the default extensions |
| ResizeImagesRecursive.SideFit | resize_images_recursive.py:26-27 | a scaled and rounded side is between 1 and the target, and equals the target when the scale is that side's |
| ResizeImagesRecursive.FitMeaning | resize_images_recursive.py:18-59 | only an image with no pixels fails; otherwise it is scaled to at least 1×1 and at most the target, filling one side, the borders make up the rest and are split with the odd pixel at the bottom or right, so the final safety resize never runs |
| ResizeImagesRecursive.ProcessImageMeaning | resize_images_recursive.py:62-100 | a file is rewritten exactly when it was read, is not already of the target size, has pixels and its temporary copy replaced it; one already of the target size is reported as such |
| ResizeImagesRecursive.SplitExtParts | resize_images_recursive.py:84 | the stem and the extension make up the name |
| ResizeImagesRecursive.TmpPathMeaning | resize_images_recursive.py:82-87 | the temporary file sits beside the image under the hidden name `.{stem}.tmp{ext}`, which is never the image's own name |
| ResizeImagesRecursive.TallyMeaning | resize_images_recursive.py:106-131 | every image visited is counted once in the total; outside a dry run it is counted exactly once more as changed, skipped or failed, and a dry run counts nothing else |
| ResizeImagesRecursive.ImagesInContents | resize_images_recursive.py:112-116 | the files of a directory that are visited are exactly its image files, joined to its path |
| ResizeImagesRecursive.AllImagesContents | resize_images_recursive.py:111-116 | the walk visits exactly the image files of every directory it yields |
| ResizeImagesRecursive.ProcessDirectory | resize_images_recursive.py:112-131 | the inner loop adds the counts of one directory's images on top of those already seen |
| ResizeImagesRecursive.ProcessFile | resize_images_recursive.py:113-131 | one file changes the counters as the tally of one more path |
| ResizeImagesRecursive.WalkAndProcess | resize_images_recursive.py:103-131 | the counters after the walk are the tally of every image it visits, in walk order |
| ResizeImagesRecursive.ResizeAll | resize_images_recursive.py:141-159 | a non-positive width or height ends the run first, then a missing root; otherwise the tree is walked and counted |
| GenerateClassifyImages.SliceBounds | generate_classify_images.py:77 | the rows or columns a slice takes lie within the axis, a negative bound counting from the end |
| GenerateClassifyImages.LineCropMeaning | generate_classify_images.py:48-79 | a line is skipped for its arity exactly when it does not hold five tokens; a saved crop is a non-empty region inside the image filed under the line's first token |
| GenerateClassifyImages.WellFormedCrop | generate_classify_images.py:55-77 | for a centre and size in [0, 1] and no negative padding, the crop is exactly the padded box clamped into the image, with no wrap-around |
| GenerateClassifyImages.EdgesInRange | generate_classify_images.py:55-68 | for a centre and size in [0, 1] and no negative padding, the near edge is at most the axis length and the far edge and the padding are not negative |
| GenerateClassifyImages.AboveImageWraps | generate_classify_images.py:61-79 | a box above the image is not skipped: `0 0.5 -0.5 0.2 0.2` on a 100×100 image gives y2 = -40, and the slice keeps the top 60 rows |
| GenerateClassifyImages.CropLine | generate_classify_images.py:49-79 | the loop body's step-by-step edge updates give the crop of the line, or its skip or error |
| GenerateClassifyImages.LinesRunSources | generate_classify_images.py:48-91 | every crop of an image is what one of its label lines gives, filed under that line's class |
| GenerateClassifyImages.LinesRunMeaning | generate_classify_images.py:48-91 | every crop of an image is non-empty, lies inside the image and is filed under the first token of a five-token line |
| GenerateClassifyImages.FilesRunSources | generate_classify_images.py:24-45 | only listed `.png`, `.jpg` or `.jpeg` names in any case, with a label file and a readable image, give crops |
| GenerateClassifyImages.CropImage | generate_classify_images.py:48-91 | the line loop of one image gives its crops, stopping at the first number that does not parse |
| GenerateClassifyImages.LinesRunStops | generate_classify_images.py:55-58 | once a line has raised, later lines change nothing |
| GenerateClassifyImages.FilesRunStops | generate_classify_images.py:24-91 | once an image has raised, later names change nothing |
| GenerateClassifyImages.CropFile | generate_classify_images.py:25-91 | one listed name gives the crops of its image, or none when it is not an image, has no label file or cannot be read |
| GenerateClassifyImages.CropAndSaveObjects | generate_classify_images.py:7-91 | the listing loop gives the crops of every listed name in order, stopping at the first error |
| GenerateIrstd1k.AxisMeaning | generate_IRSTD-1K.py:49-58 | along one axis the clamped box is min(target, size) long, leaves equal margins on both sides, stays inside the image and starts at (size - target) / 2 when the target fits |
| GenerateIrstd1k.CenterCropMeaning | generate_IRSTD-1K.py:49-61 | the crop box is centred, inside the image and min(target, size) long on each axis |
| GenerateIrstd1k.DirCropsMeaning | generate_IRSTD-1K.py:38-76 | a file of one directory is cropped exactly when it has a supported extension in any case and Pillow handled it |
| GenerateIrstd1k.WalkCropsVisits | generate_IRSTD-1K.py:37-38 | the walk's crops are those of its directories |
| GenerateIrstd1k.WalkCropsMeaning | generate_IRSTD-1K.py:37-76 | over the whole walk there is a crop for every handled supported file of every directory, and nothing else |
| GenerateIrstd1k.CenterCropListMeaning | generate_IRSTD-1K.py:69-81 | the list file has one line per crop, in the same order, holding the stem of the file that crop came from |
| GenerateIrstd1k.ImagesPlacement | generate_IRSTD-1K.py:19-22 | `data/raw` puts `images` beside the input, at `data/images`; `data/raw/` puts it inside, at `data/raw/images` |
| GenerateIrstd1k.CenterCropImagesMeaning | generate_IRSTD-1K.py:18-67 | every handled supported file of the walk is centre-cropped to its own size and saved under its own name in the `images` directory beside the input, or inside it when the input path ends in `/` |
| GenerateIrstd1k.CropDirectory | generate_IRSTD-1K.py:38-76 | the loop over one directory's files collects its crops and their stems |
| GenerateIrstd1k.FirstsAppend | generate_IRSTD-1K.py:71 | collecting crops and stems directory by directory is the same as over the concatenation |
| GenerateIrstd1k.WriteList | generate_IRSTD-1K.py:79-81 | the list file holds each stem followed by a newline |
| GenerateIrstd1k.CenterCropImagesRun | generate_IRSTD-1K.py:8-81 | the run crops the walk's handled images and writes their stems to `img_idx/test_IRSTD-1K.txt`, in the directory that also holds `images` |
| ExtractVideoFrames.TwoDigits | extract_video_frames.py:91 | a number below 100 padded to two places is two digits that read back as the number |
| ExtractVideoFrames.TimeStrMeaning | extract_video_frames.py:87-91 | the timestamp is eight characters `HH-MM-SS` with hours below 24, and its three fields read back give the second of the day |
| ExtractVideoFrames.DayFields | extract_video_frames.py:88-90 | hours, minutes and seconds of a second of the day are in range and make the second back |
| ExtractVideoFrames.Fields | extract_video_frames.py:91 | three two-character fields joined by dashes are read back by position |
| ExtractVideoFrames.SanitizeFps | extract_video_frames.py:198-200 | the frame rate used lies in (0, 1000]: a valid rate is kept and any other becomes 25 |
| ExtractVideoFrames.FrameInterval | extract_video_frames.py:128 | the frame interval is at least one frame |
| ExtractVideoFrames.FrameIntervalMeaning | extract_video_frames.py:128 | from half a frame on, the interval is the interval's frame count rounded, within one half of it |
| ExtractVideoFrames.SampleTimeProduct | extract_video_frames.py:75-109 | after k additions of the interval the seek time is k times the interval |
| ExtractVideoFrames.SamplesMeaning | extract_video_frames.py:77 | sample k is within the duration exactly when k is below the sample count |
| ExtractVideoFrames.TimePaths | extract_video_frames.py:94-95 | the files of samples k to m - 1 are one per sample |
| ExtractVideoFrames.TimeFromStep | extract_video_frames.py:77-109 | a sample within the duration that can be read is saved first; any other ends the loop |
| ExtractVideoFrames.TimeFromMeaning | extract_video_frames.py:60-111 | time mode saves one frame for each sample 0, interval, 2·interval, … while it is within the duration and can be read, named after its second, and stops at the first that is not |
| ExtractVideoFrames.FramesFromStep | extract_video_frames.py:137-168 | past the last frame nothing is saved; a due frame is saved with the current counter; another adds nothing |
| ExtractVideoFrames.MultiplesInContents | extract_video_frames.py:143 | the frames due from an index on are exactly the multiples of the interval below the frame count |
| ExtractVideoFrames.MultiplesInIncreasing | extract_video_frames.py:137-168 | the due frames come in strictly increasing order |
| ExtractVideoFrames.NamedFrames | extract_video_frames.py:152-153 | the j-th due frame is named with counter `saved + j` and its own index's second |
| ExtractVideoFrames.FramesFromMeaning | extract_video_frames.py:113-170 | frame mode saves exactly the frames whose index is a multiple of the frame interval among those that can be read, the j-th named with counter j and its own second |
| ExtractVideoFrames.FramesFromDue | extract_video_frames.py:143-161 | a due frame is named first, with the current counter |
| ExtractVideoFrames.FramesFromSkipped | extract_video_frames.py:143-168 | a frame that is not due adds nothing |
| ExtractVideoFrames.VideosInContents | extract_video_frames.py:242-249 | the videos of one directory are exactly its names with one of the six extensions in any case, joined to its path |
| Sorting.SortStringsMembers | extract_video_frames.py:251 | sorting keeps exactly the names it was given |
| Sorting.SortByKeyStable | rename_filenames.py:17 | `list.sort(key=...)` is stable: the elements that share a key come out in the order they went in |
| ExtractVideoFrames.WalkVideosMeaning | extract_video_frames.py:241-244 | the videos of a walk are exactly the video paths of its directories |
| ExtractVideoFrames.WalkVideoFilesMeaning | extract_video_frames.py:227-251 | recursively, the list is sorted and holds exactly the video paths of every directory of the walk |
| ExtractVideoFrames.TopVideoFilesMeaning | extract_video_frames.py:245-251 | without recursion, the list is sorted and holds exactly the top directory's names with a video extension, sub-directories so named included |
| ExtractVideoFrames.SummarizeStep | extract_video_frames.py:282-289 | one more video adds what it gives, if it opens, to the counts of those before it |
| ExtractVideoFrames.SummarizeMeaning | extract_video_frames.py:279-289 | the successful videos never exceed the videos and the frame count is the number of files written |
| ExtractVideoFrames.VideoFrameExtractor.constructor | extract_video_frames.py:19-49 | the extractor keeps its settings and starts with zero counters |
| ExtractVideoFrames.VideoFrameExtractor.SetupOutputDir | extract_video_frames.py:51-58 | in add mode the output directory keeps its files, otherwise it is emptied |
| ExtractVideoFrames.VideoFrameExtractor.TimeFramePath | extract_video_frames.py:86-95 | the time-mode file is `{video}_{HH-MM-SS}.jpg` in the output directory |
| ExtractVideoFrames.VideoFrameExtractor.ExtractByTime | extract_video_frames.py:60-111 | the time loop saves the frames of the time-mode specification and returns their number |
| ExtractVideoFrames.VideoFrameExtractor.SaveSample | extract_video_frames.py:86-109 | the body of the time loop saves sample k and continues the specification from k + 1 |
| ExtractVideoFrames.VideoFrameExtractor.ExtractByFrame | extract_video_frames.py:113-170 | the frame loop saves the frames of the frame-mode specification and returns their number |
| ExtractVideoFrames.VideoFrameExtractor.SaveIfDue | extract_video_frames.py:143-168 | the body of the frame loop saves a due frame and continues the specification from the next index |
| ExtractVideoFrames.VideoFrameExtractor.FrameOutputPath | extract_video_frames.py:144-153 | the frame-mode file is `{video}_frame_{saved:04d}_{HH-MM-SS}.jpg`, its second the index over the rate |
| ExtractVideoFrames.VideoFrameExtractor.ExtractFramesFromVideo | extract_video_frames.py:172-219 | a video that cannot be opened gives nothing; otherwise the frames of the chosen mode with the sanitised rate |
| ExtractVideoFrames.VideoFrameExtractor.FindVideoFiles | extract_video_frames.py:227-251 | the video list is the sorted walk or top-level listing of video names |
| ExtractVideoFrames.VideoFrameExtractor.ProcessVideos | extract_video_frames.py:253-297 | the output directory is set up first, which removes the input when the output is the input or lies above it; listing a removed input without recursion raises and changes no counter; with no video the counters stay; otherwise the video count is the list's length and the success and frame counters grow by the summary of the videos |
| ExtractVideoFrames.OutputOverInputFindsNothing | extract_video_frames.py:51-57 | without add mode, an output that is the input or lies above it leaves no video to find; the non-recursive listing raises exactly when the input is gone, not merely emptied |
| ExtractVideoFrames.VideoFrameExtractor.ExtractAll | extract_video_frames.py:279-289 | the video loop adds the summary of all videos to the counters |
| ExtractVideoFrames.VideoFrameExtractor.ExtractOne | extract_video_frames.py:280-289 | one turn of the video loop adds that video's result |
| ExtractVideoFrames.VideoFrameExtractor.AddVideo | extract_video_frames.py:282-289 | a video that opens counts as a success and adds its frames; one that does not changes nothing |
| ExtractVideoFrames.RunCli | extract_video_frames.py:300-378 | a missing input, a quality outside 1..100 and a non-positive interval each end the run, checked in that order; otherwise the videos are processed with the given settings, and the run raises exactly when the set-up removed the input and the search is not recursive |
| GetJpgFromeVideos2.FrameIntervalZero | get_jpg_frome_videos2.py:26 | the truncated step is zero exactly when fps · seconds lies strictly between -1 and 1, and at least 1 from 1 on |
| GetJpgFromeVideos2.DivisibleEitherSign | get_jpg_frome_videos2.py:42 | whether an index is a multiple of the step does not depend on the step's sign, as with Python's remainder |
| GetJpgFromeVideos2.ModNegated | get_jpg_frome_videos2.py:42 | the remainder by a negative step is the remainder by its negation |
| GetJpgFromeVideos2.Counted | get_jpg_frome_videos2.py:43-48 | n frames saved from a counter on get n names |
| GetJpgFromeVideos2.CountedCons | get_jpg_frome_videos2.py:45-48 | the names from a counter on are that counter's name, then those from the next counter |
| GetJpgFromeVideos2.SavedFromMeaning | get_jpg_frome_videos2.py:36-50 | one frame is saved for each readable index that is a multiple of the step, whatever its sign, numbered on from the current counter |
| GetJpgFromeVideos2.Middle | get_jpg_frome_videos2.py:45 | a shared prefix and suffix leave equal middles |
| GetJpgFromeVideos2.FramePathInjective | get_jpg_frome_videos2.py:43-46 | distinct counters give distinct names, so no frame of a video overwrites another of the same video |
| GetJpgFromeVideos2.VideoToFrames | get_jpg_frome_videos2.py:7-53 | a video gives nothing exactly when it cannot be opened, and raises exactly when it opens, has a frame and its step is zero |
| GetJpgFromeVideos2.VideoToFramesMeaning | get_jpg_frome_videos2.py:24-50 | a video that opens with a non-zero step saves one frame per multiple of the step among its frame indices, counters from 0 |
| GetJpgFromeVideos2.ReadLoop | get_jpg_frome_videos2.py:33-50 | the read loop saves the frames of the specification, or raises at the first frame for a zero step |
| GetJpgFromeVideos2.SaveIfDue | get_jpg_frome_videos2.py:42-50 | the loop body saves a due frame and continues the specification from the next index |
| GetJpgFromeVideos2.VideoToFramesRun | get_jpg_frome_videos2.py:7-53 | the method does what `video_to_frames` is specified to do |
| GetJpgFromeVideos2.GlobMp4Contents | get_jpg_frome_videos2.py:61 | a path is globbed exactly when a listed name matches `*.mp4`, joined to the input directory |
| GetJpgFromeVideos2.RunFromMeaning | get_jpg_frome_videos2.py:68-70 | the run stops at the first video that raises, having saved the frames of the videos before it; without such a video it saves the frames of all of them in order |
| GetJpgFromeVideos2.FirstRaiseShift | get_jpg_frome_videos2.py:68-70 | a first raise in the tail after a head that does not raise is the first raise of the list one position on |
| GetJpgFromeVideos2.RaisesShift | get_jpg_frome_videos2.py:68-70 | raising at position i + 1 of a list is raising at position i of its tail |
| GetJpgFromeVideos2.NoVideosMeaning | get_jpg_frome_videos2.py:61-65 | the run ends with no video exactly when no listed name matches `*.mp4` |
| GetJpgFromeVideos2.ProcessAllVideos | get_jpg_frome_videos2.py:56-70 | the method does what `process_all_videos` is specified to do |
| GetJpgFromeVideos2.RunVideos | get_jpg_frome_videos2.py:68-70 | the loop over the videos saves their frames until the first raise |
| GetJpgFromeVideos2.RunOne | get_jpg_frome_videos2.py:69-70 | one turn of the video loop handles the first video left |
| GetJpgFromeVideos2.HandleVideo | get_jpg_frome_videos2.py:70 | one video raises exactly as specified, and otherwise gives its saved frames |
| GetJpgFromeVideos2.RunFromCons | get_jpg_frome_videos2.py:68-70 | a run over a non-empty list raises at once when the first video raises, and otherwise is that video's frames followed by the run over the rest |
| GetJpgFromeVideos.NoColon | get_jpg_frome_videos.py:39 | a run of digits holds no colon |
| GetJpgFromeVideos.ClockDashes | get_jpg_frome_videos.py:36-39 | replacing the colons of an `h:mm:ss` clock gives `h-mm-ss` |
| GetJpgFromeVideos.TimeStampFirstDay | get_jpg_frome_videos.py:36-39 | within the first day the stamp is the `HH-MM-SS` of the other frame extractor, `zfill(8)` supplying the leading zero of a one-digit hour |
| GetJpgFromeVideos.FirstDayClock | get_jpg_frome_videos.py:36 | within the first day the text of the timedelta has no day part: unpadded hours, then two-digit minutes and seconds |
| GetJpgFromeVideos.HourPadded | get_jpg_frome_videos.py:36 | padding a clock to eight characters pads its hour to two digits |
| GetJpgFromeVideos.TimeStampLaterDays | get_jpg_frome_videos.py:36-39 | from the first full day on the stamp keeps the day count in front of an unpadded hour: `D day, H-MM-SS` or `D days, H-MM-SS` |
| GetJpgFromeVideos.LaterClock | get_jpg_frome_videos.py:36 | from the first full day on the timedelta's text puts the days first |
| GetJpgFromeVideos.DayWords | get_jpg_frome_videos.py:39 | the day part holds no colon, so the replacement leaves it alone |
| GetJpgFromeVideos.StampPaths | get_jpg_frome_videos.py:39-40 | the files of seek times k to m - 1 are one per seek time |
| GetJpgFromeVideos.StampPathsCons | get_jpg_frome_videos.py:26-47 | the files from seek time k on are that of k, then those from k + 1 |
| GetJpgFromeVideos.StampsFromMeaning | get_jpg_frome_videos.py:23-47 | one frame is saved for each seek time 0, interval, 2·interval, … within the duration, named after its second, up to the first whose read fails |
| GetJpgFromeVideos.ExtractFramesRun | get_jpg_frome_videos.py:8-49 | a video that cannot be opened gives nothing; otherwise the seek loop over total_frames / fps seconds, zero for a non-positive rate |
| GetJpgFromeVideos.SeekLoop | get_jpg_frome_videos.py:23-47 | the seek loop saves the frames of the specification |
| GetJpgFromeVideos.SaveStamp | get_jpg_frome_videos.py:35-47 | the loop body saves seek time k and continues the specification from k + 1 |
| GetJpgFromeVideos.Mp4InContents | get_jpg_frome_videos.py:62-64 | the videos of one directory are exactly its names ending in `.mp4` in any case, joined to its path |
| GetJpgFromeVideos.WalkMp4Meaning | get_jpg_frome_videos.py:61-64 | the videos are exactly the `.mp4` files of every directory of the walk |
| GetJpgFromeVideos.ProcessVideosMeaning | get_jpg_frome_videos.py:52-66 | in add mode the old files stay, otherwise none does; a frame is written exactly when one of the videos found by the walk after the set-up yields it |
| GetJpgFromeVideos.OutputOverInputWritesNothing | get_jpg_frome_videos.py:52-66 | without add mode, an output that is the input or lies above it is emptied with the videos in it, and nothing is written |
| DirTree.SetupRemovesExamples | get_jpg_frome_videos.py:54-55 | removing `data` or `data/` takes `data/videos` with it, removing `videos` takes itself, and removing `data/v` or `data/out` does not touch `data/videos` |
| DirTree.RemovedInputHasNoFiles | get_jpg_frome_videos.py:54-62 | an input removed with the output, and walked after `makedirs`, holds no file |
| GetJpgFromeVideos.WrittenMeaning | get_jpg_frome_videos.py:61-66 | the frames of a list of videos are exactly those of its members |
| GetJpgFromeVideos.ProcessVideosRun | get_jpg_frome_videos.py:52-66 | the method does what `process_videos` is specified to do |
| GetJpgFromeVideos.WalkMp4Snoc | get_jpg_frome_videos.py:61 | the videos of one more directory come after those before it |
| GetJpgFromeVideos.ProcessDirectory | get_jpg_frome_videos.py:62-66 | the inner loop extracts the videos of one directory in listing order |
| GetJpgFromeVideos.ProcessFile | get_jpg_frome_videos.py:63-66 | one file adds its frames when it is a video, and nothing otherwise |
| ReplaceSlashInFilename.UnslashMeaning | replace_slash_in_filename.py:19 | the new file name has the old one's length, no `/`, and each `/` of the old one replaced by `_`, every other character kept |
| ReplaceSlashInFilename.UnslashIdempotent | replace_slash_in_filename.py:19 | replacing twice is replacing once |
| ReplaceSlashInFilename.FixImage | replace_slash_in_filename.py:18-19 | an image record is fixed exactly when it is an object whose `file_name` is a string, and then only that field changes; a missing key, a non-string value and a non-object each give their own error |
| ReplaceSlashInFilename.FixImageOnlyFileName | replace_slash_in_filename.py:19 | fixing an image keeps its keys and every field except `file_name` |
| ReplaceSlashInFilename.FixImageIdempotent | replace_slash_in_filename.py:19 | fixing a fixed image changes nothing |
| ReplaceSlashInFilename.FixAllMeaning | replace_slash_in_filename.py:18-19 | the loop succeeds exactly when every image can be fixed, giving each image's fix in place; otherwise the error is that of the first image that cannot be fixed |
| ReplaceSlashInFilename.FixImages | replace_slash_in_filename.py:18-19 | the loop over the images gives the fixed list or the first error |
| ReplaceSlashInFilename.PrefixFailure | replace_slash_in_filename.py:18-19 | an error in the images before k is the loop's error over the whole list |
| ReplaceSlashInFilename.FixDocumentOnlyFileNames | replace_slash_in_filename.py:15-19 | fixing the document changes only its `images` list, keeping every other key and field |
| ReplaceSlashInFilename.FixDocumentIdempotent | replace_slash_in_filename.py:15-19 | fixing a fixed document changes nothing |
| ReplaceSlashInFilename.FixAllUnchanged | replace_slash_in_filename.py:18-19 | a list whose images are already fixed comes back unchanged |
| ReplaceSlashInFilename.ReplaceSlashMeaning | replace_slash_in_filename.py:5-26 | the run succeeds exactly when the input exists and its document can be fixed; then the save path holds the fixed document, it is the output path when one is given and not empty and the input otherwise, and no other file changes |
| ReplaceSlashInFilename.OverwritesWithoutOutput | replace_slash_in_filename.py:22-26 | without an output path the input file is overwritten with the fixed document |
| ReplaceSlashInFilename.SafeKeepsInput | replace_slash_in_filename.py:31-43 | the safe variant writes to `{base}_modified{ext}`, which is never the input, so the input file is kept and the fixed document sits beside it |
| ReplaceSlashInFilename.ReplaceSlashRun | replace_slash_in_filename.py:5-26 | the method does what `replace_slash_in_filename` is specified to do |
| ReplaceSlashInFilename.ReplaceSlashSafeRun | replace_slash_in_filename.py:31-43 | the method does what `replace_slash_in_filename_safe` is specified to do |

## Left out

- Pixel and video content is not modelled: `cv2.imread`, `imwrite`, `resize`, `copyMakeBorder`, `VideoCapture`, `VideoWriter`, PIL crops and numpy slicing all belong to the libraries. A capture is modelled by its fps, its frame count and a predicate saying which reads succeed, and an image by its size or by whether it can be read.
- Printing, progress messages, interactive `input()` prompts, `argparse` parsing and `os.makedirs` are host plumbing. The checks the scripts make on their arguments are modelled, as outcomes.
- Python's random number generator is not reproduced. `random.shuffle` is an arbitrary permutation passed in, `random.sample` is a sequence of distinct positions, and the `uuid` names of saved crops are not modelled.
- The order of `os.walk`, `os.listdir`, `glob` and set iteration is an input sequence. Only properties that hold for every order, or that say "first found in that order", are stated.
- Floats are exact reals. The binary rounding of `float` arithmetic is not modelled, and neither is the tolerance of tests such as `area_ratio >= 1.0`. `{:.6f}` formatting is modelled as exact rounding of the real value. `float()` parsing covers the decimal and exponent forms; the `nan` and `inf` spellings are not parsed.
- The JSON document of the COCO file-name fixer is a value of a small JSON datatype. Parse errors, key order, indentation and `ensure_ascii` output are not modelled.
- OS errors other than those the scripts test for (permission errors, a disk that fills up, a file removed concurrently) are not modelled. The folder mover catches the error of each move; there, the folders whose move fails are a set passed in.
- `create_video_from_image_paths` in the batch video creator is recorded as a job (output name, frames, fps) and not modelled further, since all it does is feed OpenCV.
- The exceptions OpenCV can raise inside `extract_frames_from_video` and around `imwrite` in the frame extractors are not modelled; a frame write is assumed to succeed.
- RenameFilenames.RenameFiles: models the script's default name format `{:05d}` and no other.
- The `--is_add` option of the time-based frame grabber uses `type=bool`, so any non-empty text means true. The model keeps this quirk (GetJpgFromeVideos.IsAddArg) rather than the evident intent.
- ExtractVideoFrames.VideoFrameExtractor.ExtractByTime: requires a positive interval. The command line rejects an interval <= 0 before the extractor is built. Called directly with such an interval, the loop would never end while reads succeed, and the model does not cover that case.
- ExtractVideoFrames.VideoFrameExtractor.SaveSample: requires a positive interval, for the same reason as ExtractByTime.
- ExtractVideoFrames.VideoFrameExtractor.ExtractFramesFromVideo: requires a positive interval in time mode, for the same reason as ExtractByTime.
- ExtractVideoFrames.VideoFrameExtractor.ExtractOne: requires a positive interval in time mode, for the same reason as ExtractByTime.
- ExtractVideoFrames.VideoFrameExtractor.AddVideo: requires a positive interval in time mode, for the same reason as ExtractByTime.
- ExtractVideoFrames.VideoFrameExtractor.ExtractAll: requires a positive interval in time mode, for the same reason as ExtractByTime.
- ExtractVideoFrames.VideoFrameExtractor.ProcessVideos: requires a positive interval in time mode, for the same reason as ExtractByTime.
- ExtractVideoFrames.TimeFromMeaning: requires a positive interval, for the same reason as ExtractByTime.
- ExtractVideoFrames.TimeFromStep: requires a positive interval, for the same reason as ExtractByTime.
- ExtractVideoFrames.SamplesMeaning: requires a positive interval, for the same reason as ExtractByTime.
- ExtractVideoFrames.SummarizeStep: requires a positive interval in time mode, for the same reason as ExtractByTime.
- ExtractVideoFrames.SummarizeMeaning: requires a positive interval in time mode, for the same reason as ExtractByTime.
- GetJpgFromeVideos.ExtractFramesRun: requires a positive interval. The script does not check its `--interval`, and with an interval <= 0 its loop never ends while reads succeed, so those inputs are outside the model.
- GetJpgFromeVideos.SeekLoop: requires a positive interval, for the same reason as ExtractFramesRun.
- GetJpgFromeVideos.SaveStamp: requires a positive interval, for the same reason as ExtractFramesRun.
- GetJpgFromeVideos.StampsFromMeaning: requires a positive interval, for the same reason as ExtractFramesRun.
- GetJpgFromeVideos.WrittenMeaning: requires a positive interval, for the same reason as ExtractFramesRun.
- GetJpgFromeVideos.ProcessVideosMeaning: requires a positive interval, for the same reason as ExtractFramesRun.
- GetJpgFromeVideos.ProcessVideosRun: requires a positive interval, for the same reason as ExtractFramesRun.
- GetJpgFromeVideos.ProcessDirectory: requires a positive interval, for the same reason as ExtractFramesRun.
- GetJpgFromeVideos.ProcessFile: requires a positive interval, for the same reason as ExtractFramesRun.
- GenerateVideoFromImages.GenerateVideos: the video being written when `cv2.resize` raises is never released; the model records the frames written to it, not whether the file is playable.
- Common.ParseInt: reads an optional sign and ASCII digits, on a token the callers have already stripped. Python's `int()` also accepts Unicode digits, Unicode whitespace and `_` between digits (`int('1_0')` is 10); those inputs are not modelled, and the model reads them as errors.
- Common.ParseFloat: reads ASCII digits, a dot and an exponent. Python's `float()` also accepts Unicode digits, Unicode whitespace and `_` between digits; those inputs are not modelled.
- Common.IsSpace: ASCII whitespace only. Python's `str.strip()` and `str.split()` also treat Unicode whitespace as space.
- Common.IsDigit: ASCII `0`-`9` only, for the reason given for Common.AllDigits.
- Common.AllDigits: ASCII `0`-`9` only. Python's `str.isdigit()` is also true of other Unicode digits (`'١'.isdigit()`), so a name such as `١.jpg` that the renamer treats as numbered is treated as unnumbered here.
- GenerateIrstd1k.CenterCropImagesMeaning: the walked tree is the tree as it stands when the walk starts. When the `images` directory lies inside the input (an input ending in `/`, or `.`), the real walk can also visit crops saved earlier in the same run, crop them again and list their stems twice; the model does not capture that.
- GenerateIrstd1k.CenterCropImagesRun: the walked tree is the tree as it stands when the walk starts, for the reason given for CenterCropImagesMeaning.
- GenerateIrstd1k.WalkCropsMeaning: the walked tree is the tree as it stands when the walk starts, for the reason given for CenterCropImagesMeaning.
- GenerateIrstd1k.CenterCropListMeaning: the walked tree is the tree as it stands when the walk starts, for the reason given for CenterCropImagesMeaning.
- ExtractVideoFrames.VideoFrameExtractor.ProcessVideos: whether removing the output removes the input is decided on the path texts (equal, or the input below the output followed by `/`). Paths that name the same directory through different spellings (`a` and `a/`, `./a`, symbolic links) are not normalised.
- GetJpgFromeVideos.ProcessVideosRun: whether removing the output removes the input is decided on the path texts, as for ExtractVideoFrames.VideoFrameExtractor.ProcessVideos.
- The PyTorch training, evaluation, export and inference scripts, `txt2bin.py`, `labelme2yolo.py`, and the thin copy and delete wrappers (`remove_small_image.py`, `copy_images_labels_to_path.py`, `copy_images_with_folder_name.py`) are not part of this model. Their behaviour lives in the libraries they call.
