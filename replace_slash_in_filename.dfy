/** The COCO file-name fixer: in an annotation document, every image's
  * `file_name` has its slashes turned into underscores, and the document
  * is written back over the input or to a given path, or, in the safe
  * variant, to a `_modified` copy beside the input. */
module ReplaceSlashInFilename {
  import opened Common

  /** A parsed JSON value. Objects are maps from key to value. */
  datatype Json =
    | JNull
    | JBool(b: bool)
    | JNum(n: real)
    | JStr(s: string)
    | JArr(items: seq<Json>)
    | JObj(fields: map<string, Json>)

  /** The exceptions that stop the script before it writes anything. */
  datatype Failure = FileNotFound | KeyError(key: string) | TypeError | AttributeError

  datatype Result<T> = Ok(value: T) | Err(failure: Failure)

  // ------------------------------------------------------------------
  // One file name
  // ------------------------------------------------------------------

  /** `name.replace('/', '_')`. */
  function Unslash(name: string): string {
    ReplaceChar(name, '/', '_')
  }

  /** No slash is left, every slash became an underscore, and every other
    * character stays where it was. */
  lemma UnslashMeaning(name: string)
    ensures var r := Unslash(name);
            && |r| == |name| && '/' !in r
            && forall i :: 0 <= i < |name| ==> r[i] == (if name[i] == '/' then '_' else name[i])
  {
  }

  /** A name without slashes is left as it is, so replacing twice is
    * replacing once. */
  lemma UnslashIdempotent(name: string)
    ensures Unslash(Unslash(name)) == Unslash(name)
  {
    UnslashMeaning(name);
    ReplaceCharAbsent(Unslash(name), '/', '_');
  }

  // ------------------------------------------------------------------
  // One image
  // ------------------------------------------------------------------

  /** `image['file_name'] = image['file_name'].replace('/', '_')` on one
    * element of the `images` list: only an object can be indexed by a
    * key, it must hold `file_name`, and only a string has `replace`. */
  function FixImage(image: Json): (r: Result<Json>)
    ensures r.Ok? <==> image.JObj? && "file_name" in image.fields && image.fields["file_name"].JStr?
    ensures r.Ok? ==> r.value == JObj(image.fields["file_name" := JStr(Unslash(image.fields["file_name"].s))])
  {
    match image
    case JObj(fields) =>
      if "file_name" !in fields then Err(KeyError("file_name"))
      else (match fields["file_name"]
            case JStr(name) => Ok(JObj(fields["file_name" := JStr(Unslash(name))]))
            case _ => Err(AttributeError))
    case _ => Err(TypeError)
  }

  /** A fixed image has the same keys, the same values under every other
    * key, and a file name with no slash. */
  lemma FixImageOnlyFileName(image: Json)
    requires FixImage(image).Ok?
    ensures var fixed := FixImage(image).value;
            && fixed.JObj? && fixed.fields.Keys == image.fields.Keys
            && (forall k :: k in image.fields && k != "file_name" ==> fixed.fields[k] == image.fields[k])
            && fixed.fields["file_name"].JStr? && '/' !in fixed.fields["file_name"].s
  {
    UnslashMeaning(image.fields["file_name"].s);
  }

  /** A fixed image is left as it is by a second pass. */
  lemma FixImageIdempotent(image: Json)
    requires FixImage(image).Ok?
    ensures FixImage(FixImage(image).value) == FixImage(image)
  {
    var fields := image.fields;
    var name := Unslash(fields["file_name"].s);
    UnslashIdempotent(fields["file_name"].s);
    assert fields["file_name" := JStr(name)]["file_name" := JStr(Unslash(name))] == fields["file_name" := JStr(name)];
  }

  // ------------------------------------------------------------------
  // The images list
  // ------------------------------------------------------------------

  /** The loop over the images: the first image that fails stops it. */
  function FixAll(images: seq<Json>): (r: Result<seq<Json>>)
    decreases |images|
  {
    if images == [] then Ok([])
    else
      var n := |images| - 1;
      match FixAll(images[..n])
      case Err(e) => Err(e)
      case Ok(front) =>
        match FixImage(images[n])
        case Err(e) => Err(e)
        case Ok(last) => Ok(front + [last])
  }

  /** The images all fix, in place and in order, or the failure is that of
    * the first image that does not. */
  lemma {:induction false} FixAllMeaning(images: seq<Json>)
    ensures FixAll(images).Ok? ==>
              (&& |FixAll(images).value| == |images|
               && forall i :: 0 <= i < |images| ==> FixImage(images[i]) == Ok(FixAll(images).value[i]))
    ensures FixAll(images).Err? ==> exists i :: FirstFailure(images, i, FixAll(images).failure)
    ensures FixAll(images).Ok? <==> forall i :: 0 <= i < |images| ==> FixImage(images[i]).Ok?
    decreases |images|
  {
    if images != [] {
      var n := |images| - 1;
      var front := images[..n];
      FixAllMeaning(front);
      assert forall i :: 0 <= i < n ==> front[i] == images[i];
      if FixAll(front).Err? {
        var i :| FirstFailure(front, i, FixAll(front).failure);
        assert FirstFailure(images, i, FixAll(images).failure);
      } else if FixImage(images[n]).Err? {
        assert FirstFailure(images, n, FixAll(images).failure);
      }
    }
  }

  /** Image `i` is the first that fails, with failure `e`. */
  predicate FirstFailure(images: seq<Json>, i: int, e: Failure) {
    0 <= i < |images| && FixImage(images[i]) == Err(e) && forall j :: 0 <= j < i ==> FixImage(images[j]).Ok?
  }

  /** The loop `for image in coco_data['images']` over a list, updating
    * each image where it stands. */
  method FixImages(images: seq<Json>) returns (r: Result<seq<Json>>)
    ensures r == FixAll(images)
  {
    var fixed := images;
    var i := 0;
    while i < |images|
      invariant 0 <= i <= |images| && |fixed| == |images|
      invariant fixed[i..] == images[i..]
      invariant FixAll(images[..i]) == Ok(fixed[..i])
      decreases |images| - i
    {
      var image := fixed[i];
      assert image == images[i];
      assert images[..i + 1][..i] == images[..i];
      match FixImage(image) {
        case Err(e) =>
          PrefixFailure(images, i + 1);
          return Err(e);
        case Ok(updated) =>
          fixed := fixed[i := updated];
          assert fixed[..i + 1] == fixed[..i] + [updated];
      }
      i := i + 1;
    }
    assert images[..i] == images && fixed[..i] == fixed;
    r := Ok(fixed);
  }

  /** A failure among the first `k` images is the failure of them all. */
  lemma {:induction false} PrefixFailure(images: seq<Json>, k: nat)
    requires k <= |images| && FixAll(images[..k]).Err?
    ensures FixAll(images) == FixAll(images[..k])
    decreases |images| - k
  {
    if k < |images| {
      assert images[..k + 1][..k] == images[..k];
      PrefixFailure(images, k + 1);
    } else {
      assert images[..k] == images;
    }
  }

  // ------------------------------------------------------------------
  // The document
  // ------------------------------------------------------------------

  /** The document after the loop: it must be an object with `images`;
    * a list is fixed image by image, an empty object or string gives the
    * loop nothing to do, and any other value fails. */
  function FixDocument(doc: Json): Result<Json> {
    match doc
    case JObj(fields) =>
      if "images" !in fields then Err(KeyError("images"))
      else (match fields["images"]
            case JArr(items) =>
              (match FixAll(items)
               case Ok(fixed) => Ok(JObj(fields["images" := JArr(fixed)]))
               case Err(e) => Err(e))
            case JObj(m) => if |m| == 0 then Ok(doc) else Err(TypeError)
            case JStr(t) => if |t| == 0 then Ok(doc) else Err(TypeError)
            case _ => Err(TypeError))
    case _ => Err(TypeError)
  }

  /** Apart from the file names, a fixed document is the document: the
    * same keys, the same values under every key but `images`, the same
    * number of images, each with its own fields. */
  lemma FixDocumentOnlyFileNames(doc: Json)
    requires FixDocument(doc).Ok? && doc.JObj? && doc.fields["images"].JArr?
    ensures var fixed := FixDocument(doc).value;
            var before := doc.fields["images"].items;
            && fixed.JObj? && fixed.fields.Keys == doc.fields.Keys
            && (forall k :: k in doc.fields && k != "images" ==> fixed.fields[k] == doc.fields[k])
            && fixed.fields["images"].JArr? && |fixed.fields["images"].items| == |before|
            && forall i :: 0 <= i < |before| ==> FixImage(before[i]) == Ok(fixed.fields["images"].items[i])
  {
    FixAllMeaning(doc.fields["images"].items);
  }

  /** Running the fix on its own output changes nothing more. */
  lemma FixDocumentIdempotent(doc: Json)
    requires FixDocument(doc).Ok?
    ensures FixDocument(FixDocument(doc).value) == FixDocument(doc)
  {
    if doc.fields["images"].JArr? {
      var items := doc.fields["images"].items;
      FixAllMeaning(items);
      var fixed := FixAll(items).value;
      forall i | 0 <= i < |fixed| ensures FixImage(fixed[i]) == Ok(fixed[i]) {
        FixImageIdempotent(items[i]);
      }
      FixAllUnchanged(fixed);
      var fields := doc.fields["images" := JArr(fixed)];
      assert fields["images" := JArr(fixed)] == fields;
    }
  }

  /** Images that are already fixed are all fixed to themselves. */
  lemma {:induction false} FixAllUnchanged(images: seq<Json>)
    requires forall i :: 0 <= i < |images| ==> FixImage(images[i]) == Ok(images[i])
    ensures FixAll(images) == Ok(images)
    decreases |images|
  {
    if images != [] {
      var n := |images| - 1;
      var front := images[..n];
      forall i | 0 <= i < |front| ensures FixImage(front[i]) == Ok(front[i]) {
        assert front[i] == images[i];
      }
      FixAllUnchanged(front);
      assert FixImage(images[n]) == Ok(images[n]);
      assert front + [images[n]] == images;
    }
  }

  // ------------------------------------------------------------------
  // Reading and writing
  // ------------------------------------------------------------------

  /** `output_file if output_file else input_file`. */
  function SavePath(inputFile: string, outputFile: Option<string>): string {
    if outputFile.Some? && outputFile.value != "" then outputFile.value else inputFile
  }

  /** `replace_slash_in_filename`: the files are the parsed JSON
    * documents by path; on success exactly the save path changes. */
  function ReplaceSlash(files: map<string, Json>, inputFile: string, outputFile: Option<string>)
    : Result<map<string, Json>>
  {
    if inputFile !in files then Err(FileNotFound)
    else
      match FixDocument(files[inputFile])
      case Err(e) => Err(e)
      case Ok(doc) => Ok(files[SavePath(inputFile, outputFile) := doc])
  }

  /** `f"{base}_modified{ext}"` from `os.path.splitext(input_file)`. */
  function SafeOutput(inputFile: string): string {
    var parts := SplitExtPath(inputFile);
    parts.0 + "_modified" + parts.1
  }

  /** `replace_slash_in_filename_safe`. */
  function ReplaceSlashSafe(files: map<string, Json>, inputFile: string): Result<map<string, Json>> {
    ReplaceSlash(files, inputFile, Some(SafeOutput(inputFile)))
  }

  /** On success the fixed document is at the save path and every other
    * path is as it was; on failure nothing is written. */
  lemma ReplaceSlashMeaning(files: map<string, Json>, inputFile: string, outputFile: Option<string>)
    ensures var r := ReplaceSlash(files, inputFile, outputFile);
            var save := SavePath(inputFile, outputFile);
            && (r.Ok? <==> inputFile in files && FixDocument(files[inputFile]).Ok?)
            && (r.Ok? ==> r.value.Keys == files.Keys + {save}
                          && r.value[save] == FixDocument(files[inputFile]).value
                          && forall p :: p in files && p != save ==> r.value[p] == files[p])
  {
  }

  /** Without an output path the input is overwritten. */
  lemma OverwritesWithoutOutput(files: map<string, Json>, inputFile: string, outputFile: Option<string>)
    requires outputFile == None || outputFile == Some("")
    requires ReplaceSlash(files, inputFile, outputFile).Ok?
    ensures ReplaceSlash(files, inputFile, outputFile).value[inputFile] == FixDocument(files[inputFile]).value
  {
  }

  /** The safe variant never writes over its input: the `_modified` name
    * is nine characters longer. */
  lemma SafeKeepsInput(files: map<string, Json>, inputFile: string)
    requires ReplaceSlashSafe(files, inputFile).Ok?
    ensures SafeOutput(inputFile) != inputFile
    ensures ReplaceSlashSafe(files, inputFile).value[inputFile] == files[inputFile]
    ensures ReplaceSlashSafe(files, inputFile).value[SafeOutput(inputFile)] == FixDocument(files[inputFile]).value
  {
    assert |SafeOutput(inputFile)| == |inputFile| + 9;
  }

  /** The script with its files: read, fix, write. */
  method ReplaceSlashRun(files: map<string, Json>, inputFile: string, outputFile: Option<string>)
    returns (r: Result<map<string, Json>>)
    ensures r == ReplaceSlash(files, inputFile, outputFile)
  {
    if inputFile !in files {
      return Err(FileNotFound);
    }
    var cocoData := files[inputFile];
    var fixed: Json;
    match cocoData {
      case JObj(fields) =>
        if "images" !in fields {
          return Err(KeyError("images"));
        }
        match fields["images"] {
          case JArr(items) =>
            var images := FixImages(items);
            if images.Err? {
              return Err(images.failure);
            }
            fixed := JObj(fields["images" := JArr(images.value)]);
          case JObj(m) =>
            if |m| != 0 {
              return Err(TypeError);
            }
            fixed := cocoData;
          case JStr(t) =>
            if |t| != 0 {
              return Err(TypeError);
            }
            fixed := cocoData;
          case _ =>
            return Err(TypeError);
        }
      case _ =>
        return Err(TypeError);
    }
    var savePath := if outputFile.Some? && outputFile.value != "" then outputFile.value else inputFile;
    r := Ok(files[savePath := fixed]);
  }

  /** `replace_slash_in_filename_safe`. */
  method ReplaceSlashSafeRun(files: map<string, Json>, inputFile: string) returns (r: Result<map<string, Json>>)
    ensures r == ReplaceSlashSafe(files, inputFile)
  {
    var parts := SplitExtPath(inputFile);
    var outputFile := parts.0 + "_modified" + parts.1;
    r := ReplaceSlashRun(files, inputFile, Some(outputFile));
  }
}
