/** The photo file pipeline: `download_file` saves the upload under a fresh name in
    media/shelf, submits image files to the provenance check and converts HEIC photos to
    JPEG (`convert_heic_to_jpeg`); `save_file_to_post` sends the file with its form fields
    and deletes it. The disk is a map from path to size in bytes; the network, the image
    decoders and ImageMagick are inputs. */
module Files {
  import opened Values
  import opened Text
  import opened Paths
  import opened PhotoCheck
  import opened Services

  /** The files on disk: path to size in bytes. */
  type Disk = map<string, nat>

  /** The answer to the GET of the Telegram file URL. */
  datatype DownloadAnswer =
    | Downloaded(status: nat, size: nat)   // the status and the length of the body
    | RequestRaised(error: string)        // the request raised before an answer; the error's text
    | BodyRaised(error: string)           // status 200, but reading the body raised; the error's text

  /** What running `convert <heic> <jpeg>` gives. */
  datatype MagickRun =
    | MagickExited(output: Option<nat>)   // exit status 0; the size of the JPEG it left, if any
    | MagickFailed(stderr: string)        // non-zero exit status with its error output

  /** The two conversion strategies: Pillow with the HEIF opener (the size of the JPEG it
      saves, or None when it raises), then ImageMagick. */
  datatype HeicConversion = HeicConversion(pillow: Option<nat>, magick: MagickRun)

  /** The extensions whose files are submitted to the provenance check. */
  const IMAGE_EXTENSIONS: seq<string> := [".jpg", ".jpeg", ".png", ".heic", ".tiff", ".bmp"]

  /** The error `download_file` raises for a photo that fails the check. */
  const REJECTION: string := "Фото не содержит необходимые метаданные или было сделано более 5 минут назад."

  const UNKNOWN_MAGICK_ERROR: string := "Неизвестная ошибка"

  /** A `uuid4()` rendered as text: non-empty, with neither dots nor slashes. */
  predicate UniqueName(u: string) {
    u != [] && NoSeparators(u)
  }

  /** Where the download is written, and the path relative to media/ that is returned. */
  function SavePath(uuid: string, filename: string): string {
    "media/shelf/" + uuid + Ext(filename)
  }

  function ShelfPath(uuid: string, filename: string): string {
    "shelf/" + uuid + Ext(filename)
  }

  /** Whether the lower-cased extension of the original name selects the check. */
  predicate IsChecked(filename: string) {
    Ext(Lower(filename)) in IMAGE_EXTENSIONS
  }

  /** `heic_path.lower().endswith((".heic", ".heif"))`. */
  predicate IsHeicName(path: string) {
    LowerEndsWith(path, ".heic") || LowerEndsWith(path, ".heif")
  }

  /** `os.path.splitext(heic_path)[0] + ".jpg"`. */
  function JpegPath(path: string): string {
    Root(path) + ".jpg"
  }

  /** A name ending in .heic or .heif (in any case) is not its own JPEG name. */
  lemma JpegPathDiffers(path: string)
    requires IsHeicName(path)
    ensures JpegPath(path) != path
  {
    var j := JpegPath(path);
    assert Lower(path)[|path| - 1] == LowerChar(path[|path| - 1]);
    assert j[|j| - 1] == 'g';
  }

  /** The saved name keeps the extension of the original name. */
  lemma SavePathExt(uuid: string, filename: string)
    requires UniqueName(uuid)
    ensures Ext(SavePath(uuid, filename)) == Ext(filename)
  {
    SplitExtParts(filename);
    ExtOfStemWithExt("media/shelf/", uuid, Ext(filename));
  }

  /** The saved name has the same lower-cased extension as the original name, so the
      check and the conversion see the extension the user's file came with. */
  lemma SavePathLowerExt(uuid: string, filename: string)
    requires UniqueName(uuid)
    ensures Ext(Lower(SavePath(uuid, filename))) == Ext(Lower(filename))
  {
    SavePathExt(uuid, filename);
    ExtOfLower(SavePath(uuid, filename));
    ExtOfLower(filename);
  }

  /** The root of the saved name is the shelf directory and the unique name. */
  lemma SavePathRoot(uuid: string, filename: string)
    requires UniqueName(uuid)
    ensures Root(SavePath(uuid, filename)) == "media/shelf/" + uuid
  {
    var p := SavePath(uuid, filename);
    SavePathExt(uuid, filename);
    SplitExtParts(p);
    assert |Root(p)| == |p| - |Ext(filename)|;
    assert Root(p) == p[..|Root(p)|];
  }

  /** The returned path is the saved name relative to media/. */
  lemma ShelfPathUnderMedia(uuid: string, filename: string)
    ensures "media/" + ShelfPath(uuid, filename) == SavePath(uuid, filename)
  {
    assert "media/" + "shelf/" == "media/shelf/";
  }

  /** The base name of a path under media/shelf/ is the part after the directory. */
  lemma {:induction false} ShelfBasename(name: string)
    requires '/' !in name
    ensures Basename("media/shelf/" + name) == name
  {
    var p := "media/shelf/" + name;
    var i := RFind(p, '/');
    assert p[11] == '/';
    forall j | 11 < j < |p|
      ensures p[j] != '/'
    {
      assert p[j] == name[j - 12];
    }
    assert i == 11;
  }

  /** What the two strategies leave on disk: the JPEG Pillow saved; or, when Pillow
      raised, the JPEG ImageMagick left (if any); or the ImageMagick error. */
  function Converted(disk: Disk, jpeg: string, conv: HeicConversion): (r: Result<Disk, string>)
    ensures conv.pillow.Some? ==> r == Ok(disk[jpeg := conv.pillow.value])
    ensures r.Ok? ==> r.value - {jpeg} == disk - {jpeg}
    ensures r.Err? <==> conv.pillow.None? && conv.magick.MagickFailed?
  {
    match conv.pillow
    case Some(size) => Ok(disk[jpeg := size])
    case None =>
      match conv.magick
      case MagickFailed(stderr) =>
        Err("ImageMagick failed: " + (if stderr == "" then UNKNOWN_MAGICK_ERROR else stderr))
      case MagickExited(output) =>
        if output.Some? then Ok(disk[jpeg := output.value]) else Ok(disk)
  }

  /** `convert_heic_to_jpeg(path)`: the new disk and the returned path or raised error.
      A name without a HEIC extension comes back unchanged. Otherwise the JPEG is the
      root plus ".jpg", and the original is deleted only once the JPEG exists and is not
      empty; every failure leaves the original in place. Only the two names are touched. */
  function Convert(disk: Disk, path: string, conv: HeicConversion): (out: (Disk, Result<string, string>))
    ensures !IsHeicName(path) ==> out == (disk, Ok(path))
    ensures IsHeicName(path) && out.1.Ok? ==>
      out.1.value == JpegPath(path) && JpegPath(path) in out.0 && out.0[JpegPath(path)] > 0 && path !in out.0
    ensures out.1.Err? ==> (path in disk <==> path in out.0)
    ensures out.0 - {path, JpegPath(path)} == disk - {path, JpegPath(path)}
    ensures IsHeicName(path) && conv.pillow.None? && conv.magick.MagickFailed? ==>
      out == (disk, Err("ImageMagick failed: "
        + (if conv.magick.stderr == "" then UNKNOWN_MAGICK_ERROR else conv.magick.stderr)))
  {
    if !IsHeicName(path) then (disk, Ok(path))
    else
      var jpeg := JpegPath(path);
      JpegPathDiffers(path);
      match Converted(disk, jpeg, conv)
      case Err(e) => (disk, Err(e))
      case Ok(d) =>
        OnlyTwoNamesTouched(disk, d, path, jpeg);
        if jpeg !in d then (d, Err("Не удалось создать JPEG файл: " + jpeg))
        else if d[jpeg] == 0 then (d, Err("Созданный JPEG файл пустой"))
        else (d - {path}, Ok(jpeg))
  }

  /** Writing the JPEG and deleting the original change the disk at those two names only. */
  lemma OnlyTwoNamesTouched(disk: Disk, d: Disk, path: string, jpeg: string)
    requires d - {jpeg} == disk - {jpeg} && path != jpeg
    ensures d - {path, jpeg} == disk - {path, jpeg}
    ensures (d - {path}) - {path, jpeg} == disk - {path, jpeg}
    ensures path in d <==> path in disk
  {
    assert path in d <==> path in d - {jpeg};
    var a, b := d - {path, jpeg}, disk - {path, jpeg};
    forall k
      ensures k in a <==> k in b
      ensures k in a ==> a[k] == b[k]
    {
      if k != path && k != jpeg {
        assert k in a <==> k in d - {jpeg};
        assert k in b <==> k in disk - {jpeg};
        if k in a {
          assert a[k] == (d - {jpeg})[k] && b[k] == (disk - {jpeg})[k];
        }
      }
    }
    assert a == b;
    assert (d - {path}) - {path, jpeg} == a;
  }

  /** Writing a file and then deleting it leaves the disk as it was, less that name. */
  lemma WriteThenRemove(disk: Disk, path: string, size: nat)
    ensures disk[path := size] - {path} == disk - {path}
  {
  }

  /** The strategies are tried in order: once Pillow has saved the JPEG, ImageMagick's
      behaviour makes no difference. */
  lemma PillowFirst(disk: Disk, path: string, pillow: nat, m1: MagickRun, m2: MagickRun)
    ensures Convert(disk, path, HeicConversion(Some(pillow), m1))
         == Convert(disk, path, HeicConversion(Some(pillow), m2))
  {
  }

  /** The request succeeded with status 200. */
  predicate Fetched(answer: DownloadAnswer) {
    answer.Downloaded? && answer.status == 200
  }

  /** `download_file(url, filename)`: the new disk and the relative path returned or the
      error raised. */
  function Download(disk: Disk, answer: DownloadAnswer, filename: string, uuid: string,
                    probe: Probe, nowMicros: int, conv: HeicConversion): (out: (Disk, Result<string, string>))
    requires UniqueName(uuid)
    // a returned path names a file on disk, relative to media/
    ensures out.1.Ok? ==> "media/" + out.1.value in out.0
    ensures out.1.Ok? ==> (out.0 - {"media/" + out.1.value}).Keys <= disk.Keys
    // a failed or refused request writes nothing
    ensures answer.RequestRaised? ==> out == (disk, Err(answer.error))
    // a body that cannot be read leaves the empty file opened for it
    ensures answer.BodyRaised? ==> out == (disk[SavePath(uuid, filename) := 0], Err(answer.error))
    ensures answer.Downloaded? && answer.status != 200 ==>
      out == (disk, Err("Failed to download file: " + DecimalText(answer.status)))
    // names outside the image list are saved and returned unchecked
    ensures Fetched(answer) && !IsChecked(filename) ==>
      out == (disk[SavePath(uuid, filename) := answer.size], Ok(ShelfPath(uuid, filename)))
    // a photo that fails the check leaves no file behind
    ensures Fetched(answer) && IsChecked(filename) && !PhotoAccepted(SavePath(uuid, filename), probe, nowMicros)
      ==>
      out == (disk - {SavePath(uuid, filename)}, Err(REJECTION))
    // a photo that passes is kept as it came, unless it is HEIC
    ensures Fetched(answer) && IsChecked(filename) && Ext(Lower(filename)) != ".heic"
            && PhotoAccepted(SavePath(uuid, filename), probe, nowMicros)
      ==>
      out == (disk[SavePath(uuid, filename) := answer.size], Ok(ShelfPath(uuid, filename)))
    // a HEIC photo that passes is replaced by its JPEG
    ensures Fetched(answer) && Ext(Lower(filename)) == ".heic"
            && PhotoAccepted(SavePath(uuid, filename), probe, nowMicros)
      ==>
      out == (var c := Convert(disk[SavePath(uuid, filename) := answer.size], SavePath(uuid, filename), conv);
              (c.0, if c.1.Ok? then Ok("shelf/" + uuid + ".jpg") else c.1))
  {
    match answer
    case RequestRaised(e) => (disk, Err(e))
    case BodyRaised(e) => (disk[SavePath(uuid, filename) := 0], Err(e))
    case Downloaded(status, size) =>
      if status != 200 then (disk, Err("Failed to download file: " + DecimalText(status)))
      else
        var save := SavePath(uuid, filename);
        var written := disk[save := size];
        var ext := Ext(Lower(filename));
        if ext !in IMAGE_EXTENSIONS then
          ShelfPathUnderMedia(uuid, filename); (written, Ok(ShelfPath(uuid, filename)))
        else if !PhotoAccepted(save, probe, nowMicros) then
          WriteThenRemove(disk, save, size); (written - {save}, Err(REJECTION))
        else if ext in [".heic", ".heif"] then
          assert ext == ".heic";
          ConvertSavedLeavesNoFile(written, uuid, filename, conv);
          ConvertSaved(written, uuid, filename, conv)
        else
          ShelfPathUnderMedia(uuid, filename); (written, Ok(ShelfPath(uuid, filename)))
  }

  /** The HEIC branch of `download_file`: convert the saved file and return the JPEG's
      path under shelf/, or pass the conversion error on. */
  function ConvertSaved(written: Disk, uuid: string, filename: string, conv: HeicConversion)
    : (out: (Disk, Result<string, string>))
    requires UniqueName(uuid) && Ext(Lower(filename)) == ".heic"
    ensures out.1.Ok? ==> "media/" + out.1.value in out.0
    ensures out == (var c := Convert(written, SavePath(uuid, filename), conv);
                    (c.0, if c.1.Ok? then Ok("shelf/" + uuid + ".jpg") else c.1))
  {
    var save := SavePath(uuid, filename);
    HeicSaveIsConverted(uuid, filename);
    MediaShelfJpeg(uuid);
    var c := Convert(written, save, conv);
    if c.1.Ok? then
      assert c.1.value == JpegPath(save);
      assert "shelf/" + (uuid + ".jpg") == "shelf/" + uuid + ".jpg";
      (c.0, Ok("shelf/" + Basename(c.1.value)))
    else c
  }

  /** Once the JPEG of a converted download is deleted, only names that were there
      before, less the saved original, remain. */
  lemma ConvertSavedLeavesNoFile(written: Disk, uuid: string, filename: string, conv: HeicConversion)
    requires UniqueName(uuid) && Ext(Lower(filename)) == ".heic"
    ensures var out := ConvertSaved(written, uuid, filename, conv);
      out.1.Ok? ==> (out.0 - {"media/" + out.1.value}).Keys <= written.Keys - {SavePath(uuid, filename)}
  {
    var save := SavePath(uuid, filename);
    var out := ConvertSaved(written, uuid, filename, conv);
    var c := Convert(written, save, conv);
    if out.1.Ok? {
      HeicSaveIsConverted(uuid, filename);
      ConvertedThenDeleted(written, save, conv);
      MediaShelfJpeg(uuid);
      assert "media/" + out.1.value == JpegPath(save);
      assert out.0 == c.0;
    }
  }

  /** The JPEG's path under media/ is the returned path under shelf/. */
  lemma MediaShelfJpeg(uuid: string)
    ensures "media/" + ("shelf/" + uuid + ".jpg") == "media/shelf/" + uuid + ".jpg"
  {
    assert "media/" + "shelf/" == "media/shelf/";
  }

  /** After a successful conversion and the deletion of the JPEG, only names that were
      there before the conversion, less the original, remain. */
  lemma ConvertedThenDeleted(written: Disk, path: string, conv: HeicConversion)
    requires IsHeicName(path)
    ensures Convert(written, path, conv).1.Ok? ==>
      (Convert(written, path, conv).0 - {JpegPath(path)}).Keys <= written.Keys - {path}
  {
    var c := Convert(written, path, conv);
    if c.1.Ok? {
      forall k | k in c.0 - {JpegPath(path)}
        ensures k in written.Keys - {path}
      {
        assert k != path;
        assert k in c.0 - {path, JpegPath(path)};
      }
    }
  }

  /** A checked HEIC download is a HEIC name, and its JPEG lies in the shelf directory
      under the unique name with the extension ".jpg". */
  lemma HeicSaveIsConverted(uuid: string, filename: string)
    requires UniqueName(uuid) && Ext(Lower(filename)) == ".heic"
    ensures IsHeicName(SavePath(uuid, filename))
    ensures JpegPath(SavePath(uuid, filename)) == "media/shelf/" + uuid + ".jpg"
    ensures Basename(JpegPath(SavePath(uuid, filename))) == uuid + ".jpg"
  {
    SavedHeicIsHeicName(uuid, filename);
    SavePathRoot(uuid, filename);
    assert "media/shelf/" + uuid + ".jpg" == "media/shelf/" + (uuid + ".jpg");
    ShelfBasename(uuid + ".jpg");
  }

  /** The saved name of a ".heic" download still ends in ".heic". */
  lemma SavedHeicIsHeicName(uuid: string, filename: string)
    requires UniqueName(uuid) && Ext(Lower(filename)) == ".heic"
    ensures IsHeicName(SavePath(uuid, filename))
  {
    var p := SavePath(uuid, filename);
    SavePathLowerExt(uuid, filename);
    SplitExtParts(Lower(p));
    assert EndsWith(Lower(p), ".heic");
  }

  /** A ".heif" name is outside the image list: it is neither checked nor converted. */
  lemma HeifIsNeitherCheckedNorConverted(disk: Disk, size: nat, filename: string, uuid: string,
                                         probe: Probe, nowMicros: int, conv: HeicConversion)
    requires UniqueName(uuid) && Ext(Lower(filename)) == ".heif"
    ensures Download(disk, Downloaded(200, size), filename, uuid, probe, nowMicros, conv)
         == (disk[SavePath(uuid, filename) := size], Ok(ShelfPath(uuid, filename)))
  {
    assert !IsChecked(filename);
  }

  /** The local file disk and the operations that change it. */
  class FileSystem {
    var files: Disk

    constructor (initial: Disk)
      ensures files == initial
    {
      files := initial;
    }

    /** `convert_heic_to_jpeg`, step by step. */
    method ConvertHeicToJpeg(path: string, conv: HeicConversion) returns (r: Result<string, string>)
      modifies this
      ensures (files, r) == Convert(old(files), path, conv)
    {
      if !IsHeicName(path) {
        return Ok(path);
      }
      var jpeg := JpegPath(path);
      if conv.pillow.Some? {
        files := files[jpeg := conv.pillow.value];
      } else {
        match conv.magick
        case MagickFailed(stderr) =>
          var message := if stderr == "" then UNKNOWN_MAGICK_ERROR else stderr;
          return Err("ImageMagick failed: " + message);
        case MagickExited(output) =>
          if output.Some? {
            files := files[jpeg := output.value];
          }
      }
      if jpeg !in files {
        return Err("Не удалось создать JPEG файл: " + jpeg);
      }
      if files[jpeg] == 0 {
        return Err("Созданный JPEG файл пустой");
      }
      if path in files {
        files := files - {path};
      } else {
        assert files - {path} == files;
      }
      r := Ok(jpeg);
    }

    /** `download_file`, step by step. */
    method DownloadFile(answer: DownloadAnswer, filename: string, uuid: string, probe: Probe,
                        nowMicros: int, conv: HeicConversion) returns (r: Result<string, string>)
      requires UniqueName(uuid)
      modifies this
      ensures (files, r) == Download(old(files), answer, filename, uuid, probe, nowMicros, conv)
    {
      var ext := Ext(filename);
      var save := "media/shelf/" + uuid + ext;
      var relative := "shelf/" + uuid + ext;
      if answer.RequestRaised? {
        return Err(answer.error);
      }
      if answer.BodyRaised? {
        files := files[save := 0];  // the file is opened for writing before the body is read
        return Err(answer.error);
      }
      if answer.status != 200 {
        return Err("Failed to download file: " + DecimalText(answer.status));
      }
      files := files[save := answer.size];
      var fileExtension := Ext(Lower(filename));
      if fileExtension in IMAGE_EXTENSIONS {
        var isValid := CheckPhotoCreationTime(save, probe, nowMicros);
        if !isValid {
          if save in files {
            files := files - {save};
          }
          return Err(REJECTION);
        }
        if fileExtension in [".heic", ".heif"] {
          var converted := ConvertHeicToJpeg(save, conv);
          if converted.Err? {
            return converted;
          }
          relative := "shelf/" + Basename(converted.value);
        }
      }
      r := Ok(relative);
    }

    /** `save_file_to_post(agent, store, relative_path, ...)`: opens media/<relative_path>,
        sends it with the non-None form fields and reports the post's result; the file
        is deleted on every path. `sent` is the form that went out, None when the file
        could not be opened. */
    method SaveFileToPost(agent: Value, store: Value, relative: string, latitude: Value,
                          longitude: Value, postType: Value, dmpType: Value, answer: PostAnswer)
      returns (result: PostResult, sent: Option<Fields>)
      modifies this
      ensures files == old(files) - {"media/" + relative}
      ensures "media/" + relative !in old(files) ==> sent == None && result.Failed?
      ensures "media/" + relative in old(files) ==>
        sent == Some(PhotoFormFields(agent, store, latitude, longitude, postType, dmpType))
        && result == PostOutcome(answer)
    {
      var filePath := "media/" + relative;
      if filePath !in files {
        return Failed("[Errno 2] No such file or directory: '" + filePath + "'"), None;
      }
      sent := Some(PhotoFormFields(agent, store, latitude, longitude, postType, dmpType));
      files := files - {filePath};
      result := PostOutcome(answer);
    }
  }
}
