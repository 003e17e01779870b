/** The photo provenance check (`check_photo_creation_time` with `get_heic_metadata`):
    the file's extension picks the metadata reader, the reader's answer gives a capture
    time, and the photo passes when it was taken at most five minutes before the clock.
    The readers (exiftool for HEIC, Pillow and piexif for the rest) and the clock are
    inputs: a `Probe` holds what each reader reports for the file. */
module PhotoCheck {
  import opened Values
  import opened Text
  import opened Paths
  import opened ExifTime

  /** What running exiftool on a HEIC file gives. */
  datatype HeicReading =
    | ExiftoolMissing                                 // `exiftool -ver` fails: not installed
    | ExiftoolFailed                                  // non-zero exit status
    | ExiftoolUnparsable                              // its output is not JSON
    | ExiftoolOutput(records: seq<map<string, Value>>)  // the parsed JSON list

  /** The DateTime tag of the 0th IFD, as piexif reports it. */
  datatype ExifTag = TagAbsent | TagUndecodable | TagText(text: string)

  /** What opening a non-HEIC file with Pillow and loading its EXIF block with piexif gives. */
  datatype RasterReading =
    | Unopenable                        // `Image.open` raises
    | NoExif                            // no `_getexif`, or it returns nothing
    | ExifUnloadable                    // `piexif.load` raises
    | ExifLoaded(dateTime: ExifTag)

  /** What each reader reports for one file; the extension decides which is consulted. */
  datatype Probe = Probe(heic: HeicReading, raster: RasterReading)

  /** `get_heic_metadata`: the first record of exiftool's output, or None for every
      failure (missing tool, failed run, unparsable or empty output). */
  function GetHeicMetadata(r: HeicReading): (md: Option<map<string, Value>>)
    ensures md.Some? <==> r.ExiftoolOutput? && |r.records| > 0
    ensures md.Some? ==> md.value == r.records[0]
  {
    match r
    case ExiftoolOutput(records) => if |records| == 0 then None else Some(records[0])
    case _ => None
  }

  /** The HEIC timestamp fields, in the order they are tried. */
  const TIMESTAMP_FIELDS: seq<string> := ["DateTimeOriginal", "CreateDate"]

  /** The value of the first field that is present with a truthy value, or None. */
  function FirstTimestamp(md: map<string, Value>, fields: seq<string>): (v: Value)
    ensures v == Null || (Truthy(v) && exists i :: 0 <= i < |fields| && Get(md, fields[i]) == v)
  {
    if fields == [] then Null
    else if Truthy(Get(md, fields[0])) then Get(md, fields[0])
    else
      var v := FirstTimestamp(md, fields[1..]);
      assert v != Null ==> exists i :: 0 <= i < |fields[1..]| && Get(md, fields[1..][i]) == v;
      assert v != Null ==> exists i :: 1 <= i < |fields| && Get(md, fields[i]) == v;
      v
  }

  /** The first-match field search of the HEIC branch: a loop over the fields that
      stops at the first present, truthy value. */
  method FindTimestamp(md: map<string, Value>, fields: seq<string>) returns (v: Value)
    ensures v == FirstTimestamp(md, fields)
  {
    v := Null;
    var i := 0;
    while i < |fields|
      invariant 0 <= i <= |fields|
      invariant v == Null
      invariant FirstTimestamp(md, fields) == FirstTimestamp(md, fields[i..])
    {
      var field := fields[i];
      assert fields[i..][0] == field && fields[i..][1..] == fields[i + 1..];
      if field in md && Truthy(md[field]) {
        v := md[field];
        return;
      }
      i := i + 1;
    }
  }

  /** DateTimeOriginal wins whenever it is present and non-empty; CreateDate is used only
      when it is not; with neither there is no timestamp. */
  lemma {:induction false} TimestampFieldOrder(md: map<string, Value>)
    ensures Truthy(Get(md, "DateTimeOriginal")) ==> FirstTimestamp(md, TIMESTAMP_FIELDS) == md["DateTimeOriginal"]
    ensures !Truthy(Get(md, "DateTimeOriginal")) ==> FirstTimestamp(md, TIMESTAMP_FIELDS) == Get(md, "CreateDate") || (FirstTimestamp(md, TIMESTAMP_FIELDS) == Null && !Truthy(Get(md, "CreateDate")))
    ensures FirstTimestamp(md, TIMESTAMP_FIELDS) == Null <==> !Truthy(Get(md, "DateTimeOriginal")) && !Truthy(Get(md, "CreateDate"))
  {
    assert TIMESTAMP_FIELDS[1..] == ["CreateDate"];
    assert TIMESTAMP_FIELDS[1..][1..] == [];
  }

  /** Five minutes, in microseconds. */
  const FRESHNESS_MICROS: int := 5 * 60 * 1000000

  /** `current_time - photo_time <= timedelta(minutes=5)`, both times localised to the
      same zone, whose offset is taken to be the same for both and so cancels out of the
      difference. */
  predicate IsFresh(nowMicros: int, capture: DateTime)
    requires ExifTime.Valid(capture)
  {
    nowMicros - Micros(capture) <= FRESHNESS_MICROS
  }

  /** The decision of the HEIC branch. */
  function HeicDecision(reading: HeicReading, nowMicros: int): bool {
    var md := GetHeicMetadata(reading);
    if md.None? || md.value == map[] then false
    else
      match FirstTimestamp(md.value, TIMESTAMP_FIELDS)
      case Str(text) =>
        (match HeicDateTime(text)
         case Some(dt) => IsFresh(nowMicros, dt)
         case None => false)
      case _ => false  // no timestamp, or a non-text value the regular expression raises on
  }

  /** The decision of the Pillow/piexif branch. */
  function RasterDecision(reading: RasterReading, nowMicros: int): bool {
    match reading
    case ExifLoaded(TagText(text)) =>
      (match Strptime(text)
       case Some(dt) => IsFresh(nowMicros, dt)
       case None => false)
    case _ => false
  }

  /** Whether the HEIC reader decides: the lower-cased path has the extension ".heic". */
  predicate UsesHeicReader(path: string) {
    Ext(Lower(path)) == ".heic"
  }

  /** `check_photo_creation_time(path)` as a function of the readers' answers and the clock. */
  function PhotoAccepted(path: string, probe: Probe, nowMicros: int): bool {
    if UsesHeicReader(path) then HeicDecision(probe.heic, nowMicros)
    else RasterDecision(probe.raster, nowMicros)
  }

  /** `check_photo_creation_time`: picks the reader by extension, runs the field search
      for HEIC files, parses the timestamp and applies the freshness rule. */
  method CheckPhotoCreationTime(path: string, probe: Probe, nowMicros: int) returns (ok: bool)
    ensures ok == PhotoAccepted(path, probe, nowMicros)
  {
    if Ext(Lower(path)) == ".heic" {
      var md := GetHeicMetadata(probe.heic);
      if md.None? || md.value == map[] {
        return false;
      }
      var stamp := FindTimestamp(md.value, TIMESTAMP_FIELDS);
      if !stamp.Str? {
        return false;
      }
      var dt := HeicDateTime(stamp.s);
      if dt.None? {
        return false;
      }
      ok := nowMicros - Micros(dt.value) <= FRESHNESS_MICROS;
    } else {
      if !probe.raster.ExifLoaded? || !probe.raster.dateTime.TagText? {
        return false;
      }
      var dt := Strptime(probe.raster.dateTime.text);
      if dt.None? {
        return false;
      }
      ok := nowMicros - Micros(dt.value) <= FRESHNESS_MICROS;
    }
  }

  /** A HEIC photo whose exiftool record carries a well-formed DateTimeOriginal (with
      anything after it) passes exactly when it is fresh; with no such field, a
      well-formed CreateDate decides instead. */
  lemma HeicAcceptedIffFresh(path: string, probe: Probe, nowMicros: int, dt: DateTime, trailing: string)
    requires UsesHeicReader(path) && ExifTime.Valid(dt)
    requires probe.heic.ExiftoolOutput? && |probe.heic.records| > 0
    requires var md := probe.heic.records[0];
      Get(md, "DateTimeOriginal") == Str(Format(dt) + trailing)
      || (!Truthy(Get(md, "DateTimeOriginal")) && Get(md, "CreateDate") == Str(Format(dt) + trailing))
    ensures PhotoAccepted(path, probe, nowMicros) <==> IsFresh(nowMicros, dt)
  {
    var md := probe.heic.records[0];
    TimestampFieldOrder(md);
    assert "DateTimeOriginal" in md || "CreateDate" in md;
    assert md != map[];
    assert FirstTimestamp(md, TIMESTAMP_FIELDS) == Str(Format(dt) + trailing);
    MatchHeicDateIgnoresTrailing(Format(dt), trailing);
    MatchHeicDateOfFormat(dt);
  }

  /** A non-HEIC photo whose 0th-IFD DateTime is exactly a valid timestamp passes exactly
      when it is fresh; trailing text after the seconds makes it fail. */
  lemma RasterAcceptedIffFresh(path: string, probe: Probe, nowMicros: int, dt: DateTime, trailing: string)
    requires !UsesHeicReader(path) && ExifTime.Valid(dt)
    requires probe.raster == ExifLoaded(TagText(Format(dt) + trailing))
    ensures PhotoAccepted(path, probe, nowMicros) <==> trailing == [] && IsFresh(nowMicros, dt)
  {
    if trailing == [] {
      assert Format(dt) + trailing == Format(dt);
      StrptimeOfFormat(dt);
    } else {
      TrailingTextSplitsTheParsers(dt, trailing);
    }
  }

  /** Without a capture time there is no pass: a missing or failing exiftool, an empty
      record, no timestamp field; or no EXIF, an unreadable image or a missing DateTime tag. */
  lemma NoTimestampRejected(path: string, probe: Probe, nowMicros: int)
    requires UsesHeicReader(path) ==>
      GetHeicMetadata(probe.heic).None?
      || (!Truthy(Get(GetHeicMetadata(probe.heic).value, "DateTimeOriginal"))
          && !Truthy(Get(GetHeicMetadata(probe.heic).value, "CreateDate")))
    requires !UsesHeicReader(path) ==> !(probe.raster.ExifLoaded? && probe.raster.dateTime.TagText?)
    ensures !PhotoAccepted(path, probe, nowMicros)
  {
    if UsesHeicReader(path) && GetHeicMetadata(probe.heic).Some? {
      TimestampFieldOrder(GetHeicMetadata(probe.heic).value);
    }
  }

  /** The freshness rule on concrete ages: four minutes old passes, six minutes old fails,
      and a capture time ahead of the clock passes. */
  lemma FreshnessExamples(dt: DateTime)
    requires ExifTime.Valid(dt)
    ensures IsFresh(Micros(dt) + 4 * 60 * 1000000, dt)
    ensures !IsFresh(Micros(dt) + 6 * 60 * 1000000, dt)
    ensures IsFresh(Micros(dt) + FRESHNESS_MICROS, dt)
    ensures !IsFresh(Micros(dt) + FRESHNESS_MICROS + 1, dt)
    ensures forall now :: now <= Micros(dt) ==> IsFresh(now, dt)
  {
  }

  /** Of two valid capture times, the later one is fresh whenever the earlier one is. */
  lemma LaterCaptureStaysFresh(nowMicros: int, a: DateTime, b: DateTime)
    requires ExifTime.Valid(a) && ExifTime.Valid(b) && Earlier(a, b)
    requires IsFresh(nowMicros, a)
    ensures IsFresh(nowMicros, b)
  {
    MicrosMonotone(a, b);
  }
}
