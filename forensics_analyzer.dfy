/**
 * The forensics analyzer: GPS coordinates left in image metadata, the
 * clustering of a file's modification and access times, and the number of
 * deleted files that can still be recovered.
 *
 * A dictionary argument becomes a datatype of `Option` fields (`None` for a
 * missing key); time stamps are whole seconds.
 */
module ForensicsAnalyzer {
  import opened Common

  // ---------------------------------------------------------------------------
  // EXIF GPS
  // ---------------------------------------------------------------------------

  /** The EXIF keys the analyzer reads; coordinates are numbers. */
  datatype Exif = Exif(gpsLatitude: Option<real>, gpsLongitude: Option<real>, model: Option<string>, dateTime: Option<string>)

  /** Python truthiness of a coordinate: present and non-zero. */
  predicate Truthy(o: Option<real>)
  {
    o.Some? && o.value != 0.0
  }

  datatype GpsResult =
    | GpsFound(latitude: real, longitude: real, cameraModel: string, timestamp: string,
               visibility: real, retention: real, correlation: real,
               attributionWeight: real, risk: Risk, mitigation: string)
    | GpsAbsent(attributionWeight: real)

  /**
   * `analyze_exif_gps`: GPS is found exactly when both coordinates are truthy
   * (a zero coordinate counts as absent); the result then echoes them, with
   * 'unknown' for a missing camera model or time, and weighs 0.81, CRITICAL.
   */
  function AnalyzeExifGps(exif: Exif): (r: GpsResult)
    ensures r.GpsFound? <==> Truthy(exif.gpsLatitude) && Truthy(exif.gpsLongitude)
    ensures r.GpsFound? ==> r.latitude == exif.gpsLatitude.value && r.longitude == exif.gpsLongitude.value
                            && r.cameraModel == (if exif.model.Some? then exif.model.value else "unknown")
                            && r.timestamp == (if exif.dateTime.Some? then exif.dateTime.value else "unknown")
                            && r.attributionWeight == 0.81 && r.risk == Critical
    ensures r.GpsAbsent? ==> r.attributionWeight == 0.0
  {
    if Truthy(exif.gpsLatitude) && Truthy(exif.gpsLongitude) then
      GpsFound(exif.gpsLatitude.value, exif.gpsLongitude.value,
               if exif.model.Some? then exif.model.value else "unknown",
               if exif.dateTime.Some? then exif.dateTime.value else "unknown",
               0.9, 1.0, 0.9, 0.81, Critical, "Strip EXIF before publishing: exiftool -all= image.jpg")
    else GpsAbsent(0.0)
  }

  /** The fixed GPS weight is visibility times retention times correlation. */
  lemma GpsWeightIsProduct(exif: Exif)
    requires AnalyzeExifGps(exif).GpsFound?
    ensures var r := AnalyzeExifGps(exif); r.attributionWeight == r.visibility * r.retention * r.correlation
  {
  }

  // ---------------------------------------------------------------------------
  // MAC times
  // ---------------------------------------------------------------------------

  datatype FileMetadata = FileMetadata(modified: Option<int>, accessed: Option<int>, created: Option<int>)

  datatype MacResult =
    | MacTimes(modified: int, accessed: int, created: Option<int>, timeDiffSeconds: nat,
               attributionWeight: real, risk: Risk, mitigation: string)
    | NoMacTimes(attributionWeight: real)

  /** The correlation and risk of a time difference in seconds. */
  function MacBand(timeDiff: nat): (band: (real, Risk))
    ensures timeDiff < 3600 <==> band == (0.8, High)
    ensures 3600 <= timeDiff < 86400 <==> band == (0.5, Medium)
    ensures timeDiff >= 86400 <==> band == (0.3, Low)
  {
    if timeDiff < 3600 then (0.8, High)
    else if timeDiff < 86400 then (0.5, Medium)
    else (0.3, Low)
  }

  /**
   * `analyze_mac_times`: with both the modification and the access time the
   * result holds their distance, its band's risk and a weight of 0.7 * 0.9
   * times the band's correlation, and echoes the creation time; with either
   * missing the weight is 0.0 and nothing else is reported.
   */
  function AnalyzeMacTimes(m: FileMetadata): (r: MacResult)
    ensures r.MacTimes? <==> m.modified.Some? && m.accessed.Some?
    ensures r.MacTimes? ==>
              && r.modified == m.modified.value && r.accessed == m.accessed.value && r.created == m.created
              && (r.timeDiffSeconds == r.modified - r.accessed || r.timeDiffSeconds == r.accessed - r.modified)
              && r.risk == MacBand(r.timeDiffSeconds).1
              && r.attributionWeight == 0.7 * 0.9 * MacBand(r.timeDiffSeconds).0
    ensures r.NoMacTimes? ==> r.attributionWeight == 0.0
  {
    if m.modified.Some? && m.accessed.Some? then
      var timeDiff := AbsDiff(m.modified.value, m.accessed.value);
      var band := MacBand(timeDiff);
      MacTimes(m.modified.value, m.accessed.value, m.created, timeDiff, 0.7 * 0.9 * band.0, band.1,
               "Touch files to randomize MAC times")
    else NoMacTimes(0.0)
  }

  /** Exchanging the two times changes neither the distance, the weight nor the risk. */
  lemma MacTimesSymmetric(a: int, b: int, created: Option<int>)
    ensures var r, s := AnalyzeMacTimes(FileMetadata(Some(a), Some(b), created)),
                        AnalyzeMacTimes(FileMetadata(Some(b), Some(a), created));
            r.timeDiffSeconds == s.timeDiffSeconds && r.attributionWeight == s.attributionWeight && r.risk == s.risk
  {
  }

  /** The creation time is only echoed: it never affects the weight or the risk. */
  lemma CreatedIsIgnored(modified: Option<int>, accessed: Option<int>, c1: Option<int>, c2: Option<int>)
    ensures AnalyzeMacTimes(FileMetadata(modified, accessed, c1)).attributionWeight
         == AnalyzeMacTimes(FileMetadata(modified, accessed, c2)).attributionWeight
    ensures AnalyzeMacTimes(FileMetadata(modified, accessed, c1)).MacTimes? ==>
              AnalyzeMacTimes(FileMetadata(modified, accessed, c1)).risk == AnalyzeMacTimes(FileMetadata(modified, accessed, c2)).risk
  {
  }

  // ---------------------------------------------------------------------------
  // Deleted files
  // ---------------------------------------------------------------------------

  datatype DeletedFiles = DeletedFiles(deletedFilesCount: nat, recoverable: bool, attributionWeight: real, risk: Risk, mitigation: string)

  /**
   * `analyze_deleted_files`: the number of deleted files (none when the key
   * is missing); more than 10 is HIGH (0.7), at least one MEDIUM (0.4), none
   * LOW (0.0), and the files are recoverable exactly when there is one.
   */
  function AnalyzeDeletedFiles(deletedFiles: Option<seq<string>>): (r: DeletedFiles)
    ensures r.deletedFilesCount == (if deletedFiles.Some? then |deletedFiles.value| else 0)
    ensures r.recoverable <==> r.deletedFilesCount > 0
    ensures r.deletedFilesCount > 10 <==> (r.attributionWeight, r.risk) == (0.7, High)
    ensures 0 < r.deletedFilesCount <= 10 <==> (r.attributionWeight, r.risk) == (0.4, Medium)
    ensures r.deletedFilesCount == 0 <==> (r.attributionWeight, r.risk) == (0.0, Low)
  {
    var deletedCount := if deletedFiles.Some? then |deletedFiles.value| else 0;
    var mitigation := "Secure delete: shred -vfz -n 35 sensitive_file.txt";
    if deletedCount > 10 then DeletedFiles(deletedCount, true, 0.7, High, mitigation)
    else if deletedCount > 0 then DeletedFiles(deletedCount, true, 0.4, Medium, mitigation)
    else DeletedFiles(deletedCount, false, 0.0, Low, mitigation)
  }
}
