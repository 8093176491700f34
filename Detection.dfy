/**
 * What one call of `detect_vehicles` produces, as a function of what its
 * collaborators (OpenCV, the detector, the clock, the file system) yield.
 */
module Detection {
  import opened Wrappers
  import opened Decimal
  import opened Imaging
  import opened Counting
  import opened OutputPath
  import opened Storage

  /** The shape `cv2.imread` reports, as (width, height). */
  datatype Dims = Dims(width: nat, height: nat)

  /** The answers of the collaborators for one call. */
  datatype DetectEnv = DetectEnv(
    image: Option<Dims>,      // None when cv2.imread cannot read the file
    inferenceRaises: bool,    // the detector call raised
    results: seq<seq<Box>>,   // otherwise its boxes, result by result
    makeDirRaises: bool,      // os.makedirs("images") raised
    now: DateTime,            // datetime.now()
    saveFails: bool,          // cv2.imwrite did not write the file (raised, caught and logged, or returned False)
    countOpenRaises: bool,    // open("vehicle_count.txt", "w") raised; caught and logged
    countWriteRaises: bool)   // the write or the closing flush raised after open; caught and logged

  /**
   * The outcome: the returned count (None for failure), the labels collected,
   * the annotated image written, and the text written to the count file.
   */
  datatype Detection = Detection(result: Option<nat>, labels: seq<Label>, savedImage: Option<string>, countText: Option<string>)

  const Failed: Detection := Detection(None, [], None, None)

  /**
   * The inputs on which an exception ends the call in `return None`: an
   * unreadable image, a zero dimension, an image so elongated that one side
   * shrinks to nothing, no model, a raising detector or a failed makedirs.
   */
  predicate Fails(modelLoaded: bool, env: DetectEnv) {
    match env.image
    case None => true
    case Some(d) =>
      || d.width == 0 || d.height == 0
      || d.width > MaxWidth * d.height || d.height > MaxHeight * d.width
      || !modelLoaded || env.inferenceRaises || env.makeDirRaises
  }

  function Detect(imagePath: string, modelLoaded: bool, env: DetectEnv): Detection
    requires ValidDateTime(env.now)
  {
    match env.image
    case None => Failed                                       // image is None
    case Some(d) =>
      if d.width == 0 || d.height == 0 then Failed            // division by zero in the scale
      else
        var (newWidth, newHeight) := ResizeDims(d.width, d.height);
        if newWidth == 0 || newHeight == 0 then Failed        // cv2.resize rejects an empty size
        else if !modelLoaded || env.inferenceRaises then Failed
        else
          var labels := VehicleLabels(Flatten(env.results));
          var count := |labels|;
          if env.makeDirRaises then Failed
          else
            Detection(Some(count), labels,
                      if env.saveFails then None else Some(AnnotatedPath(imagePath, env.now)),
                      if env.countOpenRaises then None             // the file is left as it was
                      else if env.countWriteRaises then Some("")   // open truncated it, nothing reached it
                      else Some(NatToString(count)))
  }

  /** None comes back exactly on the exception paths, and then nothing is written. */
  lemma DetectFailure(imagePath: string, modelLoaded: bool, env: DetectEnv)
    requires ValidDateTime(env.now)
    ensures var o := Detect(imagePath, modelLoaded, env);
      && (o.result.None? <==> Fails(modelLoaded, env))
      && (o.result.None? ==> o.savedImage.None? && o.countText.None? && o.labels == [])
      && (o.result.Some? ==> o.savedImage.Some? == !env.saveFails && o.countText.Some? == !env.countOpenRaises)
  {
    if env.image.Some? && env.image.value.width > 0 && env.image.value.height > 0 {
      HeightVanishes(env.image.value.width, env.image.value.height);
      WidthVanishes(env.image.value.width, env.image.value.height);
    }
  }

  /**
   * A returned count is the number of vehicle-class boxes over all results:
   * it equals the number of labels, counts the vehicle positions and never
   * exceeds the number of boxes.
   */
  lemma DetectCount(imagePath: string, modelLoaded: bool, env: DetectEnv)
    requires ValidDateTime(env.now)
    ensures var o := Detect(imagePath, modelLoaded, env);
      o.result.Some? ==>
        && o.result.value == |o.labels|
        && o.labels == VehicleLabels(Flatten(env.results))
        && o.result.value == |VehiclePositions(Flatten(env.results))|
        && o.result.value <= |Flatten(env.results)|
  {
    VehicleCountIsCardinality(Flatten(env.results));
    VehicleCountBounded(Flatten(env.results));
  }

  /** With no vehicle-class box a readable image yields 0, not None, and "0" is written. */
  lemma DetectZeroVehicles(imagePath: string, modelLoaded: bool, env: DetectEnv)
    requires ValidDateTime(env.now)
    requires !Fails(modelLoaded, env)
    requires forall k :: 0 <= k < |Flatten(env.results)| ==> !IsVehicle(Flatten(env.results)[k].classId)
    ensures Detect(imagePath, modelLoaded, env).result == Some(0)
    ensures !env.countOpenRaises && !env.countWriteRaises ==> Detect(imagePath, modelLoaded, env).countText == Some("0")
  {
    DetectFailure(imagePath, modelLoaded, env);
    NoVehiclesNoLabels(Flatten(env.results));
  }

  /**
   * The count file text: `str(count)`, canonical and reading back as the
   * returned count, when the write went through; empty after a failed write.
   */
  lemma DetectCountText(imagePath: string, modelLoaded: bool, env: DetectEnv)
    requires ValidDateTime(env.now)
    ensures var o := Detect(imagePath, modelLoaded, env);
      o.countText.Some? ==>
        if env.countWriteRaises then o.countText.value == [] && ParseNat(o.countText.value) == None
        else Canonical(o.countText.value) && ParseNat(o.countText.value) == o.result
  {
    var o := Detect(imagePath, modelLoaded, env);
    if o.countText.Some? && !env.countWriteRaises {
      NatToStringRoundTrip(o.result.value);
    }
  }

  /**
   * Read from a count file that held nothing before the call, the outcome
   * gives the returned count exactly when the open and the write both went
   * through, and no count otherwise.
   */
  lemma DetectCountRead(imagePath: string, modelLoaded: bool, env: DetectEnv)
    requires ValidDateTime(env.now)
    ensures var o := Detect(imagePath, modelLoaded, env);
      ReadCount(o.countText) == if env.countOpenRaises || env.countWriteRaises then None else o.result
  {
    var o := Detect(imagePath, modelLoaded, env);
    if o.result.Some? {
      CountFileProtocol(o.result.value, "");
    }
  }

  /** The annotated image goes to images/output_<stem>_<timestamp>.jpg. */
  lemma DetectSavedPath(imagePath: string, modelLoaded: bool, env: DetectEnv)
    requires ValidDateTime(env.now)
    ensures var o := Detect(imagePath, modelLoaded, env);
      o.savedImage.Some? ==> SplitAnnotatedPath(o.savedImage.value) == Some((Stem(Basename(imagePath)), env.now))
  {
    var o := Detect(imagePath, modelLoaded, env);
    if o.savedImage.Some? {
      assert o.savedImage.value == AnnotatedPath(imagePath, env.now);
      AnnotatedPathRoundTrip(imagePath, env.now);
    }
  }
}
