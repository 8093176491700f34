/**
 * `TrafficApp`, reduced to its detection-side control logic: acquiring the
 * detector, detecting vehicles in one image, and the count-file hand-off of
 * `process_image`.
 */
module App {
  import opened Wrappers
  import opened Decimal
  import opened ModelLoading
  import opened Imaging
  import opened Counting
  import opened OutputPath
  import opened Storage
  import opened Detection

  /** What `process_image` shows: a warning, or the count with its green time. */
  datatype Report = Warning | Shown(count: nat, greenTime: real)

  class TrafficApp {
    /** `self.model`: the loaded detector, None until one loads. */
    var model: Option<Variant>
    /** The weights passed to `YOLO(...)` so far, in order. */
    var requested: seq<Variant>
    /** Seconds slept by `load_model` between failed attempts. */
    var slept: nat
    /** Whether `root.quit()` has been called. */
    var quit: bool
    /** The file system the detection side writes to. */
    const disk: Disk

    constructor(disk: Disk)
      ensures model == None && requested == [] && slept == 0 && !quit && this.disk == disk
    {
      model := None;
      requested := [];
      slept := 0;
      quit := false;
      this.disk := disk;
    }

    /**
     * `load_model`: the k-th `YOLO(...)` call of this run succeeds iff
     * `loads(k)`. The run does what `LoadPolicy` says; when every load raises
     * the model is left as it was and the application quits.
     */
    method LoadModel(loads: nat -> bool)
      modifies this
      ensures var t := LoadPolicy(loads);
        && model == (if t.quit then old(model) else t.loaded)
        && requested == old(requested) + t.tried
        && slept == old(slept) + t.sleeps
        && quit == (old(quit) || t.quit)
    {
      ghost var t := LoadPolicy(loads);
      var tried: seq<Variant> := [];
      var attempt, calls := 0, 0;
      while attempt < MaxAttempts
        invariant attempt <= MaxAttempts && calls == 2 * attempt
        invariant model == old(model) && quit == old(quit) && requested == old(requested)
        invariant slept == old(slept) + attempt
        invariant t == Resumed(tried, attempt, LoadFrom(loads, attempt, calls))
      {
        if loads(calls) {
          ResumeLarge(loads, attempt, calls, tried);
          model, tried := Some(Large), tried + [Large];
          requested := requested + tried;
          return;
        }
        if loads(calls + 1) {
          ResumeMedium(loads, attempt, calls, tried);
          model, tried := Some(Medium), tried + [Large, Medium];
          requested := requested + tried;
          return;
        }
        ResumeFailed(loads, attempt, calls, tried);
        tried := tried + [Large, Medium];
        slept := slept + 1;
        attempt, calls := attempt + 1, calls + 2;
      }
      ResumeGiveUp(loads, calls, tried);
      requested := requested + tried;
      quit := true;
    }

    /**
     * `detect_vehicles`: returns the count, or None on the exception paths;
     * saves the annotated image unless that fails, and replaces the count
     * file unless opening it raises; a write that raises after the open
     * leaves it empty. Those failures are logged, not propagated.
     */
    method DetectVehicles(imagePath: string, env: DetectEnv) returns (result: Option<nat>)
      requires ValidDateTime(env.now)
      modifies disk
      ensures var o := Detect(imagePath, model.Some?, env);
        && result == o.result
        && disk.savedImages == old(disk.savedImages) + (if o.savedImage.Some? then [o.savedImage.value] else [])
        && disk.countFile == (if o.countText.Some? then o.countText else old(disk.countFile))
    {
      if env.image.None? {
        return None;
      }
      var width, height := env.image.value.width, env.image.value.height;
      if width == 0 || height == 0 {
        return None;
      }
      var (newWidth, newHeight) := ResizeDims(width, height);
      if newWidth == 0 || newHeight == 0 {
        return None;
      }
      if model.None? || env.inferenceRaises {
        return None;
      }
      var count, labels := CountVehicles(env.results);
      if env.makeDirRaises {
        return None;
      }
      var outputImage := AnnotatedPath(imagePath, env.now);
      if !env.saveFails {
        disk.SaveImage(outputImage);
      }
      if !env.countOpenRaises {
        disk.OpenCountFile();
        if !env.countWriteRaises {
          disk.WriteToCountFile(NatToString(count));
          assert "" + NatToString(count) == NatToString(count);
        }
      }
      return Some(count);
    }

    /**
     * The count-file part of `process_image`: clear the file, detect, and
     * report. Because the file is cleared first, what it holds afterwards
     * depends on this image alone: nothing on failure or when opening it
     * raised, an empty file when the write raised, `str(count)` otherwise,
     * so a reader gets the count exactly when the hand-off went through.
     */
    method ProcessImage(imagePath: string, env: DetectEnv, greenTime: nat -> real) returns (report: Report)
      requires ValidDateTime(env.now)
      modifies disk
      ensures var o := Detect(imagePath, model.Some?, env);
        && disk.countFile == o.countText
        && ReadCount(disk.countFile) == (if env.countOpenRaises || env.countWriteRaises then None else o.result)
        && disk.savedImages == old(disk.savedImages) + (if o.savedImage.Some? then [o.savedImage.value] else [])
        && report == (if o.result.None? then Warning else Shown(o.result.value, greenTime(o.result.value)))
    {
      var _ := disk.ClearCountFile();
      var vehicleCount := DetectVehicles(imagePath, env);
      DetectCountRead(imagePath, model.Some?, env);
      if vehicleCount.None? {
        return Warning;
      }
      report := Shown(vehicleCount.value, greenTime(vehicleCount.value));
    }
  }
}
