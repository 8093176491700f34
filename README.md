# Smart Traffic Management — detection core in Dafny

This project models the detection side of `TrafficApp` in `traffic_app.py`.
That side loads a YOLOv8 detector, counts vehicles in an uploaded image,
saves an annotated copy, and hands the count to the green-time process
through `vehicle_count.txt`. The model has five parts:

- **`load_model`** (`ModelLoading`, `App.TrafficApp.LoadModel`): the retry
  policy. There are three attempts. Each attempt tries `yolov8l.pt` and then
  `yolov8m.pt`, and sleeps one second after both raise. The app quits after
  the third failed attempt. Whether the k-th `YOLO(...)` call of a run
  succeeds is a parameter, `loads: nat -> bool`. `LoadPolicy` is the
  specification function, and the method is proved to follow it.
- **The resize** (`Imaging`):
  - the scale is `min(1280 / w, 720 / h, 1.0)`;
  - each side becomes `int(side * scale)`.
- **The counting loop** (`Counting.CountVehicles`): a nested loop over
  results and boxes. It keeps the boxes of classes 2, 3, 5 and 7 (car,
  motorcycle, bus, truck) and collects one label per kept box. It is proved
  against `VehicleLabels(Flatten(results))`.
- **The count-file hand-off** (`Storage.Disk`, `App.TrafficApp.ProcessImage`):
  `process_image` deletes `vehicle_count.txt`, and `detect_vehicles` then
  opens it for writing, which creates or truncates it, and writes
  `str(count)` into it. If the open raises, the file stays absent. If the
  write or the closing flush raises, the file is left empty. Either way a
  reader gets no count.
- **The annotated-output path** (`OutputPath`): the saved image goes to
  `images/output_<stem>_<YYYYmmddHHMMSS>.jpg`.

The outcome of one `detect_vehicles` call is given as a pure function,
`Detection.Detect`, of what OpenCV, the detector, the clock and the file
system report. The imperative `App.TrafficApp.DetectVehicles` is proved
equal to it.

Four behaviours of the code are kept as written:

- An image with no vehicles yields the count `0`, not `None`. So
  `process_image` shows "Detected 0 vehicles". Its "No vehicles detected"
  warning appears only when processing failed (`Detection.DetectZeroVehicles`).
- The new dimensions are truncated by `int(...)`, not rounded.
- The annotated image is always written as `.jpg`, whatever the input's
  extension (`OutputPath.AnnotatedPathIgnoresExtension`).
- An image so elongated that one side scales to 0 pixels makes
  `cv2.resize` raise, so `detect_vehicles` returns `None`
  (`Imaging.HeightVanishes`, `Imaging.WidthVanishes`, `Detection.DetectFailure`).

## Model

| member | source | states |
|---|---|---|
| ModelLoading.LoadFrom | traffic_app.py:82-98 | No contract. It defines the run from attempt `attempt` on, with `calls` loads already made. If the large load succeeds, that model is held. Otherwise, if the medium load succeeds, that one is held. Otherwise it sleeps and goes on. After the last attempt it quits. Its properties are the `LoadFrom*` lemmas. |
| ModelLoading.LoadPolicy | traffic_app.py:82-98 | No contract. It is the whole run, `LoadFrom` from attempt 0 with no loads made. Its properties are the `LoadPolicy*` lemmas. |
| ModelLoading.LoadPolicyAttempts | traffic_app.py:82-95 | At most 3 attempts: at most 6 `YOLO` calls and 3 sleeps. The weights requested alternate "yolov8l.pt", "yolov8m.pt", "yolov8l.pt", … The medium weights are requested only right after a large load that raised. |
| ModelLoading.LoadPolicyFirstSuccess | traffic_app.py:82-92 | Every load before the last one requested raised. A run that does not quit holds the model of the last load, and that load succeeded. |
| ModelLoading.LoadPolicyGivesUp | traffic_app.py:82-98 | The app quits exactly when all six loads raise. It then holds no model, has requested L,M,L,M,L,M and slept 3 times. It does not quit exactly when a model was loaded. |
| ModelLoading.LoadPolicySleeps | traffic_app.py:82-95 | A successful run slept once per failed attempt before the successful one. A run that quits slept 3 times. |
| ModelLoading.LoadFromShape | traffic_app.py:82-95 | From any attempt onward, the remaining attempts bound the loads and sleeps, and the requests alternate large/medium. |
| ModelLoading.LoadFromRaises | traffic_app.py:83-94 | From any attempt onward, every load before the last one raised. Quitting means every remaining load raised. |
| ModelLoading.LoadFromResult | traffic_app.py:84-98 | From any attempt onward: quitting leaves no model and uses up every remaining attempt. Otherwise the last load succeeded, its variant is the model, and one sleep was taken per earlier attempt. |
| App.TrafficApp.constructor | traffic_app.py:20-24 | A new app holds no model, has requested no weights, has slept 0 seconds and has not quit, as `__init__` sets `self.model = None` before `load_model` runs. |
| App.TrafficApp.LoadModel | traffic_app.py:80-98 | The loop's effect matches `LoadPolicy`: model, requested weights, seconds slept and quit flag. A failed run leaves `self.model` unchanged (None at start-up, line 24). |
| Imaging.Scale | traffic_app.py:191 | The scale lies in (0, 1], is at most 1280/w and at most 720/h, and equals one of the three. |
| Imaging.Truncate | traffic_app.py:192 | `int(x)` for x ≥ 0 is the integer n with n ≤ x < n + 1. |
| Imaging.ResizeDims | traffic_app.py:189-192 | No contract. It is defined as the truncated `(w·scale, h·scale)`. Its properties are the lemmas below. |
| Imaging.NeverUpscales | traffic_app.py:189-192 | The new width and height never exceed the old ones. |
| Imaging.FitsBounds | traffic_app.py:189-192 | The new width is at most 1280 and the new height at most 720. |
| Imaging.SmallImageUnchanged | traffic_app.py:191-192 | An image already within 1280×720 keeps its exact dimensions. |
| Imaging.LargeImageTouchesBound | traffic_app.py:191-192 | A larger image is shrunk until its width is exactly 1280 or its height exactly 720. |
| Imaging.AspectPreserved | traffic_app.py:191-192 | The aspect ratio survives up to truncation: −h < new_w·h − new_h·w < w. |
| Imaging.HeightVanishes | traffic_app.py:191-193 | The new height is 0 exactly when w > 1280·h. |
| Imaging.WidthVanishes | traffic_app.py:191-193 | The new width is 0 exactly when h > 720·w. |
| Counting.IsVehicle | traffic_app.py:199 | No contract. It is defined as class id in {2, 3, 5, 7}. |
| Counting.Flatten | traffic_app.py:208-209 | No contract. It is defined as the boxes of all results, result by result. |
| Counting.VehicleLabels | traffic_app.py:207-219 | No contract. It is defined as one label per vehicle-class box, in order. It is characterized independently by `VehicleLabelsInBoxOrder` and `VehicleCountIsCardinality`. |
| Counting.LabelOf | traffic_app.py:213-215 | No contract. A kept box's label is its (class id, confidence). The text rendering is under "## Left out". |
| Counting.CountVehicles | traffic_app.py:198-219 | The nested loop returns the labels of the vehicle-class boxes of all results, in order, and a count equal to their number. |
| Counting.VehicleLabelsInBoxOrder | traffic_app.py:208-219 | Label k belongs to a box whose position strictly increases with k. Every box of class 2, 3, 5 or 7, and no other box, gets a label. |
| Counting.VehicleCountIsCardinality | traffic_app.py:211-212 | The count is the number of positions holding a vehicle-class box. |
| Counting.VehicleCountBounded | traffic_app.py:208-212 | The count never exceeds the number of boxes. |
| Counting.NoVehiclesNoLabels | traffic_app.py:198-219 | Without a vehicle-class box there are no labels, so the count is 0. |
| Counting.VehicleLabelsAppend | traffic_app.py:208-209 | Labels of one result followed by the next are the labels of both, concatenated. |
| Decimal.NatToString | traffic_app.py:239 | `str(n)` is non-empty decimal digits with no leading zero, except "0" itself. |
| Decimal.NatToStringRoundTrip | traffic_app.py:239 | The count written to the file reads back as the same number. |
| Decimal.CanonicalRoundTrip | traffic_app.py:239 | Every canonical digit string is `str` of the number it denotes, so the written text is determined by the count. |
| Decimal.PadDigits | traffic_app.py:228 | A `%0<width>d` field is exactly `width` decimal digits. |
| Decimal.PadDigitsRoundTrip | traffic_app.py:228 | A zero-padded field of a number below 10^width reads back as that number. |
| Decimal.ParseNat | traffic_app.py:239 | The reader yields a number exactly for non-empty all-digit text. |
| Storage.Disk.ClearCountFile | traffic_app.py:139-143 | Afterwards `vehicle_count.txt` is absent and reads as no count. The method reports whether it existed. |
| Storage.Disk.OpenCountFile | traffic_app.py:238 | `open(..., "w")` leaves the file present and empty, whatever it held before, and it reads as no count. |
| Storage.Disk.WriteToCountFile | traffic_app.py:239 | The written text is appended to what the open file holds. |
| Storage.ReadCount | traffic_app.py:139-145 | No contract. It is the model's own reader of the count file: a missing file gives no count, and otherwise the file's text goes through `ParseNat`. |
| Storage.Disk.SaveImage | traffic_app.py:230-232 | The annotated image's path is appended to the images written. |
| Storage.CountFileProtocol | traffic_app.py:139-145 | A missing file and an empty one both read as no count. `str(count)` reads back as the count. `str(count)` is the only canonical text that reads as the count. |
| OutputPath.Basename | traffic_app.py:229 | The basename contains no '/'. It is a suffix of the path, preceded by '/' when shorter than the path. |
| OutputPath.Stem | traffic_app.py:229 | `split('.')[0]` contains no '.'. It is a prefix of the name, followed by '.' when shorter than the name. |
| OutputPath.Timestamp | traffic_app.py:228 | No contract. It is defined as the six zero-padded fields of `%Y%m%d%H%M%S`. Its properties are `TimestampLayout` and `TimestampRoundTrip`. |
| OutputPath.JoinOutputPath | traffic_app.py:229 | No contract. It is defined as `images/output_<stem>_<ts>.jpg`. It is inverted by `SplitAnnotatedPath` (`SplitJoinOutputPath`). |
| OutputPath.AnnotatedPath | traffic_app.py:226-229 | No contract. It is defined as `JoinOutputPath` of the input's stem and the timestamp. Its properties are `AnnotatedPathRoundTrip` and `AnnotatedPathCollision`. |
| OutputPath.TimestampLayout | traffic_app.py:228 | `%Y%m%d%H%M%S` is 14 digits with each field zero-padded in its place. |
| OutputPath.TimestampRoundTrip | traffic_app.py:228 | The timestamp reads back as the date and time it was made from. |
| OutputPath.SplitJoinOutputPath | traffic_app.py:229 | `images/output_<stem>_<ts>.jpg` splits back into its stem and time. |
| OutputPath.AnnotatedPathRoundTrip | traffic_app.py:226-229 | The saved path gives back the input's stem and the current time. |
| OutputPath.AnnotatedPathCollision | traffic_app.py:226-229 | Two calls write the same file exactly when the inputs' stems and the seconds agree. |
| OutputPath.StemOfInput | traffic_app.py:229 | For `dir/name.ext` with no '.' in the name, the stem is `name`. |
| OutputPath.AnnotatedPathIgnoresExtension | traffic_app.py:229 | Inputs differing only after the first '.' of the last segment share an output path, always `.jpg`. |
| Detection.Fails | traffic_app.py:176-247 | No contract. It names the exception paths independently of `Detect`'s branch order: unreadable image (179-181), a zero side (ZeroDivisionError at 191), a side resized to 0 (`cv2.resize` at 193), no model or a raising detector (197), a raising `makedirs` (227). `DetectFailure` proves `Detect` fails exactly on these. |
| Detection.Detect | traffic_app.py:176-247 | No contract. It is the outcome of one call: the returned count, the labels, the image written and the count-file text. Its properties are the `Detect*` lemmas, and both `TrafficApp` methods are proved against it. |
| Detection.DetectFailure | traffic_app.py:176-247 | None comes back exactly on the exception paths: unreadable image, zero dimension, a side resized to 0, no model or a failing detector, a failing `makedirs`. Then nothing is written. Otherwise a failing image write, count-file open or count-file write is swallowed. |
| Detection.DetectCount | traffic_app.py:198-220 | A returned count equals the number of labels and the number of vehicle-box positions, and is at most the number of boxes. |
| Detection.DetectZeroVehicles | traffic_app.py:198-244 | A readable image with no vehicle-class box yields `0`, not None, and "0" is written to the count file. |
| Detection.DetectCountText | traffic_app.py:236-242 | After a successful write, the count file text is canonical decimal and reads back as the returned count. After a write that raised past the open, it is empty and reads as nothing. |
| Detection.DetectCountRead | traffic_app.py:236-244 | Starting from a cleared file, a reader gets the returned count exactly when the open and the write both succeeded, and no count otherwise. |
| Detection.DetectSavedPath | traffic_app.py:225-232 | The annotated image goes to `images/output_<stem>_<timestamp>.jpg` of this input and this time. |
| App.TrafficApp.DetectVehicles | traffic_app.py:174-247 | The method's result, the images written and the count file agree with `Detect`. A failing `open` leaves the old file in place. A write that raises after the open leaves it empty. |
| App.TrafficApp.ProcessImage | traffic_app.py:139-153 | The count file afterwards depends on this image alone. It is absent on failure or when the open raised, empty when the write raised, and holds `str(count)` otherwise. A reader gets the count exactly when the hand-off went through. Failure gives the warning; a count, including 0, gives the count with its green time. |

## Left out

- The Tkinter GUI is not modelled: login window, traffic-light canvas, flashing text, progress bar and its `time.sleep(0.3)` steps, and message boxes. It changes no state the core depends on.
- `root.quit()` is modelled as a `quit` flag. Logging is left out.
- YOLO inference is left out. The detector's boxes are an input, and whether it raises is a flag. Whether the k-th `YOLO(...)` load succeeds is a parameter.
- `time.sleep(1)` is modelled as a count of seconds slept, not as elapsed time.
- `cv2.convertScaleAbs`, `cv2.resize`'s pixels, and the rectangles and text drawn on the image are left out. Only the dimensions and the written path are modelled.
- `Imaging.ResizeDims`: computed in exact rational arithmetic. In IEEE-754 doubles, `side * scale` can land just below an integer that the exact product reaches, so a truncated side can be one pixel smaller than modelled. Two cases:
  - 1281×1142: `1142 * (720 / 1142)` is 719.9999999999999, so the image becomes 807×719. `Imaging.LargeImageTouchesBound` therefore holds only in exact arithmetic.
  - 62720×49: `49 * (1280 / 62720)` is 0.9999999999999999, which truncates to 0. `cv2.resize` then raises and `detect_vehicles` returns None, where `Detection.Fails` (and `Imaging.HeightVanishes`) predict a count.
- `Counting.LabelOf`: a label is the pair (class id, confidence). The text `f"{name} {conf:.2f}"` needs the detector's class-name table and float formatting, which are not modelled.
- `OutputPath.ValidDateTime`: years are limited to 1000–9999. For other years `%Y` does not write four digits.
- `OutputPath.Basename`: POSIX semantics only. Windows separators are not modelled.
- `Storage.Disk.WriteToCountFile`: a write that raises is modelled as leaving nothing in the truncated file. A partial flush that leaves a prefix of `str(count)` is not modelled.
- An `os.remove` that raises inside `process_image` is not modelled. It escapes to `upload_image`'s handler, and the model assumes the delete succeeds.
- `green_time_signal.adjust_green_signal_time` and the reader of `vehicle_count.txt` are not part of this model. The green time is a function parameter, and `Decimal.ParseNat` is the model's own reader.
- `main.py`'s two processes, `vehicle_detection` and `green_time_signal`, are not modelled, and neither is any race on `vehicle_count.txt` between them.
