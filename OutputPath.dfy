/**
 * The annotated-image path of `detect_vehicles`:
 * `os.path.join("images", f"output_{stem}_{timestamp}.jpg")`, where `stem`
 * is the part of the input's basename before its first '.', and the
 * timestamp is `%Y%m%d%H%M%S` of the current local time.
 */
module OutputPath {
  import opened Wrappers
  import opened Decimal

  const OutputDir: string := "images"
  const OutputPrefix: string := OutputDir + "/" + "output_"
  const Extension: string := ".jpg"

  /** A local date and time as `datetime` holds it; years of four digits. */
  datatype DateTime = DateTime(year: nat, month: nat, day: nat, hour: nat, minute: nat, second: nat)

  predicate ValidDateTime(dt: DateTime) {
    && 1000 <= dt.year <= 9999
    && 1 <= dt.month <= 12
    && 1 <= dt.day <= 31
    && dt.hour < 24
    && dt.minute < 60
    && dt.second < 60
  }

  /** `os.path.basename` on POSIX: the part after the last '/'. */
  function Basename(p: string): (b: string)
    ensures '/' !in b
    ensures |b| <= |p| && p[|p| - |b|..] == b
    ensures |b| < |p| ==> p[|p| - |b| - 1] == '/'
  {
    if p == [] || p[|p| - 1] == '/' then []
    else Basename(p[..|p| - 1]) + [p[|p| - 1]]
  }

  /** `name.split('.')[0]`: the part before the first '.', or all of it. */
  function Stem(name: string): (s: string)
    ensures '.' !in s
    ensures |s| <= |name| && name[..|s|] == s
    ensures |s| < |name| ==> name[|s|] == '.'
  {
    if name == [] || name[0] == '.' then []
    else [name[0]] + Stem(name[1..])
  }

  /** `strftime("%Y%m%d%H%M%S")`. */
  function Timestamp(dt: DateTime): string
    requires ValidDateTime(dt)
  {
    PadDigits(dt.year, 4) + PadDigits(dt.month, 2) + PadDigits(dt.day, 2)
      + PadDigits(dt.hour, 2) + PadDigits(dt.minute, 2) + PadDigits(dt.second, 2)
  }

  /** Reads the fields back out of a 14-digit timestamp. */
  function ParseTimestamp(ts: string): DateTime
    requires |ts| == 14 && AllDigits(ts)
  {
    DateTime(ParseDigits(ts[0..4]), ParseDigits(ts[4..6]), ParseDigits(ts[6..8]),
             ParseDigits(ts[8..10]), ParseDigits(ts[10..12]), ParseDigits(ts[12..14]))
  }

  /** `os.path.join("images", f"output_{stem}_{ts}.jpg")`. */
  function JoinOutputPath(stem: string, ts: string): string {
    OutputPrefix + stem + "_" + ts + Extension
  }

  /** The path the annotated image is written to. */
  function AnnotatedPath(imagePath: string, now: DateTime): string
    requires ValidDateTime(now)
  {
    JoinOutputPath(Stem(Basename(imagePath)), Timestamp(now))
  }

  /** Splits an annotated-image path back into its stem and time, if it has that shape. */
  function SplitAnnotatedPath(path: string): Option<(string, DateTime)> {
    var n := |path|;
    if n >= |OutputPrefix| + 1 + 14 + |Extension|
       && path[..|OutputPrefix|] == OutputPrefix
       && path[n - |Extension|..] == Extension
       && path[n - 19] == '_'
       && AllDigits(path[n - 18..n - 4])
    then Some((path[|OutputPrefix|..n - 19], ParseTimestamp(path[n - 18..n - 4])))
    else None
  }

  lemma AllDigitsConcat(a: string, b: string)
    requires AllDigits(a) && AllDigits(b)
    ensures AllDigits(a + b)
  {
  }

  /** Where each field sits in the timestamp. */
  lemma TimestampLayout(dt: DateTime)
    requires ValidDateTime(dt)
    ensures var ts := Timestamp(dt);
      && |ts| == 14 && AllDigits(ts)
      && ts[0..4] == PadDigits(dt.year, 4) && ts[4..6] == PadDigits(dt.month, 2)
      && ts[6..8] == PadDigits(dt.day, 2) && ts[8..10] == PadDigits(dt.hour, 2)
      && ts[10..12] == PadDigits(dt.minute, 2) && ts[12..14] == PadDigits(dt.second, 2)
  {
    var y, mo, d := PadDigits(dt.year, 4), PadDigits(dt.month, 2), PadDigits(dt.day, 2);
    var h, mi, s := PadDigits(dt.hour, 2), PadDigits(dt.minute, 2), PadDigits(dt.second, 2);
    AllDigitsConcat(y, mo);
    AllDigitsConcat(y + mo, d);
    AllDigitsConcat(y + mo + d, h);
    AllDigitsConcat(y + mo + d + h, mi);
    AllDigitsConcat(y + mo + d + h + mi, s);
    var ts := y + mo + d + h + mi + s;
    assert ts[0..4] == y;
    assert ts[4..6] == mo;
    assert ts[6..8] == d;
    assert ts[8..10] == h;
    assert ts[10..12] == mi;
    assert ts[12..14] == s;
  }

  /** The timestamp is 14 digits and reads back as the time it was made from. */
  lemma TimestampRoundTrip(dt: DateTime)
    requires ValidDateTime(dt)
    ensures |Timestamp(dt)| == 14 && AllDigits(Timestamp(dt))
    ensures ParseTimestamp(Timestamp(dt)) == dt
  {
    TimestampLayout(dt);
    assert Pow10(4) == 10000 && Pow10(2) == 100;
    PadDigitsRoundTrip(dt.year, 4);
    PadDigitsRoundTrip(dt.month, 2);
    PadDigitsRoundTrip(dt.day, 2);
    PadDigitsRoundTrip(dt.hour, 2);
    PadDigitsRoundTrip(dt.minute, 2);
    PadDigitsRoundTrip(dt.second, 2);
  }

  lemma {:induction false} SplitJoinOutputPath(stem: string, ts: string)
    requires |ts| == 14 && AllDigits(ts)
    ensures SplitAnnotatedPath(JoinOutputPath(stem, ts)) == Some((stem, ParseTimestamp(ts)))
  {
    var path := JoinOutputPath(stem, ts);
    var n := |path|;
    assert |OutputPrefix| == 14;
    assert n == 14 + |stem| + 1 + 14 + 4;
    assert path[..14] == OutputPrefix;
    assert path[n - 4..] == Extension;
    assert path[n - 19] == '_';
    assert path[n - 18..n - 4] == ts;
    assert path[14..n - 19] == stem;
  }

  /**
   * The annotated path is "images/output_" + stem + "_" + 14 digits + ".jpg",
   * and splitting it gives back the input's stem and the time.
   */
  lemma AnnotatedPathRoundTrip(imagePath: string, now: DateTime)
    requires ValidDateTime(now)
    ensures SplitAnnotatedPath(AnnotatedPath(imagePath, now)) == Some((Stem(Basename(imagePath)), now))
  {
    TimestampRoundTrip(now);
    SplitJoinOutputPath(Stem(Basename(imagePath)), Timestamp(now));
  }

  /** Two runs write the same file exactly when the stems and the seconds agree. */
  lemma AnnotatedPathCollision(p1: string, t1: DateTime, p2: string, t2: DateTime)
    requires ValidDateTime(t1) && ValidDateTime(t2)
    ensures AnnotatedPath(p1, t1) == AnnotatedPath(p2, t2)
            <==> Stem(Basename(p1)) == Stem(Basename(p2)) && t1 == t2
  {
    AnnotatedPathRoundTrip(p1, t1);
    AnnotatedPathRoundTrip(p2, t2);
  }

  lemma BasenameOfLastSegment(dir: string, name: string)
    requires dir == [] || dir[|dir| - 1] == '/'
    requires '/' !in name
    ensures Basename(dir + name) == name
  {
    var p := dir + name;
    assert p[|p| - |name|..] == name;
  }

  lemma {:induction false} StemOfDotted(name: string, ext: string)
    requires '.' !in name
    ensures Stem(name + "." + ext) == name
  {
    var full := name + "." + ext;
    if name != [] {
      assert full[0] == name[0];
      assert full[1..] == name[1..] + "." + ext;
      StemOfDotted(name[1..], ext);
    }
  }

  lemma StemOfInput(dir: string, name: string, ext: string)
    requires dir == [] || dir[|dir| - 1] == '/'
    requires '/' !in name && '.' !in name && '/' !in ext
    ensures Stem(Basename(dir + name + "." + ext)) == name
  {
    assert dir + name + "." + ext == dir + (name + "." + ext);
    BasenameOfLastSegment(dir, name + "." + ext);
    StemOfDotted(name, ext);
  }

  /**
   * The written file is always a .jpg, whatever the input's extension: inputs
   * that differ only after the first '.' of their last segment share a path.
   */
  lemma AnnotatedPathIgnoresExtension(dir: string, name: string, ext1: string, ext2: string, now: DateTime)
    requires ValidDateTime(now)
    requires dir == [] || dir[|dir| - 1] == '/'
    requires '/' !in name && '.' !in name && '/' !in ext1 && '/' !in ext2
    ensures AnnotatedPath(dir + name + "." + ext1, now) == AnnotatedPath(dir + name + "." + ext2, now)
    ensures Stem(Basename(dir + name + "." + ext1)) == name
  {
    StemOfInput(dir, name, ext1);
    StemOfInput(dir, name, ext2);
  }
}
