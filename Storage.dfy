/**
 * The files the detection side writes: `vehicle_count.txt`, a single slot
 * that is absent or holds text, and the annotated images under `images/`.
 */
module Storage {
  import opened Wrappers
  import opened Decimal

  class Disk {
    /** The text of `vehicle_count.txt`, or None when the file does not exist. */
    var countFile: Option<string>
    /** The annotated images written so far, in order. */
    var savedImages: seq<string>

    constructor(countFile: Option<string>)
      ensures this.countFile == countFile && savedImages == []
    {
      this.countFile := countFile;
      savedImages := [];
    }

    /** `if os.path.exists(f): os.remove(f)`: afterwards the file is absent, whatever it was. */
    method ClearCountFile() returns (removed: bool)
      modifies this`countFile
      ensures countFile == None && ReadCount(countFile) == None
      ensures removed == old(countFile).Some?
    {
      removed := countFile.Some?;
      if removed {
        countFile := None;
      }
    }

    /** `open(f, "w")`: creates the file or truncates it to nothing. */
    method OpenCountFile()
      modifies this`countFile
      ensures countFile == Some("") && ReadCount(countFile) == None
    {
      countFile := Some("");
    }

    /** `f.write(text)` on the open file, flushed when the `with` block closes it. */
    method WriteToCountFile(text: string)
      requires countFile.Some?
      modifies this`countFile
      ensures countFile == Some(old(countFile).value + text)
    {
      countFile := Some(countFile.value + text);
    }

    /** `cv2.imwrite(path, image)`, the pixels left out. */
    method SaveImage(path: string)
      modifies this`savedImages
      ensures savedImages == old(savedImages) + [path]
    {
      savedImages := savedImages + [path];
    }
  }

  /** How a reader of the count file sees it: a missing or unparsable file is no count. */
  function ReadCount(countFile: Option<string>): Option<nat> {
    match countFile
    case None => None
    case Some(text) => ParseNat(text)
  }

  /**
   * What a reader of the count file learns: nothing from a missing or empty
   * file (cleared, or truncated by `open` and never filled); `count` from
   * `str(count)`; and `str(count)` is the only canonical text that reads as
   * `count`.
   */
  lemma CountFileProtocol(count: nat, text: string)
    ensures ReadCount(None) == None && ReadCount(Some("")) == None
    ensures ReadCount(Some(NatToString(count))) == Some(count)
    ensures Canonical(text) ==> (ReadCount(Some(text)) == Some(count) <==> text == NatToString(count))
  {
    NatToStringRoundTrip(count);
    if Canonical(text) {
      CanonicalRoundTrip(text);
    }
  }
}
