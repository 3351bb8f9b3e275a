/** `generate_unique_filename` of one_book_ledger/upload_handler.py: the
    name an uploaded bill is stored under. The clock reading is a
    parameter. */
module UploadHandler {
  import opened Text
  import opened DateTimes
  import opened Paths

  /** `f"{filename}_{timestamp}{extension}"` with `(filename, extension)`
      the `splitext` of the original name and `timestamp` the moment
      written '%Y%m%d_%H%M%S'. */
  function GenerateUniqueFilename(name: string, now: DateTime): (r: string)
    requires Valid(now)
    ensures |r| == |name| + 16
  {
    var (stem, ext) := Splitext(name);
    stem + "_" + FormatStamp(now) + ext
  }

  /** The timestamp holds only digits and the underscore. */
  lemma StampChars(now: DateTime)
    requires Valid(now)
    ensures forall c :: c in FormatStamp(now) ==> IsDigit(c) || c == '_'
  {
    var s := FormatStamp(now);
    var parts := [PadDigits(now.year, 4), PadDigits(now.month, 2), PadDigits(now.day, 2), "_",
                  PadDigits(now.hour, 2), PadDigits(now.minute, 2), PadDigits(now.second, 2)];
    forall c | c in s ensures IsDigit(c) || c == '_' {
      var i :| 0 <= i < |s| && s[i] == c;
      if i < 8 {
        assert s[..8] == parts[0] + parts[1] + parts[2];
        assert c == s[..8][i];
      } else if i > 8 {
        assert s[9..] == parts[4] + parts[5] + parts[6];
        assert c == s[9..][i - 9];
      }
    }
  }

  /** The stored name keeps the original extension exactly, case included,
      and only the stem grows, by '_' and the timestamp: 'a.tar.gz' is
      stored as 'a.tar_<timestamp>.gz', 'notes' as 'notes_<timestamp>'. */
  lemma UniqueFilenameSplits(name: string, now: DateTime)
    requires Valid(now)
    ensures Splitext(GenerateUniqueFilename(name, now)) == (Splitext(name).0 + "_" + FormatStamp(now), Splitext(name).1)
  {
    var stem, ext := Splitext(name).0, Splitext(name).1;
    var mid := "_" + FormatStamp(now);
    assert '.' !in mid && '/' !in mid by {
      StampChars(now);
      assert forall c :: c in mid ==> c == '_' || c in FormatStamp(now);
    }
    assert Splitext(stem + ext) == (stem, ext) by {
      assert stem + ext == name;
    }
    SplitextInsert(stem, mid, ext);
    assert stem + mid == stem + "_" + FormatStamp(now);
    assert GenerateUniqueFilename(name, now) == stem + mid + ext;
  }

  /** A name without a dot gets the timestamp appended and no extension. */
  lemma UniqueFilenameNoDot(name: string, now: DateTime)
    requires Valid(now) && '.' !in name
    ensures GenerateUniqueFilename(name, now) == name + "_" + FormatStamp(now)
  {
    SplitextNoDot(name);
  }

  /** Only the last dot-suffix is the extension. */
  lemma UniqueFilenameLastDot(now: DateTime)
    requires Valid(now)
    ensures GenerateUniqueFilename("a.tar.gz", now) == "a.tar" + "_" + FormatStamp(now) + ".gz"
  {
    SplitextLastDot();
    UniqueFilenameParts("a.tar.gz", now);
  }

  /** The stored name is the stem, '_', the timestamp and the extension. */
  lemma UniqueFilenameParts(name: string, now: DateTime)
    requires Valid(now)
    ensures GenerateUniqueFilename(name, now) == Splitext(name).0 + "_" + FormatStamp(now) + Splitext(name).1
  {
  }
}
