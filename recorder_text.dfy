/**
 * The strings the recorder produces: its output directory forms, the rows
 * of actions.csv and the names of the per-frame camera files and of the
 * depth archival files.
 */
module RecorderText {
  import opened Text
  import opened RecorderTypes

  predicate IsSeparator(c: char) {
    c == '/' || c == '\\'
  }

  /** join_path_slash: one '/' appended unless s is empty or already ends in '/' or '\'. */
  function JoinPathSlash(s: string): string
  {
    if s != [] && !IsSeparator(s[|s| - 1]) then s + "/" else s
  }

  lemma JoinPathSlashShape(s: string)
    ensures StartsWith(JoinPathSlash(s), s)
    ensures |JoinPathSlash(s)| == |s| || JoinPathSlash(s) == s + "/"
    ensures s != [] ==> IsSeparator(JoinPathSlash(s)[|JoinPathSlash(s)| - 1])
    ensures JoinPathSlash(s) == s <==> s == [] || IsSeparator(s[|s| - 1])
  {
  }

  lemma JoinPathSlashIdempotent(s: string)
    ensures JoinPathSlash(JoinPathSlash(s)) == JoinPathSlash(s)
  {
  }

  /** Every '/' of s turned into '\'. */
  function Backslashed(s: string): (r: string)
    ensures |r| == |s|
  {
    seq(|s|, i requires 0 <= i < |s| => if s[i] == '/' then '\\' else s[i])
  }

  /** The directory path ensure_dir_existsA hands to the OS: backslashes only, ending in '\' when non-empty. */
  function WindowsDirPath(dir: string): string
  {
    var d := Backslashed(dir);
    if d != [] && d[|d| - 1] != '\\' then d + "\\" else d
  }

  /** The normalisation loop of ensure_dir_existsA, rewriting the copy of the path character by character. */
  method EnsureDirPath(dir: string) returns (d: string)
    ensures d == WindowsDirPath(dir)
  {
    d := dir;
    var i := 0;
    while i < |d|
      invariant 0 <= i <= |d| == |dir|
      invariant d[..i] == Backslashed(dir)[..i]
      invariant d[i..] == dir[i..]
    {
      if d[i] == '/' {
        d := d[i := '\\'];
      }
      i := i + 1;
    }
    assert d == d[..i];
    if d != [] && d[|d| - 1] != '\\' {
      d := d + "\\";
    }
  }

  lemma WindowsDirPathShape(dir: string)
    ensures '/' !in WindowsDirPath(dir)
    ensures dir != [] ==> WindowsDirPath(dir)[|WindowsDirPath(dir)| - 1] == '\\'
    ensures StartsWith(WindowsDirPath(dir), Backslashed(dir))
  {
    var d := Backslashed(dir);
    assert forall i :: 0 <= i < |d| ==> d[i] != '/';
  }

  lemma WindowsDirPathIdempotent(dir: string)
    ensures WindowsDirPath(WindowsDirPath(dir)) == WindowsDirPath(dir)
  {
    var w := WindowsDirPath(dir);
    WindowsDirPathShape(dir);
    assert Backslashed(w) == w;
  }

  /**
   * start() joins a '/' onto the configured directory before creating it;
   * the directory actually requested is the same as without the join.
   */
  lemma {:induction false} JoinThenWindowsDirPath(dir: string)
    ensures WindowsDirPath(JoinPathSlash(dir)) == WindowsDirPath(dir)
  {
    if dir != [] && !IsSeparator(dir[|dir| - 1]) {
      var j := dir + "/";
      assert Backslashed(j) == Backslashed(dir) + "\\";
    }
  }

  /** The names of the actions.csv columns, in order. */
  const ActionColumns: seq<string> := ["frame_idx", "time_us", "w", "a", "s", "d", "shift", "space"]

  /** Header line of actions.csv: the column names separated by ',' and a newline. */
  const ActionHeader: string := Join(ActionColumns, ',') + "\n"

  /** "1" when bit k of the key mask is set, else "0". */
  function KeyBit(keymask: bv32, k: nat): string
    requires k < 6
  {
    if keymask & (1 << k) != 0 then "1" else "0"
  }

  function ActionFields(idx: U64, tUs: I64, keymask: bv32): seq<string>
  {
    [NatToDec(idx), IntToDec(tUs),
     KeyBit(keymask, 0), KeyBit(keymask, 1), KeyBit(keymask, 2),
     KeyBit(keymask, 3), KeyBit(keymask, 4), KeyBit(keymask, 5)]
  }

  /** The row log_action writes: "%llu,%lld,%d,%d,%d,%d,%d,%d\n". */
  function ActionRow(idx: U64, tUs: I64, keymask: bv32): string
  {
    Join(ActionFields(idx, tUs, keymask), ',') + "\n"
  }

  /** A line of actions.csv: the header or the row of one logged action. */
  datatype CsvLine = HeaderLine | ActionLine(idx: U64, tUs: I64, keymask: bv32)

  /** The text of one actions.csv line. */
  function CsvText(line: CsvLine): string
  {
    match line
    case HeaderLine => ActionHeader
    case ActionLine(idx, tUs, keymask) => ActionRow(idx, tUs, keymask)
  }

  lemma {:induction false} IntToDecNoComma(i: int)
    ensures ',' !in IntToDec(i)
  {
    var m := if i < 0 then -i else i;
    var s := NatToDec(m);
    assert forall k :: 0 <= k < |s| ==> s[k] != ',';
    assert IntToDec(i) == if i < 0 then "-" + s else s;
  }

  /** A row minus its newline splits at ',' into exactly the fields printed. */
  lemma ActionRowSplit(idx: U64, tUs: I64, keymask: bv32)
    ensures |ActionRow(idx, tUs, keymask)| >= 1
    ensures ActionRow(idx, tUs, keymask)[|ActionRow(idx, tUs, keymask)| - 1] == '\n'
    ensures Split(ActionRow(idx, tUs, keymask)[..|ActionRow(idx, tUs, keymask)| - 1], ',')
         == ActionFields(idx, tUs, keymask)
  {
    var fs := ActionFields(idx, tUs, keymask);
    var s := NatToDec(idx);
    assert forall k :: 0 <= k < |s| ==> s[k] != ',';
    IntToDecNoComma(tUs);
    assert forall i :: 0 <= i < |fs| ==> ',' !in fs[i];
    SplitJoin(fs, ',');
    var row := ActionRow(idx, tUs, keymask);
    assert row[..|row| - 1] == Join(fs, ',');
  }

  /** Field 2 + k of a row is "1" exactly when bit k of the key mask is set, "0" otherwise. */
  lemma KeyBitMeaning(keymask: bv32, k: nat)
    requires k < 6
    ensures KeyBit(keymask, k) == "1" <==> keymask & (1 << k) != 0
    ensures KeyBit(keymask, k) == "0" <==> keymask & (1 << k) == 0
  {
  }

  /**
   * A row read back as CSV: eight fields under the eight header columns,
   * the frame index in decimal, the time in signed decimal, then the six key bits.
   */
  lemma ActionRowFields(idx: U64, tUs: I64, keymask: bv32)
    ensures |ActionRow(idx, tUs, keymask)| >= 1
    ensures var row := ActionRow(idx, tUs, keymask);
      var fs := Split(row[..|row| - 1], ',');
      && |fs| == |ActionColumns|
      && AllDigits(fs[0]) && DecValue(fs[0]) == idx
      && fs[1] == IntToDec(tUs)
      && fs[2] == KeyBit(keymask, 0) && fs[3] == KeyBit(keymask, 1) && fs[4] == KeyBit(keymask, 2)
      && fs[5] == KeyBit(keymask, 3) && fs[6] == KeyBit(keymask, 4) && fs[7] == KeyBit(keymask, 5)
  {
    ActionRowSplit(idx, tUs, keymask);
    DecValueOfNatToDec(idx);
  }

  /** The header splits into exactly the eight column names. */
  lemma ActionHeaderColumns()
    ensures Split(ActionHeader[..|ActionHeader| - 1], ',') == ActionColumns
  {
    assert forall i :: 0 <= i < |ActionColumns| ==> ',' !in ActionColumns[i];
    SplitJoin(ActionColumns, ',');
    assert ActionHeader[..|ActionHeader| - 1] == Join(ActionColumns, ',');
  }

  /** Bits above bit 5 of the key mask never reach the CSV. */
  lemma ActionRowIgnoresHighBits(idx: U64, tUs: I64, keymask: bv32)
    ensures ActionRow(idx, tUs, keymask) == ActionRow(idx, tUs, keymask & 63)
  {
    forall k | 0 <= k < 6
      ensures KeyBit(keymask, k) == KeyBit(keymask & 63, k)
    {
      assert (keymask & 63) & (1 << k) == keymask & (1 << k);
    }
    assert ActionFields(idx, tUs, keymask) == ActionFields(idx, tUs, keymask & 63);
  }

  /** "frame_%06llu_camera.json": the per-frame camera file name. */
  function FrameCameraFileName(idx: U64): string
  {
    "frame" + "_" + ZeroPad(NatToDec(idx), 6) + "_" + "camera.json"
  }

  /** depth_group_ file of the archival writer: out_dir + "/depth_group_" + six-digit id + ".h5". */
  function DepthGroupFileName(outDir: string, groupId: nat): string
  {
    outDir + "/depth_group_" + ZeroPad(NatToDec(groupId), 6) + ".h5"
  }

  /** The camera file name always fits the 128-byte buffer it is formatted into, so _TRUNCATE never cuts it. */
  lemma FrameCameraFileNameFits(idx: U64)
    ensures |FrameCameraFileName(idx)| < 128
  {
    assert Pow10(5) == 100000;
    assert Pow10(10) == 10000000000;
    assert Pow10(20) == 100000000000000000000;
    NatToDecLength(idx, 20);
    ZeroPadShape(NatToDec(idx), 6);
  }

  /** The second '_'-separated field of the camera file name is the frame index, zero-padded to six digits or more. */
  lemma FrameCameraFileNameIndex(idx: U64)
    ensures |Split(FrameCameraFileName(idx), '_')| == 3
    ensures Split(FrameCameraFileName(idx), '_')[1] == ZeroPad(NatToDec(idx), 6)
    ensures |ZeroPad(NatToDec(idx), 6)| >= 6
    ensures AllDigits(ZeroPad(NatToDec(idx), 6)) && DecValue(ZeroPad(NatToDec(idx), 6)) == idx
  {
    var digits := ZeroPad(NatToDec(idx), 6);
    ZeroPadShape(NatToDec(idx), 6);
    ZeroPaddedValue(idx, 6);
    assert forall k :: 0 <= k < |digits| ==> digits[k] != '_';
    var pre, post := "frame", "camera.json";
    assert '_' !in pre && '_' !in post;
    assert FrameCameraFileName(idx) == pre + ['_'] + digits + ['_'] + post;
    SplitThree(pre, digits, post, '_');
  }

  /** The id in a depth group file name sits between the fixed prefix and ".h5", at least six digits long. */
  lemma DepthGroupFileNameId(outDir: string, groupId: nat)
    ensures var name := DepthGroupFileName(outDir, groupId);
      && StartsWith(name, outDir + "/depth_group_")
      && EndsWith(name, ".h5")
      && var digits := name[|outDir| + 13..|name| - 3];
      && |digits| >= 6 && AllDigits(digits) && DecValue(digits) == groupId
  {
    var digits := ZeroPad(NatToDec(groupId), 6);
    ZeroPadShape(NatToDec(groupId), 6);
    ZeroPaddedValue(groupId, 6);
    var name := DepthGroupFileName(outDir, groupId);
    assert name == (outDir + "/depth_group_") + digits + ".h5";
    assert name[|outDir| + 13..|name| - 3] == digits;
  }
}
