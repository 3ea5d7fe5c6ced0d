/**
  Concrete classifications of the documented example paths, derived from the
  general lemmas about `ParsePrefix`. Names are written as ASCII byte values.
 */
module PrefixExamples {
  import opened Wrappers
  import opened ByteClass
  import opened Scan
  import opened TwoComps
  import opened WindowsPrefix

  const SERVER: seq<byte> := [115, 101, 114, 118, 101, 114]                      // server
  const SHARE: seq<byte> := [115, 104, 97, 114, 101]                              // share
  const REST: seq<byte> := [114, 101, 115, 116]                                   // rest
  const ONLYSERVER: seq<byte> := [111, 110, 108, 121, 115, 101, 114, 118, 101, 114] // onlyserver
  const COM1: seq<byte> := [67, 79, 77, 49]                                       // COM1
  const A_SLASH_B: seq<byte> := [97, SLASH, 98]                                   // a/b

  /** `c:\rest` has the disk prefix `C`. */
  lemma DiskExample()
    ensures ParsePrefix([99, COLON, BACKSLASH] + REST) == Some(Disk(UPPER_C))
  {
    var p := [99, COLON, BACKSLASH] + REST;
    assert p[0] != DOUBLE_BS[0];
    DiskForm(p);
  }

  /** `rest\rest`, a relative path, has no prefix. */
  lemma RelativeExample()
    ensures ParsePrefix(REST + [BACKSLASH] + REST) == None
  {
  }

  /** `\\server\share\rest` has the UNC prefix (`server`, `share`). */
  lemma UncExample()
    ensures ParsePrefix(DOUBLE_BS + SERVER + [BACKSLASH] + SHARE + [BACKSLASH] + REST) == Some(UNC(SERVER, SHARE))
  {
    var p := DOUBLE_BS + SERVER + [BACKSLASH] + SHARE + [BACKSLASH] + REST;
    assert p[2..] == SERVER + [BACKSLASH] + SHARE + [BACKSLASH] + REST;
    assert p[2] != (DOUBLE_BS + QUESTION_BS)[2] && p[2] != (DOUBLE_BS + DOT_BS)[2];
    assert p[2..][7..] == SHARE + [BACKSLASH] + REST;
    assert IsTwoCompSplit(p[2..], IsSepByte, SERVER, SHARE);
    UncForm(p);
  }

  /** `\\onlyserver`, which has no share, has no prefix. */
  lemma UncWithoutShareExample()
    ensures ParsePrefix(DOUBLE_BS + ONLYSERVER) == None
  {
    var p := DOUBLE_BS + ONLYSERVER;
    assert p[2..] == ONLYSERVER;
    assert NoneMatch(ONLYSERVER, IsSepByte);
    assert p[2] != (DOUBLE_BS + QUESTION_BS)[2] && p[2] != (DOUBLE_BS + DOT_BS)[2];
    UncForm(p);
  }

  /** `\\?\C:\rest` has the verbatim disk prefix `C`. */
  lemma VerbatimDiskExample()
    ensures ParsePrefix(DOUBLE_BS + QUESTION_BS + [UPPER_C, COLON, BACKSLASH] + REST) == Some(VerbatimDisk(UPPER_C))
  {
  }

  /** `\\?\rest\rest` has the verbatim prefix `rest`. */
  lemma VerbatimExample()
    ensures ParsePrefix(DOUBLE_BS + QUESTION_BS + REST + [BACKSLASH] + REST) == Some(Verbatim(REST))
  {
    var p := DOUBLE_BS + QUESTION_BS + REST + [BACKSLASH] + REST;
    assert p[..4] == DOUBLE_BS + QUESTION_BS;
    assert p[4..] == REST + [BACKSLASH] + REST;
    assert p[5] != COLON;
    assert p[4] != (DOUBLE_BS + QUESTION_BS + UNC_BS)[4];
    assert IsLeadingRun(p[4..], IsVerbatimSep, REST);
    VerbatimForm(p);
    LeadingRunUnique(p[4..], IsVerbatimSep, REST, ParsePrefix(p).value.name);
  }

  /** `\\?\UNC\server\share\rest` has the verbatim UNC prefix (`server`, `share`). */
  lemma VerbatimUncExample()
    ensures ParsePrefix(DOUBLE_BS + QUESTION_BS + UNC_BS + SERVER + [BACKSLASH] + SHARE + [BACKSLASH] + REST)
      == Some(VerbatimUNC(SERVER, SHARE))
  {
    var p := DOUBLE_BS + QUESTION_BS + UNC_BS + SERVER + [BACKSLASH] + SHARE + [BACKSLASH] + REST;
    assert p[..8] == DOUBLE_BS + QUESTION_BS + UNC_BS;
    assert p[8..] == SERVER + [BACKSLASH] + SHARE + [BACKSLASH] + REST;
    assert p[8..][7..] == SHARE + [BACKSLASH] + REST;
    assert IsTwoCompSplit(p[8..], IsVerbatimSep, SERVER, SHARE);
    VerbatimUncForm(p);
  }

  /** `\\?\UNC\onlyserver` has the verbatim UNC prefix (`onlyserver`, empty). */
  lemma VerbatimUncWithoutShareExample()
    ensures ParsePrefix(DOUBLE_BS + QUESTION_BS + UNC_BS + ONLYSERVER) == Some(VerbatimUNC(ONLYSERVER, []))
  {
    var p := DOUBLE_BS + QUESTION_BS + UNC_BS + ONLYSERVER;
    assert p[..8] == DOUBLE_BS + QUESTION_BS + UNC_BS;
    assert p[8..] == ONLYSERVER;
    assert NoneMatch(ONLYSERVER, IsVerbatimSep);
    VerbatimUncForm(p);
  }

  /** `\\?\UNC\a/b\share`: a slash does not separate a verbatim server from its share. */
  lemma VerbatimUncSlashExample()
    ensures ParsePrefix(DOUBLE_BS + QUESTION_BS + UNC_BS + A_SLASH_B + [BACKSLASH] + SHARE)
      == Some(VerbatimUNC(A_SLASH_B, SHARE))
  {
    var p := DOUBLE_BS + QUESTION_BS + UNC_BS + A_SLASH_B + [BACKSLASH] + SHARE;
    assert p[..8] == DOUBLE_BS + QUESTION_BS + UNC_BS;
    assert p[8..] == A_SLASH_B + [BACKSLASH] + SHARE;
    assert p[8..][4..] == SHARE;
    assert IsTwoCompSplit(p[8..], IsVerbatimSep, A_SLASH_B, SHARE);
    VerbatimUncForm(p);
  }

  /** `\\.\COM1` has the device prefix `COM1`. */
  lemma DeviceNsExample()
    ensures ParsePrefix(DOUBLE_BS + DOT_BS + COM1) == Some(DeviceNS(COM1))
  {
    var p := DOUBLE_BS + DOT_BS + COM1;
    assert p[..4] == DOUBLE_BS + DOT_BS;
    assert p[4..] == COM1;
    assert IsLeadingRun(p[4..], IsVerbatimSep, COM1);
    DeviceNsForm(p);
    LeadingRunUnique(p[4..], IsVerbatimSep, COM1, ParsePrefix(p).value.name);
  }
}
