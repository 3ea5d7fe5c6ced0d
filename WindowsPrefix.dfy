/**
  `parse_prefix` (src/libstd/sys/windows/path.rs:31-88): classifies the leading
  bytes of a Windows path as one of six prefix forms, or as no prefix at all.
  The payloads are the byte subsequences of the input the source hands back as
  borrowed `OsStr` slices.
 */
module WindowsPrefix {
  import opened Wrappers
  import opened ByteClass
  import opened Scan
  import opened TwoComps

  /** The six prefix forms of a Windows path (the local counterpart of `std::path::Prefix`). */
  datatype Prefix =
    | Verbatim(name: seq<byte>)                        // \\?\name
    | VerbatimUNC(server: seq<byte>, share: seq<byte>) // \\?\UNC\server\share
    | VerbatimDisk(drive: byte)                        // \\?\C:\
    | DeviceNS(name: seq<byte>)                        // \\.\NAME
    | UNC(server: seq<byte>, share: seq<byte>)         // \\server\share
    | Disk(drive: byte)                                // C:

  /** The literal leads the parser strips, in the order it strips them. */
  const DOUBLE_BS: seq<byte> := [BACKSLASH, BACKSLASH]            // \\
  const QUESTION_BS: seq<byte> := [QUESTION, BACKSLASH]           // ?\
  const UNC_BS: seq<byte> := [UPPER_U, UPPER_N, UPPER_C, BACKSLASH] // UNC\
  const DOT_BS: seq<byte> := [DOT, BACKSLASH]                     // .\

  /** Rust's `<[u8]>::strip_prefix`: the rest of `s` when it begins with `p`. */
  function StripPrefix(s: seq<byte>, p: seq<byte>): (r: Option<seq<byte>>)
    ensures r.Some? <==> p <= s
    ensures r.Some? ==> s == p + r.value
  {
    if p <= s then Some(s[|p|..]) else None
  }

  /** A drive prefix `C:` or `\\?\C:\` at the head of `s`. */
  predicate StartsWithDrive(s: seq<byte>) {
    |s| >= 2 && IsValidDriveLetter(s[0]) && s[1] == COLON
  }

  /**
    The invariants every classified prefix keeps: drive letters are upper-case
    ASCII letters; verbatim and device names hold no backslash; plain UNC
    server and share are non-empty and hold neither separator.
   */
  predicate WellFormed(p: Prefix) {
    match p
    case Disk(d) => IsAsciiUppercase(d)
    case VerbatimDisk(d) => IsAsciiUppercase(d)
    case Verbatim(name) => NoneMatch(name, IsVerbatimSep)
    case DeviceNS(name) => NoneMatch(name, IsVerbatimSep)
    case VerbatimUNC(server, share) => NoneMatch(server, IsVerbatimSep) && NoneMatch(share, IsVerbatimSep)
    case UNC(server, share) =>
      server != [] && share != [] && NoneMatch(server, IsSepByte) && NoneMatch(share, IsSepByte)
  }

  /**
    Reference description of what `p` says about the head of `path`: the bytes
    the prefix consumed, rebuilt from its payloads.
   */
  ghost predicate Describes(path: seq<byte>, p: Prefix) {
    match p
    case Disk(d) =>
      !(DOUBLE_BS <= path) && StartsWithDrive(path) && ToAsciiUppercase(path[0]) == d
    case VerbatimDisk(d) =>
      DOUBLE_BS + QUESTION_BS <= path && StartsWithDrive(path[4..]) && |path| >= 7 && path[6] == BACKSLASH
      && ToAsciiUppercase(path[4]) == d
    case Verbatim(name) =>
      DOUBLE_BS + QUESTION_BS <= path && IsLeadingRun(path[4..], IsVerbatimSep, name)
    case DeviceNS(name) =>
      DOUBLE_BS + DOT_BS <= path && IsLeadingRun(path[4..], IsVerbatimSep, name)
    case VerbatimUNC(server, share) =>
      DOUBLE_BS + QUESTION_BS + UNC_BS <= path
      && (|| IsTwoCompSplit(path[8..], IsVerbatimSep, server, share)
          || (NoneMatch(path[8..], IsVerbatimSep) && server == path[8..] && share == []))
    case UNC(server, share) =>
      DOUBLE_BS <= path && IsTwoCompSplit(path[2..], IsSepByte, server, share)
  }

  /** `parse_prefix(path)` over the byte view of the path. */
  function ParsePrefix(path: seq<byte>): (r: Option<Prefix>)
    ensures r.Some? ==> WellFormed(r.value) && Describes(path, r.value)
  {
    match StripPrefix(path, DOUBLE_BS)
    case Some(rest) => (
      // \\?\ : verbatim, only the backslash separates
      match StripPrefix(rest, QUESTION_BS)
      case Some(rest) => (
        // \\?\UNC\server\share
        match StripPrefix(rest, UNC_BS)
        case Some(rest) => (
          match ParseTwoComps(rest, IsVerbatimSep)
          case Some((server, share)) => Some(VerbatimUNC(server, share))
          case None => Some(VerbatimUNC(rest, [])))
        case None =>
          // \\?\C:\ and what follows
          if |rest| >= 3 && rest[1] == COLON && rest[2] == BACKSLASH && IsValidDriveLetter(rest[0]) then
            Some(VerbatimDisk(ToAsciiUppercase(rest[0])))
          // \\?\name
          else
            Some(Verbatim(rest[..PositionOrLen(rest, IsVerbatimSep)])))
      case None => (
        // \\.\NAME
        match StripPrefix(rest, DOT_BS)
        case Some(rest) =>
          Some(DeviceNS(rest[..PositionOrLen(rest, IsVerbatimSep)]))
        case None => (
          // \\server\share, or no prefix at all
          match ParseTwoComps(rest, IsSepByte)
          case Some((server, share)) =>
            if server != [] && share != [] then Some(UNC(server, share)) else None
          case None => None)))
    case None =>
      // C:
      if |path| >= 2 && path[1] == COLON && IsValidDriveLetter(path[0]) then
        Some(Disk(ToAsciiUppercase(path[0])))
      else
        None
  }

  /**
    Any path beginning with `\\?\UNC\` is a verbatim UNC prefix: with no further
    backslash the whole remainder is the server and the share is empty,
    otherwise server and share are the backslash-delimited split of the
    remainder (a slash is an ordinary byte there).
   */
  lemma VerbatimUncForm(path: seq<byte>)
    requires DOUBLE_BS + QUESTION_BS + UNC_BS <= path
    ensures ParsePrefix(path).Some? && ParsePrefix(path).value.VerbatimUNC?
    ensures NoneMatch(path[8..], IsVerbatimSep) ==> ParsePrefix(path) == Some(VerbatimUNC(path[8..], []))
    ensures forall server, share :: IsTwoCompSplit(path[8..], IsVerbatimSep, server, share) ==>
      ParsePrefix(path) == Some(VerbatimUNC(server, share))
  {
    var rest := path[8..];
    assert StripPrefix(path, DOUBLE_BS) == Some(path[2..]);
    assert StripPrefix(path[2..], QUESTION_BS) == Some(path[4..]);
    assert StripPrefix(path[4..], UNC_BS) == Some(rest);
    forall server, share | IsTwoCompSplit(rest, IsVerbatimSep, server, share)
      ensures ParsePrefix(path) == Some(VerbatimUNC(server, share))
    {
      TwoCompsUnique(rest, IsVerbatimSep, server, share);
    }
  }

  /**
    After `\\?\` not followed by `UNC\`: a drive letter, `:` and `\` give a
    verbatim disk prefix carrying the upper-cased letter; anything else gives a
    verbatim prefix named by the longest backslash-free run that follows.
   */
  lemma VerbatimForm(path: seq<byte>)
    requires DOUBLE_BS + QUESTION_BS <= path && !(DOUBLE_BS + QUESTION_BS + UNC_BS <= path)
    ensures StartsWithDrive(path[4..]) && |path| >= 7 && path[6] == BACKSLASH ==>
      ParsePrefix(path) == Some(VerbatimDisk(ToAsciiUppercase(path[4])))
    ensures !(StartsWithDrive(path[4..]) && |path| >= 7 && path[6] == BACKSLASH) ==>
      ParsePrefix(path).Some? && ParsePrefix(path).value.Verbatim?
      && IsLeadingRun(path[4..], IsVerbatimSep, ParsePrefix(path).value.name)
  {
  }

  /** Any path beginning with `\\.\` is a device prefix named by the longest backslash-free run that follows. */
  lemma DeviceNsForm(path: seq<byte>)
    requires DOUBLE_BS + DOT_BS <= path
    ensures ParsePrefix(path).Some? && ParsePrefix(path).value.DeviceNS?
    ensures IsLeadingRun(path[4..], IsVerbatimSep, ParsePrefix(path).value.name)
  {
    assert StripPrefix(path, DOUBLE_BS) == Some(path[2..]);
    assert StripPrefix(path[2..], DOT_BS) == Some(path[4..]);
  }

  /**
    A path beginning with `\\` but neither `\\?\` nor `\\.\` is a UNC prefix
    exactly when both its server and its share are non-empty; otherwise it has
    no prefix at all, and no other form is tried.
   */
  lemma UncForm(path: seq<byte>)
    requires DOUBLE_BS <= path
    requires !(DOUBLE_BS + QUESTION_BS <= path) && !(DOUBLE_BS + DOT_BS <= path)
    ensures NoneMatch(path[2..], IsSepByte) ==> ParsePrefix(path) == None
    ensures forall server, share :: IsTwoCompSplit(path[2..], IsSepByte, server, share) ==>
      ParsePrefix(path) == if server != [] && share != [] then Some(UNC(server, share)) else None
  {
    var rest := path[2..];
    assert StripPrefix(path, DOUBLE_BS) == Some(rest);
    forall server, share | IsTwoCompSplit(rest, IsSepByte, server, share)
      ensures ParsePrefix(path) == if server != [] && share != [] then Some(UNC(server, share)) else None
    {
      TwoCompsUnique(rest, IsSepByte, server, share);
    }
  }

  /**
    A path not beginning with `\\` is a disk prefix, carrying its upper-cased
    letter, exactly when it begins with a drive letter and `:`; otherwise it has
    no prefix.
   */
  lemma DiskForm(path: seq<byte>)
    requires !(DOUBLE_BS <= path)
    ensures StartsWithDrive(path) ==> ParsePrefix(path) == Some(Disk(ToAsciiUppercase(path[0])))
    ensures !StartsWithDrive(path) ==> ParsePrefix(path) == None
  {
  }

  /**
    The case of a leading drive letter does not matter: upper-casing the first
    byte of any path leaves its classification unchanged, and re-classifying a
    disk prefix written with the letter it was given yields that letter again.
   */
  lemma DiskLetterCase(path: seq<byte>)
    requires |path| > 0
    ensures ParsePrefix(path[0 := ToAsciiUppercase(path[0])]) == ParsePrefix(path)
    ensures ParsePrefix(path) == Some(Disk(path[0])) <==> StartsWithDrive(path) && IsAsciiUppercase(path[0])
  {
  }

  /**
    A UNC prefix rebuilds the bytes it consumed: `\\`, the server, the
    separator the path used (either slash style) and the share; whatever
    follows starts with a separator or is empty.
   */
  lemma UncRoundTrip(path: seq<byte>, server: seq<byte>, share: seq<byte>)
    requires ParsePrefix(path) == Some(UNC(server, share))
    ensures 2 + |server| + 1 + |share| <= |path|
    ensures IsSepByte(path[2 + |server|])
    ensures path[..2 + |server| + 1 + |share|] == DOUBLE_BS + server + [path[2 + |server|]] + share
    ensures 2 + |server| + 1 + |share| == |path| || IsSepByte(path[2 + |server| + 1 + |share|])
  {
    UncRebuilt(path, server, share);
  }

  /** The rebuilding step of UncRoundTrip, from the reference description alone. */
  lemma UncRebuilt(path: seq<byte>, server: seq<byte>, share: seq<byte>)
    requires Describes(path, UNC(server, share))
    ensures 2 + |server| + 1 + |share| <= |path|
    ensures IsSepByte(path[2 + |server|])
    ensures path[..2 + |server| + 1 + |share|] == DOUBLE_BS + server + [path[2 + |server|]] + share
    ensures 2 + |server| + 1 + |share| == |path| || IsSepByte(path[2 + |server| + 1 + |share|])
  {
    var rest := path[2..];
    TwoCompsReconstruct(rest, IsSepByte, server, share);
    assert path == DOUBLE_BS + rest;
    assert path[..2 + |server| + 1 + |share|] == DOUBLE_BS + rest[..|server| + 1 + |share|];
  }

  /**
    A verbatim UNC prefix rebuilds the bytes it consumed: `\\?\UNC\` and the
    server, then, when a backslash follows, that backslash and the share, which
    is empty when the server runs to the end of the path.
   */
  lemma VerbatimUncRoundTrip(path: seq<byte>, server: seq<byte>, share: seq<byte>)
    requires ParsePrefix(path) == Some(VerbatimUNC(server, share))
    ensures 8 + |server| <= |path|
    ensures path[..8 + |server|] == DOUBLE_BS + QUESTION_BS + UNC_BS + server
    ensures 8 + |server| == |path| ==> share == []
    ensures 8 + |server| < |path| ==>
      && 8 + |server| + 1 + |share| <= |path|
      && path[..8 + |server| + 1 + |share|] == DOUBLE_BS + QUESTION_BS + UNC_BS + server + [BACKSLASH] + share
      && (8 + |server| + 1 + |share| == |path| || path[8 + |server| + 1 + |share|] == BACKSLASH)
  {
    VerbatimUncRebuilt(path, server, share);
  }

  /** The rebuilding step of VerbatimUncRoundTrip, from the reference description alone. */
  lemma VerbatimUncRebuilt(path: seq<byte>, server: seq<byte>, share: seq<byte>)
    requires Describes(path, VerbatimUNC(server, share))
    ensures 8 + |server| <= |path|
    ensures path[..8 + |server|] == DOUBLE_BS + QUESTION_BS + UNC_BS + server
    ensures 8 + |server| == |path| ==> share == []
    ensures 8 + |server| < |path| ==>
      && 8 + |server| + 1 + |share| <= |path|
      && path[..8 + |server| + 1 + |share|] == DOUBLE_BS + QUESTION_BS + UNC_BS + server + [BACKSLASH] + share
      && (8 + |server| + 1 + |share| == |path| || path[8 + |server| + 1 + |share|] == BACKSLASH)
  {
  }
}
