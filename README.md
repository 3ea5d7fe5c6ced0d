# Windows path prefix classifier

A Dafny model of the Windows path-prefix parser of the Rust standard library
(`src/libstd/sys/windows/path.rs`). `parse_prefix` looks at the leading bytes
of a path and recognises at most one of six prefix forms:

| form | shape | payload |
|---|---|---|
| `Disk` | `C:` | the upper-cased drive letter |
| `VerbatimDisk` | `\\?\C:\` | the upper-cased drive letter |
| `UNC` | `\\server\share` | server and share, both non-empty |
| `VerbatimUNC` | `\\?\UNC\server\share` | server and share (the share may be empty) |
| `DeviceNS` | `\\.\NAME` | the device name |
| `Verbatim` | `\\?\name` | the name |

Anything else has no prefix. Inside `\\?\` and `\\.\` only the backslash
separates components, so a `/` is part of the name there. For plain UNC paths
either slash style separates.

The path is taken as its byte view, a `seq<byte>` with `byte` a newtype over
0..255. The payloads are the byte subsequences of the input that the source
returns as borrowed slices.

Files:

- `ByteClass.dfy`: the byte type, the ASCII constants, `is_sep_byte`,
  `is_verbatim_sep`, `is_valid_drive_letter`, and `u8::is_ascii_alphabetic` /
  `u8::to_ascii_uppercase` written out.
- `Scan.dfy`: `iter().position(..)` (`Position`) and
  `position(..).unwrap_or(len)` (`PositionOrLen`). Both are specified against
  the reference predicate `IsLeadingRun`, "the longest prefix with no
  separator".
- `TwoComps.dfy`: `parse_two_comps`. It is specified against the reference
  predicate `IsTwoCompSplit`, which says that a split is unique and rebuilds
  the input.
- `WindowsPrefix.dfy`: the `Prefix` datatype and `parse_prefix`. It states two
  predicates over every result:
  - `WellFormed`: the invariants of each form.
  - `Describes`: how the result rebuilds the consumed bytes.

  It also has one lemma per branch of the grammar, saying which inputs give
  which form, and round-trip lemmas for the two UNC forms.
- `Examples.dfy`: the documented example paths, each derived from the general
  lemmas.

## Model

| member | source | states |
|---|---|---|
| `ByteClass.ByteClasses` | src/libstd/sys/windows/path.rs:16-29 | every verbatim separator is a separator, and `/` is the only other one; no separator is a drive letter or `:`; a byte is a valid drive letter iff upper-casing it gives 'A'..'Z'; upper-casing is idempotent and keeps the set of drive letters |
| `ByteClass.ToAsciiUppercase` | src/libstd/sys/windows/path.rs:84 | bytes other than 'a'..'z' are unchanged; a lower-case letter moves down by 32; the result is in 'A'..'Z' exactly when the input is an ASCII letter |
| `Scan.Position` | src/libstd/sys/windows/path.rs:91 | gives `None` iff no byte satisfies the predicate; otherwise gives an in-bounds index whose byte satisfies it and before which no byte does |
| `Scan.PositionOrLen` | src/libstd/sys/windows/path.rs:62 | the result is at most the length; `s[..r]` is the longest prefix with no separator; the result is the length iff there is no separator |
| `Scan.LeadingRunUnique` | src/libstd/sys/windows/path.rs:62-63 | any two longest separator-free prefixes of the same input are equal |
| `TwoComps.ParseTwoComps` | src/libstd/sys/windows/path.rs:90-96 | gives `None` iff no byte is a separator; otherwise `first` is the separator-free run before the first separator, and `second` is the separator-free run after it (the whole remainder when no separator follows) |
| `TwoComps.TwoCompsUnique` | src/libstd/sys/windows/path.rs:90-96 | any pair that meets the split description is exactly what `parse_two_comps` returns |
| `TwoComps.TwoCompsReconstruct` | src/libstd/sys/windows/path.rs:92-95 | the input begins with `first`, a separator and `second`; after that comes a separator or the end; with no later separator, `second` is the whole remainder |
| `WindowsPrefix.StripPrefix` | src/libstd/sys/windows/path.rs:41 | gives the rest iff the input begins with the lead, and the input is the lead followed by the rest |
| `WindowsPrefix.ParsePrefix` | src/libstd/sys/windows/path.rs:31-88 | every result is well formed: drive letters are in 'A'..'Z'; verbatim, device and verbatim-UNC names contain no backslash; UNC server and share are non-empty and contain no separator. Every result also describes the consumed bytes. The function is total and every slice stays in bounds |
| `WindowsPrefix.VerbatimUncForm` | src/libstd/sys/windows/path.rs:45-52 | every path beginning with `\\?\UNC\` gives `VerbatimUNC`; with no further backslash the result is (remainder, empty), otherwise the unique backslash split |
| `WindowsPrefix.VerbatimForm` | src/libstd/sys/windows/path.rs:53-66 | after `\\?\` not followed by `UNC\`: a drive letter, `:` and `\` give `VerbatimDisk` of the upper-cased letter; otherwise the result is `Verbatim` of the longest backslash-free run |
| `WindowsPrefix.DeviceNsForm` | src/libstd/sys/windows/path.rs:68-72 | every path beginning with `\\.\` gives `DeviceNS` of the longest backslash-free run after the lead, or of the whole rest when there is no backslash |
| `WindowsPrefix.UncForm` | src/libstd/sys/windows/path.rs:74-80 | for `\\` not followed by `?\` or `.\`: no separator in the rest gives no prefix; otherwise the unique split gives `UNC` iff server and share are both non-empty, and no prefix if not (no other form is tried) |
| `WindowsPrefix.DiskForm` | src/libstd/sys/windows/path.rs:81-87 | a path not beginning with `\\` gives `Disk` of the upper-cased letter iff it begins with an ASCII letter and `:`, and no prefix otherwise |
| `WindowsPrefix.DiskLetterCase` | src/libstd/sys/windows/path.rs:81-85 | upper-casing the first byte of any path does not change its classification; a path gives `Disk` of its own first byte iff it begins with an upper-case letter and `:` |
| `WindowsPrefix.UncRoundTrip` | src/libstd/sys/windows/path.rs:74-77 | a `UNC(server, share)` result rebuilds the consumed prefix as `\\` + server + the separator used + share, followed by a separator or the end |
| `WindowsPrefix.UncRebuilt` | src/libstd/sys/windows/path.rs:74-77 | the same rebuilding, derived from the description of a UNC result alone |
| `WindowsPrefix.VerbatimUncRoundTrip` | src/libstd/sys/windows/path.rs:45-52 | a `VerbatimUNC(server, share)` result rebuilds the consumed prefix: `\\?\UNC\` + server, and when the path continues, `\` + share followed by a backslash or the end; a server that reaches the end of the path comes with an empty share |
| `WindowsPrefix.VerbatimUncRebuilt` | src/libstd/sys/windows/path.rs:46-51 | the same rebuilding, derived from the description of a verbatim UNC result alone |
| `PrefixExamples.DiskExample` | src/libstd/sys/windows/path.rs:81-85 | `c:\rest` gives `Disk('C')` |
| `PrefixExamples.RelativeExample` | src/libstd/sys/windows/path.rs:81-87 | `rest\rest` has no prefix |
| `PrefixExamples.UncExample` | src/libstd/sys/windows/path.rs:74-77 | `\\server\share\rest` gives `UNC(server, share)` |
| `PrefixExamples.UncWithoutShareExample` | src/libstd/sys/windows/path.rs:74-80 | `\\onlyserver` has no prefix |
| `PrefixExamples.VerbatimDiskExample` | src/libstd/sys/windows/path.rs:56-58 | `\\?\C:\rest` gives `VerbatimDisk('C')` |
| `PrefixExamples.VerbatimExample` | src/libstd/sys/windows/path.rs:60-64 | `\\?\rest\rest` gives `Verbatim(rest)` |
| `PrefixExamples.VerbatimUncExample` | src/libstd/sys/windows/path.rs:44-52 | `\\?\UNC\server\share\rest` gives `VerbatimUNC(server, share)` |
| `PrefixExamples.VerbatimUncWithoutShareExample` | src/libstd/sys/windows/path.rs:50 | `\\?\UNC\onlyserver` gives `VerbatimUNC(onlyserver, empty)` |
| `PrefixExamples.VerbatimUncSlashExample` | src/libstd/sys/windows/path.rs:46 | in `\\?\UNC\a/b\share` the slash stays in the server: the result is `VerbatimUNC(a/b, share)` |
| `PrefixExamples.DeviceNsExample` | src/libstd/sys/windows/path.rs:68-72 | `\\.\COM1` gives `DeviceNS(COM1)` |

The round trip for plain UNC paths uses the separator that the path itself
has between server and share. The code accepts either slash style there, so
rebuilding with a backslash would not reproduce a path written as
`\\server/share`.

## Left out

- `os_str_as_u8_slice` / `u8_slice_as_os_str` (path.rs:8-13) reinterpret an
  `OsStr` as bytes and back through `mem::transmute`. The model takes the byte
  view as its input and returns byte subsequences. It relies, without stating
  it, on WTF-8's guarantee that ASCII bytes never occur inside a multi-byte
  sequence.
- `std::path::Prefix` is defined in `src/libstd/path.rs`, which is not part of
  this model. The local `Prefix` datatype has the same six variants, with byte
  sequences in place of `&OsStr`.
- Borrowing is not modelled: payloads are values, not views with a lifetime.
  The lemmas state where in the input each payload lies.
- `MAIN_SEP_STR` and `MAIN_SEP` (path.rs:5-6) are not used by the classifier.
- The callers (component iteration, normalisation and comparison of prefixes)
  and any file-system use of the result are outside this file.
