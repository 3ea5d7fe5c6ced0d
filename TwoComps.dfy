/**
  `parse_two_comps`, the component splitter of the prefix parser
  (src/libstd/sys/windows/path.rs:90-96): the first component runs up to the
  first separator, which must exist; the second runs from just after it up to
  the next separator or the end of the input.
 */
module TwoComps {
  import opened Wrappers
  import opened ByteClass
  import opened Scan

  /**
    The reference description of a split of `path` around separators `f`:
    `first` is the leading run of `path`, a separator follows it, and `second`
    is the leading run of what comes after that separator.
   */
  ghost predicate IsTwoCompSplit(path: seq<byte>, f: byte -> bool, first: seq<byte>, second: seq<byte>) {
    && |first| < |path|
    && f(path[|first|])
    && IsLeadingRun(path, f, first)
    && IsLeadingRun(path[|first| + 1..], f, second)
  }

  /** `parse_two_comps(path, f)`. */
  function ParseTwoComps(path: seq<byte>, f: byte -> bool): (r: Option<(seq<byte>, seq<byte>)>)
    ensures r.None? <==> NoneMatch(path, f)
    ensures r.Some? ==> IsTwoCompSplit(path, f, r.value.0, r.value.1)
  {
    match Position(path, f)
    case None => None
    case Some(i) =>
      var first := path[..i];
      var rest := path[|first| + 1..];
      var second := rest[..PositionOrLen(rest, f)];
      Some((first, second))
  }

  /** A split is unique: whatever satisfies the reference description is what the splitter returns. */
  lemma {:induction false} TwoCompsUnique(path: seq<byte>, f: byte -> bool, first: seq<byte>, second: seq<byte>)
    requires IsTwoCompSplit(path, f, first, second)
    ensures ParseTwoComps(path, f) == Some((first, second))
  {
    var r := ParseTwoComps(path, f);
    assert r.Some?;
    LeadingRunUnique(path, f, first, r.value.0);
    LeadingRunUnique(path[|first| + 1..], f, second, r.value.1);
  }

  /**
    What a split consumed: the input begins with `first`, one separator byte and
    `second`, and the byte after that, if any, is a separator; when no separator
    follows the first one, `second` is the whole remainder.
   */
  lemma {:induction false} TwoCompsReconstruct(path: seq<byte>, f: byte -> bool, first: seq<byte>, second: seq<byte>)
    requires IsTwoCompSplit(path, f, first, second)
    ensures |first| + 1 + |second| <= |path|
    ensures path[..|first| + 1 + |second|] == first + [path[|first|]] + second
    ensures |first| + 1 + |second| == |path| || f(path[|first| + 1 + |second|])
    ensures NoneMatch(path[|first| + 1..], f) ==> second == path[|first| + 1..]
  {
  }
}
