/**
  Searching a byte sequence for the first byte that satisfies a predicate:
  Rust's `iter().position(..)` and the `position(..).unwrap_or(len)` idiom the
  prefix parser uses to find where a name ends
  (src/libstd/sys/windows/path.rs:62, 70, 91, 93-94).
 */
module Scan {
  import opened Wrappers
  import opened ByteClass

  /** No byte of `s` satisfies `f`. */
  predicate NoneMatch(s: seq<byte>, f: byte -> bool) {
    forall i :: 0 <= i < |s| ==> !f(s[i])
  }

  /**
    `run` is the longest prefix of `s` in which no byte satisfies `f`: it is
    followed by a byte satisfying `f`, or it is all of `s`.
   */
  ghost predicate IsLeadingRun(s: seq<byte>, f: byte -> bool, run: seq<byte>) {
    && run <= s
    && NoneMatch(run, f)
    && (|run| == |s| || f(s[|run|]))
  }

  /** `s.iter().position(|b| f(b))`: the index of the first byte satisfying `f`, if any. */
  function Position(s: seq<byte>, f: byte -> bool): (r: Option<nat>)
    ensures r.None? <==> NoneMatch(s, f)
    ensures r.Some? ==> r.value < |s| && f(s[r.value])
    ensures r.Some? ==> forall i :: 0 <= i < r.value ==> !f(s[i])
  {
    if |s| == 0 then None
    else if f(s[0]) then Some(0)
    else match Position(s[1..], f)
      case None => None
      case Some(i) => Some(i + 1)
  }

  /**
    `s.iter().position(|b| f(b)).unwrap_or(s.len())`: the end of the leading
    run of `s`, falling back to the length, so `s[..r]` is always in bounds.
   */
  function PositionOrLen(s: seq<byte>, f: byte -> bool): (r: nat)
    ensures r <= |s|
    ensures IsLeadingRun(s, f, s[..r])
    ensures r == |s| <==> NoneMatch(s, f)
  {
    match Position(s, f)
    case None => |s|
    case Some(i) => i
  }

  /** A leading run is unique, so any two descriptions of it agree. */
  lemma {:induction false} LeadingRunUnique(s: seq<byte>, f: byte -> bool, a: seq<byte>, b: seq<byte>)
    requires IsLeadingRun(s, f, a) && IsLeadingRun(s, f, b)
    ensures a == b
  {
  }
}
