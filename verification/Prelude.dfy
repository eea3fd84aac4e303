/** Types shared by every module: optional and fallible results, and the
    machine-width bounds the original code relies on. */
module Prelude {
  datatype Option<+T> = None | Some(value: T)

  datatype Result<+T> = Ok(value: T) | Err(error: string)

  const U16_MAX: int := 0xFFFF
  const U32_MAX: int := 0xFFFF_FFFF
  const I64_MAX: int := 0x7FFF_FFFF_FFFF_FFFF

  type u16 = x: int | 0 <= x <= U16_MAX
  type u32 = x: int | 0 <= x <= U32_MAX

  newtype byte = x: int | 0 <= x < 256

  /** A UTF-8 string as its bytes.  An allocation never exceeds `isize::MAX`
      bytes, so a byte length always converts to a signed 64-bit integer. */
  type Text = s: seq<byte> | |s| <= I64_MAX

  ghost predicate Distinct<T>(s: seq<T>) {
    forall i, j :: 0 <= i < j < |s| ==> s[i] != s[j]
  }

  /** The elements of a sequence as a set. */
  function Elements<T(==)>(s: seq<T>): set<T> {
    set x | x in s
  }

  /** Pigeonhole: a duplicate-free sequence is no longer than any set holding
      its elements. */
  lemma {:induction false} DistinctFits<T>(s: seq<T>, bound: set<T>)
    requires Distinct(s)
    requires forall i :: 0 <= i < |s| ==> s[i] in bound
    ensures |s| <= |bound|
  {
    if s != [] {
      var last := s[|s| - 1];
      DistinctFits(s[..|s| - 1], bound - {last});
    }
  }

  /** Pigeonhole, the other way round: a sequence drawn from a set smaller than
      itself repeats an element. */
  lemma RepeatsSomewhere<T>(s: seq<T>, bound: set<T>) returns (i: nat, j: nat)
    requires forall k :: 0 <= k < |s| ==> s[k] in bound
    requires |s| > |bound|
    ensures i < j < |s| && s[i] == s[j]
  {
    if Distinct(s) {
      DistinctFits(s, bound);
    }
    i, j :| 0 <= i < j < |s| && s[i] == s[j];
  }
}
