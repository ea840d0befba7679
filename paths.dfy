/** The two slash-separated path helpers of Go's `path` package that
    `Execute` uses. `IsAbs` is exact; `Join` joins without lexical cleaning. */
module Paths {

  /** `path.IsAbs`: the path starts with a slash. */
  predicate IsAbs(p: string)
  {
    |p| > 0 && p[0] == '/'
  }

  /** `path.Join` of two elements: empty elements are skipped and the rest
      are joined by one slash. */
  function Join(a: string, b: string): (r: string)
    ensures IsAbs(a) ==> IsAbs(r)
    ensures a != "" && b != "" ==>
      |r| == |a| + 1 + |b| && r[..|a|] == a && r[|a|] == '/' && r[|a| + 1..] == b
    ensures a == "" ==> r == b
    ensures b == "" ==> r == a
  {
    if a == "" then b
    else if b == "" then a
    else a + "/" + b
  }
}
