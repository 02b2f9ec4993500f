/** The name of the generated file (`make_output_name`): everything from the
    last `.` of the input path on is replaced by `.html`; a path without a
    `.` gets `.html` appended. The last `.` is searched in the whole path, so
    a dot in a directory name counts when the file name has none. */
module OutputName {

  const Extension: string := ".html"

  /** Position of the last `.` among the first `n` characters, or -1. */
  function LastDotBefore(s: string, n: nat): (k: int)
    requires n <= |s|
    ensures -1 <= k < n
    ensures k >= 0 ==> s[k] == '.'
    ensures forall j :: k < j < n ==> s[j] != '.'
  {
    if n == 0 then -1
    else if s[n - 1] == '.' then n - 1
    else LastDotBefore(s, n - 1)
  }

  /** Position of the last `.` of `s` (what `strrchr` finds), or -1. */
  function LastDot(s: string): int {
    LastDotBefore(s, |s|)
  }

  /** Specification of `make_output_name`. The result is a stem followed by
      `.html`; the stem is a prefix of the path that is either the whole
      path (which then has no `.`) or ends just before the path's last `.`. */
  function OutputName(path: string): (r: string)
    ensures |r| >= |Extension| && r[|r| - |Extension|..] == Extension
    ensures var stem := r[..|r| - |Extension|];
      stem <= path &&
      (if |stem| == |path| then '.' !in path
       else path[|stem|] == '.' && '.' !in path[|stem| + 1..])
  {
    var k := LastDot(path);
    var r := if k >= 0 then path[..k] + Extension else path + Extension;
    assert r[..|r| - |Extension|] == if k >= 0 then path[..k] else path;
    assert k < 0 ==> forall j :: 0 <= j < |path| ==> path[j] != '.';
    r
  }

  /** Renaming an already renamed path changes nothing: the last `.` of the
      result is the one of its `.html`. */
  lemma OutputNameIdempotent(path: string)
    ensures OutputName(OutputName(path)) == OutputName(path)
  {
    var r := OutputName(path);
    var n := |r| - |Extension|;
    assert r[n..] == ".html";
    assert r[n] == '.';
    forall j | n < j < |r| ensures r[j] != '.' {
      assert r[j] == r[n..][j - n];
    }
    assert LastDot(r) == n;
    assert r[..n] + Extension == r;
  }

  /** `make_output_name`: copy the path, look for its last `.` from left to
      right as `strrchr` does, then overwrite from there with `.html` or
      append `.html`. */
  method MakeOutputName(path: string) returns (r: string)
    ensures r == OutputName(path)
  {
    var dot := -1;
    var i := 0;
    while i < |path|
      invariant 0 <= i <= |path|
      invariant dot == LastDotBefore(path, i)
    {
      if path[i] == '.' {
        dot := i;
      }
      i := i + 1;
    }
    if dot >= 0 {
      r := path[..dot] + Extension;
    } else {
      r := path + Extension;
    }
  }
}
