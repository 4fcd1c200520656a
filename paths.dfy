/** Path comparison used by the checkout step: the drive-letter pattern,
    Java's equalsIgnoreCase, and isSamePath built from them. The two
    path-splitting helpers the checkout step calls are kept abstract. */
module Paths {

  /** The remote (string) form of a path on the build agent. */
  type Path = string

  /** Characters that Java's regex `.` refuses when DOTALL is off. */
  predicate IsLineTerminator(c: char) {
    c == '\n' || c == '\r' || c == '\U{85}' || c == '\U{2028}' || c == '\U{2029}'
  }

  predicate IsAsciiLetter(c: char) {
    'a' <= c <= 'z' || 'A' <= c <= 'Z'
  }

  /** windowsPathPattern, `^[a-zA-Z]:\\.*$`, matched against the whole
      string: a drive letter, a colon, a backslash, then any characters
      other than line terminators. */
  predicate IsWindowsPath(p: Path) {
    |p| >= 3 && IsAsciiLetter(p[0]) && p[1] == ':' && p[2] == '\\' &&
    forall i :: 3 <= i < |p| ==> !IsLineTerminator(p[i])
  }

  /** ASCII case mapping: only 'a'..'z' and 'A'..'Z' change. */
  function ToUpper(c: char): (u: char)
    ensures 'a' <= c <= 'z' ==> 'A' <= u <= 'Z'
  {
    if 'a' <= c <= 'z' then (c as int - 32) as char else c
  }

  function ToLower(c: char): (l: char)
    ensures 'A' <= c <= 'Z' ==> 'a' <= l <= 'z'
  {
    if 'A' <= c <= 'Z' then (c as int + 32) as char else c
  }

  /** The per-character test of String.regionMatches with ignoreCase:
      equal, or equal upper cases, or equal lower cases of the upper cases. */
  predicate CharEqualsIgnoreCase(a: char, b: char) {
    a == b || ToUpper(a) == ToUpper(b) || ToLower(ToUpper(a)) == ToLower(ToUpper(b))
  }

  /** String.equalsIgnoreCase: same length, and every position matches. */
  predicate EqualsIgnoreCase(a: string, b: string) {
    |a| == |b| && forall i :: 0 <= i < |a| ==> CharEqualsIgnoreCase(a[i], b[i])
  }

  /** isSamePath(expected, actual): the case policy is chosen by `actual` alone. */
  predicate IsSamePath(expected: Path, actual: Path) {
    if IsWindowsPath(actual) then EqualsIgnoreCase(actual, expected) else actual == expected
  }

  /** Reference definition of case-insensitive equality: equal after
      lower-casing every character. */
  function LowerCase(s: string): (r: string)
    ensures |r| == |s| && forall i :: 0 <= i < |s| ==> r[i] == ToLower(s[i])
  {
    seq(|s|, i requires 0 <= i < |s| => ToLower(s[i]))
  }

  lemma CharEqualsIgnoreCaseIsLowerEquality(a: char, b: char)
    ensures CharEqualsIgnoreCase(a, b) <==> ToLower(a) == ToLower(b)
  {
  }

  /** Under the ASCII case mapping, equalsIgnoreCase is equality after
      lower-casing. With Java's full mapping the two differ ('ı' and 'i'). */
  lemma EqualsIgnoreCaseIsLowerEquality(a: string, b: string)
    ensures EqualsIgnoreCase(a, b) <==> LowerCase(a) == LowerCase(b)
  {
    forall i | 0 <= i < |a| && i < |b| {
      CharEqualsIgnoreCaseIsLowerEquality(a[i], b[i]);
    }
    if |a| == |b| && LowerCase(a) == LowerCase(b) {
      assert forall i :: 0 <= i < |a| ==> LowerCase(a)[i] == LowerCase(b)[i];
    }
  }

  /** Lower-casing does not change whether a path has the drive-letter form. */
  lemma WindowsPathUnderLowerCase(a: Path, b: Path)
    requires LowerCase(a) == LowerCase(b)
    ensures IsWindowsPath(a) <==> IsWindowsPath(b)
  {
    assert |a| == |LowerCase(a)| == |b|;
    forall i | 0 <= i < |a|
      ensures IsAsciiLetter(a[i]) <==> IsAsciiLetter(b[i])
      ensures a[i] == ':' <==> b[i] == ':'
      ensures a[i] == '\\' <==> b[i] == '\\'
      ensures IsLineTerminator(a[i]) <==> IsLineTerminator(b[i])
    {
      assert LowerCase(a)[i] == LowerCase(b)[i];
    }
  }

  /** isSamePath is case-insensitive equality when `actual` has the
      drive-letter form, and exact equality otherwise. */
  lemma IsSamePathCases(expected: Path, actual: Path)
    ensures IsWindowsPath(actual) ==> (IsSamePath(expected, actual) <==> LowerCase(expected) == LowerCase(actual))
    ensures !IsWindowsPath(actual) ==> (IsSamePath(expected, actual) <==> expected == actual)
  {
    EqualsIgnoreCaseIsLowerEquality(actual, expected);
  }

  lemma IsSamePathReflexive(p: Path)
    ensures IsSamePath(p, p)
  {
    IsSamePathCases(p, p);
  }

  /** Under the ASCII case mapping of ToUpper and ToLower, two paths that
      match agree on the case policy, so the relation is symmetric although
      the policy is read from the second argument only. Java's full mapping
      breaks this: 'ı' upper-cases to 'I', so "ı:\x" matches "i:\x" but
      not the other way round. */
  lemma IsSamePathSymmetric(a: Path, b: Path)
    requires IsSamePath(a, b)
    ensures IsSamePath(b, a)
  {
    IsSamePathCases(a, b);
    IsSamePathCases(b, a);
    if IsWindowsPath(b) {
      WindowsPathUnderLowerCase(a, b);
    }
  }

  lemma IsSamePathTransitive(a: Path, b: Path, c: Path)
    requires IsSamePath(a, b) && IsSamePath(b, c)
    ensures IsSamePath(a, c)
  {
    IsSamePathCases(a, b);
    IsSamePathCases(b, c);
    IsSamePathCases(a, c);
    if IsWindowsPath(c) {
      WindowsPathUnderLowerCase(b, c);
    }
  }

  /** A drive-letter target matches a registered path that differs only in
      case; a target of another form does not. */
  lemma CasePolicyExamples()
    ensures IsSamePath("c:\\WS", "C:\\ws")
    ensures !IsSamePath("/Ws", "/ws")
    ensures !IsSamePath("c:\\WS", "C:\\ws\nx")
  {
    IsSamePathCases("c:\\WS", "C:\\ws");
    assert LowerCase("c:\\WS") == "c:\\ws";
    assert LowerCase("C:\\ws") == "c:\\ws";
    assert !IsWindowsPath("C:\\ws\nx") by {
      assert IsLineTerminator("C:\\ws\nx"[5]);
    }
    assert "/Ws"[1] != "/ws"[1];
  }

  /** The two path-splitting helpers the checkout step relies on, neither of
      which belongs to this repository: `parentOf` is FilePath.getParent()
      (as a remote string) and `directoryOf` is
      FilenameUtils.getFullPathNoEndSeparator. Every property of the model
      is proved for any pair of such functions. */
  datatype PathOps = PathOps(parentOf: Path -> Path, directoryOf: Path -> Path)
}
