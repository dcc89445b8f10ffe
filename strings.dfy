/** The few string operations of Python's standard library that the core uses:
    `str.lower`, `str.upper`, `str.endswith` and `os.path.splitext` (POSIX flavour). */
module Strings {

  /** `str.lower` restricted to ASCII letters. */
  function LowerChar(c: char): char {
    if 'A' <= c <= 'Z' then (c as int + 32) as char else c
  }

  /** `str.upper` restricted to ASCII letters. */
  function UpperChar(c: char): char {
    if 'a' <= c <= 'z' then (c as int - 32) as char else c
  }

  function Lower(s: string): string {
    seq(|s|, i requires 0 <= i < |s| => LowerChar(s[i]))
  }

  function Upper(s: string): string {
    seq(|s|, i requires 0 <= i < |s| => UpperChar(s[i]))
  }

  /** Lower-casing twice is the same as lower-casing once, so the
      report generator's second `lower()` changes nothing. */
  lemma LowerIdempotent(s: string)
    ensures Lower(Lower(s)) == Lower(s)
  {
  }

  /** Upper-casing twice is the same as upper-casing once. */
  lemma UpperIdempotent(s: string)
    ensures Upper(Upper(s)) == Upper(s)
  {
  }

  /** Strings that differ only in the case of ASCII letters upper-case to the same string. */
  lemma UpperOfLowerIsUpper(s: string)
    ensures Upper(Lower(s)) == Upper(s)
  {
  }

  predicate EndsWith(s: string, suffix: string) {
    |suffix| <= |s| && s[|s| - |suffix|..] == suffix
  }

  /** `str.rfind` for one character: the last index holding `c`, or -1. */
  function RFind(p: string, c: char): (k: int)
    ensures -1 <= k < |p|
    ensures k >= 0 ==> p[k] == c
    ensures forall j :: k < j < |p| ==> p[j] != c
  {
    if |p| == 0 then -1
    else if p[|p| - 1] == c then |p| - 1
    else RFind(p[..|p| - 1], c)
  }

  /** Some character of `s` is not a dot. */
  predicate HasNonDot(s: string) {
    |s| > 0 && (s[0] != '.' || HasNonDot(s[1..]))
  }

  /** Where `os.path.splitext` (POSIX) cuts `p`: the last dot after the last slash,
      unless only dots stand between that slash and that dot (a leading-dot name
      such as ".json" has no extension); -1 when there is no extension. */
  function ExtensionStart(p: string): (k: int)
    ensures -1 <= k < |p|
    ensures k >= 0 ==> p[k] == '.' && forall j :: k < j < |p| ==> p[j] != '.' && p[j] != '/'
  {
    var sepIndex := RFind(p, '/');
    var dotIndex := RFind(p, '.');
    if dotIndex > sepIndex && HasNonDot(p[sepIndex + 1..dotIndex]) then dotIndex else -1
  }

  /** `os.path.splitext`: root and extension; the extension is empty or one dot
      followed by neither dots nor slashes. */
  function SplitExt(p: string): (r: (string, string))
    ensures r.0 + r.1 == p
    ensures r.1 == [] || r.1[0] == '.'
    ensures forall i :: 1 <= i < |r.1| ==> r.1[i] != '.' && r.1[i] != '/'
  {
    var k := ExtensionStart(p);
    if k >= 0 then
      assert p[..k] + p[k..] == p;
      (p[..k], p[k..])
    else
      (p, "")
  }

  /** A plain file name ending in ".json" that has some character other than a dot
      before that suffix loses exactly the suffix. */
  lemma {:induction false} SplitExtOfJsonName(name: string)
    requires EndsWith(name, ".json")
    requires forall i :: 0 <= i < |name| ==> name[i] != '/'
    requires HasNonDot(name[..|name| - 5])
    ensures SplitExt(name) == (name[..|name| - 5], ".json")
  {
    var n := |name|;
    assert name[n - 5..] == ".json";
    assert name[n - 5] == '.';
    var dotIndex := RFind(name, '.');
    assert dotIndex == n - 5 by {
      assert forall j :: n - 5 < j < n ==> name[j] != '.' by {
        forall j | n - 5 < j < n ensures name[j] != '.' {
          assert name[j] == name[n - 5..][j - (n - 5)];
        }
      }
    }
    assert RFind(name, '/') == -1;
    assert name[0..dotIndex] == name[..n - 5];
  }

  /** A path without dots has no extension. */
  lemma NoDotNoExtension(p: string)
    requires forall i :: 0 <= i < |p| ==> p[i] != '.'
    ensures SplitExt(p) == (p, "")
  {
  }

  /** The name ".json" is all leading dot: it has no extension and keeps its name. */
  lemma DotJsonHasNoExtension()
    ensures SplitExt(".json") == (".json", "")
  {
    var p := ".json";
    assert p[0] == '.' && p[1] == 'j' && p[2] == 's' && p[3] == 'o' && p[4] == 'n';
    assert RFind(p, '.') == 0;
  }
}
