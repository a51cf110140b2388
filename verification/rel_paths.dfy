/** Relative paths as `evolve_supervisor` spells and compares them. */
module RelPaths {
  import opened Strings

  function Slashed(s: string): (r: string)
    ensures |r| == |s| && forall i :: 0 <= i < |s| ==> r[i] == if s[i] == '\\' then '/' else s[i]
  {
    seq(|s|, i requires 0 <= i < |s| => if s[i] == '\\' then '/' else s[i])
  }

  predicate DotOrSlash(c: char) { c == '.' || c == '/' }

  /** `normalize_relpath`: forward slashes, and no leading dots or slashes at all. */
  function NormalizeRelpath(s: string): string {
    TrimLeft(Slashed(s), DotOrSlash)
  }

  /** The spellings normalization leaves alone. */
  predicate NormalRel(s: string) {
    '\\' !in s && (s != "" ==> s[0] != '.' && s[0] != '/')
  }

  lemma NormalizedIsNormal(s: string)
    ensures NormalRel(NormalizeRelpath(s))
  {
    var slashed := Slashed(s);
    var r := NormalizeRelpath(s);
    assert r == slashed[|slashed| - |r|..];
  }

  /** Normalizing turns backslashes around and takes away leading dots and slashes, and nothing else. */
  lemma NormalizeDropsLeading(s: string)
    ensures var r := NormalizeRelpath(s); var k := |s| - |r|;
            && k >= 0 && (forall i :: 0 <= i < k ==> s[i] == '.' || s[i] == '/' || s[i] == '\\')
            && (forall i :: k <= i < |s| ==> r[i - k] == if s[i] == '\\' then '/' else s[i])
    ensures NormalRel(NormalizeRelpath(s))
  {
    NormalizedIsNormal(s);
    hide NormalRel, TrimLeft;
    var slashed := Slashed(s);
    var r := NormalizeRelpath(s);
    var k := |s| - |r|;
    assert r == slashed[k..];
    assert forall i :: 0 <= i < k ==> DotOrSlash(slashed[i]);
  }

  /** A path is left alone exactly when it is spelled with forward slashes and starts with
      neither a dot nor a slash; so a hidden file is never left alone. */
  lemma NormalizeFixedIff(s: string)
    ensures NormalizeRelpath(s) == s <==> NormalRel(s)
  {
    if NormalRel(s) {
      assert Slashed(s) == s;
    }
    if NormalizeRelpath(s) == s {
      NormalizedIsNormal(s);
    }
  }

  lemma NormalizeIdempotent(s: string)
    ensures NormalizeRelpath(NormalizeRelpath(s)) == NormalizeRelpath(s)
  {
    NormalizedIsNormal(s);
    NormalizeFixedIff(NormalizeRelpath(s));
  }

  /** `Path(s).name`: the last component that is neither empty nor a single dot. */
  function LastName(parts: seq<string>): string {
    if parts == [] then ""
    else if parts[|parts| - 1] != "" && parts[|parts| - 1] != "." then parts[|parts| - 1]
    else LastName(parts[..|parts| - 1])
  }

  function PathName(s: string): string { LastName(Split(s, '/')) }

  function LastDot(name: string): (i: int)
    ensures -1 <= i < |name| && (i >= 0 ==> name[i] == '.')
  {
    if name == "" then -1
    else if name[|name| - 1] == '.' then |name| - 1
    else LastDot(name[..|name| - 1])
  }

  /** `Path(s).suffix`. */
  function Suffix(s: string): string {
    var name := PathName(s);
    var i := LastDot(name);
    if 0 < i < |name| - 1 then name[i..] else ""
  }
}
