/**
  The string rules shared by the frontend and the backend: the compound
  `route|truck` key that stands for a (route, truck type) pair, the Excel
  file-name test and the removal of the Excel extension from a file name.
*/
module Strings {

  /** `s.endsWith(suffix)` (JavaScript) and `s.endswith(suffix)` (Python): case-sensitive. */
  predicate EndsWith(s: string, suffix: string) {
    |suffix| <= |s| && s[|s| - |suffix|..] == suffix
  }

  /** The character that joins a route and a truck type into one key. */
  const Delimiter: char := '|'

  /** `${route}|${truck}`: the key of a (route, truck type) pair in `capacity` and `cost`. */
  function CompoundKey(route: string, truck: string): string {
    route + [Delimiter] + truck
  }

  /**
    A compound key splits back into its parts at its first delimiter, so two
    pairs whose routes contain no delimiter have equal keys only when they are
    the same pair.
  */
  lemma CompoundKeyInjective(r1: string, t1: string, r2: string, t2: string)
    requires Delimiter !in r1 && Delimiter !in r2
    requires CompoundKey(r1, t1) == CompoundKey(r2, t2)
    ensures r1 == r2 && t1 == t2
  {
    var k := CompoundKey(r1, t1);
    // the first delimiter of the key sits right after the route
    assert k[|r1|] == Delimiter && k[|r2|] == Delimiter;
    assert r1 == k[..|r1|] == r2;
    assert t1 == k[|r1| + 1..] == t2;
  }

  /** Without that restriction the key is ambiguous: two different pairs share one key. */
  lemma CompoundKeyCollision()
    ensures CompoundKey("a|b", "c") == CompoundKey("a", "b|c")
    ensures ("a|b", "c") != ("a", "b|c")
  {
  }

  /** Both the upload pages and the upload endpoint accept a name ending in `.xlsx` or `.xls`, case-sensitively. */
  predicate HasExcelExtension(name: string) {
    EndsWith(name, ".xlsx") || EndsWith(name, ".xls")
  }

  /** ASCII lower-casing of one character, as the `i` flag of a regular expression compares letters. */
  function LowerChar(c: char): char {
    if 'A' <= c <= 'Z' then (c as int + 32) as char else c
  }

  function Lower(s: string): (r: string)
    ensures |r| == |s|
  {
    seq(|s|, i requires 0 <= i < |s| => LowerChar(s[i]))
  }

  /** `s` ends with `suffix` up to ASCII case (`suffix` is written in lower case). */
  predicate EndsWithIgnoringCase(s: string, suffix: string) {
    |suffix| <= |s| && Lower(s[|s| - |suffix|..]) == suffix
  }

  /**
    `name.replace(/\.xlsx?$/i, '')`: the scenario name derived from an uploaded
    file name. A trailing `.xlsx` or `.xls`, in any letter case, is removed;
    any other name is kept whole.
  */
  function StripExcelExtension(name: string): (r: string)
    ensures |r| <= |name| && name[..|r|] == r
    ensures EndsWithIgnoringCase(name, ".xlsx") ==> |r| == |name| - 5
    ensures !EndsWithIgnoringCase(name, ".xlsx") && EndsWithIgnoringCase(name, ".xls") ==> |r| == |name| - 4
    ensures r == name <==> !EndsWithIgnoringCase(name, ".xlsx") && !EndsWithIgnoringCase(name, ".xls")
  {
    if EndsWithIgnoringCase(name, ".xlsx") then name[..|name| - 5]
    else if EndsWithIgnoringCase(name, ".xls") then name[..|name| - 4]
    else name
  }

  /** The base name of `base.xlsx` or `base.XLS` is `base`, whatever the case of the extension. */
  lemma {:induction false} StripExcelExtensionOf(base: string, ext: string)
    requires Lower(ext) == ".xlsx" || Lower(ext) == ".xls"
    ensures StripExcelExtension(base + ext) == base
  {
    var name := base + ext;
    assert name[|name| - |ext|..] == ext;
    if Lower(ext) == ".xls" {
      // ".xls" ends in 's', which no spelling of ".xlsx" does
      assert |ext| == 4;
      assert Lower(name[|name| - 4..]) == ".xls";
      assert LowerChar(name[|name| - 1]) == Lower(name[|name| - 4..])[3] == 's';
      if |name| >= 5 {
        assert Lower(name[|name| - 5..])[4] == LowerChar(name[|name| - 1]);
      }
    }
    assert name[..|base|] == base;
  }
}
