/**
 * The part of Python 3.12's pure POSIX paths the channel specification uses:
 * the final component (name), its suffix and stem, and the copies with_name
 * and with_suffix make.
 */
module Paths {
  import opened Common

  /** A valid final path component: with_name refuses "", "." and anything holding a separator. */
  predicate ValidName(n: string)
  {
    n != "" && n != "." && '/' !in n
  }

  /**
   * A path split into everything before its final component (separators
   * included) and the final component itself, which is empty for "/" and ".".
   */
  datatype PurePath = PurePath(dir: string, name: string)

  type Path = p: PurePath | p.name == "" || ValidName(p.name) witness PurePath("", "")

  /** str(path). */
  function Str(p: Path): string
  {
    p.dir + p.name
  }

  /** str.rfind: the last position of c in s. */
  function RFind(s: string, c: char): (r: Option<nat>)
    ensures r.None? <==> c !in s
    ensures r.Some? ==> r.value < |s| && s[r.value] == c && c !in s[r.value + 1..]
  {
    if s == [] then None
    else if s[|s| - 1] == c then Some(|s| - 1)
    else
      var r := RFind(s[..|s| - 1], c);
      assert s == s[..|s| - 1] + [s[|s| - 1]];
      if r.Some? then
        assert s[r.value + 1..] == s[..|s| - 1][r.value + 1..] + [s[|s| - 1]];
        r
      else r
  }

  /** The last position of c is the one after which c no longer occurs. */
  lemma {:induction false} RFindAt(s: string, c: char, i: nat)
    requires i < |s| && s[i] == c && c !in s[i + 1..]
    ensures RFind(s, c) == Some(i)
  {
    if i < |s| - 1 {
      assert s[|s| - 1] == s[i + 1..][|s| - 2 - i];
      assert s[..|s| - 1][i + 1..] == s[i + 1..|s| - 1];
      RFindAt(s[..|s| - 1], c, i);
    }
  }

  /** The position of the dot that starts the suffix, when there is a suffix. */
  function SuffixDot(name: string): (i: Option<nat>)
    ensures i.Some? ==> 0 < i.value < |name| - 1 && name[i.value] == '.' && '.' !in name[i.value + 1..]
  {
    match RFind(name, '.')
    case None => None
    case Some(k) => if 0 < k < |name| - 1 then Some(k) else None
  }

  /** PurePath.suffix: from the last dot on, unless that dot is first or last. */
  function Suffix(name: string): (s: string)
    ensures s == "" || (|s| >= 2 && s[0] == '.' && '.' !in s[1..])
  {
    match SuffixDot(name)
    case None => ""
    case Some(i) => assert name[i..][1..] == name[i + 1..]; name[i..]
  }

  /** PurePath.stem: the name without its suffix. */
  function Stem(name: string): (s: string)
    ensures name == s + Suffix(name)
    ensures name != "" ==> s != ""
  {
    match SuffixDot(name)
    case None => name
    case Some(i) => name[..i]
  }

  /** PurePath.with_name. */
  function WithName(p: Path, n: string): (r: Result<Path>)
    ensures r.Ok? <==> p.name != "" && ValidName(n)
    ensures r.Err? ==> r.error == ValueError
    ensures r.Ok? ==> r.value.dir == p.dir && r.value.name == n
  {
    if p.name == "" || !ValidName(n) then Err(ValueError) else Ok(PurePath(p.dir, n))
  }

  /** A suffix with_suffix accepts: empty, or a dot followed by something, with no separator. */
  predicate ValidSuffix(s: string)
  {
    '/' !in s && (s == "" || (s[0] == '.' && s != "."))
  }

  /** PurePath.with_suffix for a non-empty suffix: the old suffix (if any) replaced by the new one. */
  function WithSuffix(p: Path, suffix: string): (r: Result<Path>)
    requires suffix != ""
    ensures r.Ok? <==> ValidSuffix(suffix) && p.name != ""
    ensures r.Err? ==> r.error == ValueError
    ensures r.Ok? ==> r.value.dir == p.dir && r.value.name == Stem(p.name) + suffix
  {
    if !ValidSuffix(suffix) then Err(ValueError)
    else if p.name == "" then Err(ValueError)
    else
      var name := if Suffix(p.name) == "" then p.name + suffix else p.name[..|p.name| - |Suffix(p.name)|] + suffix;
      assert Stem(p.name) + Suffix(p.name) == p.name;
      assert ValidName(name) by {
        assert '/' !in Stem(p.name);
        assert |name| >= 2;
      }
      WithName(p, name)
  }

  /** The dot a suffix starts with is the last dot of stem + suffix. */
  lemma SuffixOfJoin(stem: string, suffix: string)
    requires stem != "" && |suffix| >= 2 && suffix[0] == '.' && '.' !in suffix[1..]
    ensures Suffix(stem + suffix) == suffix && Stem(stem + suffix) == stem
  {
    var name := stem + suffix;
    assert name[|stem|] == '.';
    assert name[|stem| + 1..] == suffix[1..];
    RFindAt(name, '.', |stem|);
    assert name[|stem|..] == suffix;
  }

  /** with_suffix with a real suffix: the result has that suffix and keeps the stem. */
  lemma WithSuffixSuffix(p: Path, suffix: string)
    requires suffix != "" && ValidSuffix(suffix) && '.' !in suffix[1..] && p.name != ""
    ensures WithSuffix(p, suffix).Ok?
    ensures Suffix(WithSuffix(p, suffix).value.name) == suffix
    ensures Stem(WithSuffix(p, suffix).value.name) == Stem(p.name)
  {
    SuffixOfJoin(Stem(p.name), suffix);
  }

  /**
   * Inserting text without dots between the stem and a non-empty suffix keeps
   * the suffix and extends the stem by that text.
   */
  lemma InsertBeforeSuffix(name: string, text: string)
    requires Suffix(name) != "" && '.' !in text
    ensures Suffix(Stem(name) + text + Suffix(name)) == Suffix(name)
    ensures Stem(Stem(name) + text + Suffix(name)) == Stem(name) + text
  {
    assert name != "";
    SuffixOfJoin(Stem(name) + text, Suffix(name));
  }
}
