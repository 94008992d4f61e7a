/** Filesystem paths as sequences of name segments, with the two pathlib
    operations the core uses: `/` (joining one name) and `suffix`. */
module Paths {

  datatype Path = Path(segments: seq<string>)

  /** `p / name` and `p.joinpath(name)` for a single relative segment;
      pathlib drops an empty name, so `p / ""` is `p`. */
  function Join(p: Path, name: string): (r: Path)
    ensures name == "" ==> r == p
    ensures name != "" ==> |r.segments| == |p.segments| + 1
    ensures name != "" ==> r.segments[..|p.segments|] == p.segments && r.segments[|p.segments|] == name
  {
    if name == "" then p else Path(p.segments + [name])
  }

  /** `p.name`: the final segment, or the empty string for a path without segments. */
  function Name(p: Path): (r: string) {
    if |p.segments| == 0 then "" else p.segments[|p.segments| - 1]
  }

  /** `s.rfind(c)`: the index of the last `c` in `s`, or -1. */
  function RFind(s: string, c: char): (r: int)
    ensures -1 <= r < |s|
    ensures r >= 0 ==> s[r] == c
    ensures forall j :: r < j < |s| ==> s[j] != c
  {
    if |s| == 0 then -1
    else if s[|s| - 1] == c then |s| - 1
    else RFind(s[..|s| - 1], c)
  }

  /** `p.suffix`: from the last dot of the name to its end, provided that dot
      is neither the first nor the last character of the name; otherwise "". */
  function Suffix(p: Path): (r: string)
    ensures r == "" || (|r| >= 2 && r[0] == '.' && '.' !in r[1..])
    ensures r != "" ==> exists stem :: stem != "" && Name(p) == stem + r
  {
    var name := Name(p);
    var i := RFind(name, '.');
    if 0 < i < |name| - 1 then
      assert name == name[..i] + name[i..];
      name[i..]
    else ""
  }

  /** A name `stem.ext` with a non-empty stem and a non-empty extension
      without dots has suffix `.ext`, whatever dots the stem holds. */
  lemma ExtensionSuffix(dirs: seq<string>, stem: string, ext: string)
    requires stem != "" && ext != ""
    requires '.' !in ext
    ensures Suffix(Path(dirs + [stem + "." + ext])) == "." + ext
  {
    var name := stem + "." + ext;
    assert Name(Path(dirs + [name])) == name;
    assert name[|stem|] == '.';
    forall j | |stem| < j < |name| ensures name[j] != '.' {
      assert name[j] == ext[j - |stem| - 1];
    }
    assert RFind(name, '.') == |stem|;
    assert name[|stem|..] == "." + ext;
  }

  /** A name `stem.json` with a non-empty stem has suffix `.json`. */
  lemma JsonNameSuffix(dirs: seq<string>, stem: string)
    requires stem != ""
    ensures Suffix(Path(dirs + [stem + ".json"])) == ".json"
  {
    assert stem + ".json" == stem + "." + "json";
    ExtensionSuffix(dirs, stem, "json");
  }

  /** A name that is only `.json` (a hidden file) has no suffix. */
  lemma HiddenJsonNameSuffix(dirs: seq<string>)
    ensures Suffix(Path(dirs + [".json"])) == ""
  {
  }
}
