/** File names, their extensions, and the snapshot format an extension selects. */
module Paths {
  import opened Wrappers

  datatype Format = Json | Yaml | Toml

  /** A normalised path: everything up to the last component, and that component. */
  datatype Path = Path(parent: string, name: string)

  /** The position of the last dot of a name. */
  function LastDot(name: string): (r: Option<nat>)
    ensures r.Some? ==> r.value < |name| && name[r.value] == '.' && '.' !in name[r.value + 1..]
    ensures r.None? ==> '.' !in name
  {
    if name == "" then None
    else if name[|name| - 1] == '.' then Some(|name| - 1)
    else
      var init := name[..|name| - 1];
      assert name == init + [name[|name| - 1]];
      var r := LastDot(init);
      assert r.Some? ==> name[r.value + 1..] == init[r.value + 1..] + [name[|name| - 1]];
      r
  }

  /** A name splits at its last dot, unless that dot comes first or there is no file name at all. */
  predicate Splits(name: string) {
    name != ".." && LastDot(name).Some? && LastDot(name).value > 0
  }

  /** `Path::extension`. */
  function Extension(path: Path): Option<string> {
    if Splits(path.name) then Some(path.name[LastDot(path.name).value + 1..]) else None
  }

  /** `Path::file_stem`; `..` and the empty name have none. */
  function Stem(path: Path): Option<string> {
    if path.name in {"", ".."} then None
    else if Splits(path.name) then Some(path.name[..LastDot(path.name).value])
    else Some(path.name)
  }

  /** `Path::with_extension` for a non-empty extension. */
  function WithExtension(path: Path, extension: string): Path {
    match Stem(path)
    case None => path
    case Some(stem) => path.(name := stem + "." + extension)
  }

  function FromPath(path: Path): Option<Format> {
    match Extension(path)
    case None => None
    case Some(extension) =>
      if extension == "json" then Some(Json)
      else if extension in {"yaml", "yml"} then Some(Yaml)
      else if extension == "toml" then Some(Toml)
      else None
  }

  /** Where `flush` writes before it renames. */
  function TempPath(path: Path): Path {
    WithExtension(path, "tmp")
  }

  lemma LastDotOf(stem: string, extension: string)
    requires '.' !in extension
    ensures LastDot(stem + "." + extension) == Some(|stem|)
  {
    var name := stem + "." + extension;
    assert name[|stem|] == '.';
    assert name[|stem| + 1..] == extension;
  }

  /** The extension is what follows the last dot, and the stem what precedes it; a leading dot starts no extension. */
  lemma ExtensionAndStem(parent: string, stem: string, extension: string)
    requires '.' !in extension && stem + "." + extension != ".."
    ensures var path := Path(parent, stem + "." + extension);
      if stem == "" then Extension(path) == None && Stem(path) == Some(path.name)
      else Extension(path) == Some(extension) && Stem(path) == Some(stem)
  {
    LastDotOf(stem, extension);
    var name := stem + "." + extension;
    assert name[|stem|] == '.';
    assert name[|stem| + 1..] == extension && name[..|stem|] == stem;
  }

  /** Which extension selects which format; no other selects any. */
  lemma FormatOfName(parent: string, stem: string, extension: string)
    requires stem != "" && '.' !in extension
    ensures var format := FromPath(Path(parent, stem + "." + extension));
      && (format == Some(Json) <==> extension == "json")
      && (format == Some(Yaml) <==> extension == "yaml" || extension == "yml")
      && (format == Some(Toml) <==> extension == "toml")
  {
    if stem + "." + extension == ".." {
      assert |extension| == 0;
    } else {
      ExtensionAndStem(parent, stem, extension);
    }
  }

  /** A name without a dot, or with a dot in front only, is no file that any `open` accepts. */
  lemma NoExtensionNoFormat(path: Path)
    requires path.name == "" || '.' !in path.name[1..]
    ensures FromPath(path) == None
  {
    assert forall i | 0 < i < |path.name| :: path.name[i] == path.name[1..][i - 1];
  }

  /** The name ends like this, and something stands before. */
  predicate Ends(path: Path, suffix: string) {
    |path.name| > |suffix| && path.name[|path.name| - |suffix|..] == suffix
  }

  lemma SuffixIsExtension(path: Path, suffix: string)
    requires |suffix| > 1 && suffix[0] == '.' && '.' !in suffix[1..]
    ensures Ends(path, suffix) <==> Extension(path) == Some(suffix[1..])
  {
    var n := |path.name| - |suffix|;
    if Ends(path, suffix) {
      var stem := path.name[..n];
      assert path.name == stem + "." + suffix[1..];
      ExtensionAndStem(path.parent, stem, suffix[1..]);
    }
  }

  /** The same read off the end of the name. */
  lemma FormatBySuffix(path: Path)
    ensures FromPath(path) == Some(Json) <==> Ends(path, ".json")
    ensures FromPath(path) == Some(Yaml) <==> Ends(path, ".yaml") || Ends(path, ".yml")
    ensures FromPath(path) == Some(Toml) <==> Ends(path, ".toml")
  {
    SuffixIsExtension(path, ".json");
    SuffixIsExtension(path, ".yaml");
    SuffixIsExtension(path, ".yml");
    SuffixIsExtension(path, ".toml");
    assert ".json"[1..] == "json" && ".yaml"[1..] == "yaml" && ".yml"[1..] == "yml" && ".toml"[1..] == "toml";
  }

  /** The temporary file has the target's name with the extension `tmp` in place of its own. */
  lemma TempName(parent: string, stem: string, extension: string)
    requires stem != "" && '.' !in extension && stem + "." + extension != ".."
    ensures TempPath(Path(parent, stem + "." + extension)) == Path(parent, stem + ".tmp")
  {
    ExtensionAndStem(parent, stem, extension);
    assert stem + "." + "tmp" == stem + ".tmp";
  }

  lemma TempExtension(path: Path)
    requires Splits(path.name)
    ensures Extension(TempPath(path)) == Some("tmp") && Stem(TempPath(path)) == Stem(path)
  {
    var stem := Stem(path).value;
    assert (stem + "." + "tmp")[|stem| + 1] == 't';
    ExtensionAndStem(path.parent, stem, "tmp");
  }

  lemma TmpIsNoFormat(path: Path)
    requires Extension(path) == Some("tmp")
    ensures FromPath(path) == None
  {
    assert "tmp"[0] == 't' && "tmp"[1] == 'm';
    assert "json"[0] == 'j' && "yaml"[0] == 'y' && "yml"[0] == 'y' && "toml"[1] == 'o';
  }

  /**
    The temporary file is never the file `open` accepted, nor any file that any `open` accepts;
    it lies in the same directory, so the rename replaces the target in one step.
   */
  lemma TempIsNoTarget(path: Path, other: Path)
    requires FromPath(path).Some? && FromPath(other).Some?
    ensures TempPath(path) != other
    ensures TempPath(path).parent == path.parent
    ensures FromPath(TempPath(path)) == None
  {
    TempExtension(path);
    TmpIsNoFormat(TempPath(path));
  }

  /** Two stores write the same temporary file exactly if their files differ in nothing but the extension. */
  lemma TempSharedIff(p: Path, q: Path)
    requires FromPath(p).Some? && FromPath(q).Some?
    ensures TempPath(p) == TempPath(q) <==> p.parent == q.parent && Stem(p) == Stem(q)
  {
    TempExtension(p);
    TempExtension(q);
  }
}
