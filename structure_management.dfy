/** `import_structure`: a process-wide cache from structure name to the
  * structure parsed from `assets/structures/<name>.arch`. The file system
  * and the RON parser are a fixed function from path to outcome; the
  * cache is proved transparent: every import returns what that function
  * gives for the name's path, whatever the cache holds. */
module StructureManagement {
  import opened Common
  import opened Structures

  /** What opening and parsing a file yields. */
  datatype FileOutcome = Missing | Unparsable | Parsed(structure: Structure)

  type FileSystem = string -> FileOutcome

  /** `Path::join`: an absolute part replaces the base; a separator is added
    * only between a non-empty base that lacks one and the part. */
  function JoinPath(base: string, part: string): string
  {
    if |part| > 0 && part[0] == '/' then part
    else if |base| == 0 || base[|base| - 1] == '/' then base + part
    else base + "/" + part
  }

  /** The file looked up for a name under the working directory `cwd`. */
  function StructurePath(cwd: string, name: string): string
  {
    JoinPath(JoinPath(cwd, "assets/structures"), name + ".arch")
  }

  /** A relative name under a working directory without a trailing slash
    * is looked up as `<cwd>/assets/structures/<name>.arch`. */
  lemma StructurePathLayout(cwd: string, name: string)
    requires |cwd| > 0 && cwd[|cwd| - 1] != '/' && (|name| == 0 || name[0] != '/')
    ensures StructurePath(cwd, name) == cwd + "/assets/structures/" + name + ".arch"
  {
    var dir := cwd + "/assets/structures";
    StructuresDirectory(cwd);
    assert (name + ".arch")[0] != '/';
    assert JoinPath(dir, name + ".arch") == dir + "/" + (name + ".arch");
    DirectoryThenFile(cwd, name);
  }

  lemma StructuresDirectory(cwd: string)
    requires |cwd| > 0 && cwd[|cwd| - 1] != '/'
    ensures JoinPath(cwd, "assets/structures") == cwd + "/assets/structures"
    ensures (cwd + "/assets/structures")[|cwd + "/assets/structures"| - 1] == 's'
  {
    AppendAssoc(cwd, "/", "assets/structures");
  }

  lemma DirectoryThenFile(cwd: string, name: string)
    ensures cwd + "/assets/structures" + "/" + (name + ".arch") == cwd + "/assets/structures/" + name + ".arch"
  {
    assert "/assets/structures" + "/" == "/assets/structures/";
    AppendAssoc(cwd + "/assets/structures", "/", name + ".arch");
    AppendAssoc(cwd, "/assets/structures", "/");
    AppendAssoc(cwd + "/assets/structures/", name, ".arch");
  }

  /** A name that is itself an absolute path escapes the structures directory. */
  lemma AbsoluteNameEscapes(cwd: string, name: string)
    requires |name| > 0 && name[0] == '/'
    ensures StructurePath(cwd, name) == name + ".arch"
  {
    assert (name + ".arch")[0] == '/';
  }

  /** What an import of `name` returns, read straight from the file system. */
  function ImportFromFiles(fs: FileSystem, cwd: string, name: string): (r: Result<Structure, ImportError>)
    ensures r.Ok? <==> fs(StructurePath(cwd, name)).Parsed?
    ensures r.Ok? ==> r.value == fs(StructurePath(cwd, name)).structure
  {
    var path := StructurePath(cwd, name);
    match fs(path)
    case Missing => Err(FileNotFound(path))
    case Unparsable => Err(Unreadable(path))
    case Parsed(s) => Ok(s)
  }

  class StructureCache {
    var cache: map<string, Structure>
    const cwd: string
    const fs: FileSystem
    /** The file paths consulted so far, in order. */
    ghost var lookups: seq<string>

    /** Every cached structure is the one its file parses to. */
    ghost predicate Valid()
      reads this
    {
      forall n :: n in cache ==> fs(StructurePath(cwd, n)) == Parsed(cache[n])
    }

    constructor (cwd: string, fs: FileSystem)
      ensures Valid() && this.cwd == cwd && this.fs == fs
      ensures cache == map[] && lookups == []
    {
      this.cwd := cwd;
      this.fs := fs;
      cache := map[];
      lookups := [];
    }

    /** `import_structure(name)`. */
    method Import(name: string) returns (r: Result<Structure, ImportError>)
      requires Valid()
      modifies this
      ensures Valid()
      ensures r == ImportFromFiles(fs, cwd, name)
      ensures name in old(cache) ==>
        r == Ok(old(cache)[name]) && cache == old(cache) && lookups == old(lookups)
      ensures name !in old(cache) ==> lookups == old(lookups) + [StructurePath(cwd, name)]
      ensures name !in old(cache) && r.Ok? ==> cache == old(cache)[name := r.value]
      ensures name !in old(cache) && r.Err? ==> cache == old(cache)
    {
      if name in cache {
        return Ok(cache[name]);
      }
      var path := StructurePath(cwd, name);
      lookups := lookups + [path];
      match fs(path)
      case Missing =>
        r := Err(FileNotFound(path));
      case Unparsable =>
        r := Err(Unreadable(path));
      case Parsed(s) =>
        cache := cache[name := s];
        r := Ok(s);
    }
  }

  /** A successful import is cached: importing the same name again returns
    * the same structure without consulting the file system. */
  method ImportTwice(c: StructureCache, name: string) returns (first: Result<Structure, ImportError>, second: Result<Structure, ImportError>)
    requires c.Valid()
    modifies c
    ensures c.Valid()
    ensures first.Ok? ==> second == first && name in c.cache
    ensures first.Ok? ==> |c.lookups| <= |old(c.lookups)| + 1
  {
    first := c.Import(name);
    second := c.Import(name);
  }
}
