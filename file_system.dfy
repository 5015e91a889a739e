/** The part of the .NET file system the test writers touch: files as a map from full
    path to text, directories as a set of full paths, and the path rules of
    `DirectoryInfo` (a path combined with `"\\"`, `Name` as the last component). */
module FileSystemModel {

  const Separator: char := '\\'

  /** `dir + "\\" + name`: the path of an entry of directory `dir`. */
  function ChildPath(dir: string, name: string): string {
    dir + [Separator] + name
  }

  /** `DirectoryInfo.Name`: everything after the last separator. */
  function LastComponent(path: string): (r: string)
    ensures Separator !in r
    ensures |r| <= |path| && r == path[|path| - |r|..]
  {
    if path == [] || path[|path| - 1] == Separator then []
    else LastComponent(path[..|path| - 1]) + [path[|path| - 1]]
  }

  /** An entry's name is the last component of its path whenever the name holds no
      separator. */
  lemma {:induction false} NameOfChild(dir: string, name: string)
    requires Separator !in name
    ensures LastComponent(ChildPath(dir, name)) == name
    decreases |name|
  {
    if name != [] {
      var shorter := name[..|name| - 1];
      NameOfChild(dir, shorter);
      assert ChildPath(dir, name)[..|ChildPath(dir, name)| - 1] == ChildPath(dir, shorter);
    }
  }

  /** `path` names a direct entry of `dir`. */
  predicate IsChildOf(path: string, dir: string) {
    |dir| + 1 <= |path| && path[..|dir| + 1] == dir + [Separator]
    && Separator !in path[|dir| + 1..]
  }

  /** The names of the directories directly inside `dir`, as `GetDirectories` lists them. */
  function SubdirectoryNames(dirs: set<string>, dir: string): set<string> {
    set d | d in dirs && IsChildOf(d, dir) :: d[|dir| + 1..]
  }

  /** Every listed name is the name of a directory directly inside `dir`. */
  lemma SubdirectoryNamesSound(dirs: set<string>, dir: string, name: string)
    requires name in SubdirectoryNames(dirs, dir)
    ensures Separator !in name && ChildPath(dir, name) in dirs
  {
    var d :| d in dirs && IsChildOf(d, dir) && name == d[|dir| + 1..];
    assert d == d[..|dir| + 1] + d[|dir| + 1..];
  }

  /** Every directory directly inside `dir` is listed under its name. */
  lemma SubdirectoryListed(dirs: set<string>, dir: string, name: string)
    requires ChildPath(dir, name) in dirs && Separator !in name
    ensures name in SubdirectoryNames(dirs, dir)
  {
    var d := ChildPath(dir, name);
    assert d[..|dir| + 1] == dir + [Separator];
    assert d[|dir| + 1..] == name;
    assert IsChildOf(d, dir);
  }

  /** The files and directories on disk. `File.Delete` of a missing file does nothing,
      `Directory.Create` of an existing directory does nothing, `File.Copy` refuses a
      missing source and an existing target. */
  class FileSystem {
    var files: map<string, string>
    var dirs: set<string>

    constructor(files0: map<string, string>, dirs0: set<string>)
      ensures files == files0 && dirs == dirs0
    {
      files := files0;
      dirs := dirs0;
    }

    method CreateDirectory(path: string)
      modifies this`dirs
      ensures dirs == old(dirs) + {path}
    {
      dirs := dirs + {path};
    }

    method DeleteFile(path: string)
      modifies this`files
      ensures files == old(files) - {path}
    {
      files := files - {path};
    }

    method WriteFile(path: string, text: string)
      modifies this`files
      ensures files == old(files)[path := text]
    {
      files := files[path := text];
    }

    /** `File.Copy(src, dst)`: `ok` is false where it throws, and then nothing changed. */
    method CopyFile(src: string, dst: string) returns (ok: bool)
      modifies this`files
      ensures ok <==> src in old(files) && dst !in old(files)
      ensures files == if ok then old(files)[dst := old(files)[src]] else old(files)
    {
      ok := src in files && dst !in files;
      if ok {
        files := files[dst := files[src]];
      }
    }
  }
}
