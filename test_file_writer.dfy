/** The three test writers (`TestFileWriter.cs`): where a generated test lands on disk,
    first as a provisional file and then, once the plan's behaviour is known, in its
    final directory. The file system is the abstract `FileSystem` of `FileSystemModel`;
    the conversion of a plan to test code is a function the plan carries. */
module TestFileWriters {
  import opened Common
  import opened CsStrings
  import opened FileSystemModel

  /** What a writer reads from a plan: `ClassName`, `TestCaseId` (the plan's unique id)
      and `ToTestCase(exceptionType, printPlanToString: true, className,
      useRandoopContracts)`, the text of the test, or `None` where the conversion throws. */
  datatype PlanView = PlanView(
    className: string,
    testCaseId: int,
    toTestCase: (Option<TypeName>, string, bool) -> Option<string>)

  /** An exception as the writers see it: the full name of its type and its message. */
  datatype ExceptionInfo = ExceptionInfo(typeFullName: TypeName, message: string)

  /** The exceptions a writer method lets escape. */
  datatype Failure =
    | CopyFailed               // File.Copy: the source is missing or the target exists
    | IndexUnparsable          // int.Parse of a normaltermination directory's suffix
    | AssertionFailed          // Util.Assert: the new normaltermination directory exists
    | AmbiguousClassDirectory  // Single(): two known directories carry the class's name

  datatype Status = Completed | Threw(failure: Failure)

  const TempDirName: string := "temp"
  const NormalTerminationPrefix: string := "normaltermination"
  const AssertionViolationsDirName: string := "AssertionViolations"
  const AssertionMessagePrefix: string := "Randoop: an assertion was violated"
  const TestsPerDirectory: nat := 1000

  // ---------------------------------------------------------------- path rules

  /** The test's class name: the plan's class name followed by its id. */
  function TestClassName(p: PlanView): string {
    p.className + IntToString(p.testCaseId)
  }

  /** The file a test of class `TestClassName(p)` is written to inside `dir`. */
  function TestFileName(dir: string, p: PlanView): string {
    ChildPath(dir, TestClassName(p) + ".cs")
  }

  function TempDir(outputDir: string): string {
    ChildPath(outputDir, TempDirName)
  }

  /** Where a classifying writer keeps a test until it is moved or removed. */
  function TempFileName(outputDir: string, p: PlanView): string {
    TestFileName(TempDir(outputDir), p)
  }

  lemma IntToStringHasNoSeparator(n: int)
    ensures Separator !in IntToString(n)
  {
    var s := IntToString(n);
    if n >= 0 {
      assert forall i :: 0 <= i < |s| ==> IsDigit(s[i]);
    } else {
      assert forall i :: 1 <= i < |s| ==> s[i] == NatToDigits(-n)[i - 1];
    }
  }

  /** A test file lies directly inside its directory and is named ClassName + TestCaseId
      + ".cs", provided the class name holds no separator. */
  lemma TestFileNameShape(dir: string, p: PlanView)
    requires Separator !in p.className
    ensures IsChildOf(TestFileName(dir, p), dir)
    ensures LastComponent(TestFileName(dir, p)) == TestClassName(p) + ".cs"
  {
    var name := TestClassName(p) + ".cs";
    IntToStringHasNoSeparator(p.testCaseId);
    assert Separator !in name by {
      assert forall i :: 0 <= i < |name| ==>
        name[i] in p.className || name[i] in IntToString(p.testCaseId) || name[i] in ".cs";
    }
    NameOfChild(dir, name);
    var f := TestFileName(dir, p);
    assert f[..|dir| + 1] == dir + [Separator] && f[|dir| + 1..] == name;
  }

  /** Two plans of one class with different ids never share a test file. */
  lemma TestFileNamesDistinct(dir: string, p: PlanView, q: PlanView)
    requires p.className == q.className && TestFileName(dir, p) == TestFileName(dir, q)
    ensures p.testCaseId == q.testCaseId
  {
    var f := TestFileName(dir, p);
    var from := |dir| + 1 + |p.className|;
    assert |IntToString(p.testCaseId)| == |IntToString(q.testCaseId)|;
    assert f[from..|f| - 3] == IntToString(p.testCaseId);
    assert TestFileName(dir, q)[from..|f| - 3] == IntToString(q.testCaseId);
    IntToStringInjective(p.testCaseId, q.testCaseId);
  }

  /** A test moved to `dir` is a different file from its provisional one unless `dir` is
      the temporary directory itself. */
  lemma MovedFileIsNotTempFile(outputDir: string, dir: string, p: PlanView)
    requires TestFileName(dir, p) == TempFileName(outputDir, p)
    ensures dir == TempDir(outputDir)
  {
    var f := TestFileName(dir, p);
    var tail := [Separator] + TestClassName(p) + ".cs";
    assert f == dir + tail;
    assert TempFileName(outputDir, p) == TempDir(outputDir) + tail;
    assert f[..|f| - |tail|] == dir;
  }

  // ---------------------------------------------------------------- writing a plan

  /** The files after writing `code` to `fileName`: a conversion that threw writes nothing. */
  function Written(files: map<string, string>, fileName: string, code: Option<string>)
    : (r: map<string, string>)
    ensures code.None? ==> r == files
    ensures code.Some? ==> fileName in r && r[fileName] == code.value
    ensures forall f :: f != fileName ==> (f in r <==> f in files)
    ensures forall f :: f != fileName && f in r ==> r[f] == files[f]
  {
    if code.Some? then files[fileName := code.value] else files
  }

  /** `WritePlanToFile`: the plan's test code goes to `fileName`; when the conversion
      throws, the dummy test case is discarded and no file changes. */
  method WritePlanToFile(fs: FileSystem, p: PlanView, fileName: string,
                         exceptionType: Option<TypeName>, className: string,
                         useRandoopContracts: bool)
    modifies fs`files
    ensures fs.files
         == Written(old(fs.files), fileName, p.toTestCase(exceptionType, className, useRandoopContracts))
  {
    var code := p.toTestCase(exceptionType, className, useRandoopContracts);
    var writeTest := code.Some?;
    if writeTest {
      fs.WriteFile(fileName, code.value);
    }
  }

  /** The files after a classifying writer moves `p`'s test from the temporary
      directory into `dir`: the code is written there, then the provisional file goes. */
  function MovedFiles(files: map<string, string>, outputDir: string, dir: string,
                      p: PlanView, code: Option<string>): map<string, string>
  {
    Written(files, TestFileName(dir, p), code) - {TempFileName(outputDir, p)}
  }

  /** Moving out of the temporary directory leaves no provisional file, puts the code in
      the target and touches no other file. */
  lemma MovedFilesEffect(files: map<string, string>, outputDir: string, dir: string,
                         p: PlanView, code: Option<string>)
    requires dir != TempDir(outputDir)
    ensures var r := MovedFiles(files, outputDir, dir, p, code);
      && TempFileName(outputDir, p) !in r
      && (code.Some? ==> TestFileName(dir, p) in r && r[TestFileName(dir, p)] == code.value)
      && (forall f :: f != TestFileName(dir, p) && f != TempFileName(outputDir, p) ==>
            (f in r <==> f in files) && (f in r ==> r[f] == files[f]))
  {
    if TestFileName(dir, p) == TempFileName(outputDir, p) {
      MovedFileIsNotTempFile(outputDir, dir, p);
    }
  }

  /** The common tail of the classifying writers' moves. */
  method MoveFromTemp(fs: FileSystem, outputDir: string, useRandoopContracts: bool,
                      p: PlanView, dir: string, exceptionType: Option<TypeName>)
    modifies fs`files
    ensures fs.files == MovedFiles(old(fs.files), outputDir, dir, p,
                                   p.toTestCase(exceptionType, TestClassName(p), useRandoopContracts))
  {
    var testClassName := TestClassName(p);
    var oldTestFileName := ChildPath(TempDir(outputDir), testClassName + ".cs");
    var newTestFileName := ChildPath(dir, testClassName + ".cs");
    WritePlanToFile(fs, p, newTestFileName, exceptionType, testClassName, useRandoopContracts);
    fs.DeleteFile(oldTestFileName);
  }

  // ---------------------------------------------------------------- single directory

  /** The files after the single-directory writer's `Move`: the test is rewritten in
      place, and a conversion that throws leaves no file under that name. */
  function Replaced(files: map<string, string>, fileName: string, code: Option<string>)
    : (r: map<string, string>)
    ensures code.None? ==> fileName !in r
    ensures code.Some? ==> fileName in r && r[fileName] == code.value
    ensures forall f :: f != fileName ==> (f in r <==> f in files) && (f in r ==> r[f] == files[f])
  {
    Written(files - {fileName}, fileName, code)
  }

  /** Writes every test to one directory and rewrites it there when it fails. */
  class SingleDirectoryTestFileWriter {
    const fs: FileSystem
    const outputDir: string
    const useRandoopContracts: bool

    constructor(fs: FileSystem, di: string, useRandoopContracts: bool)
      modifies fs`dirs
      ensures this.fs == fs && outputDir == di && this.useRandoopContracts == useRandoopContracts
      ensures fs.dirs == old(fs.dirs) + {di}
    {
      this.fs := fs;
      outputDir := di;
      this.useRandoopContracts := useRandoopContracts;
      new;
      fs.CreateDirectory(di);
    }

    /** Saves a copy, deletes the test, writes the failing version and deletes the copy. */
    method Move(p: PlanView, exceptionThrown: ExceptionInfo) returns (s: Status)
      modifies fs`files
      ensures var fileName := TestFileName(outputDir, p);
        s == Completed <==> fileName in old(fs.files) && fileName + ".saved" !in old(fs.files)
      ensures s != Completed ==> s == Threw(CopyFailed) && fs.files == old(fs.files)
      ensures s == Completed ==> fs.files == Replaced(old(fs.files), TestFileName(outputDir, p),
        p.toTestCase(Some(exceptionThrown.typeFullName), TestClassName(p), useRandoopContracts))
    {
      var className := TestClassName(p);
      var fileName := ChildPath(outputDir, className + ".cs");
      var savedFileName := fileName + ".saved";
      var ok := fs.CopyFile(fileName, savedFileName);
      if !ok {
        return Threw(CopyFailed);
      }
      ghost var files0 := fs.files;
      fs.DeleteFile(fileName);
      WritePlanToFile(fs, p, fileName, Some(exceptionThrown.typeFullName), className, useRandoopContracts);
      fs.DeleteFile(savedFileName);
      s := Completed;
      assert fs.files == Replaced(old(fs.files), fileName,
        p.toTestCase(Some(exceptionThrown.typeFullName), className, useRandoopContracts)) by {
        assert savedFileName != fileName by { assert |savedFileName| > |fileName|; }
      }
    }

    /** A test that terminates normally stays where it is. */
    method MoveNormalTermination(p: PlanView)
      ensures unchanged(fs)
    {
    }

    method Remove(p: PlanView)
      modifies fs`files
      ensures fs.files == old(fs.files) - {TestFileName(outputDir, p)}
    {
      var className := TestClassName(p);
      fs.DeleteFile(ChildPath(outputDir, className + ".cs"));
    }

    method WriteTest(p: PlanView)
      modifies fs`files
      ensures fs.files == Written(old(fs.files), TestFileName(outputDir, p),
                                  p.toTestCase(None, TestClassName(p), useRandoopContracts))
    {
      var className := TestClassName(p);
      WritePlanToFile(fs, p, ChildPath(outputDir, className + ".cs"), None, className, useRandoopContracts);
    }
  }

  // ---------------------------------------------------------------- normaltermination rotation

  /** The path of the k-th normaltermination directory. */
  function NormalTerminationDir(outputDir: string, k: int): string {
    ChildPath(outputDir, NormalTerminationPrefix + IntToString(k))
  }

  /** The subdirectories `GetDirectories("normaltermination*")` lists. */
  function NormalTerminationNames(dirs: set<string>, outputDir: string): set<string> {
    set n | n in SubdirectoryNames(dirs, outputDir) && StartsWith(n, NormalTerminationPrefix)
  }

  /** `int.Parse` of what follows the prefix; `None` where it throws. */
  function SuffixIndex(name: string): Option<int> {
    if |name| < |NormalTerminationPrefix| then None
    else TryParseInt32(name[|NormalTerminationPrefix|..])
  }

  predicate IndicesParse(names: set<string>) {
    forall n :: n in names ==> SuffixIndex(n).Some?
  }

  /** `m` is what the search loop of `newSubDir` ends with: 0 or a larger index, and no
      index above it. */
  predicate IsMaxIndex(m: int, names: set<string>)
    requires IndicesParse(names)
  {
    && m >= 0
    && (forall n :: n in names ==> SuffixIndex(n).value <= m)
    && (m == 0 || exists n :: n in names && SuffixIndex(n) == Some(m))
  }

  /** The largest index among `names`, or 0. */
  ghost function MaxIndex(names: set<string>): int
    requires IndicesParse(names)
    decreases names
  {
    if names == {} then 0
    else
      var n :| n in names;
      var rest := MaxIndex(names - {n});
      if SuffixIndex(n).value > rest then SuffixIndex(n).value else rest
  }

  lemma {:induction false} MaxIndexIsMax(names: set<string>)
    requires IndicesParse(names)
    ensures IsMaxIndex(MaxIndex(names), names)
    decreases names
  {
    if names != {} {
      var n :| n in names && MaxIndex(names) ==
        (if SuffixIndex(n).value > MaxIndex(names - {n}) then SuffixIndex(n).value
         else MaxIndex(names - {n}));
      MaxIndexIsMax(names - {n});
    }
  }

  /** The loop's result does not depend on the order `GetDirectories` lists in. */
  lemma MaxIndexUnique(m: int, names: set<string>)
    requires IndicesParse(names) && IsMaxIndex(m, names)
    ensures m == MaxIndex(names)
  {
    MaxIndexIsMax(names);
  }

  /** The index `newSubDir` gives its new directory: one more than the largest, with the
      wrap-around of unchecked `int` addition. */
  ghost function NextIndex(dirs: set<string>, outputDir: string): int
    requires IndicesParse(NormalTerminationNames(dirs, outputDir))
  {
    Wrap32(MaxIndex(NormalTerminationNames(dirs, outputDir)) + 1)
  }

  /** `Util.Assert(!normalTerminationCurrentDir.Exists)` holds unless some existing
      directory already carries the index `int.MaxValue`. */
  lemma NextDirIsFresh(dirs: set<string>, outputDir: string)
    requires IndicesParse(NormalTerminationNames(dirs, outputDir))
    requires MaxIndex(NormalTerminationNames(dirs, outputDir)) < TwoTo31 - 1
    ensures NormalTerminationDir(outputDir, NextIndex(dirs, outputDir)) !in dirs
  {
    var names := NormalTerminationNames(dirs, outputDir);
    var m := MaxIndex(names);
    MaxIndexIsMax(names);
    var k := m + 1;
    assert NextIndex(dirs, outputDir) == k;
    var name := NormalTerminationPrefix + IntToString(k);
    if NormalTerminationDir(outputDir, k) in dirs {
      IntToStringHasNoSeparator(k);
      assert Separator !in name by {
        assert forall i :: 0 <= i < |name| ==>
          name[i] in NormalTerminationPrefix || name[i] in IntToString(k);
      }
      SubdirectoryListed(dirs, outputDir, name);
      assert name[..|NormalTerminationPrefix|] == NormalTerminationPrefix;
      assert name in names;
      assert name[|NormalTerminationPrefix|..] == IntToString(k);
      IntToStringParses(k);
      assert false;
    }
  }

  /** What `newSubDir` does to the current directory and to the directories on disk,
      given the directories `dirs0` it starts from. */
  ghost predicate SubDirOpened(outputDir: string, dirs0: set<string>, dirs1: set<string>,
                               current0: Option<string>, current1: Option<string>, s: Status)
  {
    if !IndicesParse(NormalTerminationNames(dirs0, outputDir)) then
      s == Threw(IndexUnparsable) && dirs1 == dirs0 && current1 == current0
    else
      var dir := NormalTerminationDir(outputDir, NextIndex(dirs0, outputDir));
      && current1 == Some(dir)
      && dirs1 == dirs0 + {dir}
      && s == (if dir in dirs0 then Threw(AssertionFailed) else Completed)
  }

  /** `SubDirOpened` in the case where every index parses and `next` follows the largest. */
  lemma OpenedAt(outputDir: string, dirs0: set<string>, dirs1: set<string>,
                 current0: Option<string>, current1: Option<string>, s: Status, next: int)
    requires IndicesParse(NormalTerminationNames(dirs0, outputDir))
    requires next == NextIndex(dirs0, outputDir)
    requires current1 == Some(NormalTerminationDir(outputDir, next))
    requires dirs1 == dirs0 + {NormalTerminationDir(outputDir, next)}
    requires s == if NormalTerminationDir(outputDir, next) in dirs0 then Threw(AssertionFailed) else Completed
    ensures SubDirOpened(outputDir, dirs0, dirs1, current0, current1, s)
  {
  }

  // ---------------------------------------------------------------- exception directories

  /** The directory a failing test is filed under. */
  function ExceptionDirName(e: ExceptionInfo): (r: string)
    ensures r == AssertionViolationsDirName <==>
      StartsWith(e.message, AssertionMessagePrefix) || e.typeFullName == AssertionViolationsDirName
    ensures r != AssertionViolationsDirName ==> r == e.typeFullName
  {
    if StartsWith(e.message, AssertionMessagePrefix) then AssertionViolationsDirName
    else e.typeFullName
  }

  function ExceptionDir(outputDir: string, e: ExceptionInfo): string {
    ChildPath(outputDir, ExceptionDirName(e))
  }

  /** Classifies tests by behaviour: normally terminating tests go to
      normaltermination<k> directories of at most 1000 tests each, failing ones to a
      directory named after the exception. */
  class ClassifyingByBehaviorTestFileWriter {
    const fs: FileSystem
    const outputDir: string
    const useRandoopContracts: bool
    var numNormalTerminationPlansWritten: nat
    var normalTerminationCurrentDir: Option<string>
    /** How many tests went into the current normaltermination directory. */
    ghost var testsInCurrentDir: nat

    /** Once a test has been moved there is a current directory, it exists, and it holds
        no more than 1000 of the moved tests. */
    ghost predicate Valid()
      reads this, fs`dirs
    {
      && (numNormalTerminationPlansWritten > 0 ==> normalTerminationCurrentDir.Some?)
      && (normalTerminationCurrentDir.Some? ==> normalTerminationCurrentDir.value in fs.dirs)
      && testsInCurrentDir <= TestsPerDirectory
      && (numNormalTerminationPlansWritten % TestsPerDirectory != 0 ==>
            testsInCurrentDir == numNormalTerminationPlansWritten % TestsPerDirectory)
    }

    constructor(fs: FileSystem, di: string, useRandoopContracts: bool)
      modifies fs`dirs
      ensures this.fs == fs && outputDir == di && this.useRandoopContracts == useRandoopContracts
      ensures numNormalTerminationPlansWritten == 0 && normalTerminationCurrentDir == None
      ensures fs.dirs == old(fs.dirs) + {TempDir(di)}
      ensures Valid()
    {
      this.fs := fs;
      outputDir := di;
      this.useRandoopContracts := useRandoopContracts;
      numNormalTerminationPlansWritten := 0;
      normalTerminationCurrentDir := None;
      testsInCurrentDir := 0;
      new;
      fs.CreateDirectory(TempDir(di));
    }

    /** The search loop of `newSubDir`: the largest index among the normaltermination
        directories, or `None` where `int.Parse` throws on one of them. */
    method MaxExistingIndex() returns (r: Option<int>)
      ensures r.Some? <==> IndicesParse(NormalTerminationNames(fs.dirs, outputDir))
      ensures r.Some? ==> r.value == MaxIndex(NormalTerminationNames(fs.dirs, outputDir))
    {
      var names := NormalTerminationNames(fs.dirs, outputDir);
      var pending := names;
      var maxIndex := 0;
      while pending != {}
        invariant pending <= names
        invariant IndicesParse(names - pending)
        invariant IsMaxIndex(maxIndex, names - pending)
        decreases pending
      {
        var n :| n in pending;
        var dirIndex := SuffixIndex(n);
        if dirIndex.None? {
          return None;
        }
        if dirIndex.value > maxIndex {
          maxIndex := dirIndex.value;
        }
        pending := pending - {n};
      }
      assert names - pending == names;
      MaxIndexUnique(maxIndex, names);
      r := Some(maxIndex);
    }

    /** `newSubDir`: opens the directory one past the largest existing index. */
    method NewSubDir() returns (s: Status)
      modifies this`normalTerminationCurrentDir, fs`dirs
      ensures SubDirOpened(outputDir, old(fs.dirs), fs.dirs,
                           old(normalTerminationCurrentDir), normalTerminationCurrentDir, s)
    {
      var maxIndex := MaxExistingIndex();
      if maxIndex.None? {
        return Threw(IndexUnparsable);
      }
      var next := Wrap32(maxIndex.value + 1);
      ghost var dirs0 := fs.dirs;
      s := OpenSubDir(NormalTerminationDir(outputDir, next));
      OpenedAt(outputDir, dirs0, fs.dirs, old(normalTerminationCurrentDir), normalTerminationCurrentDir, s, next);
    }

    /** The second half of `newSubDir`: make `dir` current, then create it unless it exists. */
    method OpenSubDir(dir: string) returns (s: Status)
      modifies this`normalTerminationCurrentDir, fs`dirs
      ensures normalTerminationCurrentDir == Some(dir) && fs.dirs == old(fs.dirs) + {dir}
      ensures s == (if dir in old(fs.dirs) then Threw(AssertionFailed) else Completed)
    {
      normalTerminationCurrentDir := Some(dir);
      if dir in fs.dirs {
        assert fs.dirs + {dir} == fs.dirs;
        return Threw(AssertionFailed);
      }
      fs.CreateDirectory(dir);
      s := Completed;
    }

    method WriteTest(p: PlanView)
      modifies fs`files
      ensures fs.files == Written(old(fs.files), TempFileName(outputDir, p),
                                  p.toTestCase(None, TestClassName(p), useRandoopContracts))
    {
      var testClassName := TestClassName(p);
      var fileName := ChildPath(TempDir(outputDir), testClassName + ".cs");
      WritePlanToFile(fs, p, fileName, None, testClassName, useRandoopContracts);
    }

    /** Every thousandth move opens a new normaltermination directory first; the test is
        then moved from the temporary directory into the current one. */
    method MoveNormalTermination(p: PlanView) returns (s: Status)
      requires Valid()
      modifies this, fs
      ensures Valid()
      ensures old(numNormalTerminationPlansWritten) % TestsPerDirectory != 0 ==>
        && s == Completed
        && normalTerminationCurrentDir == old(normalTerminationCurrentDir)
        && fs.dirs == old(fs.dirs)
      ensures old(numNormalTerminationPlansWritten) % TestsPerDirectory == 0 ==>
        SubDirOpened(outputDir, old(fs.dirs), fs.dirs,
                     old(normalTerminationCurrentDir), normalTerminationCurrentDir, s)
      ensures s != Completed ==>
        numNormalTerminationPlansWritten == old(numNormalTerminationPlansWritten)
        && fs.files == old(fs.files)
      ensures s == Completed ==>
        && numNormalTerminationPlansWritten == old(numNormalTerminationPlansWritten) + 1
        && normalTerminationCurrentDir.Some?
        && fs.files == MovedFiles(old(fs.files), outputDir, normalTerminationCurrentDir.value, p,
                                  p.toTestCase(None, TestClassName(p), useRandoopContracts))
    {
      s := Completed;
      if numNormalTerminationPlansWritten % TestsPerDirectory == 0 {
        s := NewSubDir();
        if s != Completed {
          return;
        }
        testsInCurrentDir := 0;
      }
      var dir := normalTerminationCurrentDir.value;
      MoveFromTemp(fs, outputDir, useRandoopContracts, p, dir, None);
      numNormalTerminationPlansWritten := numNormalTerminationPlansWritten + 1;
      testsInCurrentDir := testsInCurrentDir + 1;
    }

    /** `MakeExceptionDirIfNotExists`: the exception's directory, created if missing. */
    method MakeExceptionDirIfNotExists(exceptionThrown: ExceptionInfo) returns (dirName: string)
      modifies fs`dirs
      ensures dirName == ExceptionDir(outputDir, exceptionThrown)
      ensures fs.dirs == old(fs.dirs) + {dirName}
    {
      var dirNameBase;
      if StartsWith(exceptionThrown.message, AssertionMessagePrefix) {
        dirNameBase := AssertionViolationsDirName;
      } else {
        dirNameBase := exceptionThrown.typeFullName;
      }
      dirName := ChildPath(outputDir, dirNameBase);
      if dirName !in fs.dirs {
        fs.CreateDirectory(dirName);
      }
    }

    /** A failing test goes from the temporary directory to its exception's directory. */
    method Move(p: PlanView, exceptionThrown: ExceptionInfo)
      modifies fs
      ensures fs.dirs == old(fs.dirs) + {ExceptionDir(outputDir, exceptionThrown)}
      ensures fs.files == MovedFiles(old(fs.files), outputDir, ExceptionDir(outputDir, exceptionThrown), p,
        p.toTestCase(Some(exceptionThrown.typeFullName), TestClassName(p), useRandoopContracts))
    {
      var dirName := MakeExceptionDirIfNotExists(exceptionThrown);
      MoveFromTemp(fs, outputDir, useRandoopContracts, p, dirName, Some(exceptionThrown.typeFullName));
    }

    /** Deletes the provisional test and nothing else. */
    method Remove(p: PlanView)
      modifies fs`files
      ensures fs.files == old(fs.files) - {TempFileName(outputDir, p)}
    {
      var testClassName := TestClassName(p);
      fs.DeleteFile(ChildPath(TempDir(outputDir), testClassName + ".cs"));
    }
  }

  // ---------------------------------------------------------------- one directory per class

  /** How many of `dirs` carry `name` as their `DirectoryInfo.Name`. */
  function CountNamed(dirs: seq<string>, name: string): nat {
    if dirs == [] then 0
    else CountNamed(dirs[..|dirs| - 1], name) + (if LastComponent(dirs[|dirs| - 1]) == name then 1 else 0)
  }

  /** `Single(_ => _.Name == name)` where exactly one directory matches. */
  function TheNamed(dirs: seq<string>, name: string): (r: string)
    requires CountNamed(dirs, name) >= 1
    ensures r in dirs && LastComponent(r) == name
  {
    if LastComponent(dirs[|dirs| - 1]) == name then dirs[|dirs| - 1]
    else TheNamed(dirs[..|dirs| - 1], name)
  }

  lemma CountNamedAppend(dirs: seq<string>, d: string, name: string)
    ensures CountNamed(dirs + [d], name)
         == CountNamed(dirs, name) + (if LastComponent(d) == name then 1 else 0)
  {
    assert (dirs + [d])[..|dirs|] == dirs;
  }

  /** Each known directory is `outputDir\<its name>`, exists, and no two share a name. */
  ghost predicate ClassDirectoriesValid(outputDir: string, dirs: seq<string>, fsDirs: set<string>) {
    && (forall i :: 0 <= i < |dirs| ==>
          dirs[i] == ChildPath(outputDir, LastComponent(dirs[i])) && dirs[i] in fsDirs)
    && (forall name :: CountNamed(dirs, name) <= 1)
  }

  /** A class seen for the first time gets the directory `outputDir\className`, and the
      known directories stay valid. */
  lemma NewClassDirectory(outputDir: string, className: string, dirs0: seq<string>, fsDirs0: set<string>)
    requires Separator !in className
    requires ClassDirectoriesValid(outputDir, dirs0, fsDirs0) && CountNamed(dirs0, className) == 0
    ensures var d := ChildPath(outputDir, className);
      ClassDirectoriesValid(outputDir, dirs0 + [d], fsDirs0 + {d}) && CountNamed(dirs0 + [d], className) == 1
  {
    var d := ChildPath(outputDir, className);
    NameOfChild(outputDir, className);
    forall name ensures CountNamed(dirs0 + [d], name) <= 1 {
      CountNamedAppend(dirs0, d, name);
    }
    CountNamedAppend(dirs0, d, className);
    var dirs1 := dirs0 + [d];
    assert forall i :: 0 <= i < |dirs0| ==> dirs1[i] == dirs0[i];
  }

  /** A class seen before finds the directory `outputDir\className`, which exists. */
  lemma KnownClassDirectory(outputDir: string, className: string, dirs0: seq<string>, fsDirs0: set<string>)
    requires Separator !in className
    requires ClassDirectoriesValid(outputDir, dirs0, fsDirs0) && CountNamed(dirs0, className) == 1
    ensures TheNamed(dirs0, className) == ChildPath(outputDir, className)
    ensures ChildPath(outputDir, className) in fsDirs0
  {
    var t := TheNamed(dirs0, className);
    var i :| 0 <= i < |dirs0| && dirs0[i] == t;
  }

  /** Classifies tests by the class under test: one directory per class name, made the
      first time a test of that class is moved. */
  class ClassifyingByClassTestFileWriter {
    const fs: FileSystem
    const outputDir: string
    const useRandoopContracts: bool
    var classDirectories: seq<string>

    ghost predicate Valid()
      reads this, fs`dirs
    {
      ClassDirectoriesValid(outputDir, classDirectories, fs.dirs)
    }

    constructor(fs: FileSystem, di: string, useRandoopContracts: bool)
      modifies fs`dirs
      ensures this.fs == fs && outputDir == di && this.useRandoopContracts == useRandoopContracts
      ensures classDirectories == []
      ensures fs.dirs == old(fs.dirs) + {di, TempDir(di)}
      ensures Valid()
    {
      this.fs := fs;
      outputDir := di;
      this.useRandoopContracts := useRandoopContracts;
      classDirectories := [];
      new;
      fs.CreateDirectory(di);
      fs.CreateDirectory(TempDir(di));
    }

    /** `CreateNewDirectory`: makes `outputDir\className` and remembers it. */
    method CreateNewDirectory(className: string) returns (dir: string)
      modifies this`classDirectories, fs`dirs
      ensures dir == ChildPath(outputDir, className)
      ensures classDirectories == old(classDirectories) + [dir]
      ensures fs.dirs == old(fs.dirs) + {dir}
    {
      dir := ChildPath(outputDir, className);
      fs.CreateDirectory(dir);
      classDirectories := classDirectories + [dir];
    }

    /** The directory of `className`: the known one when there is one, a new one
        otherwise; `None` where `Single` throws. */
    method DirectoryFor(className: string) returns (dir: Option<string>)
      modifies this`classDirectories, fs`dirs
      ensures var n := CountNamed(old(classDirectories), className);
        && (n == 0 ==> dir == Some(ChildPath(outputDir, className))
                       && classDirectories == old(classDirectories) + [dir.value]
                       && fs.dirs == old(fs.dirs) + {dir.value})
        && (n == 1 ==> dir == Some(TheNamed(old(classDirectories), className)))
        && (n > 1 ==> dir == None)
        && (n >= 1 ==> classDirectories == old(classDirectories) && fs.dirs == old(fs.dirs))
    {
      var known := CountNamed(classDirectories, className);
      if known == 0 {
        var created := CreateNewDirectory(className);
        dir := Some(created);
      } else if known == 1 {
        dir := Some(TheNamed(classDirectories, className));
      } else {
        dir := None;
      }
    }

    /** With no separator in the class name, every class keeps one directory: the first
        call makes `outputDir\className`, later calls find the same one. */
    lemma DirectoryForKeepsOnePerClass(className: string, dirs0: seq<string>, dirs1: seq<string>,
                                       fsDirs0: set<string>, fsDirs1: set<string>, dir: Option<string>)
      requires Separator !in className
      requires ClassDirectoriesValid(outputDir, dirs0, fsDirs0)
      requires var n := CountNamed(dirs0, className);
        && (n == 0 ==> dir == Some(ChildPath(outputDir, className))
                       && dirs1 == dirs0 + [dir.value] && fsDirs1 == fsDirs0 + {dir.value})
        && (n == 1 ==> dir == Some(TheNamed(dirs0, className)))
        && (n >= 1 ==> dirs1 == dirs0 && fsDirs1 == fsDirs0)
      ensures dir == Some(ChildPath(outputDir, className))
      ensures fsDirs1 == fsDirs0 + {ChildPath(outputDir, className)}
      ensures CountNamed(dirs1, className) == 1
      ensures ClassDirectoriesValid(outputDir, dirs1, fsDirs1)
    {
      if CountNamed(dirs0, className) == 0 {
        NewClassDirectory(outputDir, className, dirs0, fsDirs0);
      } else {
        KnownClassDirectory(outputDir, className, dirs0, fsDirs0);
        assert fsDirs0 + {ChildPath(outputDir, className)} == fsDirs0;
      }
    }

    /** The common body of `Move` and `MoveNormalTermination`. */
    method MoveToClassDirectory(p: PlanView, exceptionType: Option<TypeName>) returns (s: Status)
      modifies this`classDirectories, fs
      ensures s != Completed ==> s == Threw(AmbiguousClassDirectory)
      ensures old(Valid()) && Separator !in p.className ==>
        && s == Completed
        && Valid()
        && CountNamed(classDirectories, p.className) == 1
        && fs.dirs == old(fs.dirs) + {ChildPath(outputDir, p.className)}
        && fs.files == MovedFiles(old(fs.files), outputDir, ChildPath(outputDir, p.className), p,
                                  p.toTestCase(exceptionType, TestClassName(p), useRandoopContracts))
    {
      ghost var dirs0, fsDirs0 := classDirectories, fs.dirs;
      var dir := DirectoryFor(p.className);
      if old(Valid()) && Separator !in p.className {
        DirectoryForKeepsOnePerClass(p.className, dirs0, classDirectories, fsDirs0, fs.dirs, dir);
      }
      if dir.None? {
        return Threw(AmbiguousClassDirectory);
      }
      MoveFromTemp(fs, outputDir, useRandoopContracts, p, dir.value, exceptionType);
      s := Completed;
    }

    method Move(p: PlanView, exceptionThrown: ExceptionInfo) returns (s: Status)
      modifies this`classDirectories, fs
      ensures s != Completed ==> s == Threw(AmbiguousClassDirectory)
      ensures old(Valid()) && Separator !in p.className ==>
        && s == Completed
        && Valid()
        && fs.dirs == old(fs.dirs) + {ChildPath(outputDir, p.className)}
        && fs.files == MovedFiles(old(fs.files), outputDir, ChildPath(outputDir, p.className), p,
             p.toTestCase(Some(exceptionThrown.typeFullName), TestClassName(p), useRandoopContracts))
    {
      s := MoveToClassDirectory(p, Some(exceptionThrown.typeFullName));
    }

    method MoveNormalTermination(p: PlanView) returns (s: Status)
      modifies this`classDirectories, fs
      ensures s != Completed ==> s == Threw(AmbiguousClassDirectory)
      ensures old(Valid()) && Separator !in p.className ==>
        && s == Completed
        && Valid()
        && fs.dirs == old(fs.dirs) + {ChildPath(outputDir, p.className)}
        && fs.files == MovedFiles(old(fs.files), outputDir, ChildPath(outputDir, p.className), p,
                                  p.toTestCase(None, TestClassName(p), useRandoopContracts))
    {
      s := MoveToClassDirectory(p, None);
    }

    /** Deletes the provisional test and nothing else. */
    method Remove(p: PlanView)
      modifies fs`files
      ensures fs.files == old(fs.files) - {TempFileName(outputDir, p)}
    {
      var testClassName := TestClassName(p);
      fs.DeleteFile(ChildPath(TempDir(outputDir), testClassName + ".cs"));
    }

    method WriteTest(p: PlanView)
      modifies fs`files
      ensures fs.files == Written(old(fs.files), TempFileName(outputDir, p),
                                  p.toTestCase(None, TestClassName(p), useRandoopContracts))
    {
      var testClassName := TestClassName(p);
      var fileName := ChildPath(TempDir(outputDir), testClassName + ".cs");
      WritePlanToFile(fs, p, fileName, None, testClassName, useRandoopContracts);
    }
  }
}
