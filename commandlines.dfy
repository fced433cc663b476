/**
 * Building the command lines of one unit: the options shared by every check
 * for that unit, the submodule directories to leave out, and the per-command
 * selection of the shared options each command declares.
 */
module Commandlines {
  import opened Wrappers
  import opened Php
  import opened OrderedMaps
  import opened Console

  /** Build properties the shared options read. */
  const OptionProperties: set<string> := {"profile", "phpcs.config", "project.basedir"}

  /**
   * The `filename` option of a unit: the whole path of a make file, the base
   * name without its extension for any other unit.
   */
  function UnitFilename(path: string): string
  {
    var info := Pathinfo(path);
    if info.extension == Some("make") then path else info.filename
  }

  /** The last slash of a path whose base name has none is the one before the base name. */
  lemma LastSlashBeforeBasename(dir: string, base: string)
    requires '/' !in base
    ensures LastIndex(dir + "/" + base, '/') == |dir|
    ensures Basename(dir + "/" + base) == base
  {
    var p := dir + "/" + base;
    assert p == dir + ['/'] + base;
    LastIndexBefore(dir, '/', base);
    assert Basename(p) == p[|dir| + 1..];
    assert p[|dir| + 1..] == base;
  }

  /** A make file is named by its whole path. */
  lemma MakeFilenameIsPath(dir: string, name: string)
    requires '/' !in name
    ensures UnitFilename(dir + "/" + name + ".make") == dir + "/" + name + ".make"
  {
    var base := name + ".make";
    assert dir + "/" + name + ".make" == dir + "/" + base;
    LastSlashBeforeBasename(dir, base);
    assert base == name + ['.'] + "make";
    LastIndexBefore(name, '.', "make");
  }

  /** A name, a dot and an extension without a dot: the last dot is the one between. */
  lemma ExtensionSplit(name: string, ext: string)
    requires '/' !in name && '/' !in ext && '.' !in ext
    ensures '/' !in name + "." + ext
    ensures LastIndex(name + "." + ext, '.') == |name|
    ensures (name + "." + ext)[|name| + 1..] == ext && (name + "." + ext)[..|name|] == name
  {
    var base := name + "." + ext;
    assert base == name + ['.'] + ext;
    assert '/' !in base by {
      assert forall c :: c in base ==> c in name || c == '.' || c in ext;
    }
    LastIndexBefore(name, '.', ext);
  }

  /** Any other unit is named by its base name without the extension. */
  lemma DescriptorFilenameIsName(dir: string, name: string, ext: string)
    requires '/' !in name && '/' !in ext && '.' !in ext && ext != "make"
    ensures UnitFilename(dir + "/" + name + "." + ext) == name
  {
    var base := name + "." + ext;
    assert dir + "/" + name + "." + ext == dir + "/" + base;
    ExtensionSplit(name, ext);
    LastSlashBeforeBasename(dir, base);
  }

  /**
   * The options every check may take for a unit in `directory` named
   * `filename` (`$command_options`), with `exclude-dirs` only when there are
   * submodule directories to exclude.
   */
  function SharedOptions(directory: string, filename: string, properties: map<string, string>, excluded: seq<string>): (options: Args)
    requires OptionProperties <= properties.Keys
    ensures UniqueKeys(options)
  {
    [("directory", directory),
     ("filename", filename),
     ("profile", properties["profile"]),
     ("standard", properties["phpcs.config"]),
     ("project.basedir", properties["project.basedir"])]
    + if excluded != [] then [("exclude-dirs", Implode(",", excluded))] else []
  }

  /**
   * What each shared option holds, in which order the options come, and that
   * `exclude-dirs` is there, last, exactly when some directory is excluded.
   */
  lemma SharedOptionValues(directory: string, filename: string, properties: map<string, string>, excluded: seq<string>)
    requires OptionProperties <= properties.Keys
    ensures var options := SharedOptions(directory, filename, properties, excluded);
      && Get(options, "directory") == Some(directory)
      && Get(options, "filename") == Some(filename)
      && Get(options, "profile") == Some(properties["profile"])
      && Get(options, "standard") == Some(properties["phpcs.config"])
      && Get(options, "project.basedir") == Some(properties["project.basedir"])
      && ("exclude-dirs" in Keys(options) <==> excluded != [])
      && (excluded != [] ==> Get(options, "exclude-dirs") == Some(Implode(",", excluded)))
      && Keys(options) == ["directory", "filename", "profile", "standard", "project.basedir"]
                          + if excluded != [] then ["exclude-dirs"] else []
  {
    var options := SharedOptions(directory, filename, properties, excluded);
    SharedOptionKeys(directory, filename, properties, excluded);
    assert "exclude-dirs" in Keys(options) <==> excluded != [] by {
      if excluded != [] {
        assert Keys(options)[5] == "exclude-dirs";
      } else {
        assert Keys(options) == ["directory", "filename", "profile", "standard", "project.basedir"];
      }
    }
    forall i | 0 <= i < |options| ensures Get(options, options[i].0) == Some(options[i].1) {
      GetAt(options, i);
    }
    assert options[0] == ("directory", directory);
    assert options[1] == ("filename", filename);
    assert options[2] == ("profile", properties["profile"]);
    assert options[3] == ("standard", properties["phpcs.config"]);
    assert options[4] == ("project.basedir", properties["project.basedir"]);
    if excluded != [] {
      assert options[5] == ("exclude-dirs", Implode(",", excluded));
    }
  }

  /** The shared options come in the order the array literal writes them, `exclude-dirs` last. */
  lemma SharedOptionKeys(directory: string, filename: string, properties: map<string, string>, excluded: seq<string>)
    requires OptionProperties <= properties.Keys
    ensures Keys(SharedOptions(directory, filename, properties, excluded)) ==
              ["directory", "filename", "profile", "standard", "project.basedir"] + if excluded != [] then ["exclude-dirs"] else []
  {
    var options := SharedOptions(directory, filename, properties, excluded);
    var names := ["directory", "filename", "profile", "standard", "project.basedir"] + if excluded != [] then ["exclude-dirs"] else [];
    assert |Keys(options)| == |names|;
    forall i | 0 <= i < |names| ensures Keys(options)[i] == names[i] {
    }
  }

  /**
   * The options of one command: the shared options whose name the command
   * declares, keyed `--name`, in the order of the shared options.
   */
  function Arguments(shared: Args, declared: set<string>): (args: Args)
    ensures |args| <= |shared|
  {
    if shared == [] then []
    else
      var (name, value) := shared[|shared| - 1];
      var prev := Arguments(shared[..|shared| - 1], declared);
      if name in declared then prev + [("--" + name, value)] else prev
  }

  /**
   * The options of a command are, in the order of the shared options, the
   * declared ones with `--` in front of their names, each exactly once.
   */
  lemma {:induction false} ArgumentsFilterMap(shared: Args, declared: set<string>)
    ensures Arguments(shared, declared) == FilterMap(shared, (p: (string, string)) => p.0 in declared, (p: (string, string)) => ("--" + p.0, p.1))
  {
    if shared != [] {
      ArgumentsFilterMap(shared[..|shared| - 1], declared);
    }
  }

  /** Distinct shared option names give a command distinct option names. */
  lemma {:induction false} ArgumentsUnique(shared: Args, declared: set<string>)
    requires UniqueKeys(shared)
    ensures UniqueKeys(Arguments(shared, declared))
  {
    if shared != [] {
      var n := |shared| - 1;
      var init := shared[..n];
      assert UniqueKeys(init) by {
        forall a, b | 0 <= a < b < |init| ensures init[a].0 != init[b].0 {
          assert init[a] == shared[a] && init[b] == shared[b];
        }
      }
      ArgumentsUnique(init, declared);
      var prev := Arguments(init, declared);
      if shared[n].0 in declared {
        ArgumentsFresh(shared, declared, n);
        var r := prev + [("--" + shared[n].0, shared[n].1)];
        assert Arguments(shared, declared) == r;
        forall a, b | 0 <= a < b < |r| ensures r[a].0 != r[b].0 {
          assert r[a] == prev[a];
          if b < |prev| {
            assert r[b] == prev[b];
          } else {
            assert Keys(prev)[a] == prev[a].0;
          }
        }
      }
    }
  }

  /** Every option a command gets is a shared option it declares, with `--` in front of its name. */
  lemma {:induction false} ArgumentsSound(shared: Args, declared: set<string>, i: nat)
    requires i < |Arguments(shared, declared)|
    ensures var (key, value) := Arguments(shared, declared)[i];
            "--" <= key && (key[2..], value) in shared && key[2..] in declared
  {
    var init := shared[..|shared| - 1];
    var (n, v) := shared[|shared| - 1];
    assert shared == init + [(n, v)];
    if i < |Arguments(init, declared)| {
      ArgumentsSound(init, declared, i);
    } else {
      assert ("--" + n)[2..] == n;
    }
  }

  /** Every declared shared option, and only those, turns up prefixed with `--` and with its value. */
  lemma {:induction false} ArgumentsExact(shared: Args, declared: set<string>, name: string, value: string)
    ensures ("--" + name, value) in Arguments(shared, declared) <==> (name, value) in shared && name in declared
  {
    if shared != [] {
      var init := shared[..|shared| - 1];
      var (n, v) := shared[|shared| - 1];
      ArgumentsExact(init, declared, name, value);
      assert shared == init + [(n, v)];
      if ("--" + name, value) == ("--" + n, v) {
        assert ("--" + name)[2..] == name && ("--" + n)[2..] == n;
      }
    }
  }

  /** A command gets no options exactly when it declares none of the shared ones. */
  lemma {:induction false} ArgumentsEmpty(shared: Args, declared: set<string>)
    ensures Arguments(shared, declared) == [] <==> forall i :: 0 <= i < |shared| ==> shared[i].0 !in declared
  {
    if shared != [] {
      var init := shared[..|shared| - 1];
      ArgumentsEmpty(init, declared);
      assert forall i :: 0 <= i < |init| ==> init[i] == shared[i];
    }
  }

  /** The entry a command contributes to a batch: none when it gets no options. */
  function Entry(name: string, args: Args): Batch
  {
    if args == [] then [] else [(name, args)]
  }

  /**
   * The batch for one unit: for each command in registry order, an entry
   * holding its options, and no entry for a command that takes none of them.
   */
  function Build(shared: Args, commands: Registry): (batch: Batch)
    ensures |batch| <= |commands|
    ensures forall i :: 0 <= i < |batch| ==> batch[i].1 != [] && batch[i].0 in Keys(commands)
  {
    if commands == [] then []
    else
      var init := commands[..|commands| - 1];
      var (name, command) := commands[|commands| - 1];
      var prev := Build(shared, init);
      assert forall i :: 0 <= i < |init| ==> init[i] == commands[i];
      prev + Entry(name, Arguments(shared, command.options))
  }

  /** No command already in the batch of earlier commands has the name of a later one. */
  lemma BuildKeysEarlier(shared: Args, commands: Registry, i: nat)
    requires UniqueKeys(commands) && i < |commands|
    ensures commands[i].0 !in Keys(Build(shared, commands[..i]))
  {
    var batch := Build(shared, commands[..i]);
    forall k | 0 <= k < |batch| ensures batch[k].0 != commands[i].0 {
      var j :| 0 <= j < i && batch[k].0 == Keys(commands[..i])[j];
      assert commands[..i][j] == commands[j];
    }
  }

  /** A registry without repeated names gives a batch without repeated names. */
  lemma {:induction false} BuildUnique(shared: Args, commands: Registry)
    requires UniqueKeys(commands)
    ensures UniqueKeys(Build(shared, commands))
  {
    if commands != [] {
      var n := |commands| - 1;
      var init := commands[..n];
      assert UniqueKeys(init) by {
        forall a, b | 0 <= a < b < |init| ensures init[a].0 != init[b].0 {
          assert init[a] == commands[a] && init[b] == commands[b];
        }
      }
      BuildUnique(shared, init);
      BuildKeysEarlier(shared, commands, n);
      var prev := Build(shared, init);
      var entry := Entry(commands[n].0, Arguments(shared, commands[n].1.options));
      assert Build(shared, commands) == prev + entry;
      if entry != [] {
        var r := prev + entry;
        forall a, b | 0 <= a < b < |r| ensures r[a].0 != r[b].0 {
          assert r[a] == prev[a];
          if b < |prev| {
            assert r[b] == prev[b];
          } else {
            assert r[b].0 == commands[n].0;
            assert Keys(prev)[a] == prev[a].0;
          }
        }
      }
    }
  }

  /** The batch lists its commands in registry order. */
  lemma {:induction false} BuildOrder(shared: Args, commands: Registry)
    ensures Embedded(Keys(Build(shared, commands)), Keys(commands))
  {
    if commands != [] {
      var n := |commands| - 1;
      var init := commands[..n];
      var name := commands[n].0;
      var args := Arguments(shared, commands[n].1.options);
      BuildOrder(shared, init);
      var prev := Build(shared, init);
      assert Build(shared, commands) == prev + Entry(name, args);
      KeysAppend(prev, Entry(name, args));
      assert Keys(Entry(name, args)) == if args != [] then [name] else [];
      assert commands == init + [commands[n]];
      KeysAppend(init, [commands[n]]);
      assert Keys([commands[n]]) == [name];
      EmbeddedStep(Keys(prev), Keys(init), name, args != []);
    }
  }

  /**
   * The batch holds, under each command's name, exactly the options built
   * for it, and nothing at all for a command that takes none of them.
   */
  lemma {:induction false} BuildEntry(shared: Args, commands: Registry, i: nat)
    requires UniqueKeys(commands) && i < |commands|
    ensures var args := Arguments(shared, commands[i].1.options);
            Get(Build(shared, commands), commands[i].0) == if args == [] then None else Some(args)
  {
    var n := |commands| - 1;
    var init := commands[..n];
    var prev := Build(shared, init);
    var last := Arguments(shared, commands[n].1.options);
    assert Build(shared, commands) == prev + Entry(commands[n].0, last);
    if i == n {
      BuildKeysEarlier(shared, commands, n);
      if last != [] {
        GetLast(prev, commands[n].0, last);
      } else {
        assert prev + Entry(commands[n].0, last) == prev;
      }
    } else {
      assert UniqueKeys(init) by {
        forall a, b | 0 <= a < b < |init| ensures init[a].0 != init[b].0 {
          assert init[a] == commands[a] && init[b] == commands[b];
        }
      }
      assert init[i] == commands[i];
      BuildEntry(shared, init, i);
      assert commands[i].0 != commands[n].0;
      if last != [] {
        GetAppendOther(prev, commands[i].0, commands[n].0, last);
      } else {
        assert prev + Entry(commands[n].0, last) == prev;
      }
    }
  }

  /** Taking one more shared option adds it, prefixed, exactly when the command declares it. */
  lemma ArgumentsStep(shared: Args, declared: set<string>, j: nat)
    requires j < |shared|
    ensures Arguments(shared[..j + 1], declared) ==
              Arguments(shared[..j], declared) + if shared[j].0 in declared then [("--" + shared[j].0, shared[j].1)] else []
  {
    assert shared[..j + 1][..j] == shared[..j];
  }

  /** A shared option not yet reached has no `--` entry among the options built so far. */
  lemma ArgumentsFresh(shared: Args, declared: set<string>, j: nat)
    requires UniqueKeys(shared) && j < |shared|
    ensures "--" + shared[j].0 !in Keys(Arguments(shared[..j], declared))
  {
    var args := Arguments(shared[..j], declared);
    forall a | 0 <= a < |args| ensures args[a].0 != "--" + shared[j].0 {
      ArgumentsSound(shared[..j], declared, a);
      var (key, value) := args[a];
      var m :| 0 <= m < j && shared[..j][m] == (key[2..], value);
      assert shared[m] == shared[..j][m];
      assert key[2..] != shared[j].0;
      assert ("--" + shared[j].0)[2..] == shared[j].0;
    }
  }

  /** Writing the next option of the command being built extends its entry, creating it if needed. */
  lemma EntryStep(prev: Batch, name: string, args: Args, key: string, value: string)
    requires name !in Keys(prev) && key !in Keys(args)
    ensures PutIn(prev + Entry(name, args), name, key, value) == prev + Entry(name, args + [(key, value)])
  {
    if args == [] {
      assert prev + Entry(name, args) == prev;
      PutInNew(prev, name, key, value);
    } else {
      PutInLast(prev, name, args, key, value);
    }
  }

  /** One round of the inner loop of `buildCommandlines` moves the command's entry one shared option on. */
  lemma EntryLoopStep(done: Batch, commandName: string, shared: Args, declared: set<string>, j: nat)
    requires UniqueKeys(shared) && j < |shared| && commandName !in Keys(done)
    ensures var before := done + Entry(commandName, Arguments(shared[..j], declared));
      (if shared[j].0 in declared then PutIn(before, commandName, "--" + shared[j].0, shared[j].1) else before)
        == done + Entry(commandName, Arguments(shared[..j + 1], declared))
  {
    ArgumentsStep(shared, declared, j);
    if shared[j].0 in declared {
      ArgumentsFresh(shared, declared, j);
      EntryStep(done, commandName, Arguments(shared[..j], declared), "--" + shared[j].0, shared[j].1);
    } else {
      assert Arguments(shared[..j], declared) + [] == Arguments(shared[..j], declared);
    }
  }

  /**
   * The loops of `buildCommandlines`: for each command, each shared option
   * it declares is written into the command's entry under `--name`.
   */
  method BuildBatch(shared: Args, commands: Registry) returns (commandlines: Batch)
    requires UniqueKeys(shared) && UniqueKeys(commands)
    ensures commandlines == Build(shared, commands)
  {
    commandlines := [];
    for i := 0 to |commands|
      invariant commandlines == Build(shared, commands[..i])
    {
      var (commandName, command) := commands[i];
      ghost var done := commandlines;
      BuildKeysEarlier(shared, commands, i);
      for j := 0 to |shared|
        invariant commandlines == done + Entry(commandName, Arguments(shared[..j], command.options))
      {
        var (name, sharedOption) := shared[j];
        EntryLoopStep(done, commandName, shared, command.options, j);
        if name in command.options {
          commandlines := PutIn(commandlines, commandName, "--" + name, sharedOption);
        }
      }
      assert shared[..|shared|] == shared;
      assert commands[..i + 1][..i] == commands[..i];
    }
    assert commands[..|commands|] == commands;
  }

  /** Finder's `getRelativePath()`: the directory part of a relative pathname, "" at the top. */
  function RelativePath(relativePathname: string): string
  {
    var i := LastIndex(relativePathname, '/');
    if i < 0 then "" else relativePathname[..i]
  }

  /**
   * The names on a relative pathname do not start with a dot, checking from
   * a position that starts a name exactly when `atStart` holds.
   */
  predicate VisibleFrom(p: string, atStart: bool)
    decreases |p|
  {
    p == [] || (!(atStart && p[0] == '.') && VisibleFrom(p[1..], p[0] == '/'))
  }

  /**
   * A relative pathname the search reaches by default: no file or directory
   * on it has a name starting with a dot, since hidden ones are skipped.
   */
  predicate Visible(relativePathname: string)
  {
    VisibleFrom(relativePathname, true)
  }

  /** What follows a visible prefix is checked from where the prefix leaves off. */
  lemma {:induction false} VisibleSplit(s: string, t: string, atStart: bool)
    requires VisibleFrom(s + t, atStart)
    ensures VisibleFrom(t, if s == [] then atStart else s[|s| - 1] == '/')
  {
    if s != [] {
      assert (s + t)[0] == s[0] && (s + t)[1..] == s[1..] + t;
      VisibleSplit(s[1..], t, s[0] == '/');
      if |s| > 1 {
        assert s[1..][|s| - 2] == s[|s| - 1];
      }
    } else {
      assert s + t == t;
    }
  }

  /** A file or directory whose name starts with a dot hides everything on a path through it. */
  lemma HiddenNotVisible(dir: string, hidden: string)
    requires hidden != [] && hidden[0] == '.'
    ensures !Visible(hidden) && !Visible(dir + "/" + hidden)
  {
    if Visible(dir + "/" + hidden) {
      assert dir + "/" + hidden == (dir + "/") + hidden;
      assert (dir + "/")[|dir|] == '/';
      VisibleSplit(dir + "/", hidden, true);
    }
  }

  /** A name without a slash continues a visible path to its end, unless it starts a name with a dot. */
  lemma {:induction false} VisibleWithinName(name: string, atStart: bool)
    requires '/' !in name && (atStart && name != [] ==> name[0] != '.')
    ensures VisibleFrom(name, atStart)
    decreases |name|
  {
    if name != [] {
      assert name[0] in name;
      assert forall c :: c in name[1..] ==> c in name;
      VisibleWithinName(name[1..], false);
    }
  }

  /** A visible path below a directory whose name has no slash and does not start with a dot is visible. */
  lemma {:induction false} VisibleBelow(dir: string, path: string, atStart: bool)
    requires '/' !in dir && (atStart && dir != [] ==> dir[0] != '.') && Visible(path)
    ensures VisibleFrom(dir + "/" + path, atStart)
    decreases |dir|
  {
    if dir == [] {
      assert dir + "/" + path == ['/'] + path;
      assert (['/'] + path)[1..] == path;
    } else {
      assert dir[0] in dir;
      assert forall c :: c in dir[1..] ==> c in dir;
      assert (dir + "/" + path)[1..] == dir[1..] + "/" + path;
      VisibleBelow(dir[1..], path, false);
    }
  }

  /**
   * A file `name('*.info')->notName($filename . '.info')` keeps: a visible
   * file whose name is something followed by `.info`, other than the unit's own.
   */
  predicate IsSubmoduleDescriptor(filename: string, relativePathname: string)
  {
    var b := Basename(relativePathname);
    Visible(relativePathname) && |b| > 5 && b[|b| - 5..] == ".info" && b != filename + ".info"
  }

  /**
   * The directories to exclude for the unit `filename`: for every other
   * descriptor file below the unit's directory, in the order found, the base
   * name of its relative directory, one entry per file.
   */
  function SubmoduleDirs(filename: string, files: seq<string>): (dirs: seq<string>)
    ensures |dirs| <= |files|
  {
    if files == [] then []
    else
      var f := files[|files| - 1];
      SubmoduleDirs(filename, files[..|files| - 1])
      + if IsSubmoduleDescriptor(filename, f) then [Basename(RelativePath(f))] else []
  }

  lemma {:induction false} SubmoduleDirsFilterMap(filename: string, files: seq<string>)
    ensures SubmoduleDirs(filename, files) == FilterMap(files, f => IsSubmoduleDescriptor(filename, f), f => Basename(RelativePath(f)))
  {
    if files != [] {
      SubmoduleDirsFilterMap(filename, files[..|files| - 1]);
    }
  }

  /** A directory is excluded exactly when some other descriptor file lies in a directory of that name. */
  lemma SubmoduleDirsExact(filename: string, files: seq<string>, d: string)
    ensures d in SubmoduleDirs(filename, files) <==>
            exists i :: 0 <= i < |files| && IsSubmoduleDescriptor(filename, files[i]) && d == Basename(RelativePath(files[i]))
  {
    SubmoduleDirsFilterMap(filename, files);
    FilterMapExact(files, f => IsSubmoduleDescriptor(filename, f), f => Basename(RelativePath(f)), d);
  }

  /** A descriptor that is hidden, or lies below a hidden directory, excludes nothing. */
  lemma HiddenNotDescriptor(filename: string, dir: string, hidden: string)
    requires hidden != [] && hidden[0] == '.'
    ensures !IsSubmoduleDescriptor(filename, hidden) && !IsSubmoduleDescriptor(filename, dir + "/" + hidden)
  {
    HiddenNotVisible(dir, hidden);
  }

  /**
   * A visible descriptor one directory below the unit's directory excludes
   * that directory, unless it is the unit's own descriptor.
   */
  lemma DescriptorInSubdirectory(filename: string, dir: string, name: string)
    requires '/' !in dir && dir != [] && dir[0] != '.'
    requires '/' !in name && name != [] && name[0] != '.'
    ensures IsSubmoduleDescriptor(filename, dir + "/" + name + ".info") <==> name != filename
    ensures Basename(RelativePath(dir + "/" + name + ".info")) == dir
  {
    var base := name + ".info";
    var p := dir + "/" + base;
    assert dir + "/" + name + ".info" == p;
    assert '/' !in base by {
      forall i | 0 <= i < |base| ensures base[i] != '/' {
        if i < |name| { assert base[i] == name[i]; } else { assert base[i] == ".info"[i - |name|]; }
      }
    }
    LastSlashBeforeBasename(dir, base);
    assert Visible(p) by {
      VisibleWithinName(base, true);
      VisibleBelow(dir, base, true);
    }
    assert RelativePath(p) == dir by {
      assert p[..|dir|] == dir;
    }
    NoSlashBasename(dir);
    assert base[|base| - 5..] == ".info";
    assert base == filename + ".info" <==> name == filename by {
      if base == filename + ".info" {
        assert name == base[..|base| - 5] == filename;
      }
    }
  }

  /** The unit's own descriptor, in its directory or below another, excludes nothing. */
  lemma OwnDescriptorIgnored(filename: string, dir: string)
    requires '/' !in filename
    ensures !IsSubmoduleDescriptor(filename, filename + ".info")
    ensures !IsSubmoduleDescriptor(filename, dir + "/" + filename + ".info")
  {
    var base := filename + ".info";
    assert '/' !in base by {
      forall i | 0 <= i < |base| ensures base[i] != '/' {
        if i < |filename| { assert base[i] == filename[i]; } else { assert base[i] == ".info"[i - |filename|]; }
      }
    }
    NoSlashBasename(base);
    assert dir + "/" + filename + ".info" == dir + "/" + base;
    LastSlashBeforeBasename(dir, base);
  }

  /** The loop of `getSubmoduleDirectories` over the files the search finds below the unit's directory. */
  method GetSubmoduleDirectories(filename: string, files: seq<string>) returns (dirs: seq<string>)
    ensures dirs == SubmoduleDirs(filename, files)
  {
    dirs := [];
    for i := 0 to |files|
      invariant dirs == SubmoduleDirs(filename, files[..i])
    {
      assert files[..i + 1][..i] == files[..i];
      if IsSubmoduleDescriptor(filename, files[i]) {
        dirs := dirs + [Basename(RelativePath(files[i]))];
      }
    }
    assert files[..|files|] == files;
  }
}
