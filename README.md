# ReviewCommandHelper, modelled in Dafny

This project models the review engine of the QA console application: the class
`ReviewCommandHelper` (`src/Console/Helper/ReviewCommandHelper.php`). A review
works through these steps:

- The helper fixes which commands of the application take part. Meta-commands
  are never included, and with `--select` only the commands the operator chose
  are kept.
- It takes the build properties, with any overrides applied on top.
- It collects the selectable units: make files and module, feature and theme
  descriptor (`.info`) files, behind a synthetic "Select all" entry.
- The operator chooses among those units.
- For every chosen unit, the helper builds one batch of command lines from
  the options the commands share and runs it. The output the batch captured is
  reported under a ruler and a title.
- An optional starterkit check (`check:ssk`) runs before the units, and a theme
  conflict check (`theme:conflict`) runs after them. Any failure makes the
  review return 1.

Modules, following the parts of the class:

- `Wrappers` holds `Option` and `Result`. A `Result` is either a value or the
  name of a command the application could not find.
- `Php` models the PHP string functions the class relies on: `basename`,
  `dirname`, `pathinfo`, `str_replace`, `implode`, `str_repeat`, and PHP
  truthiness.
- `OrderedMaps` models PHP arrays as sequences of key/value pairs. It covers
  `$m[$k] = $v`, `$m[$k1][$k2] = $v`, `unset`, `array_shift`,
  `array_intersect`, `array_intersect_key` and `array_merge`.
- `Console` holds the collaborators as values:
  - the application's registry;
  - `Command::run` as a function from a name and its options to an exit
    status and the text written;
  - the file searches as a function from a search to the paths found, in
    sorted order;
  - the working directory.
- `Commandlines` covers `buildCommandlines` and `getSubmoduleDirectories`.
- `Execution` covers `executeCommandlines`.
- `Selection` covers the option maps of `getInfoFiles`, `getThemeFiles` and
  `getMakeFiles`, plus `setOptions`, `getSelectedOptions` and
  `getSelectedCommands`.
- `Report` covers `getRulerLength` and what `outputCommandlines` writes.
- `Review` holds the class itself, with fields `commands`, `properties`,
  `options`, `rulerLength` and `transcript` (the lines written to the
  console). It also holds the function `Review`, which states what
  `startReview` does to that state and which status it ends with.

Two behaviours of the code shape the batches:

- A command declaring none of the shared options gets no entry in the batch
  (src/Console/Helper/ReviewCommandHelper.php:173-181).
- Submodule directories are not deduplicated: two descriptor files in one
  directory exclude it twice (src/Console/Helper/ReviewCommandHelper.php:321-334).

Each loop of the source is a method with a `for` loop. Each such method is
proved equal to a function defined over the inputs. The properties the source
promises are proved as lemmas about those functions.

## Model

| member | source | states |
|---|---|---|
| `Review.ReviewCommandHelper.constructor` | src/Console/Helper/ReviewCommandHelper.php:34-41 | The helper keeps its collaborators, and its commands are those `getSelectedCommands` selects. The command names are distinct and all registered. |
| `Review.PhingSettingKeys` | src/Console/Helper/ReviewCommandHelper.php:349-374 | Both review types request exactly the six properties `lib.dir`, `theme.dir`, `resources.dir`, `phpcs.config`, `profile` and `project.basedir`. |
| `Review.MergedProperties` | src/Console/Helper/ReviewCommandHelper.php:55-59 | The properties are the requested settings plus the overrides. An override wins on a shared name. A setting without an override is kept as it is. |
| `Review.ReviewCommandHelper.SetProperties` | src/Console/Helper/ReviewCommandHelper.php:49-60 | Only `properties` changes. It becomes the requested settings merged with the overrides, and holds every requested property. |
| `Review.RunCheck` | src/Console/Helper/ReviewCommandHelper.php:71-77 | A single check run with no options. It fails exactly when its exit status is not 0, and it aborts when the application lacks the command. This agrees with the general batch semantics. |
| `Review.ReviewCommandHelper.StartReview` | src/Console/Helper/ReviewCommandHelper.php:65-106 | The new state and the status are those `Review` gives. A failing starterkit check ends the review. Otherwise the units are reviewed, and then the theme conflict check runs. The commands stay registered. |
| `Review.ReviewCommandHelper.ReviewSelection` | src/Console/Helper/ReviewCommandHelper.php:81-105 | The units are chosen and reviewed in turn. An abort stops everything. Otherwise the conflict check runs, and the review fails if that check or any unit failed. |
| `Review.ReviewCommandHelper.ReviewEach` | src/Console/Helper/ReviewCommandHelper.php:86-96 | The loop over the chosen units. The failure flag is the OR of the units' failures. The report holds each unit's block in order. The loop stops at the first command that cannot be found. Nothing else in the state changes. |
| `Review.ReviewCommandHelper.RunUnit` | src/Console/Helper/ReviewCommandHelper.php:89-91 | Builds the unit's batch and runs it. The result is that of running the unit's batch. |
| `Review.StarterkitFailure` | src/Console/Helper/ReviewCommandHelper.php:70-78 | When `check-ssk` is set and the starterkit check fails, the review returns 1. Only the check's text is written. No unit is selected and the conflict check does not run. |
| `Review.ReviewDone` | src/Console/Helper/ReviewCommandHelper.php:67-105 | A review ends without returning 1 exactly when three things hold: the starterkit check, when asked for, passed; every chosen unit's batch ran to its end without a failing command; and the theme conflict check passed. |
| `Review.ReviewAbortsOnlyOnChecks` | src/Console/Helper/ReviewCommandHelper.php:67-105 | With registered commands only, a review can stop on a missing command only at `check:ssk` or `theme:conflict`, and only when the application lacks it. |
| `Review.TallyRan` | src/Console/Helper/ReviewCommandHelper.php:86-96 | The loop over unit results runs to its end exactly when every unit's batch does. |
| `Review.TallyFailed` | src/Console/Helper/ReviewCommandHelper.php:87-93 | A loop that ran to its end fails exactly when some unit's batch failed. |
| `Review.TallyQuiet` | src/Console/Helper/ReviewCommandHelper.php:86-96 | Consider batches that neither fail nor write anything. Their loop does not fail, does not stop, and captures one empty entry per unit. |
| `Review.RenderedSilent` | src/Console/Helper/ReviewCommandHelper.php:219 | Units that captured no text produce no report lines. |
| `Review.RunUnitsRan` | src/Console/Helper/ReviewCommandHelper.php:87-91 | The review of the chosen units runs to its end exactly when every unit's batch does. |
| `Review.RunUnitsFailed` | src/Console/Helper/ReviewCommandHelper.php:87-93 | When it runs to its end, the review of the units fails exactly when some unit's batch failed. |
| `Review.RunUnitsRegistered` | src/Console/Helper/ReviewCommandHelper.php:89-91 | With only registered commands selected, no unit's batch stops on a missing command. |
| `Review.RunUnitsWithoutCommands` | src/Console/Helper/ReviewCommandHelper.php:166-184 | With no command list, every batch is empty. The units then neither fail nor write anything. |
| `Review.ReviewCommandHelper.GetSelectedOptions` | src/Console/Helper/ReviewCommandHelper.php:114-138 | The options are collected when none are stored. The selection is made from them, and the stored options are replaced by what the selection leaves. The ruler changes only when the options were collected. |
| `Selection.SelectionOfUnits` | src/Console/Helper/ReviewCommandHelper.php:129-135 | On freshly collected options, "Select all" first or no interaction selects exactly the units and drops the synthetic entry from the store. A targeted choice selects exactly the units whose file name was chosen, keys kept. The synthetic entry is selected only when "Select all" was chosen, but not first. |
| `Selection.SelectAllIsNoInteraction` | src/Console/Helper/ReviewCommandHelper.php:129 | Choosing "Select all" first selects what running without interaction selects. |
| `Review.ReviewCommandHelper.SetOptions` | src/Console/Helper/ReviewCommandHelper.php:283-309 | The stored options are "Select all" followed by the units of the section. The ruler is sized for them. The properties and commands are untouched. |
| `Selection.InitialOptionsOrder` | src/Console/Helper/ReviewCommandHelper.php:295-304 | For the default section, with no path found by both searches, the options are "Select all", then the make files, then the descriptor files. |
| `Selection.FileOptions` | src/Console/Helper/ReviewCommandHelper.php:384-401 | The option map of found paths has distinct keys. Each key is a found path, and its value is that path's base name. `Selection.FileOptionsInOrder` states the order. |
| `Selection.FileOptionsInOrder` | src/Console/Helper/ReviewCommandHelper.php:395-399 | When each path is found once, the options are the found paths one for one, in the order found, each keyed to its base name. |
| `Selection.FileOptionsComplete` | src/Console/Helper/ReviewCommandHelper.php:395-399 | Every found path is a key of the option map, with its base name as the value. |
| `Selection.CollectFileOptions` | src/Console/Helper/ReviewCommandHelper.php:447-452 | The loop shared by the three `get*Files` helpers builds the option map of the found paths. |
| `Selection.Checks` | src/Console/Helper/ReviewCommandHelper.php:252-259 | The filtered registry is no longer than the registry. `Selection.ChecksMembers` states which commands remain and `Selection.ChecksOrder` their order. |
| `Selection.ChecksOrder` | src/Console/Helper/ReviewCommandHelper.php:252-259 | The remaining commands keep their registration order: they are a subsequence of the registry. |
| `Selection.ChecksMembers` | src/Console/Helper/ReviewCommandHelper.php:252-259 | A registered command survives filtering exactly when it is not `help`, `list` or `check:ssk` and its name starts with neither `review:` nor `theme:`. |
| `Selection.ChecksUnique` | src/Console/Helper/ReviewCommandHelper.php:253-260 | Filtering keeps command names distinct. |
| `Selection.UnsetUnwanted` | src/Console/Helper/ReviewCommandHelper.php:250-260 | Unsetting in place while iterating the original list leaves exactly the wanted commands, in registration order. |
| `Selection.GetSelectedCommands` | src/Console/Helper/ReviewCommandHelper.php:247-276 | The result is the wanted commands. With `--select` it is those among them that the operator chose. With `--select` and no choice there is no list. |
| `Selection.CommandSelectionExact` | src/Console/Helper/ReviewCommandHelper.php:250-275 | There is no list exactly when `--select` was given with an empty choice. A list never holds a meta-command. It holds exactly the wanted registered commands, narrowed to the chosen names under `--select`. |
| `Selection.CommandSelectionUnique` | src/Console/Helper/ReviewCommandHelper.php:262-275 | The selected commands have distinct names. |
| `Review.ReviewCommandHelper.BuildCommandlines` | src/Console/Helper/ReviewCommandHelper.php:148-185 | The batch is the one defined for the unit: its shared options, its excluded submodule directories, and the selected commands. |
| `Commandlines.MakeFilenameIsPath` | src/Console/Helper/ReviewCommandHelper.php:150-153 | A make file's `filename` option is its whole path, whatever its name before `.make`. |
| `Commandlines.DescriptorFilenameIsName` | src/Console/Helper/ReviewCommandHelper.php:150-153 | Any other unit's `filename` option is its base name without the extension. |
| `Commandlines.SharedOptionKeys` | src/Console/Helper/ReviewCommandHelper.php:155-164 | The shared options come in the order the array literal writes them: `directory`, `filename`, `profile`, `standard`, `project.basedir`, then `exclude-dirs` when some directory is excluded. |
| `Commandlines.SharedOptions` | src/Console/Helper/ReviewCommandHelper.php:155-164 | The shared option names are distinct. |
| `Commandlines.SharedOptionValues` | src/Console/Helper/ReviewCommandHelper.php:150-164 | Each shared option holds its value: the directory, the filename, `profile`, `standard` (from `phpcs.config`) and `project.basedir`. `exclude-dirs` is present exactly when some directory is excluded, and then holds the comma-joined list. The keys come in the order of the array literal, `exclude-dirs` last. |
| `Commandlines.Arguments` | src/Console/Helper/ReviewCommandHelper.php:173-177 | A command gets no more options than there are shared options. `Commandlines.ArgumentsFilterMap` gives the exact sequence, `Commandlines.ArgumentsUnique` that no option name repeats. |
| `Commandlines.ArgumentsSound` | src/Console/Helper/ReviewCommandHelper.php:173-177 | Every option a command gets is a shared option it declares, with `--` before the name and the value unchanged. |
| `Commandlines.ArgumentsExact` | src/Console/Helper/ReviewCommandHelper.php:173-177 | `--name` with a given value is among a command's options exactly when that shared option has that value and the command declares `name`. |
| `Commandlines.ArgumentsFilterMap` | src/Console/Helper/ReviewCommandHelper.php:173-177 | A command's options are exactly the shared options whose names it declares, in the order of the shared options, each once, with `--` before the name and the value unchanged. |
| `Commandlines.ArgumentsUnique` | src/Console/Helper/ReviewCommandHelper.php:173-177 | When the shared option names are distinct (they are the keys of a PHP array), so are the option names a command gets. |
| `Commandlines.ArgumentsEmpty` | src/Console/Helper/ReviewCommandHelper.php:173-181 | A command gets no options exactly when it declares none of the shared ones. |
| `Commandlines.Build` | src/Console/Helper/ReviewCommandHelper.php:166-184 | The batch is no longer than the command list. Every entry is nonempty and named after a selected command. `Commandlines.BuildUnique` and `Commandlines.BuildOrder` state that no name repeats and that the entries follow the command order. |
| `Commandlines.BuildUnique` | src/Console/Helper/ReviewCommandHelper.php:169-181 | When the command names are distinct, each command has at most one entry in the batch. |
| `Commandlines.BuildOrder` | src/Console/Helper/ReviewCommandHelper.php:169-181 | The batch lists its commands in the order of the command list, so they run in that order. |
| `Commandlines.BuildEntry` | src/Console/Helper/ReviewCommandHelper.php:169-181 | Under each command's name the batch holds exactly the options built for it. A command with no options has no entry at all. |
| `Commandlines.BuildBatch` | src/Console/Helper/ReviewCommandHelper.php:166-184 | The nested loops write each declared shared option into its command's entry, creating the entry on first write. The result is exactly the defined batch. |
| `Commandlines.SubmoduleDirs` | src/Console/Helper/ReviewCommandHelper.php:321-334 | At most one directory per file found. `Commandlines.SubmoduleDirsExact` states which. |
| `Commandlines.SubmoduleDirsFilterMap` | src/Console/Helper/ReviewCommandHelper.php:328-331 | The excluded directories are, in the order the files are found, the relative directory names of exactly the files that are other descriptors. |
| `Commandlines.SubmoduleDirsExact` | src/Console/Helper/ReviewCommandHelper.php:325-332 | A directory is excluded exactly when it is the base name of the relative directory of some visible `.info` file other than the unit's own. |
| `Commandlines.HiddenNotDescriptor` | src/Console/Helper/ReviewCommandHelper.php:324-329 | A descriptor whose name starts with a dot, or that lies below a directory whose name does, excludes nothing, since the search skips hidden files and directories. |
| `Commandlines.DescriptorInSubdirectory` | src/Console/Helper/ReviewCommandHelper.php:324-332 | A visible descriptor one directory below the unit's directory excludes that directory exactly when it is not the unit's own descriptor. |
| `Commandlines.OwnDescriptorIgnored` | src/Console/Helper/ReviewCommandHelper.php:326 | The unit's own descriptor excludes nothing, whether it lies in the searched directory or below it. |
| `Commandlines.GetSubmoduleDirectories` | src/Console/Helper/ReviewCommandHelper.php:321-334 | The loop yields, in the order found, one directory per visible descriptor file other than the unit's own, with no deduplication. |
| `Execution.ExecuteCommandlines` | src/Console/Helper/ReviewCommandHelper.php:197-207 | The loop runs the batch in order. It stops on a command that cannot be found. Otherwise it returns the OR of the non-zero exit statuses and the texts written. |
| `Execution.ExecuteExact` | src/Console/Helper/ReviewCommandHelper.php:199-206 | A batch runs to its end exactly when every command in it is registered. It then fails exactly when some command exits with a status other than 0, and the texts are those of the commands in batch order. In particular an empty batch does not fail. |
| `Execution.ExecuteUnknown` | src/Console/Helper/ReviewCommandHelper.php:200-201 | An abort names the first command of the batch that the application does not have. |
| `Execution.ExecuteStops` | src/Console/Helper/ReviewCommandHelper.php:200-201 | Once a prefix of a batch aborts, the whole batch aborts the same way. |
| `Review.ReviewCommandHelper.OutputCommandlines` | src/Console/Helper/ReviewCommandHelper.php:217-233 | Appends the unit's report block to the console lines. Nothing else changes. |
| `Report.ReportLines` | src/Console/Helper/ReviewCommandHelper.php:219-232 | Nothing is written exactly when the content is empty or "0". Otherwise five lines are written: an empty line, the ruler, the unit's title, the ruler again, and the content. |
| `Report.Ruler` | src/Console/Helper/ReviewCommandHelper.php:221 | The ruler is `rulerLength` equals signs between `<info>` and `</info>`. |
| `Report.TitleOfWorkingDirectory` | src/Console/Helper/ReviewCommandHelper.php:220-227 | The working directory itself is titled `../` followed by its base name. |
| `Report.TitleBelowWorkingDirectory` | src/Console/Helper/ReviewCommandHelper.php:220-225 | A directory below the working directory is titled by its path from `.`. |
| `Report.TitleOutsideWorkingDirectory` | src/Console/Helper/ReviewCommandHelper.php:220-225 | A directory in which the working directory does not occur keeps its path as its title. |
| `Report.RulerCoversTitle` | src/Console/Helper/ReviewCommandHelper.php:221-225 | The ruler is at least as wide as the title of every listed unit whose relative directory is not `.`. |
| `Report.RulerLengthCovers` | src/Console/Helper/ReviewCommandHelper.php:463-472 | The ruler is at least 80 wide and at least as wide as every option's relative directory. |
| `Report.RulerLengthCoversAt` | src/Console/Helper/ReviewCommandHelper.php:463-472 | The ruler is at least as wide as the relative directory of any one option. |
| `Report.RulerLengthAttained` | src/Console/Helper/ReviewCommandHelper.php:463-472 | The ruler is exactly 80 wide or exactly as wide as one option's relative directory. |
| `Report.RulerLengthBounds` | src/Console/Helper/ReviewCommandHelper.php:463-472 | The ruler is at least 80 wide and at least as wide as every option's relative directory. It is exactly 80 or the width of one of those directories. |
| `Report.GetRulerLength` | src/Console/Helper/ReviewCommandHelper.php:463-472 | The loop yields the running maximum from 80 over the relative directories. |
| `Review.ReviewCommandHelper.SetRulerLength` | src/Console/Helper/ReviewCommandHelper.php:479-483 | Only the ruler length changes, and it becomes the ruler length of the given options. |
| `OrderedMaps.Put` | src/Console/Helper/ReviewCommandHelper.php:398 | Writing a new key appends the pair. Writing an existing key replaces its value in place and keeps the key order. |
| `OrderedMaps.Remove` | src/Console/Helper/ReviewCommandHelper.php:258 | Exactly the pairs with another key remain. |
| `OrderedMaps.RemoveOrder` | src/Console/Helper/ReviewCommandHelper.php:258 | The remaining pairs keep their order: they are a subsequence of the array. |
| `OrderedMaps.RemoveAbsent` | src/Console/Helper/ReviewCommandHelper.php:258 | Unsetting a key that is not there changes nothing. |
| `OrderedMaps.RemoveAppend` | src/Console/Helper/ReviewCommandHelper.php:258 | Unsetting from two arrays joined unsets from each. |
| `OrderedMaps.Shift` | src/Console/Helper/ReviewCommandHelper.php:130 | The first pair is dropped and the rest is kept. An empty array stays empty. |
| `OrderedMaps.IntersectValues` | src/Console/Helper/ReviewCommandHelper.php:134 | Exactly the pairs whose value is among the given values remain, keys kept, in their original order. |
| `OrderedMaps.IntersectKeys` | src/Console/Helper/ReviewCommandHelper.php:271 | Exactly the pairs whose key is among the given keys remain, in their original order. |
| `OrderedMaps.MergeDisjoint` | src/Console/Helper/ReviewCommandHelper.php:299 | Merging arrays with no key in common appends the second to the first. |
| `Php.Basename` | src/Console/Helper/ReviewCommandHelper.php:397 | The base name holds no slash and is a suffix of the path. It starts right after the path's last slash, so it is the whole path when there is no slash. |
| `Php.Pathinfo` | src/Console/Helper/ReviewCommandHelper.php:150-153 | The parts are the directory name and the base name. When the base name has a dot, it splits at the last dot into the filename and the extension. Otherwise there is no extension and the filename is the base name. |
| `Php.StrReplaceAbsent` | src/Console/Helper/ReviewCommandHelper.php:220 | A subject in which the search string never occurs is returned unchanged. |
| `Php.Repeat` | src/Console/Helper/ReviewCommandHelper.php:221 | The ruler body has exactly the requested number of `=` characters. |

## Left out

- Interactive prompting through `QuestionHelper` and `ChoiceQuestion` is not modelled. The operator's answers are parameters: `choice` for the units and `commandChoice` for the commands. So are the `--select`, `--no-interaction` and `--type` options.
- The `Finder` traversal is not modelled. This covers the `*.info` and `*.make` name filters for units, `exclude(['contrib','contributed'])`, `getRealPath()` and `sortByName()`. The paths found are given by `Environment.find` in sorted order. For submodules, `find` gives relative pathnames. The `*.info` filter, the `notName` filter and the skipping of hidden files and directories are modelled. Glob metacharacters in the unit's filename are not interpreted.
- `PhingPropertiesHelper::requestSettings` is not part of this model. Its result is a parameter. `SetProperties` requires that result to hold the six requested keys, which the helper's contract promises and this class relies on.
- Console output is not modelled: no `BufferedOutput` verbosity and no rendering of `<info>` markup. The console is the sequence `transcript` of lines written. A unit's buffered output is the concatenation of its commands' texts.
- `getcwd()` is not modelled; the working directory is the constant `env.cwd`.
- `Command::run` is not modelled: it is the function `app.run`, from the name and the options to the exit status and the text.
- `Application::find` is modelled as an exact lookup in the registry. Symfony's abbreviation and alternative matching are not modelled. The exception it throws for an unknown name is the status `Aborted(name)`, which ends the review with that name.
- PHP loose comparison is not modelled. `$selection[0] == 'Select all'` is string equality. `$section` is a string, and `""` stands for `false`.
- `array_merge` is modelled for string keys only, because every key it sees here is a real path.
- `array_shift` is modelled as dropping the first pair, without renumbering, since the only integer key is that of the synthetic entry. On freshly collected options the first pair is that entry. A later `getSelectedOptions` after "Select all" finds stored options that no longer start with it, so `array_shift` drops a real unit. The model does the same.
- Finder's default `ignoreVCS` also skips version-control directories whose names do not start with a dot, such as `CVS` and `_darcs`. The model skips every file and directory whose name starts with a dot, which covers `.git`, `.svn` and `.hg`, but not those others.
- The batch is keyed by `$command->getName()` (src/Console/Helper/ReviewCommandHelper.php:170). The model keys it by the registry key and takes that key to be the command's name. Aliases are not modelled: `Application::all()` also lists a command under each alias, and then the same name would come up twice, with the second pass writing into an `ArrayInput`.
- `strlen` counts bytes, while the model counts characters. The ruler length matches only for single-byte paths.
- `dirname` and `basename` are modelled for paths without trailing or repeated slashes.
- `ReviewCommandHelper.constructor` requires the application's command names to be distinct. A PHP array cannot hold a key twice, so this holds for any real registry.
- `getSelectedCommands` with `--select` and an empty answer falls off its end and returns null. The model records this as no command list, and every batch is then empty.
- `getInfoFiles`, `getThemeFiles` and `getMakeFiles` share one modelled loop, `CollectFileOptions`. They differ only in the search they run.
- `Selection.Checks`, `Commandlines.Arguments`, `Commandlines.SubmoduleDirs`, `Commandlines.Build` and `Selection.FileOptions` state only bounds and membership in their own contracts. The lemmas named in their rows state the rest: `ChecksMembers` and `ChecksOrder` give the content and order of `Checks`, `ArgumentsFilterMap`, `ArgumentsExact` and `ArgumentsUnique` that of `Arguments`, `SubmoduleDirsFilterMap` and `SubmoduleDirsExact` that of `SubmoduleDirs`, `BuildEntry`, `BuildUnique` and `BuildOrder` that of `Build`, and `FileOptionsInOrder` that of `FileOptions`.
- `Selection.FileOptionsInOrder` assumes that the search finds each path once, as a file search does. For a path found twice, `FileOptions` keeps the first position and the last write, as `$options[$path] = …` does, but no lemma spells that order out.
