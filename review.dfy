/**
 * The review engine, `ReviewCommandHelper`: it fixes the commands to run
 * when it is created, takes the build properties, and then reviews the
 * units the operator selects, one batch of command lines per unit, between
 * the optional starterkit check and the theme conflict check.
 */
module Review {
  import opened Wrappers
  import opened Php
  import opened OrderedMaps
  import opened Console
  import opened Commandlines
  import opened Execution
  import opened Selection
  import opened Report

  /** The build properties `getPhingProperties` asks for. */
  const RequestedSettings: set<string> :=
    {"lib.dir", "theme.dir", "resources.dir", "phpcs.config", "profile", "project.basedir"}

  /**
   * The names `getPhingProperties` requests: a subsite review and any other
   * review ask for the same six properties.
   */
  function PhingSettingKeys(reviewType: string): (keys: seq<string>)
    ensures |keys| == 6 && forall k :: k in keys <==> k in RequestedSettings
  {
    if reviewType == "subsite" then
      ["lib.dir", "theme.dir", "resources.dir", "phpcs.config", "profile", "project.basedir"]
    else
      ["lib.dir", "theme.dir", "resources.dir", "phpcs.config", "profile", "project.basedir"]
  }

  /**
   * The properties `setProperties` keeps: the requested settings, with every
   * override taking the place of the setting of the same name.
   */
  function MergedProperties(settings: map<string, string>, overrides: map<string, string>): (properties: map<string, string>)
    ensures properties.Keys == settings.Keys + overrides.Keys
    ensures forall k :: k in overrides ==> properties[k] == overrides[k]
    ensures forall k :: k in settings && k !in overrides ==> properties[k] == settings[k]
  {
    if overrides != map[] then settings + overrides else settings
  }

  /** The starterkit check is asked for when the `check-ssk` property is set to something true. */
  predicate CheckSsk(properties: map<string, string>)
  {
    "check-ssk" in properties && Truthy(properties["check-ssk"])
  }

  /** The name of the starterkit check and of the theme conflict check. */
  const StarterkitCheck: string := "check:ssk"
  const ThemeConflict: string := "theme:conflict"

  /** A single check run with no options. */
  function Single(name: string): Batch
  {
    [(name, [])]
  }

  /** How a review ends: `return 1`, falling off the end, or a command the application cannot find. */
  datatype Status = Failure | Done | Aborted(command: string)

  /** The fixed surroundings of a review: the application, the file system and the no-interaction flag. */
  datatype Setup = Setup(app: Application, env: Environment, noInteraction: bool)

  /**
   * What a review reads and changes: the properties, the selected commands
   * (None when `getSelectedCommands` returned nothing), the stored options
   * (None until `setOptions` ran), the ruler length and the lines written
   * to the console.
   */
  datatype State = State(
    properties: map<string, string>,
    commands: Option<Registry>,
    options: Option<Options>,
    rulerLength: nat,
    transcript: seq<string>)

  /** Every selected command is one the application knows, and no name occurs twice. */
  ghost predicate Registered(app: Application, commands: Option<Registry>)
  {
    commands.Some? ==>
      UniqueKeys(commands.value) && forall i :: 0 <= i < |commands.value| ==> commands.value[i].0 in Keys(app.all)
  }

  /** The commands `buildCommandlines` iterates over: none when there is no command list. */
  function CommandList(commands: Option<Registry>): Registry
  {
    match commands case Some(c) => c case None => []
  }

  /**
   * The batch `buildCommandlines` builds for the unit at `path`: the shared
   * options of the unit's directory and filename, excluding the directories
   * of its submodules, offered to every selected command.
   */
  function UnitBatch(properties: map<string, string>, commands: Option<Registry>, find: Search -> seq<string>, path: string): Batch
    requires OptionProperties <= properties.Keys
  {
    var directory := Dirname(path);
    var filename := UnitFilename(path);
    var excluded := SubmoduleDirs(filename, find(Files(directory)));
    Build(SharedOptions(directory, filename, properties, excluded), CommandList(commands))
  }

  /** Running the batch of the unit at `path`. */
  function UnitRun(w: Setup, properties: map<string, string>, commands: Option<Registry>, path: string): Result<Executed>
    requires OptionProperties <= properties.Keys
  {
    Execute(w.app, UnitBatch(properties, commands, w.env.find, path))
  }

  /** Whether the batch of a unit runs to its end with some command failing. */
  predicate UnitFails(w: Setup, properties: map<string, string>, commands: Option<Registry>, path: string)
    requires OptionProperties <= properties.Keys
  {
    var r := UnitRun(w, properties, commands, path);
    r.Ok? && r.value.failed
  }

  /** The captured texts of one unit and the path of the unit they are reported under. */
  datatype Captured = Captured(texts: seq<string>, path: string)

  /**
   * What the loop over the selected units leaves: the failure flag, what
   * each unit that ran through captured, and the command that could not be found.
   */
  datatype Units = Units(failed: bool, captured: seq<Captured>, aborted: Option<string>)

  /** The lines `outputCommandlines` writes for the captured texts of each unit in turn, under the unit's directory. */
  function Rendered(cwd: string, rulerLength: nat, captured: seq<Captured>): seq<string>
  {
    if captured == [] then []
    else
      var last := captured[|captured| - 1];
      Rendered(cwd, rulerLength, captured[..|captured| - 1])
      + ReportLines(Concat(last.texts), Dirname(last.path), cwd, rulerLength)
  }

  /** One unit as the loop of `startReview` sees it: its path and what its batch gave. */
  datatype UnitResult = UnitResult(path: string, result: Result<Executed>)

  /**
   * The loop of `startReview` over unit results, in order: each batch's
   * captured texts are kept for the report, every failure sets the flag,
   * and a command the application cannot find ends the loop.
   */
  function Tally(runs: seq<UnitResult>): Units
  {
    if runs == [] then Units(false, [], None)
    else
      var prev := Tally(runs[..|runs| - 1]);
      if prev.aborted.Some? then prev
      else
        var last := runs[|runs| - 1];
        match last.result
        case Unknown(n) => Units(prev.failed, prev.captured, Some(n))
        case Ok(e) => Units(prev.failed || e.failed, prev.captured + [Captured(e.texts, last.path)], None)
  }

  /** What each selected unit's batch gives. */
  function UnitRuns(w: Setup, properties: map<string, string>, commands: Option<Registry>, units: Options): seq<UnitResult>
    requires OptionProperties <= properties.Keys
  {
    seq(|units|, i requires 0 <= i < |units| =>
      UnitResult(KeyText(units[i].0), UnitRun(w, properties, commands, KeyText(units[i].0))))
  }

  /** The loop of `startReview` over the selected units. */
  function RunUnits(w: Setup, properties: map<string, string>, commands: Option<Registry>, units: Options): Units
    requires OptionProperties <= properties.Keys
  {
    Tally(UnitRuns(w, properties, commands, units))
  }

  /**
   * A check run on its own with no options: it fails exactly when its exit
   * status is not 0, and it aborts the review when the application lacks it.
   */
  function RunCheck(app: Application, name: string): (r: Result<Executed>)
    ensures r == Execute(app, Single(name))
  {
    assert Single(name)[..0] == [];
    assert [] + [app.run(name, []).text] == [app.run(name, []).text];
    if name in Keys(app.all) then Ok(Executed(app.run(name, []).status != 0, [app.run(name, []).text]))
    else Unknown(name)
  }

  /** The starterkit check, run only when asked for. */
  function SskRun(app: Application, properties: map<string, string>): Result<Executed>
  {
    if CheckSsk(properties) then RunCheck(app, StarterkitCheck) else Ok(Executed(false, []))
  }

  /** The options a review chooses from: those stored, or else those `setOptions` collects. */
  function StoredOptions(options: Option<Options>, section: string, properties: map<string, string>, env: Environment): Options
    requires DirectoryProperties <= properties.Keys
  {
    match options case Some(o) => o case None => InitialOptions(section, properties, env.find)
  }

  /** The ruler length after `getSelectedOptions`: set by `setOptions` when it runs. */
  function RulerAfter(options: Option<Options>, rulerLength: nat, stored: Options, cwd: string): nat
  {
    if options.Some? then rulerLength else RulerLength(stored, cwd)
  }

  /**
   * `startReview`: a failing starterkit check ends the review with failure
   * at once; otherwise the selected units are reviewed.
   */
  function Review(w: Setup, s: State, section: string, choice: seq<string>): (State, Status)
    requires RequestedSettings <= s.properties.Keys
  {
    match SskRun(w.app, s.properties)
    case Unknown(n) => (s, Aborted(n))
    case Ok(ssk) =>
      var s1 := s.(transcript := s.transcript + ssk.texts);
      if ssk.failed then (s1, Failure) else ReviewUnits(w, s1, section, choice)
  }

  /**
   * The rest of `startReview`: the units are chosen and reviewed in turn,
   * then the theme conflict check runs.
   */
  function ReviewUnits(w: Setup, s: State, section: string, choice: seq<string>): (State, Status)
    requires RequestedSettings <= s.properties.Keys
  {
    var stored := StoredOptions(s.options, section, s.properties, w.env);
    var ruler := RulerAfter(s.options, s.rulerLength, stored, w.env.cwd);
    var chosen := SelectOptions(stored, choice, w.noInteraction);
    var u := RunUnits(w, s.properties, s.commands, chosen.selected);
    var s2 := s.(options := Some(chosen.stored), rulerLength := ruler, transcript := s.transcript + Rendered(w.env.cwd, ruler, u.captured));
    if u.aborted.Some? then (s2, Aborted(u.aborted.value)) else ConflictCheck(w.app, s2, u.failed)
  }

  /** The end of `startReview`: the review fails when the theme conflict check or an earlier unit failed. */
  function ConflictCheck(app: Application, s: State, failbuild: bool): (State, Status)
  {
    match RunCheck(app, ThemeConflict)
    case Unknown(n) => (s, Aborted(n))
    case Ok(conflict) =>
      (s.(transcript := s.transcript + conflict.texts), if conflict.failed || failbuild then Failure else Done)
  }

  /** The units chosen in a review. */
  function ChosenUnits(w: Setup, s: State, section: string, choice: seq<string>): Options
    requires RequestedSettings <= s.properties.Keys
  {
    SelectOptions(StoredOptions(s.options, section, s.properties, w.env), choice, w.noInteraction).selected
  }

  /** Once a command cannot be found, the remaining units change nothing. */
  lemma {:induction false} TallyStops(runs: seq<UnitResult>, k: nat)
    requires k <= |runs| && Tally(runs[..k]).aborted.Some?
    ensures Tally(runs) == Tally(runs[..k])
  {
    if k < |runs| {
      var init := runs[..|runs| - 1];
      assert init[..k] == runs[..k];
      TallyStops(init, k);
    } else {
      assert runs[..k] == runs;
    }
  }

  /** A unit whose batch names a command that cannot be found ends the loop there. */
  lemma TallyAborts(runs: seq<UnitResult>, i: nat)
    requires i < |runs| && Tally(runs[..i]).aborted.None? && runs[i].result.Unknown?
    ensures var prev := Tally(runs[..i]);
      Tally(runs) == Units(prev.failed, prev.captured, Some(runs[i].result.command))
  {
    assert runs[..i + 1][..i] == runs[..i];
    TallyStops(runs, i + 1);
  }

  /** A unit whose batch ran through adds its failure and its captured texts. */
  lemma TallyStep(runs: seq<UnitResult>, i: nat)
    requires i < |runs| && Tally(runs[..i]).aborted.None? && runs[i].result.Ok?
    ensures var prev := Tally(runs[..i]);
      Tally(runs[..i + 1]) ==
        Units(prev.failed || runs[i].result.value.failed, prev.captured + [Captured(runs[i].result.value.texts, runs[i].path)], None)
  {
    assert runs[..i + 1][..i] == runs[..i];
  }

  /** Reporting one more unit appends its lines. */
  lemma RenderedStep(cwd: string, rulerLength: nat, captured: seq<Captured>, c: Captured)
    ensures Rendered(cwd, rulerLength, captured + [c]) ==
              Rendered(cwd, rulerLength, captured) + ReportLines(Concat(c.texts), Dirname(c.path), cwd, rulerLength)
  {
    assert (captured + [c])[..|captured|] == captured;
  }

  /** The report written so far, extended by one unit's block, is the report of one more unit. */
  lemma RenderedExtend(written: seq<string>, cwd: string, rulerLength: nat, captured: seq<Captured>, c: Captured)
    ensures written + Rendered(cwd, rulerLength, captured) + ReportLines(Concat(c.texts), Dirname(c.path), cwd, rulerLength) ==
              written + Rendered(cwd, rulerLength, captured + [c])
  {
    RenderedStep(cwd, rulerLength, captured, c);
    AppendRegroup(written, Rendered(cwd, rulerLength, captured),
                  ReportLines(Concat(c.texts), Dirname(c.path), cwd, rulerLength), Rendered(cwd, rulerLength, captured + [c]));
  }

  /** Appending two parts one after the other appends their concatenation. */
  lemma AppendRegroup<T>(written: seq<T>, before: seq<T>, lines: seq<T>, after: seq<T>)
    requires after == before + lines
    ensures written + before + lines == written + after
  {
  }

  /** The loop runs to its end exactly when every unit's batch does. */
  lemma {:induction false} TallyRan(runs: seq<UnitResult>)
    ensures Tally(runs).aborted.None? <==> forall i :: 0 <= i < |runs| ==> runs[i].result.Ok?
  {
    if runs != [] {
      var init := runs[..|runs| - 1];
      TallyRan(init);
      assert forall i :: 0 <= i < |init| ==> init[i] == runs[i];
    }
  }

  /** When the loop runs to its end, it fails exactly when some unit's batch had a command exit with a status other than 0. */
  lemma {:induction false} TallyFailed(runs: seq<UnitResult>)
    requires Tally(runs).aborted.None?
    ensures Tally(runs).failed <==>
              exists i :: 0 <= i < |runs| && runs[i].result.Ok? && runs[i].result.value.failed
  {
    if runs != [] {
      var init := runs[..|runs| - 1];
      TallyFailed(init);
      assert forall i :: 0 <= i < |init| ==> init[i] == runs[i];
    }
  }

  /** Batches that neither fail nor write anything leave no failure and capture nothing to report. */
  lemma {:induction false} TallyQuiet(runs: seq<UnitResult>)
    requires forall i :: 0 <= i < |runs| ==> runs[i].result == Ok(Executed(false, []))
    ensures var u := Tally(runs);
      !u.failed && u.aborted.None? && |u.captured| == |runs| && forall i :: 0 <= i < |u.captured| ==> u.captured[i].texts == []
  {
    if runs != [] {
      var init := runs[..|runs| - 1];
      assert forall i :: 0 <= i < |init| ==> init[i] == runs[i];
      TallyQuiet(init);
    }
  }

  /** Units that captured no text are not reported at all. */
  lemma {:induction false} RenderedSilent(cwd: string, rulerLength: nat, captured: seq<Captured>)
    requires forall i :: 0 <= i < |captured| ==> captured[i].texts == []
    ensures Rendered(cwd, rulerLength, captured) == []
  {
    if captured != [] {
      var init := captured[..|captured| - 1];
      assert forall i :: 0 <= i < |init| ==> init[i] == captured[i];
      RenderedSilent(cwd, rulerLength, init);
      assert Concat([]) == "";
    }
  }

  /** A unit whose batch ran through adds its failure and its captured texts to the review of the units. */
  lemma ReviewEachStep(w: Setup, properties: map<string, string>, commands: Option<Registry>, units: Options, i: nat)
    requires OptionProperties <= properties.Keys && i < |units|
    requires Tally(UnitRuns(w, properties, commands, units)[..i]).aborted.None?
    requires UnitRun(w, properties, commands, KeyText(units[i].0)).Ok?
    ensures var runs := UnitRuns(w, properties, commands, units);
      var prev := Tally(runs[..i]);
      var e := UnitRun(w, properties, commands, KeyText(units[i].0)).value;
      Tally(runs[..i + 1]) ==
        Units(prev.failed || e.failed, prev.captured + [Captured(e.texts, KeyText(units[i].0))], None)
  {
    TallyStep(UnitRuns(w, properties, commands, units), i);
  }

  /** A unit whose batch names a command that cannot be found ends the review of the units. */
  lemma ReviewEachStops(w: Setup, properties: map<string, string>, commands: Option<Registry>, units: Options, i: nat)
    requires OptionProperties <= properties.Keys && i < |units|
    requires Tally(UnitRuns(w, properties, commands, units)[..i]).aborted.None?
    requires UnitRun(w, properties, commands, KeyText(units[i].0)).Unknown?
    ensures var prev := Tally(UnitRuns(w, properties, commands, units)[..i]);
      RunUnits(w, properties, commands, units) ==
        Units(prev.failed, prev.captured, Some(UnitRun(w, properties, commands, KeyText(units[i].0)).command))
  {
    var runs := UnitRuns(w, properties, commands, units);
    assert runs[i].result == UnitRun(w, properties, commands, KeyText(units[i].0));
    TallyAborts(runs, i);
  }

  /** The review of the units runs to its end exactly when every unit's batch does. */
  lemma RunUnitsRan(w: Setup, properties: map<string, string>, commands: Option<Registry>, units: Options)
    requires OptionProperties <= properties.Keys
    ensures RunUnits(w, properties, commands, units).aborted.None? <==>
              forall i :: 0 <= i < |units| ==> UnitRun(w, properties, commands, KeyText(units[i].0)).Ok?
  {
    var runs := UnitRuns(w, properties, commands, units);
    TallyRan(runs);
    assert forall i :: 0 <= i < |units| ==> runs[i].result == UnitRun(w, properties, commands, KeyText(units[i].0));
  }

  /**
   * When the review of the units runs to its end, it fails exactly when
   * some unit's batch had a command exit with a status other than 0.
   */
  lemma RunUnitsFailed(w: Setup, properties: map<string, string>, commands: Option<Registry>, units: Options)
    requires OptionProperties <= properties.Keys
    requires RunUnits(w, properties, commands, units).aborted.None?
    ensures RunUnits(w, properties, commands, units).failed <==>
              exists i :: 0 <= i < |units| && UnitFails(w, properties, commands, KeyText(units[i].0))
  {
    var runs := UnitRuns(w, properties, commands, units);
    TallyFailed(runs);
    if exists i :: 0 <= i < |units| && UnitFails(w, properties, commands, KeyText(units[i].0)) {
      var i :| 0 <= i < |units| && UnitFails(w, properties, commands, KeyText(units[i].0));
      assert runs[i].result.Ok? && runs[i].result.value.failed;
    }
  }

  /** With only registered commands selected, no unit's batch can end on a command that is not found. */
  lemma RunUnitsRegistered(w: Setup, properties: map<string, string>, commands: Option<Registry>, units: Options)
    requires OptionProperties <= properties.Keys
    requires Registered(w.app, commands)
    ensures RunUnits(w, properties, commands, units).aborted.None?
  {
    var runs := UnitRuns(w, properties, commands, units);
    forall i | 0 <= i < |runs| ensures runs[i].result.Ok? {
      var batch := UnitBatch(properties, commands, w.env.find, KeyText(units[i].0));
      forall k | 0 <= k < |batch| ensures batch[k].0 in Keys(w.app.all) {
        var j :| 0 <= j < |CommandList(commands)| && batch[k].0 == Keys(CommandList(commands))[j];
      }
      ExecuteExact(w.app, batch);
    }
    TallyRan(runs);
  }

  /** Without any command to run, no unit fails and nothing is reported. */
  lemma RunUnitsWithoutCommands(w: Setup, properties: map<string, string>, commands: Option<Registry>, rulerLength: nat, units: Options)
    requires OptionProperties <= properties.Keys
    requires CommandList(commands) == []
    ensures var u := RunUnits(w, properties, commands, units);
      !u.failed && u.aborted.None? && Rendered(w.env.cwd, rulerLength, u.captured) == []
  {
    var runs := UnitRuns(w, properties, commands, units);
    forall i | 0 <= i < |runs| ensures runs[i].result == Ok(Executed(false, [])) {
      assert UnitBatch(properties, commands, w.env.find, KeyText(units[i].0)) == [];
    }
    TallyQuiet(runs);
    RenderedSilent(w.env.cwd, rulerLength, Tally(runs).captured);
  }

  /** A failing starterkit check ends the review with failure, its text written and nothing else done. */
  lemma StarterkitFailure(w: Setup, s: State, section: string, choice: seq<string>)
    requires RequestedSettings <= s.properties.Keys
    requires CheckSsk(s.properties) && StarterkitCheck in Keys(w.app.all)
    requires w.app.run(StarterkitCheck, []).status != 0
    ensures Review(w, s, section, choice) == (s.(transcript := s.transcript + [w.app.run(StarterkitCheck, []).text]), Failure)
  {
  }

  /**
   * A review ends normally (falls off its end) exactly when the starterkit
   * check, if asked for, passed, the units' review ran to its end without a
   * failure, and the theme conflict check passed.
   */
  lemma ReviewDoneSteps(w: Setup, s: State, section: string, choice: seq<string>)
    requires RequestedSettings <= s.properties.Keys
    ensures var u := RunUnits(w, s.properties, s.commands, ChosenUnits(w, s, section, choice));
      Review(w, s, section, choice).1 == Done <==>
        && (CheckSsk(s.properties) ==> StarterkitCheck in Keys(w.app.all) && w.app.run(StarterkitCheck, []).status == 0)
        && u.aborted.None? && !u.failed
        && ThemeConflict in Keys(w.app.all) && w.app.run(ThemeConflict, []).status == 0
  {
    match SskRun(w.app, s.properties)
    case Unknown(n) =>
    case Ok(ssk) =>
      var s1 := s.(transcript := s.transcript + ssk.texts);
      assert s1.properties == s.properties && s1.options == s.options && s1.rulerLength == s.rulerLength;
  }

  /**
   * A review ends normally (falls off its end) exactly when the starterkit
   * check, if asked for, passed, every unit's batch ran through without a
   * failing command, and the theme conflict check passed; otherwise it
   * returns 1 or stops on a command that cannot be found.
   */
  lemma ReviewDone(w: Setup, s: State, section: string, choice: seq<string>)
    requires RequestedSettings <= s.properties.Keys
    ensures var units := ChosenUnits(w, s, section, choice);
      Review(w, s, section, choice).1 == Done <==>
        && (CheckSsk(s.properties) ==> StarterkitCheck in Keys(w.app.all) && w.app.run(StarterkitCheck, []).status == 0)
        && (forall i :: 0 <= i < |units| ==>
              UnitRun(w, s.properties, s.commands, KeyText(units[i].0)).Ok? &&
              !UnitFails(w, s.properties, s.commands, KeyText(units[i].0)))
        && ThemeConflict in Keys(w.app.all) && w.app.run(ThemeConflict, []).status == 0
  {
    var units := ChosenUnits(w, s, section, choice);
    ReviewDoneSteps(w, s, section, choice);
    RunUnitsRan(w, s.properties, s.commands, units);
    if RunUnits(w, s.properties, s.commands, units).aborted.None? {
      RunUnitsFailed(w, s.properties, s.commands, units);
    }
  }

  /**
   * With only registered commands selected, a review can stop on a missing
   * command only at the starterkit check or the theme conflict check, and
   * only when the application lacks it.
   */
  lemma ReviewAbortsOnlyOnChecks(w: Setup, s: State, section: string, choice: seq<string>)
    requires RequestedSettings <= s.properties.Keys
    requires Registered(w.app, s.commands)
    ensures var status := Review(w, s, section, choice).1;
      status.Aborted? ==>
        (status.command == StarterkitCheck || status.command == ThemeConflict) && status.command !in Keys(w.app.all)
  {
    RunUnitsRegistered(w, s.properties, s.commands, ChosenUnits(w, s, section, choice));
  }

  /**
   * The helper object. Its commands are fixed at construction; the
   * properties, the stored options and the ruler length are set as the
   * review proceeds, and `transcript` holds the lines written to the console.
   */
  class ReviewCommandHelper {
    const app: Application
    const env: Environment
    const reviewType: string
    const noInteraction: bool
    var commands: Option<Registry>
    var properties: map<string, string>
    var options: Option<Options>
    var rulerLength: nat
    var transcript: seq<string>

    ghost predicate Valid()
      reads this
    {
      Registered(app, commands)
    }

    function Surroundings(): Setup
    {
      Setup(app, env, noInteraction)
    }

    function Snapshot(): State
      reads this
    {
      State(properties, commands, options, rulerLength, transcript)
    }

    /** The constructor: keeps its collaborators and fixes the commands to run. */
    constructor(app: Application, env: Environment, reviewType: string, select: bool, noInteraction: bool, commandChoice: seq<string>)
      requires UniqueKeys(app.all)
      ensures Valid()
      ensures this.app == app && this.env == env && this.reviewType == reviewType && this.noInteraction == noInteraction
      ensures commands == CommandSelection(app.all, select, commandChoice)
      ensures properties == map[] && options == None && rulerLength == 0 && transcript == []
    {
      this.app := app;
      this.env := env;
      this.reviewType := reviewType;
      this.noInteraction := noInteraction;
      var selected := GetSelectedCommands(app.all, select, commandChoice);
      CommandSelectionUnique(app.all, select, commandChoice);
      CommandSelectionExact(app.all, select, commandChoice);
      if selected.Some? {
        forall i | 0 <= i < |selected.value| ensures selected.value[i].0 in Keys(app.all) {
          assert selected.value[i] in app.all;
        }
      }
      commands := selected;
      properties := map[];
      options := None;
      rulerLength := 0;
      transcript := [];
    }

    /** `setProperties`: the requested build properties, overridden where `overrides` says. */
    method SetProperties(requestSettings: seq<string> -> map<string, string>, overrides: map<string, string>)
      requires RequestedSettings <= requestSettings(PhingSettingKeys(reviewType)).Keys
      modifies this
      ensures properties == MergedProperties(requestSettings(PhingSettingKeys(reviewType)), overrides)
      ensures RequestedSettings <= properties.Keys
      ensures commands == old(commands) && options == old(options)
      ensures rulerLength == old(rulerLength) && transcript == old(transcript)
    {
      var phingProperties := requestSettings(PhingSettingKeys(reviewType));
      if overrides != map[] {
        properties := phingProperties + overrides;
      } else {
        properties := phingProperties;
      }
    }

    /** `setRulerLength`. */
    method SetRulerLength(opts: Options)
      modifies this
      ensures rulerLength == RulerLength(opts, env.cwd)
      ensures commands == old(commands) && properties == old(properties)
      ensures options == old(options) && transcript == old(transcript)
    {
      rulerLength := GetRulerLength(opts, env.cwd);
    }

    /** `setOptions`: collects and stores the options of the section, and sizes the ruler for them. */
    method SetOptions(section: string)
      requires DirectoryProperties <= properties.Keys
      modifies this
      ensures commands == old(commands) && properties == old(properties) && transcript == old(transcript)
      ensures options == Some(InitialOptions(section, properties, env.find))
      ensures rulerLength == RulerLength(options.value, env.cwd)
    {
      var units: Options;
      if section == "theme" {
        units := CollectFileOptions(env.find(Descriptors(properties["theme.dir"] + "/themes")));
      } else {
        var infoFiles := CollectFileOptions(env.find(Descriptors(properties["lib.dir"])));
        var makeFiles := CollectFileOptions(env.find(Manifests(properties["resources.dir"])));
        units := Merge(makeFiles, infoFiles);
      }
      var all := [(SelectAllKey, SelectAll)] + units;
      options := Some(all);
      SetRulerLength(all);
    }

    /**
     * `getSelectedOptions`: the units chosen among the stored options,
     * collecting them first when none are stored.
     */
    method GetSelectedOptions(section: string, choice: seq<string>) returns (selected: Options)
      requires DirectoryProperties <= properties.Keys
      modifies this
      ensures commands == old(commands) && properties == old(properties) && transcript == old(transcript)
      ensures var stored := StoredOptions(old(options), section, properties, env);
        && selected == SelectOptions(stored, choice, noInteraction).selected
        && options == Some(SelectOptions(stored, choice, noInteraction).stored)
        && rulerLength == RulerAfter(old(options), old(rulerLength), stored, env.cwd)
    {
      if options.None? {
        SetOptions(section);
      }
      var chosen := SelectOptions(options.value, choice, noInteraction);
      options := Some(chosen.stored);
      selected := chosen.selected;
    }

    /** `buildCommandlines`: the batch for the unit at `path`. */
    method BuildCommandlines(path: string) returns (commandlines: Batch)
      requires Valid() && OptionProperties <= properties.Keys
      ensures commandlines == UnitBatch(properties, commands, env.find, path)
    {
      var pathinfo := Pathinfo(path);
      var directory := pathinfo.dirname;
      var filename := if pathinfo.extension == Some("make") then path else pathinfo.filename;
      var commandOptions: Args :=
        [("directory", directory),
         ("filename", filename),
         ("profile", properties["profile"]),
         ("standard", properties["phpcs.config"]),
         ("project.basedir", properties["project.basedir"])];
      var excludeDirectories := GetSubmoduleDirectories(filename, env.find(Files(directory)));
      if excludeDirectories != [] {
        assert "exclude-dirs" !in Keys(commandOptions);
        commandOptions := Put(commandOptions, "exclude-dirs", Implode(",", excludeDirectories));
      }
      assert commandOptions == SharedOptions(directory, filename, properties, excludeDirectories);
      commandlines := BuildBatch(commandOptions, CommandList(commands));
    }

    /** The batch of one unit of `startReview`, built and run. */
    method RunUnit(path: string) returns (r: Result<Executed>)
      requires Valid() && OptionProperties <= properties.Keys
      ensures r == UnitRun(Surroundings(), properties, commands, path)
    {
      var commandlines := BuildCommandlines(path);
      r := ExecuteCommandlines(app, commandlines);
    }

    /** `outputCommandlines`: reports the captured content of one unit. */
    method OutputCommandlines(content: string, path: string)
      modifies this
      ensures transcript == old(transcript) + ReportLines(content, path, env.cwd, rulerLength)
      ensures commands == old(commands) && properties == old(properties)
      ensures options == old(options) && rulerLength == old(rulerLength)
    {
      if Truthy(content) {
        var title := StrReplace(env.cwd, ".", path);
        var ruler := Ruler(rulerLength);
        var heading := if title != "." then title else "../" + Basename(path);
        transcript := transcript + ["", ruler, heading, ruler, content];
      }
    }

    /**
     * `startReview`: the starterkit check when the properties ask for it,
     * then the selected units and the theme conflict check.
     */
    method StartReview(section: string, choice: seq<string>) returns (status: Status)
      requires Valid() && RequestedSettings <= properties.Keys
      modifies this
      ensures Valid()
      ensures (Snapshot(), status) == Review(Surroundings(), old(Snapshot()), section, choice)
    {
      if CheckSsk(properties) {
        var ssk := ExecuteCommandlines(app, Single(StarterkitCheck));
        if ssk.Unknown? {
          return Aborted(ssk.command);
        }
        transcript := transcript + ssk.value.texts;
        if ssk.value.failed {
          return Failure;
        }
      } else {
        assert transcript == transcript + [];
      }
      status := ReviewSelection(section, choice);
    }

    /** The part of `startReview` after the starterkit check. */
    method ReviewSelection(section: string, choice: seq<string>) returns (status: Status)
      requires Valid() && RequestedSettings <= properties.Keys
      modifies this
      ensures Valid()
      ensures (Snapshot(), status) == ReviewUnits(Surroundings(), old(Snapshot()), section, choice)
    {
      var selected := GetSelectedOptions(section, choice);
      var failbuild, aborted := ReviewEach(selected);
      if aborted.Some? {
        return Aborted(aborted.value);
      }
      var conflict := ExecuteCommandlines(app, Single(ThemeConflict));
      if conflict.Unknown? {
        return Aborted(conflict.command);
      }
      transcript := transcript + conflict.value.texts;
      if conflict.value.failed {
        return Failure;
      }
      if failbuild {
        return Failure;
      }
      return Done;
    }

    /**
     * The loop of `startReview`: builds, runs and reports each selected
     * unit's batch in turn, stopping on a command that cannot be found.
     */
    method ReviewEach(selected: Options) returns (failbuild: bool, aborted: Option<string>)
      requires Valid() && OptionProperties <= properties.Keys
      modifies this
      ensures commands == old(commands) && properties == old(properties)
      ensures options == old(options) && rulerLength == old(rulerLength)
      ensures var u := RunUnits(Surroundings(), properties, commands, selected);
        failbuild == u.failed && aborted == u.aborted && transcript == old(transcript) + Rendered(env.cwd, rulerLength, u.captured)
    {
      ghost var w := Surroundings();
      ghost var ruler := rulerLength;
      ghost var captured: seq<Captured> := [];
      failbuild := false;
      aborted := None;
      for i := 0 to |selected|
        invariant commands == old(commands) && properties == old(properties)
        invariant options == old(options) && rulerLength == ruler
        invariant Tally(UnitRuns(w, properties, commands, selected)[..i]) == Units(failbuild, captured, None)
        invariant transcript == old(transcript) + Rendered(w.env.cwd, ruler, captured)
      {
        var path := KeyText(selected[i].0);
        var r := RunUnit(path);
        if r.Unknown? {
          ReviewEachStops(w, properties, commands, selected, i);
          return failbuild, Some(r.command);
        }
        ReviewEachStep(w, properties, commands, selected, i);
        ghost var c := Captured(r.value.texts, path);
        RenderedExtend(old(transcript), w.env.cwd, ruler, captured, c);
        if r.value.failed {
          failbuild := true;
        }
        OutputCommandlines(Concat(r.value.texts), Dirname(path));
        captured := captured + [c];
      }
      assert UnitRuns(w, properties, commands, selected)[..|selected|] == UnitRuns(w, properties, commands, selected);
    }
  }
}
