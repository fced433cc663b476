/**
 * What a review covers: the selectable units (descriptor and make files,
 * behind a synthetic "Select all" entry), the operator's choice among them,
 * and the check commands taken from the application.
 */
module Selection {
  import opened Wrappers
  import opened Php
  import opened OrderedMaps
  import opened Console

  /** The label of the synthetic first option. */
  const SelectAll: string := "Select all"

  /**
   * The key of an option: the integer key 0 that `array_unshift` gives the
   * synthetic entry, or the real path of a unit's file.
   */
  datatype Key = SelectAllKey | PathKey(path: string)

  /** A key as the string a PHP function receives: the synthetic key is "0". */
  function KeyText(k: Key): string
  {
    match k
    case SelectAllKey => "0"
    case PathKey(p) => p
  }

  /** Selectable units: key to the file name shown to the operator. */
  type Options = OrderedMap<Key, string>

  /**
   * The option map `getInfoFiles`, `getThemeFiles` and `getMakeFiles` build
   * from the paths their search finds: each path keyed to its base name.
   */
  function FileOptions(paths: seq<string>): (options: Options)
    ensures UniqueKeys(options) && |options| <= |paths|
    ensures forall i :: 0 <= i < |options| ==>
              options[i].0.PathKey? && options[i].0.path in paths && options[i].1 == Basename(options[i].0.path)
  {
    if paths == [] then []
    else
      var p := paths[|paths| - 1];
      var prev := FileOptions(paths[..|paths| - 1]);
      PutUnique(prev, PathKey(p), Basename(p));
      Put(prev, PathKey(p), Basename(p))
  }

  /** Every path found becomes an option. */
  lemma {:induction false} FileOptionsComplete(paths: seq<string>, p: string)
    requires p in paths
    ensures Get(FileOptions(paths), PathKey(p)) == Some(Basename(p))
  {
    var n := |paths| - 1;
    var prev := FileOptions(paths[..n]);
    var r := Put(prev, PathKey(paths[n]), Basename(paths[n]));
    assert FileOptions(paths) == r;
    if paths[n] != p {
      assert p in paths[..n];
      FileOptionsComplete(paths[..n], p);
      var i :| 0 <= i < |prev| && prev[i] == (PathKey(p), Basename(p));
      assert r[i] == prev[i];
      PutUnique(prev, PathKey(paths[n]), Basename(paths[n]));
      GetAt(r, i);
    } else {
      PutGet(prev, PathKey(p), Basename(p));
    }
  }

  /**
   * Paths found once each become the options one for one, in the order
   * found: each path keyed to its base name.
   */
  lemma {:induction false} FileOptionsInOrder(paths: seq<string>)
    requires forall i, j :: 0 <= i < j < |paths| ==> paths[i] != paths[j]
    ensures FileOptions(paths) == seq(|paths|, i requires 0 <= i < |paths| => (PathKey(paths[i]), Basename(paths[i])))
  {
    if paths != [] {
      var init := paths[..|paths| - 1];
      var p := paths[|paths| - 1];
      assert forall i :: 0 <= i < |init| ==> init[i] == paths[i];
      FileOptionsInOrder(init);
      var prev := FileOptions(init);
      assert PathKey(p) !in Keys(prev) by {
        forall k | 0 <= k < |prev| ensures Keys(prev)[k] != PathKey(p) {
          assert prev[k] == (PathKey(init[k]), Basename(init[k]));
        }
      }
      assert FileOptions(paths) == prev + [(PathKey(p), Basename(p))];
    }
  }

  /** The loop shared by `getInfoFiles`, `getThemeFiles` and `getMakeFiles`. */
  method CollectFileOptions(paths: seq<string>) returns (options: Options)
    ensures options == FileOptions(paths)
  {
    options := [];
    for i := 0 to |paths|
      invariant options == FileOptions(paths[..i])
    {
      assert paths[..i + 1][..i] == paths[..i];
      var filepathname := paths[i];
      options := Put(options, PathKey(filepathname), Basename(filepathname));
    }
    assert paths[..|paths|] == paths;
  }

  /** Build properties `setOptions` reads. */
  const DirectoryProperties: set<string> := {"lib.dir", "theme.dir", "resources.dir"}

  /**
   * The options `setOptions` stores: "Select all" first, then for the theme
   * section the descriptors below `<theme.dir>/themes`, and otherwise the
   * make files below `resources.dir` followed by the descriptors below `lib.dir`.
   */
  function InitialOptions(section: string, properties: map<string, string>, find: Search -> seq<string>): Options
    requires DirectoryProperties <= properties.Keys
  {
    var units :=
      if section == "theme" then FileOptions(find(Descriptors(properties["theme.dir"] + "/themes")))
      else Merge(FileOptions(find(Manifests(properties["resources.dir"]))),
                 FileOptions(find(Descriptors(properties["lib.dir"]))));
    [(SelectAllKey, SelectAll)] + units
  }

  /** Options built from paths that two searches never share have no key in common. */
  lemma FileOptionsDisjoint(a: seq<string>, b: seq<string>)
    requires forall p :: p in a ==> p !in b
    ensures forall k :: k in Keys(FileOptions(a)) ==> k !in Keys(FileOptions(b))
  {
    var makes := FileOptions(a);
    var infos := FileOptions(b);
    forall k | k in Keys(makes) ensures k !in Keys(infos) {
      var i :| 0 <= i < |makes| && makes[i].0 == k;
      forall j | 0 <= j < |infos| ensures infos[j].0 != k {
        assert infos[j].0.path in b;
      }
    }
  }

  /** When no make file is also a descriptor, the make files simply come before the descriptors. */
  lemma InitialOptionsOrder(properties: map<string, string>, find: Search -> seq<string>)
    requires DirectoryProperties <= properties.Keys
    requires forall p :: p in find(Manifests(properties["resources.dir"])) ==> p !in find(Descriptors(properties["lib.dir"]))
    ensures InitialOptions("", properties, find) ==
              [(SelectAllKey, SelectAll)] + FileOptions(find(Manifests(properties["resources.dir"])))
                                          + FileOptions(find(Descriptors(properties["lib.dir"])))
  {
    var a := find(Manifests(properties["resources.dir"]));
    var b := find(Descriptors(properties["lib.dir"]));
    FileOptionsDisjoint(a, b);
    MergeDisjoint(FileOptions(a), FileOptions(b));
  }

  /** What `getSelectedOptions` returns, and the options it leaves stored. */
  datatype Selected = Selected(selected: Options, stored: Options)

  /**
   * Choosing "Select all" first, or running without interaction, selects
   * every stored option but the first and drops that one from the store;
   * otherwise the options whose file name was chosen are selected.
   */
  function SelectOptions(stored: Options, choice: seq<string>, noInteraction: bool): Selected
  {
    if (|choice| > 0 && choice[0] == SelectAll) || noInteraction then
      Selected(Shift(stored), Shift(stored))
    else
      Selected(IntersectValues(stored, choice), stored)
  }

  /** Choosing "Select all" first and running without interaction select the same units. */
  lemma SelectAllIsNoInteraction(stored: Options, rest: seq<string>, choice: seq<string>)
    ensures SelectOptions(stored, [SelectAll] + rest, false) == SelectOptions(stored, choice, true)
  {
  }

  /**
   * On freshly set options, selecting all yields exactly the discovered
   * units; a targeted choice yields the units whose file name was chosen,
   * and the synthetic entry only when "Select all" was chosen but not first.
   */
  lemma {:induction false} SelectionOfUnits(units: Options, choice: seq<string>, noInteraction: bool)
    requires forall i :: 0 <= i < |units| ==> units[i].0.PathKey?
    ensures var s := SelectOptions([(SelectAllKey, SelectAll)] + units, choice, noInteraction);
      && ((|choice| > 0 && choice[0] == SelectAll) || noInteraction ==> s.selected == units && s.stored == units)
      && (forall p: (Key, string) :: p.0.PathKey? ==> (p in s.selected <==>
            p in units && (noInteraction || (|choice| > 0 && choice[0] == SelectAll) || p.1 in choice)))
      && (SelectAllKey in Keys(s.selected) <==> !noInteraction && SelectAll in choice && choice[0] != SelectAll)
  {
    var stored := [(SelectAllKey, SelectAll)] + units;
    var s := SelectOptions(stored, choice, noInteraction);
    assert Shift(stored) == units;
    if (|choice| > 0 && choice[0] == SelectAll) || noInteraction {
      forall i | 0 <= i < |s.selected| ensures Keys(s.selected)[i] != SelectAllKey {
        assert s.selected[i] == units[i];
      }
    } else {
      assert stored[0] == (SelectAllKey, SelectAll);
      if SelectAll in choice {
        assert stored[0] in s.selected;
        var i :| 0 <= i < |s.selected| && s.selected[i] == stored[0];
        assert Keys(s.selected)[i] == SelectAllKey;
      }
      forall k | 1 <= k < |stored| ensures stored[k].0.PathKey? {
        assert stored[k] == units[k - 1];
      }
      if SelectAllKey in Keys(s.selected) {
        var i :| 0 <= i < |s.selected| && s.selected[i].0 == SelectAllKey;
        assert s.selected[i] in stored;
      }
    }
  }

  /** Names `getSelectedCommands` never offers: help, list, the starterkit check and the review and theme commands. */
  predicate Unwanted(name: string)
  {
    name in ["help", "list", "check:ssk"] || "review:" <= name || "theme:" <= name
  }

  /** The registry without the unwanted commands, in registration order. */
  function Checks(all: Registry): (checks: Registry)
    ensures |checks| <= |all|
  {
    if all == [] then []
    else
      var last := all[|all| - 1];
      Checks(all[..|all| - 1]) + if Unwanted(last.0) then [] else [last]
  }

  /** Filtering keeps the surviving commands in registration order. */
  lemma {:induction false} ChecksOrder(all: Registry)
    ensures Embedded(Checks(all), all)
  {
    if all != [] {
      var init := all[..|all| - 1];
      var last := all[|all| - 1];
      ChecksOrder(init);
      assert all == init + [last];
      EmbeddedStep(Checks(init), init, last, !Unwanted(last.0));
    }
  }

  /**
   * The commands a review runs: every wanted command, or with `--select`
   * those the operator named; a `--select` run with nothing named gets no
   * command list at all (the method falls off its end).
   */
  function CommandSelection(all: Registry, select: bool, choice: seq<string>): Option<Registry>
  {
    if !select then Some(Checks(all))
    else if |choice| > 0 then Some(IntersectKeys(Checks(all), choice))
    else None
  }

  /** The unsetting loop of `getSelectedCommands`: drops every unwanted command in place. */
  method UnsetUnwanted(all: Registry) returns (commands: Registry)
    requires UniqueKeys(all)
    ensures commands == Checks(all)
  {
    commands := all;
    for i := 0 to |all|
      invariant commands == Checks(all[..i]) + all[i..]
    {
      var name := all[i].0;
      UnsetLoopStep(all, i);
      if Unwanted(name) {
        commands := Remove(commands, name);
      }
    }
    assert all[..|all|] == all && all[|all|..] == [];
    assert commands == Checks(all) + [];
  }

  /** Exactly the wanted registered commands survive the filtering. */
  lemma {:induction false} ChecksMembers(all: Registry)
    ensures forall p :: p in Checks(all) <==> p in all && !Unwanted(p.0)
  {
    if all != [] {
      var init := all[..|all| - 1];
      ChecksMembers(init);
      assert all == init + [all[|all| - 1]];
    }
  }

  /**
   * `getSelectedCommands`: unsets the unwanted commands from the
   * application's list, then narrows it to the operator's choice when asked to.
   */
  method GetSelectedCommands(all: Registry, select: bool, choice: seq<string>) returns (r: Option<Registry>)
    requires UniqueKeys(all)
    ensures r == CommandSelection(all, select, choice)
  {
    var commands := UnsetUnwanted(all);
    if select {
      if |choice| > 0 {
        return Some(IntersectKeys(commands, choice));
      }
      return None;
    } else {
      return Some(commands);
    }
  }

  /**
   * The selected commands never include a meta-command; with `--select` they
   * are exactly the wanted commands the operator named, and without a choice
   * there are none.
   */
  lemma CommandSelectionExact(all: Registry, select: bool, choice: seq<string>)
    ensures var r := CommandSelection(all, select, choice);
      && (r.None? <==> select && choice == [])
      && (r.Some? ==> forall i :: 0 <= i < |r.value| ==> !Unwanted(r.value[i].0))
      && (r.Some? ==> forall p :: p in r.value <==> p in all && !Unwanted(p.0) && (!select || p.0 in choice))
  {
    var r := CommandSelection(all, select, choice);
    ChecksMembers(all);
    if r.Some? {
      forall i | 0 <= i < |r.value| ensures !Unwanted(r.value[i].0) {
        assert r.value[i] in Checks(all);
      }
    }
  }

  /** A suffix is its first element followed by the rest. */
  lemma SplitAt<T>(s: seq<T>, i: nat)
    requires i < |s|
    ensures s[i..] == [s[i]] + s[i + 1..]
  {
  }

  /** One more registered command either is dropped or joins the wanted ones. */
  lemma ChecksStep(all: Registry, i: nat)
    requires i < |all|
    ensures Checks(all[..i + 1]) == Checks(all[..i]) + if Unwanted(all[i].0) then [] else [all[i]]
  {
    assert all[..i + 1][..i] == all[..i];
  }

  /** One round of the unsetting loop moves its boundary one command on. */
  lemma UnsetLoopStep(all: Registry, i: nat)
    requires UniqueKeys(all) && i < |all|
    ensures var commands := Checks(all[..i]) + all[i..];
      (if Unwanted(all[i].0) then Remove(commands, all[i].0) else commands)
        == Checks(all[..i + 1]) + all[i + 1..]
  {
    ChecksStep(all, i);
    var done := Checks(all[..i]);
    if Unwanted(all[i].0) {
      UnsetStep(all, i);
      assert Checks(all[..i + 1]) == done + [];
      assert done + [] == done;
    } else {
      SplitAt(all, i);
      assert Checks(all[..i + 1]) == done + [all[i]];
      assert done + all[i..] == done + ([all[i]] + all[i + 1..]);
      assert done + ([all[i]] + all[i + 1..]) == (done + [all[i]]) + all[i + 1..];
    }
  }

  /** Filtering keeps the command names distinct. */
  lemma {:induction false} ChecksUnique(all: Registry)
    requires UniqueKeys(all)
    ensures UniqueKeys(Checks(all))
  {
    if all != [] {
      var init := all[..|all| - 1];
      var last := all[|all| - 1];
      assert UniqueKeys(init) by {
        forall a, b | 0 <= a < b < |init| ensures init[a].0 != init[b].0 {
          assert init[a] == all[a] && init[b] == all[b];
        }
      }
      ChecksUnique(init);
      forall j | 0 <= j < |init| ensures Keys(init)[j] != last.0 {
        assert init[j] == all[j];
      }
      ChecksKeys(init, last.0);
      var prev := Checks(init);
      var r := Checks(all);
      if !Unwanted(last.0) {
        forall a, b | 0 <= a < b < |r| ensures r[a].0 != r[b].0 {
          if b < |prev| {
            assert r[a] == prev[a] && r[b] == prev[b];
          } else {
            assert r[a] == prev[a] && r[b] == last;
            assert Keys(prev)[a] == prev[a].0;
          }
        }
      }
    }
  }

  /** The selected commands have distinct names, as the registry has. */
  lemma CommandSelectionUnique(all: Registry, select: bool, choice: seq<string>)
    requires UniqueKeys(all)
    ensures CommandSelection(all, select, choice).Some? ==> UniqueKeys(CommandSelection(all, select, choice).value)
  {
    ChecksUnique(all);
    IntersectKeysUnique(Checks(all), choice);
  }

  /** Filtering adds no key. */
  lemma {:induction false} ChecksKeys(all: Registry, k: string)
    requires k !in Keys(all)
    ensures k !in Keys(Checks(all))
  {
    if all != [] {
      var init := all[..|all| - 1];
      forall j | 0 <= j < |init| ensures Keys(init)[j] != k {
        assert Keys(all)[j] == init[j].0;
      }
      ChecksKeys(init, k);
      assert Keys(all)[|all| - 1] == all[|all| - 1].0;
      var r := Checks(all);
      forall j | 0 <= j < |r| ensures Keys(r)[j] != k {
        if j < |Checks(init)| {
          assert r[j] == Checks(init)[j];
          assert Keys(Checks(init))[j] == r[j].0;
        }
      }
    }
  }

  /** Unsetting the name at position `i` takes out exactly that entry. */
  lemma UnsetStep(all: Registry, i: nat)
    requires UniqueKeys(all) && i < |all|
    ensures Remove(Checks(all[..i]) + all[i..], all[i].0) == Checks(all[..i]) + all[i + 1..]
  {
    var name := all[i].0;
    var done := Checks(all[..i]);
    forall j | 0 <= j < i ensures Keys(all[..i])[j] != name {
      assert all[..i][j] == all[j];
    }
    ChecksKeys(all[..i], name);
    RemoveAbsent(done, name);
    var rest := all[i + 1..];
    forall j | 0 <= j < |rest| ensures Keys(rest)[j] != name {
      assert rest[j] == all[i + 1 + j];
    }
    var suffix := all[i..];
    assert suffix[1..] == rest;
    RemoveFirst(suffix, name);
    RemoveAppend(done, suffix, name);
  }
}
