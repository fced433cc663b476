/**
 * The report around each unit's results: a ruler at least 80 characters
 * wide and at least as wide as every option's directory written relative to
 * the working directory, and a five-line block per unit that wrote anything.
 */
module Report {
  import opened Php
  import opened OrderedMaps
  import opened Selection

  /** The narrowest ruler `getRulerLength` returns. */
  const MinimumRuler: nat := 80

  /** An option's directory with the working directory written as ".". */
  function RelativeDirname(k: Key, cwd: string): string
  {
    StrReplace(cwd, ".", Dirname(KeyText(k)))
  }

  /** The ruler length of `getRulerLength`: the running maximum, from 80, over the options in order. */
  function RulerLength(options: Options, cwd: string): nat
  {
    if options == [] then MinimumRuler
    else
      var prev := RulerLength(options[..|options| - 1], cwd);
      var width := |RelativeDirname(options[|options| - 1].0, cwd)|;
      if width > prev then width else prev
  }

  /** The ruler is at least as wide as the relative directory of the option at `i`. */
  lemma {:induction false} RulerLengthCoversAt(options: Options, cwd: string, i: nat)
    requires i < |options|
    ensures RulerLength(options, cwd) >= |RelativeDirname(options[i].0, cwd)|
  {
    var init := options[..|options| - 1];
    if i < |init| {
      RulerLengthCoversAt(init, cwd, i);
      assert init[i] == options[i];
    }
  }

  /** The ruler is at least 80 wide and at least as wide as every relative directory. */
  lemma {:induction false} RulerLengthCovers(options: Options, cwd: string)
    ensures RulerLength(options, cwd) >= MinimumRuler
    ensures forall i :: 0 <= i < |options| ==> RulerLength(options, cwd) >= |RelativeDirname(options[i].0, cwd)|
  {
    if options != [] {
      RulerLengthCovers(options[..|options| - 1], cwd);
    }
    forall i | 0 <= i < |options| ensures RulerLength(options, cwd) >= |RelativeDirname(options[i].0, cwd)| {
      RulerLengthCoversAt(options, cwd, i);
    }
  }

  /** The ruler is 80 wide or exactly as wide as one of the relative directories. */
  lemma {:induction false} RulerLengthAttained(options: Options, cwd: string)
    ensures RulerLength(options, cwd) == MinimumRuler ||
            exists i :: 0 <= i < |options| && RulerLength(options, cwd) == |RelativeDirname(options[i].0, cwd)|
  {
    if options != [] {
      var init := options[..|options| - 1];
      RulerLengthAttained(init, cwd);
      var n := RulerLength(options, cwd);
      if n != MinimumRuler && n == RulerLength(init, cwd) {
        var i :| 0 <= i < |init| && n == |RelativeDirname(init[i].0, cwd)|;
        assert init[i] == options[i];
      }
    }
  }

  /**
   * The ruler is at least 80 wide and at least as wide as every relative
   * directory, and it is 80 or the width of one of them.
   */
  lemma RulerLengthBounds(options: Options, cwd: string)
    ensures RulerLength(options, cwd) >= MinimumRuler
    ensures forall i :: 0 <= i < |options| ==> RulerLength(options, cwd) >= |RelativeDirname(options[i].0, cwd)|
    ensures RulerLength(options, cwd) == MinimumRuler ||
            exists i :: 0 <= i < |options| && RulerLength(options, cwd) == |RelativeDirname(options[i].0, cwd)|
  {
    RulerLengthCovers(options, cwd);
    RulerLengthAttained(options, cwd);
  }

  /** `getRulerLength`: walks the options keeping the widest relative directory seen so far. */
  method GetRulerLength(options: Options, cwd: string) returns (rulerLength: nat)
    ensures rulerLength == RulerLength(options, cwd)
  {
    rulerLength := MinimumRuler;
    for i := 0 to |options|
      invariant rulerLength == RulerLength(options[..i], cwd)
    {
      var dirname := Dirname(KeyText(options[i].0));
      var relative := StrReplace(cwd, ".", dirname);
      assert options[..i + 1][..i] == options[..i];
      rulerLength := if |relative| > rulerLength then |relative| else rulerLength;
    }
    assert options[..|options|] == options;
  }

  /** The ruler line: `rulerLength` equals signs inside the info style tags. */
  function Ruler(rulerLength: nat): (ruler: string)
    ensures |ruler| == rulerLength + 13
    ensures ruler[..6] == "<info>" && ruler[|ruler| - 7..] == "</info>"
    ensures forall i :: 6 <= i < 6 + rulerLength ==> ruler[i] == '='
  {
    "<info>" + Repeat('=', rulerLength) + "</info>"
  }

  /**
   * The title of a unit's report: its directory relative to the working
   * directory, or `../` and the directory's own name when that would be just ".".
   */
  function Title(path: string, cwd: string): string
  {
    var title := StrReplace(cwd, ".", path);
    if title != "." then title else "../" + Basename(path)
  }

  /** The working directory itself is titled by its own name, one level up. */
  lemma TitleOfWorkingDirectory(cwd: string)
    requires cwd != ""
    ensures Title(cwd, cwd) == "../" + Basename(cwd)
  {
    StrReplaceLeading(cwd, ".", "");
    assert cwd + "" == cwd;
  }

  /** A directory below the working directory is titled by its path from ".". */
  lemma TitleBelowWorkingDirectory(cwd: string, rest: string)
    requires cwd != "" && rest != ""
    requires forall i: nat :: !OccursAt(cwd, rest, i)
    ensures Title(cwd + rest, cwd) == "." + rest
  {
    StrReplaceLeading(cwd, ".", rest);
    StrReplaceAbsent(cwd, ".", rest);
    assert ("." + rest)[1..] == rest;
  }

  /** A directory in which the working directory does not occur keeps its path as title. */
  lemma TitleOutsideWorkingDirectory(path: string, cwd: string)
    requires path != "."
    requires forall i: nat :: !OccursAt(cwd, path, i)
    ensures Title(path, cwd) == path
  {
    StrReplaceAbsent(cwd, ".", path);
  }

  /** The ruler is at least as wide as the title of every listed unit that is not the working directory. */
  lemma RulerCoversTitle(options: Options, cwd: string, i: nat)
    requires i < |options| && options[i].0.PathKey?
    requires RelativeDirname(options[i].0, cwd) != "."
    ensures |Title(Dirname(options[i].0.path), cwd)| <= RulerLength(options, cwd)
  {
    RulerLengthBounds(options, cwd);
  }

  /**
   * What `outputCommandlines` writes for a unit: nothing when the captured
   * content is empty or "0", otherwise a blank line, the ruler, the title,
   * the ruler again and the content.
   */
  function ReportLines(content: string, path: string, cwd: string, rulerLength: nat): (lines: seq<string>)
    ensures !Truthy(content) <==> lines == []
    ensures lines != [] ==> |lines| == 5 && lines[1] == lines[3] && lines[4] == content
    ensures lines != [] ==> lines[0] == "" && lines[1] == Ruler(rulerLength) && lines[2] == Title(path, cwd)
  {
    if !Truthy(content) then []
    else ["", Ruler(rulerLength), Title(path, cwd), Ruler(rulerLength), content]
  }
}
