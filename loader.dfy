/**
 * The config assembler: resolves the roots once, reads the tied-king flag from
 * "tieJiang.pfConfig" and the iron-square grid from "tieZi.pfConfig" (each from
 * the first root where it opens), and summarises which files were used.
 */
module Loader {

  import opened Board
  import opened Locator
  import opened FlagScan
  import opened IronMask

  const TieJiangFile: string := "tieJiang.pfConfig"
  const TieZiFile: string := "tieZi.pfConfig"
  const SummarySeparator: string := " | "

  /** The loaded variant configuration. */
  datatype PFVariantConfig = PFVariantConfig(kingTied: bool, ironSquares: Bitboard, sourceSummary: string)

  /** A value-initialised configuration: flag false, no iron squares, empty summary. */
  const DefaultConfig: PFVariantConfig := PFVariantConfig(false, {}, "")

  /**
   * The summary of two file paths, the flag file's first: both joined by " | "
   * when both are present, otherwise whichever one is present, or empty.
   */
  function JoinSummaries(first: string, second: string): (joined: string)
    ensures joined == "" <==> first == "" && second == ""
    ensures first == "" ==> joined == second
    ensures second == "" ==> joined == first
    ensures first != "" && second != "" ==> joined == first + SummarySeparator + second
  {
    if first != "" && second != "" then first + SummarySeparator + second else first + second
  }

  /** The configuration a load produces, given the current directory and the readable files. */
  function Load(rootDirectory: string, currentPath: string, fs: FileSystem<string>): (config: PFVariantConfig)
  {
    var roots := ConfigRoots(rootDirectory, currentPath);
    var flagFile := Locate(roots, TieJiangFile, fs);
    var gridFile := Locate(roots, TieZiFile, fs);
    PFVariantConfig(
      if flagFile.Some? then KingTiedAfter(flagFile.value.content, DefaultConfig.kingTied) else DefaultConfig.kingTied,
      if gridFile.Some? then GridMask(SplitLines(gridFile.value.content)) else DefaultConfig.ironSquares,
      JoinSummaries(PathOrEmpty(flagFile), PathOrEmpty(gridFile)))
  }

  /**
   * Starts from the default configuration, looks up the flag file and scans it,
   * looks up the grid file and parses it, then appends the grid file's path to
   * the summary, with " | " in between when both paths are there.
   */
  method LoadPfConfig(rootDirectory: string, currentPath: string, fs: FileSystem<string>)
    returns (config: PFVariantConfig)
    ensures config == Load(rootDirectory, currentPath, fs)
  {
    config := DefaultConfig;
    var roots := ConfigRoots(rootDirectory, currentPath);

    var flagFound, flagSummary, flagStream := TryParseConfig(roots, TieJiangFile, fs, config.sourceSummary);
    config := config.(sourceSummary := flagSummary);
    if flagStream.Some? {
      var tied, _ := ScanKingTied(flagStream.value, config.kingTied);
      config := config.(kingTied := tied);
    }

    var tieZiSummary := "";
    var gridFound, gridSummary, gridStream := TryParseConfig(roots, TieZiFile, fs, tieZiSummary);
    tieZiSummary := gridSummary;
    if gridStream.Some? {
      var mask := ParseIronMask(SplitLines(gridStream.value));
      config := config.(ironSquares := mask);
    }

    if config.sourceSummary != "" && tieZiSummary != "" {
      config := config.(sourceSummary := config.sourceSummary + SummarySeparator);
    }
    config := config.(sourceSummary := config.sourceSummary + tieZiSummary);
  }

  /** A path a lookup records is never empty, so an empty summary part means "file not found". */
  lemma PathOrEmptyIsEmpty<C>(roots: seq<string>, name: string, fs: FileSystem<C>)
    requires name != ""
    ensures PathOrEmpty(Locate(roots, name, fs)) == "" <==> Locate(roots, name, fs).None?
  {
    var found := Locate(roots, name, fs);
    if found.Some? {
      LocateFound(roots, name, fs);
      var i :| 0 <= i < |roots| && JoinPath(roots[i], name) in fs && found.value.path == JoinPath(roots[i], name);
      assert |found.value.path| >= |name|;
    }
  }

  /** Neither file found in the root: the result is the default configuration. */
  lemma LoadNothingFound(rootDirectory: string, currentPath: string, fs: FileSystem<string>)
    requires JoinPath(ConfigRoots(rootDirectory, currentPath)[0], TieJiangFile) !in fs
    requires JoinPath(ConfigRoots(rootDirectory, currentPath)[0], TieZiFile) !in fs
    ensures Load(rootDirectory, currentPath, fs) == DefaultConfig
  {
    var roots := ConfigRoots(rootDirectory, currentPath);
    LocateNone(roots, TieJiangFile, fs);
    LocateNone(roots, TieZiFile, fs);
  }

  /**
   * The summary is empty exactly when neither file was found; with both found it
   * is the flag file's path, " | ", then the grid file's path; with one found it
   * is that file's path.
   */
  lemma LoadSummary(rootDirectory: string, currentPath: string, fs: FileSystem<string>)
    ensures var roots := ConfigRoots(rootDirectory, currentPath);
            var flagFile := Locate(roots, TieJiangFile, fs);
            var gridFile := Locate(roots, TieZiFile, fs);
            var summary := Load(rootDirectory, currentPath, fs).sourceSummary;
            && (summary == "" <==> flagFile.None? && gridFile.None?)
            && (flagFile.Some? && gridFile.Some? ==> summary == flagFile.value.path + " | " + gridFile.value.path)
            && (flagFile.Some? && gridFile.None? ==> summary == flagFile.value.path)
            && (flagFile.None? && gridFile.Some? ==> summary == gridFile.value.path)
  {
    var roots := ConfigRoots(rootDirectory, currentPath);
    PathOrEmptyIsEmpty(roots, TieJiangFile, fs);
    PathOrEmptyIsEmpty(roots, TieZiFile, fs);
  }

  /** A missing flag file leaves the king untied. */
  lemma LoadFlagFileMissing(rootDirectory: string, currentPath: string, fs: FileSystem<string>)
    requires JoinPath(ConfigRoots(rootDirectory, currentPath)[0], TieJiangFile) !in fs
    ensures !Load(rootDirectory, currentPath, fs).kingTied
  {
    LocateNone(ConfigRoots(rootDirectory, currentPath), TieJiangFile, fs);
  }

  /** The flag comes from the first '0' or '1' of the flag file found in the root, defaulting to false. */
  lemma LoadFlagFile(rootDirectory: string, currentPath: string, fs: FileSystem<string>)
    requires JoinPath(ConfigRoots(rootDirectory, currentPath)[0], TieJiangFile) in fs
    ensures var text := fs[JoinPath(ConfigRoots(rootDirectory, currentPath)[0], TieJiangFile)];
            Load(rootDirectory, currentPath, fs).kingTied <==>
              exists i :: 0 <= i < |text| && text[i] == '1' && forall j :: 0 <= j < i ==> !IsDecisionDigit(text[j])
  {
    var roots := ConfigRoots(rootDirectory, currentPath);
    LocateFirstWins(roots, TieJiangFile, fs, 0);
    KingTiedCharacterisation(fs[JoinPath(roots[0], TieJiangFile)], false);
  }

  /**
   * The iron squares are exactly the squares the grid file found in the root
   * marks, or none when there is no grid file.
   */
  lemma LoadIronSquares(rootDirectory: string, currentPath: string, fs: FileSystem<string>, sq: Square)
    ensures var path := JoinPath(ConfigRoots(rootDirectory, currentPath)[0], TieZiFile);
            sq in Load(rootDirectory, currentPath, fs).ironSquares <==>
              path in fs && Marked(SplitLines(fs[path]), sq)
  {
    var roots := ConfigRoots(rootDirectory, currentPath);
    var path := JoinPath(roots[0], TieZiFile);
    if path in fs {
      LocateFirstWins(roots, TieZiFile, fs, 0);
      GridMaskMembers(SplitLines(fs[path]), sq);
    } else {
      LocateNone(roots, TieZiFile, fs);
    }
  }

  /** Both files, each holding "1", in the root directory "cfg": the king is tied and A9 is iron. */
  lemma LoadExampleValues()
    ensures var config := Load("cfg", "/home", map["cfg/tieJiang.pfConfig" := "1", "cfg/tieZi.pfConfig" := "1"]);
            config.kingTied && config.ironSquares == {MakeSquare(FileA, Rank9)}
  {
    var flagPath, gridPath := "cfg/tieJiang.pfConfig", "cfg/tieZi.pfConfig";
    var fs := map[flagPath := "1", gridPath := "1"];
    var roots := ConfigRoots("cfg", "/home");
    assert JoinPath("cfg", TieJiangFile) == flagPath;
    assert JoinPath("cfg", TieZiFile) == gridPath;
    LocateFirstWins(roots, TieJiangFile, fs, 0);
    LocateFirstWins(roots, TieZiFile, fs, 0);
    SingleCharacterStreams(false);
    assert SplitLines("1") == ["1"];
    ShortLineGrid();
  }

  /** The same two files: the summary names the flag file, then the grid file. */
  lemma LoadExampleSummary()
    ensures Load("cfg", "/home", map["cfg/tieJiang.pfConfig" := "1", "cfg/tieZi.pfConfig" := "1"]).sourceSummary
            == "cfg/tieJiang.pfConfig" + " | " + "cfg/tieZi.pfConfig"
  {
    var flagPath, gridPath := "cfg/tieJiang.pfConfig", "cfg/tieZi.pfConfig";
    var fs := map[flagPath := "1", gridPath := "1"];
    var roots := ConfigRoots("cfg", "/home");
    assert JoinPath("cfg", TieJiangFile) == flagPath;
    assert JoinPath("cfg", TieZiFile) == gridPath;
    assert Load("cfg", "/home", fs).sourceSummary == JoinSummaries(flagPath, gridPath) by {
      LocateFirstWins(roots, TieJiangFile, fs, 0);
      LocateFirstWins(roots, TieZiFile, fs, 0);
    }
  }
}
