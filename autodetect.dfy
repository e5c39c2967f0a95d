/**
 * `autoDetectAndExecuteMacros`: every listed macro whose definition names a
 * worksheet present in the uploaded workbook is executed on it; the others
 * are skipped with a reason. The results of the executed macros are
 * concatenated in listing order.
 *
 * Reading the workbook, listing and loading the definition files are I/O:
 * the workbook and its sheet names, the listed names and the loading of each
 * name are parameters.
 */
module AutoDetect {
  import opened Wrappers
  import opened Seqs
  import opened Sheets
  import opened Helpers
  import opened Executor
  import opened MacroParser

  datatype AutoDetectResult = AutoDetectResult(allResults: seq<MacroResult>, executedMacros: seq<string>, skippedMacros: seq<string>)

  /** `value || fallback`: an absent or empty setting takes the fallback. */
  function OrDefault(config: ParsedConfig, key: ConfigKey, fallback: string): (r: string)
    ensures key in config.strings && config.strings[key] != "" ==> r == config.strings[key]
    ensures !(key in config.strings && config.strings[key] != "") ==> r == fallback
  {
    if key in config.strings && config.strings[key] != "" then config.strings[key] else fallback
  }

  const DefaultReturnCode := "1000"

  /** The settings a parsed definition gives, every absent one defaulted. */
  function ToMacroConfig(config: ParsedConfig): MacroConfig
  {
    MacroConfig(
      OrDefault(config, XlSheet, ""), OrDefault(config, AllXLFields, ""), OrDefault(config, AllFields, ""),
      OrDefault(config, InXLText, ""), OrDefault(config, InXLFilter, ""),
      OrDefault(config, InXLFilterValuesOld, ""), OrDefault(config, InXLFilterValuesNew, ""),
      OrDefault(config, InFields, ""), OrDefault(config, InFieldsSeqTab, ""),
      OrDefault(config, OutDVM, ""), OrDefault(config, OutFile, ""), OrDefault(config, OutReturnCode, DefaultReturnCode),
      OrDefault(config, OutBC, ""), OrDefault(config, OutFields, ""), OrDefault(config, OutDefault, ""),
      config.outLoop == Some(true))
  }

  /** What happens to one listed macro. */
  datatype Outcome = Executed(config: MacroConfig) | Skipped(reason: string)

  function NoSheetReason(macroName: string): string
  {
    macroName + " (no xlSheet config)"
  }

  function MissingSheetReason(macroName: string, sheet: string): string
  {
    macroName + " (sheet \"" + sheet + "\" not found)"
  }

  /**
   * A macro that did not load or names no worksheet is skipped; so is one
   * whose worksheet is not among the workbook's sheet names (an exact match);
   * the others are executed with their defaulted settings.
   */
  function OutcomeOf(sheetNames: seq<string>, macroName: string, macro: Option<ParsedMacro>): Outcome
  {
    if macro.None? || XlSheet !in macro.value.config.strings || macro.value.config.strings[XlSheet] == "" then
      Skipped(NoSheetReason(macroName))
    else if macro.value.config.strings[XlSheet] !in sheetNames then
      Skipped(MissingSheetReason(macroName, macro.value.config.strings[XlSheet]))
    else
      Executed(ToMacroConfig(macro.value.config))
  }

  /** The settings a name is executed with (the defaults of an empty definition when it is skipped). */
  function ConfigOf(sheetNames: seq<string>, load: string -> Option<ParsedMacro>, macroName: string): MacroConfig
  {
    match OutcomeOf(sheetNames, macroName, load(macroName))
    case Executed(config) => config
    case Skipped(_) => ToMacroConfig(EmptyConfig)
  }

  /** The results one name contributes: its execution's, or none when skipped. */
  function ResultsOf(wb: Workbook, release: string, sheetNames: seq<string>, load: string -> Option<ParsedMacro>): string -> seq<MacroResult>
  {
    macroName =>
      if OutcomeOf(sheetNames, macroName, load(macroName)).Executed? then Execution(wb, ConfigOf(sheetNames, load, macroName), release)
      else []
  }

  /** The results a name would contribute when executed. */
  function ExecutionOf(wb: Workbook, release: string, sheetNames: seq<string>, load: string -> Option<ParsedMacro>): string -> seq<MacroResult>
  {
    macroName => Execution(wb, ConfigOf(sheetNames, load, macroName), release)
  }

  /** The name itself, when it is executed. */
  function ExecutedOf(sheetNames: seq<string>, load: string -> Option<ParsedMacro>): string -> seq<string>
  {
    macroName => if OutcomeOf(sheetNames, macroName, load(macroName)).Executed? then [macroName] else []
  }

  /** The reason, when the name is skipped. */
  function SkippedOf(sheetNames: seq<string>, load: string -> Option<ParsedMacro>): string -> seq<string>
  {
    macroName =>
      match OutcomeOf(sheetNames, macroName, load(macroName))
      case Executed(_) => []
      case Skipped(reason) => [reason]
  }

  /** The result of `autoDetectAndExecuteMacros` for the listed names. */
  function AutoDetection(wb: Workbook, release: string, sheetNames: seq<string>, load: string -> Option<ParsedMacro>, macroNames: seq<string>): AutoDetectResult
  {
    AutoDetectResult(
      FlatMapUpTo(ResultsOf(wb, release, sheetNames, load), macroNames, |macroNames|),
      FlatMapUpTo(ExecutedOf(sheetNames, load), macroNames, |macroNames|),
      FlatMapUpTo(SkippedOf(sheetNames, load), macroNames, |macroNames|))
  }

  /** The defaulted settings of one loaded definition. */
  method MacroConfigOf(config: ParsedConfig) returns (c: MacroConfig)
    ensures c == ToMacroConfig(config)
  {
    c := MacroConfig(
      OrDefault(config, XlSheet, ""), OrDefault(config, AllXLFields, ""), OrDefault(config, AllFields, ""),
      OrDefault(config, InXLText, ""), OrDefault(config, InXLFilter, ""),
      OrDefault(config, InXLFilterValuesOld, ""), OrDefault(config, InXLFilterValuesNew, ""),
      OrDefault(config, InFields, ""), OrDefault(config, InFieldsSeqTab, ""),
      OrDefault(config, OutDVM, ""), OrDefault(config, OutFile, ""), OrDefault(config, OutReturnCode, DefaultReturnCode),
      OrDefault(config, OutBC, ""), OrDefault(config, OutFields, ""), OrDefault(config, OutDefault, ""),
      config.outLoop == Some(true));
  }

  /** One turn of the loop of `autoDetectAndExecuteMacros`: what one listed name contributes. */
  method VisitMacro(wb: Workbook, release: string, sheetNames: seq<string>, macroName: string, macro: Option<ParsedMacro>)
    returns (results: seq<MacroResult>, executed: seq<string>, skipped: seq<string>)
    ensures var outcome := OutcomeOf(sheetNames, macroName, macro);
            && (outcome.Skipped? ==> results == [] && executed == [] && skipped == [outcome.reason])
            && (outcome.Executed? ==> results == Execution(wb, outcome.config, release) && executed == [macroName] && skipped == [])
  {
    if macro.None? || XlSheet !in macro.value.config.strings || macro.value.config.strings[XlSheet] == "" {
      return [], [], [NoSheetReason(macroName)];
    }
    var targetSheet := macro.value.config.strings[XlSheet];
    if targetSheet !in sheetNames {
      return [], [], [MissingSheetReason(macroName, targetSheet)];
    }
    var config := MacroConfigOf(macro.value.config);
    results := ExecuteMacro(wb, config, release);
    executed, skipped := [macroName], [];
  }

  /** `autoDetectAndExecuteMacros`; the environment and the story number it passes on are not used. */
  method AutoDetectAndExecute(wb: Workbook, release: string, sheetNames: seq<string>, load: string -> Option<ParsedMacro>, macroNames: seq<string>)
    returns (r: AutoDetectResult)
    ensures r == AutoDetection(wb, release, sheetNames, load, macroNames)
  {
    var allResults: seq<MacroResult> := [];
    var executedMacros: seq<string> := [];
    var skippedMacros: seq<string> := [];
    for i := 0 to |macroNames|
      invariant allResults == FlatMapUpTo(ResultsOf(wb, release, sheetNames, load), macroNames, i)
      invariant executedMacros == FlatMapUpTo(ExecutedOf(sheetNames, load), macroNames, i)
      invariant skippedMacros == FlatMapUpTo(SkippedOf(sheetNames, load), macroNames, i)
    {
      var macroName := macroNames[i];
      var results, executed, skipped := VisitMacro(wb, release, sheetNames, macroName, load(macroName));
      allResults := allResults + results;
      executedMacros := executedMacros + executed;
      skippedMacros := skippedMacros + skipped;
    }
    r := AutoDetectResult(allResults, executedMacros, skippedMacros);
  }

  // ================================================================ properties

  /** Every listed name is either executed or skipped, never both, and in listing order. */
  lemma {:induction false} ExecutedOrSkipped(wb: Workbook, release: string, sheetNames: seq<string>, load: string -> Option<ParsedMacro>, macroNames: seq<string>)
    ensures var r := AutoDetection(wb, release, sheetNames, load, macroNames);
            |r.executedMacros| + |r.skippedMacros| == |macroNames|
            && forall name: string :: name in r.executedMacros <==>
                 name in macroNames && OutcomeOf(sheetNames, name, load(name)).Executed?
  {
    var exec := ExecutedOf(sheetNames, load);
    FlatMapSplitLengths(exec, SkippedOf(sheetNames, load), macroNames, |macroNames|);
    forall name: string
      ensures name in FlatMapUpTo(exec, macroNames, |macroNames|) <==>
              name in macroNames && OutcomeOf(sheetNames, name, load(name)).Executed?
    {
      FlatMapMembers(exec, macroNames, |macroNames|, name);
      if name in macroNames && OutcomeOf(sheetNames, name, load(name)).Executed? {
        var k :| 0 <= k < |macroNames| && macroNames[k] == name;
        assert name in exec(macroNames[k]);
      }
    }
  }

  /**
   * The results are those of the executed macros, concatenated in the order
   * they were executed: a skipped macro contributes nothing.
   */
  lemma {:induction false} ResultsOfExecuted(wb: Workbook, release: string, sheetNames: seq<string>, load: string -> Option<ParsedMacro>, macroNames: seq<string>)
    ensures var r := AutoDetection(wb, release, sheetNames, load, macroNames);
            r.allResults == FlatMapUpTo(ExecutionOf(wb, release, sheetNames, load), r.executedMacros, |r.executedMacros|)
  {
    var results, execution, executed := ResultsOf(wb, release, sheetNames, load), ExecutionOf(wb, release, sheetNames, load), ExecutedOf(sheetNames, load);
    forall name
      ensures KeptImage(results, execution, executed, name)
    {
    }
    FlatMapKept(results, execution, executed, macroNames, |macroNames|);
  }

  /**
   * When the sheet names are the workbook's worksheets, every executed macro
   * finds its worksheet, so every result is a success.
   */
  lemma {:induction false} AllResultsSucceed(wb: Workbook, release: string, sheetNames: seq<string>, load: string -> Option<ParsedMacro>, macroNames: seq<string>)
    requires forall name :: name in sheetNames <==> name in wb
    ensures forall res: MacroResult :: res in AutoDetection(wb, release, sheetNames, load, macroNames).allResults ==> res.success && res.error == None
  {
    var results := ResultsOf(wb, release, sheetNames, load);
    forall res: MacroResult | res in FlatMapUpTo(results, macroNames, |macroNames|)
      ensures res.success && res.error == None
    {
      FlatMapMembers(results, macroNames, |macroNames|, res);
      var k :| 0 <= k < |macroNames| && res in results(macroNames[k]);
      ExecutedSucceeds(wb, release, sheetNames, load, macroNames[k], res);
    }
  }

  lemma {:induction false} ExecutedSucceeds(wb: Workbook, release: string, sheetNames: seq<string>, load: string -> Option<ParsedMacro>, name: string, res: MacroResult)
    requires forall n :: n in sheetNames <==> n in wb
    requires res in ResultsOf(wb, release, sheetNames, load)(name)
    ensures res.success && res.error == None
  {
    var config := ConfigOf(sheetNames, load, name);
    assert config.xlSheet in wb by {
      assert config.xlSheet in sheetNames;
    }
    var passes := SequencePasses(SeqFromTab(wb, config.inFieldsSeqTab));
    PartitionResults(config, ContextOf(wb, config), passes, FilterValuesFor(config, release), FilterValueArray(config, release));
  }

  /** An empty definition gets empty settings, return code `1000` and no loop. */
  lemma {:induction false} ConfigDefaults()
    ensures ToMacroConfig(EmptyConfig) == MacroConfig("", "", "", "", "", "", "", "", "", "", "", "1000", "", "", "", false)
  {
  }
}
