/**
 * The macro definition parser: `Const <name> As String = "<v>"` and
 * `Const <name> As Boolean = True|False` declarations of a definition file,
 * mapped through the fixed table of constant names into a configuration
 * record; and the listing and loading of the definition files.
 *
 * The scan of the file text is abstracted: a file is given as its text and
 * its candidate declarations in text order, each with its kind, the name as
 * written and the literal after `=` (the text between the quotes of a String
 * declaration, the word of a Boolean one).
 */
module MacroParser {
  import opened Wrappers
  import opened Strings

  /** The keys of the configuration record. */
  datatype ConfigKey =
    | XlSheet | AllXLFields | AllFields | InXLText | InXLFilter | InXLFilterValuesOld | InXLFilterValuesNew
    | InFields | InFieldsSeqTab | OutDVM | OutFile | OutReturnCode | OutBC | OutFields | OutDefault | OutLoop

  /** The table of recognised constant names; lookups are case-sensitive. */
  const Mapping: map<string, ConfigKey> := map[
    "gcsXLSheet" := XlSheet,
    "gcsAllXLFields" := AllXLFields,
    "gcsAllFields" := AllFields,
    "gcsInXLText" := InXLText,
    "gcsInXLFilter" := InXLFilter,
    "gcsInXLFilterValuesOld" := InXLFilterValuesOld,
    "gcsInXLFilterValuesNew" := InXLFilterValuesNew,
    "gcsInFields" := InFields,
    "gcsInFieldsSeqTab" := InFieldsSeqTab,
    "gcsOutDVM" := OutDVM,
    "gcsOutFile" := OutFile,
    "gcsOutReturnCode" := OutReturnCode,
    "gcsOutBC" := OutBC,
    "gcsOutFields" := OutFields,
    "gcsOutDefault" := OutDefault,
    "gcbOutLoop" := OutLoop]

  /** `mapVBAConstantToConfig`: the key of a constant name, or nothing. */
  function MapConstant(name: string): (r: Option<ConfigKey>)
    ensures r.Some? <==> name in Mapping
  {
    if name in Mapping then Some(Mapping[name]) else None
  }

  /**
   * The configuration a file yields: the string fields it sets, as a
   * dictionary from key to value, and the loop flag if it sets it.
   */
  datatype ParsedConfig = ParsedConfig(strings: map<ConfigKey, string>, outLoop: Option<bool>)

  const EmptyConfig := ParsedConfig(map[], None)

  datatype DeclKind = StringKind | BooleanKind

  /** A candidate declaration: its kind, the constant name as written and its literal. */
  datatype Decl = Decl(kind: DeclKind, name: string, literal: string)

  /** The String pattern needs at least one character between the quotes, none of them a quote. */
  predicate StringMatches(d: Decl)
  {
    d.kind == StringKind && |d.literal| > 0 && '"' !in d.literal
  }

  /** The Boolean pattern takes `True` or `False` in any letter case. */
  predicate BooleanMatches(d: Decl)
  {
    d.kind == BooleanKind && (ToLowerAscii(d.literal) == "true" || ToLowerAscii(d.literal) == "false")
  }

  /** What one matched String declaration does: set its key, unless the name is unknown or is the loop flag. */
  function ApplyString(config: ParsedConfig, d: Decl): ParsedConfig
  {
    var key := MapConstant(d.name);
    if StringMatches(d) && key.Some? && key.value != OutLoop then config.(strings := config.strings[key.value := d.literal])
    else config
  }

  /** What one matched Boolean declaration does: set the loop flag, true only for the exact literal `True`. */
  function ApplyBoolean(config: ParsedConfig, d: Decl): ParsedConfig
  {
    var key := MapConstant(d.name);
    if BooleanMatches(d) && key == Some(OutLoop) then config.(outLoop := Some(d.literal == "True"))
    else config
  }

  /** The String pass over the first `n` declarations. */
  function StringsApplied(config: ParsedConfig, decls: seq<Decl>, n: nat): ParsedConfig
    requires n <= |decls|
  {
    if n == 0 then config else ApplyString(StringsApplied(config, decls, n - 1), decls[n - 1])
  }

  /** The Boolean pass over the first `n` declarations. */
  function BooleansApplied(config: ParsedConfig, decls: seq<Decl>, n: nat): ParsedConfig
    requires n <= |decls|
  {
    if n == 0 then config else ApplyBoolean(BooleansApplied(config, decls, n - 1), decls[n - 1])
  }

  /** The configuration of a file: the String pass, then the Boolean pass. */
  function ParsedConfigOf(decls: seq<Decl>): ParsedConfig
  {
    BooleansApplied(StringsApplied(EmptyConfig, decls, |decls|), decls, |decls|)
  }

  /** The two scanning loops of `parseMacroFile`. */
  method ParseDeclarations(decls: seq<Decl>) returns (config: ParsedConfig)
    ensures config == ParsedConfigOf(decls)
  {
    config := EmptyConfig;
    var i := 0;
    while i < |decls|
      invariant i <= |decls|
      invariant config == StringsApplied(EmptyConfig, decls, i)
    {
      var d := decls[i];
      if StringMatches(d) {
        var configKey := MapConstant(d.name);
        if configKey.Some? && configKey.value != OutLoop {
          config := config.(strings := config.strings[configKey.value := d.literal]);
        }
      }
      i := i + 1;
    }
    ghost var afterStrings := config;
    i := 0;
    while i < |decls|
      invariant i <= |decls|
      invariant config == BooleansApplied(afterStrings, decls, i)
    {
      var d := decls[i];
      if BooleanMatches(d) {
        var configKey := MapConstant(d.name);
        if configKey == Some(OutLoop) {
          config := config.(outLoop := Some(d.literal == "True"));
        }
      }
      i := i + 1;
    }
  }

  // ================================================================ file names

  /** The last segment of a `/`-separated path. */
  function LastSegment(path: string): string
    decreases |path|
  {
    if |path| == 0 then ""
    else if path[|path| - 1] == '/' then ""
    else LastSegment(path[..|path| - 1]) + [path[|path| - 1]]
  }

  /** `path.basename(p, '.md')`: the last segment, without `.md` when it is longer than the extension. */
  function BaseName(path: string): string
  {
    var base := LastSegment(path);
    if |base| > 3 && EndsWith(base, ".md") then base[..|base| - 3] else base
  }

  /** A parsed definition file. */
  datatype ParsedMacro = ParsedMacro(name: string, config: ParsedConfig, code: string)

  /** `parseMacroFile`: the name from the path, the configuration from the declarations, and the text unchanged. */
  method ParseMacroFile(filePath: string, content: string, decls: seq<Decl>) returns (m: ParsedMacro)
    ensures m == ParsedMacro(BaseName(filePath), ParsedConfigOf(decls), content)
  {
    var config := ParseDeclarations(decls);
    m := ParsedMacro(BaseName(filePath), config, content);
  }

  /** The path `loadMacro` reads for a macro name. */
  function MacroPath(macroName: string): string
  {
    "src/lib/macros/" + macroName + ".md"
  }

  /** `loadMacro`: a file that cannot be read gives nothing. */
  method LoadMacro(macroName: string, file: Option<(string, seq<Decl>)>) returns (m: Option<ParsedMacro>)
    ensures file.None? ==> m == None
    ensures file.Some? ==> m == Some(ParsedMacro(BaseName(MacroPath(macroName)), ParsedConfigOf(file.value.1), file.value.0))
  {
    if file.None? {
      return None;
    }
    var parsed := ParseMacroFile(MacroPath(macroName), file.value.0, file.value.1);
    m := Some(parsed);
  }

  /**
   * `listMacros`: the `.md` entries other than `all.md`, extension removed,
   * in directory order; a directory that cannot be read gives no names.
   */
  function ListMacros(entries: Option<seq<string>>): seq<string>
  {
    match entries
    case None => []
    case Some(files) => MacroNames(files)
  }

  function MacroNames(files: seq<string>): (r: seq<string>)
    ensures |r| <= |files|
    decreases |files|
  {
    if |files| == 0 then []
    else
      var f := files[0];
      (if EndsWith(f, ".md") && f != "all.md" then [f[..|f| - 3]] else []) + MacroNames(files[1..])
  }

  // ================================================================ properties

  /** The last matched String declaration of a key among the first `n`, if any. */
  function LastString(decls: seq<Decl>, key: ConfigKey, n: nat): Option<string>
    requires n <= |decls|
  {
    if n == 0 then None
    else if StringMatches(decls[n - 1]) && MapConstant(decls[n - 1].name) == Some(key) then Some(decls[n - 1].literal)
    else LastString(decls, key, n - 1)
  }

  /** The last matched Boolean declaration of the loop flag among the first `n`: whether its literal is exactly `True`. */
  function LastBoolean(decls: seq<Decl>, n: nat): Option<bool>
    requires n <= |decls|
  {
    if n == 0 then None
    else if BooleanMatches(decls[n - 1]) && MapConstant(decls[n - 1].name) == Some(OutLoop) then Some(decls[n - 1].literal == "True")
    else LastBoolean(decls, n - 1)
  }

  lemma {:induction false} StringsAppliedSpec(decls: seq<Decl>, key: ConfigKey, n: nat)
    requires n <= |decls| && key != OutLoop
    ensures StringsApplied(EmptyConfig, decls, n).outLoop == None
    ensures OutLoop !in StringsApplied(EmptyConfig, decls, n).strings
    ensures LastString(decls, key, n).Some? ==>
              key in StringsApplied(EmptyConfig, decls, n).strings && StringsApplied(EmptyConfig, decls, n).strings[key] == LastString(decls, key, n).value
    ensures LastString(decls, key, n).None? ==> key !in StringsApplied(EmptyConfig, decls, n).strings
  {
    if n > 0 {
      StringsAppliedSpec(decls, key, n - 1);
    }
  }

  lemma {:induction false} BooleansAppliedSpec(config: ParsedConfig, decls: seq<Decl>, n: nat)
    requires n <= |decls|
    ensures BooleansApplied(config, decls, n).strings == config.strings
    ensures BooleansApplied(config, decls, n).outLoop == if LastBoolean(decls, n).Some? then LastBoolean(decls, n) else config.outLoop
  {
    if n > 0 {
      BooleansAppliedSpec(config, decls, n - 1);
    }
  }

  /**
   * When a name is declared several times the last matched declaration
   * wins; a key with no matched declaration (a String declaration with `""`,
   * say) stays absent; the loop flag is never a string field.
   */
  lemma {:induction false} LastDeclarationWins(decls: seq<Decl>, key: ConfigKey)
    requires key != OutLoop
    ensures var c := ParsedConfigOf(decls);
            OutLoop !in c.strings
            && (LastString(decls, key, |decls|).Some? ==> key in c.strings && c.strings[key] == LastString(decls, key, |decls|).value)
            && (LastString(decls, key, |decls|).None? ==> key !in c.strings)
  {
    StringsAppliedSpec(decls, key, |decls|);
    BooleansAppliedSpec(StringsApplied(EmptyConfig, decls, |decls|), decls, |decls|);
  }

  /** The loop flag comes from the last matched Boolean declaration of `gcbOutLoop` only, and is true only for `True`. */
  lemma {:induction false} OutLoopFromBooleans(decls: seq<Decl>)
    ensures ParsedConfigOf(decls).outLoop == LastBoolean(decls, |decls|)
  {
    StringsAppliedSpec(decls, XlSheet, |decls|);
    BooleansAppliedSpec(StringsApplied(EmptyConfig, decls, |decls|), decls, |decls|);
  }

  /** Only `gcbOutLoop` names the loop flag; lookups are case-sensitive. */
  lemma {:induction false} MappingFacts()
    ensures forall n :: MapConstant(n) == Some(OutLoop) <==> n == "gcbOutLoop"
    ensures MapConstant("gcsXLSheet") == Some(XlSheet) && MapConstant("gcsxlsheet") == None && MapConstant("GCSXLSHEET") == None
  {
    assert "gcsxlsheet" != "gcsXLSheet" by { assert "gcsxlsheet"[3] != "gcsXLSheet"[3]; }
    forall n | MapConstant(n) == Some(OutLoop)
      ensures n == "gcbOutLoop"
    {
    }
  }

  /** The name of a loaded macro is the name it was loaded by. */
  lemma {:induction false} LoadedName(macroName: string)
    requires macroName != "" && '/' !in macroName
    ensures BaseName(MacroPath(macroName)) == macroName
  {
    var file := macroName + ".md";
    assert MacroPath(macroName) == "src/lib/macros" + "/" + file by {
      ConcatAssocStr("src/lib/macros/", macroName, ".md");
    }
    LastSegmentAfter("src/lib/macros", file);
    assert file[..|file| - 3] == macroName;
  }

  lemma {:induction false} ConcatAssocStr(a: string, b: string, c: string)
    ensures a + b + c == a + (b + c)
  {
  }

  /** The last segment of `dir/file` is `file` when `file` holds no `/`. */
  lemma {:induction false} LastSegmentAfter(dir: string, file: string)
    requires '/' !in file
    ensures LastSegment(dir + "/" + file) == file
    decreases |file|
  {
    var p := dir + "/" + file;
    if |file| == 0 {
      assert p[|p| - 1] == '/';
    } else {
      var q := dir + "/" + file[..|file| - 1];
      assert p[..|p| - 1] == q;
      assert '/' !in file[..|file| - 1] by {
        assert forall c :: c in file[..|file| - 1] ==> c in file;
      }
      LastSegmentAfter(dir, file[..|file| - 1]);
      assert file == file[..|file| - 1] + [file[|file| - 1]];
    }
  }

  /** A listed name comes from an `.md` entry other than `all.md`, and every such entry is listed. */
  lemma {:induction false} MacroNamesMembers(files: seq<string>)
    ensures forall n :: n in MacroNames(files) ==> n + ".md" in files && n + ".md" != "all.md"
    ensures forall f :: f in files && EndsWith(f, ".md") && f != "all.md" ==> f[..|f| - 3] in MacroNames(files)
    decreases |files|
  {
    if |files| > 0 {
      MacroNamesMembers(files[1..]);
      var f := files[0];
      if EndsWith(f, ".md") && f != "all.md" {
        assert f[..|f| - 3] + ".md" == f;
      }
      assert forall g :: g in files[1..] ==> g in files;
      assert forall g :: g in files ==> g == f || g in files[1..];
    }
  }
}
