/**
  The format-dispatch factory of the glycan structure editor: it maps a format
  identifier (a string or an enum value) to the kind of parser that handles it,
  and builds the identifier-to-description catalogues shown in the import and
  export menus.

  The concrete parsers are represented only by a tag. The molecular-framework
  library the factory consults first is an input: its format predicate is the
  set `mf` of the strings it accepts, and its three catalogues are input maps.
 */
module GlycanParserFactory {
  import opened CaseFold

  /** The parser a call selects; `MolecularFrameworkParser` keeps the exact string it was given. */
  datatype ParserKind =
    | MolecularFrameworkParser(format: string)
    | GWSParser
    | LinucsParser
    | GlycoMindsParser
    | GlycoCTParser(flag: bool)
    | WURCSParser
    | WURCS2Parser
    | WURCS2ParserViaCT

  /** A selected parser, or the message of the exception the factory throws. */
  datatype Result<T> = Ok(value: T) | Err(message: string)

  /** The message of the exception thrown for an identifier nobody handles. */
  function UnsupportedMessage(format: string): string
  {
    "Unsupported format-" + format + "-"
  }

  // ---------------------------------------------------------------------------
  // getParser(String)
  // ---------------------------------------------------------------------------

  /**
    `getParser(format)`: molecular-framework formats first, then a fixed chain
    of case-insensitive comparisons, then the exception.
   */
  function GetParser(mf: iset<string>, format: string): Result<ParserKind>
  {
    if format in mf then Ok(MolecularFrameworkParser(format))
    else if CompareToIgnoreCase(format, "gws") == 0 then Ok(GWSParser)
    else if CompareToIgnoreCase(format, "gwlinucs") == 0 then Ok(LinucsParser)
    else if CompareToIgnoreCase(format, "glycominds") == 0 then Ok(GlycoMindsParser)
    else if CompareToIgnoreCase(format, "glycoct") == 0 then Ok(GlycoCTParser(false))
    else if CompareToIgnoreCase(format, "glycoct_condensed") == 0 then Ok(GlycoCTParser(false))
    else if CompareToIgnoreCase(format, "wurcs1") == 0 then Ok(WURCSParser)
    else if CompareToIgnoreCase(format, "wurcs2") == 0 then Ok(WURCS2Parser)
    else if CompareToIgnoreCase(format, "wurcs2 via GlycoCT") == 0 then Ok(WURCS2ParserViaCT)
    else Err(UnsupportedMessage(format))
  }

  /**
    The identifiers the comparison chain recognises, keyed by their lower-case
    form: a lookup table that states the same dispatch without an order.
   */
  const DispatchTable: map<string, ParserKind> :=
    map[
      "gws" := GWSParser,
      "gwlinucs" := LinucsParser,
      "glycominds" := GlycoMindsParser,
      "glycoct" := GlycoCTParser(false),
      "glycoct_condensed" := GlycoCTParser(false),
      "wurcs1" := WURCSParser,
      "wurcs2" := WURCS2Parser,
      "wurcs2 via glycoct" := WURCS2ParserViaCT
    ]

  /** Dispatch as a table lookup on the lower-case form of the identifier. */
  function TableDispatch(mf: iset<string>, format: string): Result<ParserKind>
  {
    if format in mf then Ok(MolecularFrameworkParser(format))
    else if FoldCase(format) in DispatchTable then Ok(DispatchTable[FoldCase(format)])
    else Err(UnsupportedMessage(format))
  }

  /** The folded forms of the eight identifiers of the chain. */
  lemma FoldCaseOfIdentifiers()
    ensures FoldCase("gws") == "gws"
    ensures FoldCase("gwlinucs") == "gwlinucs"
    ensures FoldCase("glycominds") == "glycominds"
    ensures FoldCase("glycoct") == "glycoct"
    ensures FoldCase("glycoct_condensed") == "glycoct_condensed"
    ensures FoldCase("wurcs1") == "wurcs1"
    ensures FoldCase("wurcs2") == "wurcs2"
    ensures FoldCase("wurcs2 via GlycoCT") == "wurcs2 via glycoct"
  {
    FoldCaseIs("gws", "gws");
    FoldCaseIs("gwlinucs", "gwlinucs");
    FoldCaseIs("glycominds", "glycominds");
    FoldCaseIs("glycoct", "glycoct");
    FoldCaseIs("glycoct_condensed", "glycoct_condensed");
    FoldCaseIs("wurcs1", "wurcs1");
    FoldCaseIs("wurcs2", "wurcs2");
    FoldCaseIs("wurcs2 via GlycoCT", "wurcs2 via glycoct");
  }

  /** The comparison chain and the table select the same parser, or fail with the same message. */
  lemma GetParserMatchesTable(mf: iset<string>, format: string)
    ensures GetParser(mf, format) == TableDispatch(mf, format)
  {
    FoldCaseOfIdentifiers();
    CompareToIgnoreCaseZeroIff(format, "gws");
    CompareToIgnoreCaseZeroIff(format, "gwlinucs");
    CompareToIgnoreCaseZeroIff(format, "glycominds");
    CompareToIgnoreCaseZeroIff(format, "glycoct");
    CompareToIgnoreCaseZeroIff(format, "glycoct_condensed");
    CompareToIgnoreCaseZeroIff(format, "wurcs1");
    CompareToIgnoreCaseZeroIff(format, "wurcs2");
    CompareToIgnoreCaseZeroIff(format, "wurcs2 via GlycoCT");
  }

  /** A molecular-framework format always wins, whatever the later branches would match. */
  lemma MolecularFrameworkWins(mf: iset<string>, format: string)
    requires format in mf
    ensures GetParser(mf, format) == Ok(MolecularFrameworkParser(format))
    ensures GetParser(mf, format).value.format == format
  {
  }

  /** Outside the molecular-framework formats, identifiers that differ only in case select the same parser. */
  lemma CaseInsensitive(mf: iset<string>, a: string, b: string)
    requires a !in mf && b !in mf
    requires FoldCase(a) == FoldCase(b)
    ensures GetParser(mf, a).Ok? <==> GetParser(mf, b).Ok?
    ensures GetParser(mf, a).Ok? ==> GetParser(mf, a) == GetParser(mf, b)
  {
    GetParserMatchesTable(mf, a);
    GetParserMatchesTable(mf, b);
  }

  /** An identifier whose folded form is a key of the table selects that key's parser. */
  lemma DispatchByKey(mf: iset<string>, format: string, key: string)
    requires format !in mf && key in DispatchTable
    requires |format| == |key|
    requires forall i :: 0 <= i < |format| ==> Fold(format[i]) == key[i]
    ensures GetParser(mf, format) == Ok(DispatchTable[key])
  {
    FoldCaseIs(format, key);
    GetParserMatchesTable(mf, format);
  }

  /** "WURCS2", "wurcs2" and "Wurcs2" all select the WURCS2 parser. */
  lemma Wurcs2InAnyCase(mf: iset<string>, format: string)
    requires format in {"WURCS2", "wurcs2", "Wurcs2"} && format !in mf
    ensures GetParser(mf, format) == Ok(WURCS2Parser)
  {
    DispatchByKey(mf, format, "wurcs2");
  }

  /** "GWS" and "gws" both select the GWS parser. */
  lemma GwsInAnyCase(mf: iset<string>, format: string)
    requires format in {"GWS", "gws"} && format !in mf
    ensures GetParser(mf, format) == Ok(GWSParser)
  {
    DispatchByKey(mf, format, "gws");
  }

  /** A long s (U+017F) upper-cases to 'S', so "gw" followed by it selects the GWS parser. */
  lemma LongSFoldsOntoGws(mf: iset<string>)
    requires "gw\U{017F}" !in mf
    ensures GetParser(mf, "gw\U{017F}") == Ok(GWSParser)
  {
    DispatchByKey(mf, "gw\U{017F}", "gws");
  }

  /** A capital I with dot (U+0130) lower-cases to 'i', so "GWL", it, "NUCS" selects the Linucs parser. */
  lemma DottedIFoldsOntoGwlinucs(mf: iset<string>)
    requires "GWL\U{0130}NUCS" !in mf
    ensures GetParser(mf, "GWL\U{0130}NUCS") == Ok(LinucsParser)
  {
    DispatchByKey(mf, "GWL\U{0130}NUCS", "gwlinucs");
  }

  /** "glycoct" and "glycoct_condensed", in any case, select the same GlycoCT parser. */
  lemma GlycoCTAliases(mf: iset<string>, format: string)
    requires format !in mf
    requires FoldCase(format) == "glycoct" || FoldCase(format) == "glycoct_condensed"
    ensures GetParser(mf, format) == Ok(GlycoCTParser(false))
  {
    GetParserMatchesTable(mf, format);
  }

  /**
    An identifier that is neither a molecular-framework format nor equal, ignoring
    case, to one of the eight identifiers fails with exactly this message; and
    failure happens only then.
   */
  lemma UnsupportedFormat(mf: iset<string>, format: string)
    ensures GetParser(mf, format).Err? <==> format !in mf && FoldCase(format) !in DispatchTable
    ensures GetParser(mf, format).Err? ==>
              GetParser(mf, format).message == "Unsupported format-" + format + "-"
  {
    GetParserMatchesTable(mf, format);
  }

  // ---------------------------------------------------------------------------
  // GlycanSequenceFormat and getParser(GlycanSequenceFormat)
  // ---------------------------------------------------------------------------

  /** The enum of sequence formats; each value carries the string its `toString` returns. */
  datatype SequenceFormat = GWS | GlycoMinds | GwLinucs | WURCS1 | WURCS2VIAGlLYCOCT | WURCS2
  {
    /** `toString()`: the string given to the enum constant's constructor. */
    function ToString(): string
    {
      match this
      case GWS => "gws"
      case GlycoMinds => "Glycominds"
      case GwLinucs => "Linucs"
      case WURCS1 => "WURCS1"
      case WURCS2VIAGlLYCOCT => "WURCS2 via GlycoCT"
      case WURCS2 => "WURCS2"
    }
  }

  /** The parser each enum value is named after. */
  function Namesake(e: SequenceFormat): ParserKind
  {
    match e
    case GWS => GWSParser
    case GlycoMinds => GlycoMindsParser
    case GwLinucs => LinucsParser
    case WURCS1 => WURCSParser
    case WURCS2VIAGlLYCOCT => WURCS2ParserViaCT
    case WURCS2 => WURCS2Parser
  }

  /** `getParser(GlycanSequenceFormat)`: the string dispatch applied to the enum's string. */
  function GetParserFor(mf: iset<string>, e: SequenceFormat): Result<ParserKind>
  {
    GetParser(mf, e.ToString())
  }

  /**
    Every enum value except GwLinucs selects its namesake parser when its string
    is not a molecular-framework format.
   */
  lemma EnumDispatch(mf: iset<string>, e: SequenceFormat)
    requires e != GwLinucs
    requires e.ToString() !in mf
    ensures GetParserFor(mf, e) == Ok(Namesake(e))
  {
    match e
    case GWS => DispatchByKey(mf, "gws", "gws");
    case GlycoMinds => DispatchByKey(mf, "Glycominds", "glycominds");
    case WURCS1 => DispatchByKey(mf, "WURCS1", "wurcs1");
    case WURCS2VIAGlLYCOCT => DispatchByKey(mf, "WURCS2 via GlycoCT", "wurcs2 via glycoct");
    case WURCS2 => DispatchByKey(mf, "WURCS2", "wurcs2");
  }

  /**
    GwLinucs carries the string "Linucs", which matches none of the chain's
    identifiers ignoring case ("gwlinucs" is the Linucs one), so its dispatch
    fails unless the molecular-framework formats accept "Linucs".
   */
  lemma GwLinucsUnsupported(mf: iset<string>)
    requires "Linucs" !in mf
    ensures GetParserFor(mf, GwLinucs) == Err("Unsupported format-Linucs-")
  {
    GetParserMatchesTable(mf, "Linucs");
    FoldCaseIs("Linucs", "linucs");
  }

  /** A molecular-framework format accepting the enum's string takes the call over. */
  lemma EnumDispatchMolecularFramework(mf: iset<string>, e: SequenceFormat)
    requires e.ToString() in mf
    ensures GetParserFor(mf, e) == Ok(MolecularFrameworkParser(e.ToString()))
  {
  }

  /**
    The string GwLinucs evidently should carry: the chain's "gwlinucs". Every
    other value keeps its own string.
   */
  function IntendedString(e: SequenceFormat): string
  {
    if e == GwLinucs then "gwlinucs" else e.ToString()
  }

  /** The enum dispatch with GwLinucs corrected. */
  function GetParserForIntended(mf: iset<string>, e: SequenceFormat): Result<ParserKind>
  {
    GetParser(mf, IntendedString(e))
  }

  /** With the corrected string, enum dispatch never fails, and outside the molecular-framework formats selects the namesake. */
  lemma GetParserForIntendedTotal(mf: iset<string>, e: SequenceFormat)
    ensures GetParserForIntended(mf, e).Ok?
    ensures IntendedString(e) !in mf ==> GetParserForIntended(mf, e) == Ok(Namesake(e))
  {
    if IntendedString(e) !in mf {
      if e == GwLinucs {
        GetParserMatchesTable(mf, "gwlinucs");
        FoldCaseOfIdentifiers();
      } else {
        EnumDispatch(mf, e);
      }
    }
  }

  // ---------------------------------------------------------------------------
  // The catalogues
  // ---------------------------------------------------------------------------

  /** The entries `getImportFormats` always writes over the library's import catalogue. */
  const ImportEntries: map<string, string> :=
    map[
      "glycominds" := "Glycominds",
      "gwlinucs" := "Linucs",
      "wurcs1" := "WURCS1.0 Encoding",
      "wurcs2" := "WURCS2.0 Encoding"
    ]

  /** The internal entry `getImportFormats(true)` adds. */
  const InternalEntry: map<string, string> := map["GWS" := "GlycoWorkbench sequence"]

  /** The entries `getExportFormats` writes over the library's export catalogue. */
  const ExportEntries: map<string, string> :=
    map[
      "GWS" := "GlycoWorkbench sequence",
      "glycominds" := "Glycominds",
      "wurcs1" := "WURCS1.0 Encoding",
      "wurcs2 via GlycoCT" := "WURCS2.0 Encoding(with GlycoCT)",
      "wurcs2" := "WURCS2.0 Encoding"
    ]

  /** The entries `getFormats` writes over the library's full catalogue. */
  const FormatEntries: map<string, string> :=
    map[
      "GWS" := "GlycoWorkbench sequence",
      "glycominds" := "Glycominds",
      "gwlinucs" := "Linucs",
      "wurcs1" := "WURCS1.0",
      "wurcs2 via GlycoCT" := "WURCS2.0(with GlycoCT)",
      "wurcs2" := "WURCS2.0"
    ]

  /** The import catalogue: the library's, overridden by the fixed entries (and the internal one on request). */
  function ImportFormats(base: map<string, string>, addInternal: bool): map<string, string>
  {
    (if addInternal then base + InternalEntry else base) + ImportEntries
  }

  /** The export catalogue: the library's, overridden by the fixed entries. */
  function ExportFormats(base: map<string, string>): map<string, string>
  {
    base + ExportEntries
  }

  /** The full catalogue: the library's, overridden by the fixed entries. */
  function Formats(base: map<string, string>): map<string, string>
  {
    base + FormatEntries
  }

  /** `getImportFormats(add_internal)`: one `put` after another on the library's map. */
  method GetImportFormats(base: map<string, string>, addInternal: bool) returns (ret: map<string, string>)
    ensures ret == ImportFormats(base, addInternal)
  {
    ret := base;
    if addInternal {
      ret := ret["GWS" := "GlycoWorkbench sequence"];
    }
    ghost var withInternal := ret;
    assert withInternal == if addInternal then base + InternalEntry else base;
    ret := ret["glycominds" := "Glycominds"];
    ret := ret["gwlinucs" := "Linucs"];
    ret := ret["wurcs1" := "WURCS1.0 Encoding"];
    ret := ret["wurcs2" := "WURCS2.0 Encoding"];
    assert ret == withInternal + ImportEntries;
  }

  /** `getImportFormats()`: the import catalogue without the internal format. */
  method GetDefaultImportFormats(base: map<string, string>) returns (ret: map<string, string>)
    ensures ret == ImportFormats(base, false)
  {
    ret := GetImportFormats(base, false);
  }

  /** `getExportFormats()`. */
  method GetExportFormats(base: map<string, string>) returns (ret: map<string, string>)
    ensures ret == ExportFormats(base)
  {
    ret := base;
    ret := ret["GWS" := "GlycoWorkbench sequence"];
    ret := ret["glycominds" := "Glycominds"];
    ret := ret["wurcs1" := "WURCS1.0 Encoding"];
    ret := ret["wurcs2 via GlycoCT" := "WURCS2.0 Encoding(with GlycoCT)"];
    ret := ret["wurcs2" := "WURCS2.0 Encoding"];
  }

  /** `getFormats()`. */
  method GetFormats(base: map<string, string>) returns (ret: map<string, string>)
    ensures ret == Formats(base)
  {
    ret := base;
    ret := ret["GWS" := "GlycoWorkbench sequence"];
    ret := ret["glycominds" := "Glycominds"];
    ret := ret["gwlinucs" := "Linucs"];
    ret := ret["wurcs1" := "WURCS1.0"];
    ret := ret["wurcs2 via GlycoCT" := "WURCS2.0(with GlycoCT)"];
    ret := ret["wurcs2" := "WURCS2.0"];
  }

  /** `isSequenceFormat(format)`: exact, case-sensitive key membership in the full catalogue. */
  function IsSequenceFormat(base: map<string, string>, format: string): bool
  {
    format in Formats(base)
  }

  /**
    The import catalogue always holds the four fixed entries, holds "GWS" with
    its description when the internal formats are asked for, and takes every
    other key and value unchanged from the library.
   */
  lemma ImportFormatsContents(base: map<string, string>, addInternal: bool)
    ensures var r := ImportFormats(base, addInternal);
      && r["glycominds"] == "Glycominds"
      && r["gwlinucs"] == "Linucs"
      && r["wurcs1"] == "WURCS1.0 Encoding"
      && r["wurcs2"] == "WURCS2.0 Encoding"
      && (addInternal ==> r["GWS"] == "GlycoWorkbench sequence")
      && (forall k :: k in r <==> k in base || k in ImportEntries || (addInternal && k == "GWS"))
      && (forall k :: k in base && k !in ImportEntries && !(addInternal && k == "GWS") ==> r[k] == base[k])
  {
  }

  /**
    Asking for the internal formats changes the import catalogue only at "GWS":
    the keys differ at most by "GWS", and every other entry is the same.
   */
  lemma ImportInternalDifference(base: map<string, string>)
    ensures ImportFormats(base, true).Keys == ImportFormats(base, false).Keys + {"GWS"}
    ensures ImportFormats(base, true)["GWS"] == "GlycoWorkbench sequence"
    ensures forall k :: k in ImportFormats(base, false) && k != "GWS" ==>
              ImportFormats(base, true)[k] == ImportFormats(base, false)[k]
    ensures "GWS" !in base ==> "GWS" !in ImportFormats(base, false)
  {
  }

  /**
    The export catalogue holds its five fixed entries, adds no "gwlinucs" of its
    own, and takes every other entry from the library.
   */
  lemma ExportFormatsContents(base: map<string, string>)
    ensures var r := ExportFormats(base);
      && r["GWS"] == "GlycoWorkbench sequence"
      && r["glycominds"] == "Glycominds"
      && r["wurcs1"] == "WURCS1.0 Encoding"
      && r["wurcs2 via GlycoCT"] == "WURCS2.0 Encoding(with GlycoCT)"
      && r["wurcs2"] == "WURCS2.0 Encoding"
      && ("gwlinucs" in r <==> "gwlinucs" in base)
      && (forall k :: k in r <==> k in base || k in ExportEntries)
      && (forall k :: k in base && k !in ExportEntries ==> r[k] == base[k])
  {
  }

  /** `isSequenceFormat` holds exactly for the library's keys and the six fixed keys, compared case-sensitively. */
  lemma IsSequenceFormatIff(base: map<string, string>, format: string)
    ensures IsSequenceFormat(base, format) <==>
              format in base
              || format in {"GWS", "glycominds", "gwlinucs", "wurcs1", "wurcs2 via GlycoCT", "wurcs2"}
  {
  }

  /**
    Every key the factory itself adds to the full catalogue is accepted by
    `getParser`: by the molecular-framework branch if the library claims it,
    otherwise by the comparison chain, which selects the matching parser.
   */
  lemma FormatEntriesDispatch(mf: iset<string>, format: string)
    requires format in FormatEntries
    ensures GetParser(mf, format).Ok?
    ensures format !in mf && format == "GWS" ==> GetParser(mf, format) == Ok(GWSParser)
    ensures format !in mf && format == "glycominds" ==> GetParser(mf, format) == Ok(GlycoMindsParser)
    ensures format !in mf && format == "gwlinucs" ==> GetParser(mf, format) == Ok(LinucsParser)
    ensures format !in mf && format == "wurcs1" ==> GetParser(mf, format) == Ok(WURCSParser)
    ensures format !in mf && format == "wurcs2 via GlycoCT" ==> GetParser(mf, format) == Ok(WURCS2ParserViaCT)
    ensures format !in mf && format == "wurcs2" ==> GetParser(mf, format) == Ok(WURCS2Parser)
  {
    if format !in mf {
      if format == "GWS" {
        DispatchByKey(mf, "GWS", "gws");
      } else if format == "glycominds" {
        DispatchByKey(mf, "glycominds", "glycominds");
      } else if format == "gwlinucs" {
        DispatchByKey(mf, "gwlinucs", "gwlinucs");
      } else if format == "wurcs1" {
        DispatchByKey(mf, "wurcs1", "wurcs1");
      } else if format == "wurcs2 via GlycoCT" {
        DispatchByKey(mf, "wurcs2 via GlycoCT", "wurcs2 via glycoct");
      } else {
        DispatchByKey(mf, "wurcs2", "wurcs2");
      }
    }
  }

  /** The fixed keys of the import and export catalogues are among those of the full catalogue. */
  lemma CatalogueKeysIncluded()
    ensures ImportEntries.Keys + InternalEntry.Keys <= FormatEntries.Keys
    ensures ExportEntries.Keys <= FormatEntries.Keys
  {
  }
}
