# GlycanParserFactory — a verified model of format dispatch

This project models the format-dispatch factory of the GlycanBuilder glycan
structure editor (`GlycanParserFactory`). The factory does no parsing itself.
It does two things:

- it maps a format identifier, given as a string or as a `GlycanSequenceFormat`
  enum value, to the parser that handles it, or it throws
  `"Unsupported format-" + format + "-"`;
- it builds three identifier-to-description catalogues (import, export, all)
  for the menus. Each catalogue starts from the molecular-framework library's
  catalogue and writes a fixed set of entries over it.

Modules:

- `CaseFold` (`case_fold.dfy`): Java's `String.compareToIgnoreCase`,
  written as Java's comparator computes it, plus the folded form `FoldCase`
  (each character upper-cased, then lower-cased). Case mapping covers the ASCII
  letters and the four non-ASCII characters Java maps onto ASCII letters
  (U+0130, U+0131, U+017F, U+212A). The lemma `CompareToIgnoreCaseZeroIff`
  proves that a zero result means equal folded forms, and that equal folded
  forms give a zero result.
- `GlycanParserFactory` (`parser_factory.dfy`):
  - `GetParser` is the if/else chain of `getParser(String)`.
  - `TableDispatch` is an independent reference: a lookup of the folded
    identifier in `DispatchTable`, whose keys are the eight identifiers in lower case.
  - `GetParserMatchesTable` proves that the two agree on every input, error
    message included.
  - The enum, its `ToString` and `GetParserFor` model `getParser(GlycanSequenceFormat)`.
  - `GetImportFormats`, `GetExportFormats` and `GetFormats` are methods that
    update a map one `put` at a time. Each is proved equal to a specification
    function (`ImportFormats`, `ExportFormats`, `Formats`), and lemmas state
    what those functions contain.

Inputs that come from code outside this file:

- The predicate `MolecularFrameworkParser.isSequenceFormat` is the parameter
  `mf: iset<string>`, the possibly infinite set of strings it accepts.
- The library's three catalogues are the parameter `base: map<string, string>`.
- Each parser class is a constructor of `ParserKind`. The GlycoCT parser keeps
  its boolean argument.

Facts about the code that the model keeps:

- `isSequenceFormat` is exact, case-sensitive `containsKey` on the full
  catalogue (GlycanParserFactory.java:108-110).
- The enum overload goes through `toString` and the string chain, so it can
  fail (GlycanParserFactory.java:168-169; see Findings).
- The failure is an `Err` carrying the message `"Unsupported format-" + format + "-"`.

## Model

| member | source | states |
|---|---|---|
| `CaseFold.CompareToIgnoreCaseZeroIff` | src/main/java/org/eurocarbdb/application/glycanbuilder/converter/GlycanParserFactory.java:146-162 | `compareToIgnoreCase` returns zero exactly when the two strings have the same folded form, each character upper-cased then lower-cased (both directions) |
| `CaseFold.CompareToIgnoreCaseSymmetric` | src/main/java/org/eurocarbdb/application/glycanbuilder/converter/GlycanParserFactory.java:146-162 | whether two strings compare equal ignoring case does not depend on the order of the operands |
| `GlycanParserFactory.GetParserMatchesTable` | src/main/java/org/eurocarbdb/application/glycanbuilder/converter/GlycanParserFactory.java:139-166 | on every input, the sequential chain gives the same result as the reference: the molecular-framework parser if the library accepts the string; otherwise the table entry for its folded form; otherwise the error with message "Unsupported format-" + format + "-" |
| `GlycanParserFactory.MolecularFrameworkWins` | src/main/java/org/eurocarbdb/application/glycanbuilder/converter/GlycanParserFactory.java:141-143 | a string the molecular-framework library accepts gets that library's parser, built from the exact string, whatever the later branches would match |
| `GlycanParserFactory.DispatchByKey` | src/main/java/org/eurocarbdb/application/glycanbuilder/converter/GlycanParserFactory.java:145-163 | outside the molecular-framework formats, any string whose characters fold one by one to those of one of the eight lower-case identifiers selects that identifier's parser |
| `GlycanParserFactory.CaseInsensitive` | src/main/java/org/eurocarbdb/application/glycanbuilder/converter/GlycanParserFactory.java:145-163 | outside the molecular-framework formats, two strings with the same folded form either both fail or select the same parser |
| `GlycanParserFactory.Wurcs2InAnyCase` | src/main/java/org/eurocarbdb/application/glycanbuilder/converter/GlycanParserFactory.java:160-161 | "WURCS2", "wurcs2" and "Wurcs2" all select the WURCS2 parser when the library does not claim them |
| `GlycanParserFactory.GwsInAnyCase` | src/main/java/org/eurocarbdb/application/glycanbuilder/converter/GlycanParserFactory.java:146-147 | "GWS" and "gws" both select the GWS parser when the library does not claim them |
| `GlycanParserFactory.LongSFoldsOntoGws` | src/main/java/org/eurocarbdb/application/glycanbuilder/converter/GlycanParserFactory.java:146-147 | "gw" followed by a long s (U+017F, which upper-cases to 'S') selects the GWS parser |
| `GlycanParserFactory.DottedIFoldsOntoGwlinucs` | src/main/java/org/eurocarbdb/application/glycanbuilder/converter/GlycanParserFactory.java:148-149 | "GWL", a capital I with dot (U+0130, which lower-cases to 'i'), then "NUCS" selects the Linucs parser |
| `GlycanParserFactory.GlycoCTAliases` | src/main/java/org/eurocarbdb/application/glycanbuilder/converter/GlycanParserFactory.java:152-155 | "glycoct" and "glycoct_condensed", in any case, both select the GlycoCT parser with flag false |
| `GlycanParserFactory.UnsupportedFormat` | src/main/java/org/eurocarbdb/application/glycanbuilder/converter/GlycanParserFactory.java:146-165 | the call fails exactly when the string is not a molecular-framework format and matches none of the eight identifiers ignoring case; the message is then exactly "Unsupported format-" + format + "-" |
| `GlycanParserFactory.EnumDispatch` | src/main/java/org/eurocarbdb/application/glycanbuilder/converter/GlycanParserFactory.java:112-170 | for GWS, GlycoMinds, WURCS1, WURCS2VIAGlLYCOCT and WURCS2, dispatching the enum value selects its namesake parser when its string is not a molecular-framework format |
| `GlycanParserFactory.EnumDispatchMolecularFramework` | src/main/java/org/eurocarbdb/application/glycanbuilder/converter/GlycanParserFactory.java:168-170 | the enum overload is the string overload applied to `toString`: a string the molecular-framework library accepts takes the call over |
| `GlycanParserFactory.GwLinucsUnsupported` | src/main/java/org/eurocarbdb/application/glycanbuilder/converter/GlycanParserFactory.java:115 | GwLinucs, whose string is "Linucs", fails with "Unsupported format-Linucs-" unless the molecular-framework library accepts "Linucs" |
| `GlycanParserFactory.GetParserForIntendedTotal` | src/main/java/org/eurocarbdb/application/glycanbuilder/converter/GlycanParserFactory.java:112-119 | with GwLinucs carrying "gwlinucs", dispatch of every enum value succeeds, and selects the namesake parser outside the molecular-framework formats |
| `GlycanParserFactory.GetImportFormats` | src/main/java/org/eurocarbdb/application/glycanbuilder/converter/GlycanParserFactory.java:59-69 | applying the puts one after another to the library's map gives the library's catalogue overridden by the fixed import entries, plus "GWS" on request |
| `GlycanParserFactory.GetDefaultImportFormats` | src/main/java/org/eurocarbdb/application/glycanbuilder/converter/GlycanParserFactory.java:48-50 | the no-argument import catalogue is the one without the internal format |
| `GlycanParserFactory.GetExportFormats` | src/main/java/org/eurocarbdb/application/glycanbuilder/converter/GlycanParserFactory.java:76-85 | the puts give the library's export catalogue overridden by the five fixed export entries |
| `GlycanParserFactory.GetFormats` | src/main/java/org/eurocarbdb/application/glycanbuilder/converter/GlycanParserFactory.java:92-102 | the puts give the library's full catalogue overridden by the six fixed entries |
| `GlycanParserFactory.ImportFormatsContents` | src/main/java/org/eurocarbdb/application/glycanbuilder/converter/GlycanParserFactory.java:59-69 | the import catalogue always maps "glycominds", "gwlinucs", "wurcs1" and "wurcs2" to their fixed descriptions, overriding the library. It maps "GWS" to "GlycoWorkbench sequence" when internal formats are requested. Every other key and value comes unchanged from the library |
| `GlycanParserFactory.ImportInternalDifference` | src/main/java/org/eurocarbdb/application/glycanbuilder/converter/GlycanParserFactory.java:61-62 | the catalogues with and without internal formats differ only at "GWS": the keys differ at most by "GWS" and every other value agrees |
| `GlycanParserFactory.ExportFormatsContents` | src/main/java/org/eurocarbdb/application/glycanbuilder/converter/GlycanParserFactory.java:76-85 | the export catalogue holds "GWS", "glycominds", "wurcs1", "wurcs2 via GlycoCT" and "wurcs2" with their fixed descriptions. It holds "gwlinucs" only if the library does. Every other entry comes from the library |
| `GlycanParserFactory.IsSequenceFormatIff` | src/main/java/org/eurocarbdb/application/glycanbuilder/converter/GlycanParserFactory.java:108-110 | `isSequenceFormat` holds exactly for the library's keys and the six fixed keys, compared case-sensitively |
| `GlycanParserFactory.FormatEntriesDispatch` | src/main/java/org/eurocarbdb/application/glycanbuilder/converter/GlycanParserFactory.java:92-101 | every key that the full catalogue adds is accepted by `getParser` without error; outside the molecular-framework formats each key selects its own parser |
| `GlycanParserFactory.CatalogueKeysIncluded` | src/main/java/org/eurocarbdb/application/glycanbuilder/converter/GlycanParserFactory.java:59-101 | the fixed keys of the import and export catalogues are among the fixed keys of the full catalogue, so the previous row covers them too |

## Left out

- The concrete parsers (`GWSParser`, `LinucsParser`, `GlycoMindsParser`, `GlycoCTParser`, `WURCSParser`, `WURCS2Parser`, `WURCS2ParserViaCT`, `MolecularFrameworkParser`): only a tag is modelled, because their code is not part of this model.
- `MolecularFrameworkParser.isSequenceFormat`, `getImportFormats`, `getExportFormats` and `getFormats`: foreign code, taken as an uninterpreted set and input maps.
- Whether the library's maps are fresh or shared is not modelled. The catalogue methods take the library's map as a value. If the library returned a shared map, the Java `put` calls would also change that shared map, and the model does not capture this aliasing.
- Map iteration order: the concrete `Map` class comes from the library, so the model uses Dafny's unordered `map`.
- The commented-out KCF ("rings") entries and branches: dead code.
- `CaseFold.CompareToIgnoreCaseZeroIff`: the character case mappings cover the ASCII letters and the four non-ASCII characters that Java maps onto ASCII letters (U+0130, U+0131, U+017F, U+212A). Every other character is left unchanged, so two non-ASCII strings that differ only in case (such as "É" and "é") compare unequal in the model but equal in Java. No such string can match one of the ASCII identifiers, so `getParser` is not affected.
- Null strings: Dafny strings are never null, while Java's `getParser(null)` fails with a `NullPointerException` (in the library's predicate or in `compareToIgnoreCase`).
- The Java `Exception` type: the failure is a `Result.Err` value carrying the message.

## Findings

| source | as written | input that shows it | evidently intended | confidence | as-written member | corrected member |
|---|---|---|---|---|---|---|
| src/main/java/org/eurocarbdb/application/glycanbuilder/converter/GlycanParserFactory.java:115 | the enum constant `GwLinucs` carries the string "Linucs", and the string chain only knows "gwlinucs" | `getParser(GlycanSequenceFormat.GwLinucs)` with a molecular-framework library that does not accept "Linucs" throws "Unsupported format-Linucs-" | the constant selects the Linucs parser, as its namesake identifier "gwlinucs" does, so that the enum overload (the one recommended over the deprecated string overload) never fails | medium (depends on the library's unseen predicate); not executed | `GlycanParserFactory.GwLinucsUnsupported` | `GlycanParserFactory.GetParserForIntendedTotal` |

`GetParserFor` keeps the string as written. `GetParserForIntended`
applies the correction, and `GetParserForIntendedTotal` proves that it
dispatches every enum value.
