# LabGuru Data Converter: the row-transformation pipeline in Dafny

The LabGuru Data Converter turns an export of the MASTER_Freezer Inventory
spreadsheet into the column layout of the LabGuru stock upload template. This
project models what happens once the table has been read:

- **Mapping.** Each input row becomes one stock row, in the same order. The
  output has the template's 33 columns. Three cells are copied from the row:
  `Label`, `Approx. Volume (uL)` and `Box Label`. The `Stock description` joins
  `Diagnosis`, `Histology` and `Pathologic_Stage` with spaces, a missing value
  counting as "". `Stock position` is the 1-based row number. Four literals
  are written to every row (`Public`, `Tube`, `gray`, `1`), and twelve columns
  are always blank. The twelve form constants are copied to every row.
- **Volume-units clean-up.** Rule 1 replaces every maximal run of non-ASCII
  characters with micro sign + `L`. Rule 2 then replaces `µLL` with `µL`,
  left to right.
- **Failure.** A source column that is missing raises `KeyError`. A clinical
  column that holds numbers makes the string concatenation raise `TypeError`.
  The first step to fail, in the order the script evaluates them, stops the
  whole run, and no rows are produced.

Files:

- `wrappers.dfy`: module `Wrappers`, the `Result` type used for the error path.
- `units.dfy`: module `Units`, the `Volume units` normaliser (`ReplaceNonAscii`
  is Rule 1, `ReplaceMicroLL` is Rule 2, `NormalizeUnits` applies both).
- `converter.dfy`: module `Converter`. It holds the input table (`Value`,
  `Table`), the form constants (`Config`), the output row (`StockRow`, with
  33 fields in template order), the pipeline (`ReadSources`, `MapTable`,
  `NormalizeVolumeUnits`, `Convert`), the output table (`OutputColumns`,
  `Fields`, `OutputTable`) and the lemmas about all of these.

The key invariant of the normaliser is `MicroPaired`: the only non-ASCII
character is the micro sign, and each micro sign is followed by `L`. The
normaliser's output always has this shape. It leaves a string unchanged
exactly when the string already has this shape. Idempotence follows from
those two facts.

Behaviour of app.py that the model keeps as written:

- The code selects 33 output columns (app.py:109-119).
- The code has one mapping. It writes the description, the literals and the
  1-based row number as `Stock position` (app.py:46-106).
- Rule 1 treats the whole range `\x00-\x7F` as ASCII, control characters
  included (app.py:126).
- The form's text fields always deliver a string, `""` when left empty, so
  the constants are plain strings (app.py:61-105).
- A clinical column holding numbers makes the concatenation raise
  `TypeError` (app.py:59).

## Model

| member | source | states |
|---|---|---|
| `Converter.IndexOf` | app.py:49 | The position found holds the column name, and no earlier position does. |
| `Converter.Cell` | app.py:49 | The cell of row i under a column name. Its meaning is stated by `Converter.Column`'s contract. |
| `Converter.Column` | app.py:49 | `df[name]` succeeds exactly when the table has the column. Otherwise it raises `KeyError(name)`. On success it has one cell per row, and row i's cell is the cell at that column's position in input row i. |
| `Converter.FillNa` | app.py:59 | The text a cell contributes after `fillna('')`: its text, or "" for a missing value. It is the reference definition for `FillNaCell` and `FillNaText`. |
| `Converter.FillNaCell` | app.py:59 | `fillna('')` on one cell never leaves a missing value. It gives text exactly when the cell is not a number, and that text is `FillNa` of the cell. A number is kept unchanged. |
| `Converter.ConcatOperand` | app.py:59 | A column used in `+` with a string succeeds exactly when every cell is text, and then gives each cell's text, in order. Otherwise it raises `TypeError` naming the column. |
| `Converter.FillNaText` | app.py:59 | `fillna('')` followed by `+` fails with `TypeError` naming the column exactly when some original cell is a number. Otherwise cell i contributes `FillNa` of cell i: its text, or "" when missing. It is defined as the composition of `FillNaCell` and `ConcatOperand`. |
| `Converter.TextColumn` | app.py:59 | One clinical operand has one string per row; how it fails is stated by `TextColumnOutcome`. |
| `Converter.TextColumnOutcome` | app.py:59 | Reading one clinical column succeeds exactly when it is present and holds no number. A missing column gives `KeyError`. A numeric column gives `TypeError`. |
| `Converter.Description` | app.py:59 | The description is as long as the three parts plus the two separating spaces. It starts with the diagnosis followed by a space and ends with the stage. Its values are stated by `ConvertDescription` and `DescriptionExamples`. |
| `Converter.ReadDescriptions` | app.py:59 | One description per row; how it fails is stated by `ReadDescriptionsOutcome`. |
| `Converter.ReadDescriptionsOutcome` | app.py:59 | Building the description fails exactly when one of its six steps fails: lookup, then concatenation, for Diagnosis, Histology and Pathologic_Stage in turn. The first failing step names the error. |
| `Converter.ReadSources` | app.py:49-92 | On success every source column has one entry per input row; its outcome is stated by `ReadSourcesOutcome`. |
| `Converter.ReadSourcesOutcome` | app.py:49-92 | Reading the sources succeeds exactly when none of the nine steps fails. Otherwise the error is the one raised by the first failing step. |
| `Converter.MakeRow` | app.py:46-106 | The column assignments for one row. What each field holds is stated by `ConvertCopiesCells`, `ConvertPositions`, `ConvertFixedColumns`, `ConvertBroadcastsConfig` and `ConvertDescription`. |
| `Converter.BuildRows` | app.py:46-106 | One output row per input row. The contents are stated by the `Convert...` lemmas named under `MakeRow`. |
| `Converter.MapTable` | app.py:46-106 | On success one row per input row; the outcome is stated by `ConvertOutcome`. |
| `Converter.NormalizeVolumeUnits` | app.py:124-129 | The clean-up keeps the number of rows. Its effect is stated by `ConvertBroadcastsConfig`, `ConvertUnitsStable` and `ConvertKeepsSelectorChoice`. |
| `Converter.Convert` | app.py:45-129 | A successful run has one row per input row. Its outcome and contents are stated by the lemmas from `ConvertOutcome` to `ConvertReadsOnlySourceColumns`. |
| `Converter.ConvertOutcome` | app.py:49-92 | A whole run succeeds exactly when no step fails. Otherwise it returns only the first failing step's exception and no rows. |
| `Converter.MissingColumnFails` | app.py:49-92 | A table without any one of the six source columns produces no output table. |
| `Converter.MissingBoxLabel` | app.py:92 | If everything else is in order, a table lacking `Box Label` fails with `KeyError("Box Label")`, whatever its number of rows. |
| `Converter.ConvertCopiesCells` | app.py:49-92 | A successful run has all six source columns and one output row per input row, in order. Stock name, Stock volume and Box name are the same row's `Label`, `Approx. Volume (uL)` and `Box Label` cells, unchanged. |
| `Converter.ConvertPositions` | app.py:100 | The row at 0-based index i gets position i+1. The set of positions is exactly 1..N. |
| `Converter.ConvertFixedColumns` | app.py:46-106 | Every row has Privacy `Public`, Stock type `Tube`, Stock color `gray` and Stock count `1`. The twelve columns without a rule are `""`. |
| `Converter.ConvertBroadcastsConfig` | app.py:61-105 | Every row carries each of the twelve form constants unchanged. The exception is the volume units, which are the normalised constant. |
| `Converter.ConvertDescription` | app.py:59 | In a successful run the clinical cells are never numbers. Each description is Diagnosis + " " + Histology + " " + Pathologic_Stage of the same row, missing counting as "", so its length is the three lengths plus 2. |
| `Converter.DescriptionExamples` | app.py:59 | "Melanoma", "Nodular", "T3" give "Melanoma Nodular T3". Missing, "Nodular", "" give " Nodular ". Three missing values give "  ". |
| `Converter.ConvertUnitsStable` | app.py:124-129 | In a converted table every volume-units value is micro-paired. Running the clean-up over the table again changes nothing. |
| `Converter.ConvertKeepsSelectorChoice` | app.py:124-129 | Whichever of the five selector values (`L`, `mL`, `µL`, `Strips`, `column`) is chosen, every converted row's volume units are exactly that value. |
| `Converter.EmptyInput` | app.py:45-122 | A table with all source columns and no data rows converts to an empty table. |
| `Converter.ConvertReadsOnlySourceColumns` | app.py:109-122 | Two tables with the same number of rows that agree on the six source columns convert to the same result. No other input column, including any position column, affects the output. |
| `Converter.Fields` | app.py:109-122 | One row as 33 cells, one per name in `OutputColumns` (app.py:109-119), in that order. |
| `Converter.OutputTable` | app.py:109-122 | `df[output_columns]`: the header is exactly `OutputColumns`, with one row per stock row. |
| `Converter.OutputColumnsDistinct` | app.py:109-119 | The output has 33 column names, all distinct. |
| `Converter.OutputLayout` | app.py:109-122 | The output table's header is exactly the 33 template columns, in template order, whatever the input's columns were. It has one rectangular row per stock row. |
| `Converter.OutputCellByName` | app.py:122 | Looking up column `OutputColumns[k]` by name in the output table gives the k-th field of that row. |
| `Units.SkipNonAscii` | app.py:126 | The characters dropped are all non-ASCII, the rest is a suffix of the input, and it is empty or starts with an ASCII character. So a whole maximal run is dropped. |
| `Units.ReplaceNonAscii` | app.py:126 | Rule 1. Its behaviour is stated by `ReplaceNonAsciiAsciiPrefix`, `ReplaceNonAsciiRun` and `ReplaceNonAsciiPaired`. |
| `Units.ReplaceNonAsciiAsciiPrefix` | app.py:126 | Under Rule 1, ASCII text is kept unchanged and in order in front of whatever follows. |
| `Units.ReplaceNonAsciiRun` | app.py:126 | Under Rule 1, a maximal non-ASCII run of any length becomes exactly one micro sign + `L`. |
| `Units.ReplaceNonAsciiPaired` | app.py:126 | Every result of Rule 1 is micro-paired. |
| `Units.ReplaceMicroLL` | app.py:129 | Rule 2 never lengthens a string. Its behaviour is stated by the `ReplaceMicroLL...` lemmas below. |
| `Units.ReplaceMicroLLPlainPrefix` | app.py:129 | Under Rule 2, text with no micro sign is kept unchanged and in order in front of whatever follows. |
| `Units.ReplaceMicroLLTripleCons` | app.py:129 | An occurrence of `µLL` at the front becomes `µL`, and the scan resumes after the whole occurrence. |
| `Units.ReplaceMicroLLLoneMicro` | app.py:129 | A micro sign not followed by `LL` is kept, and the scan resumes at the next character. |
| `Units.ReplaceMicroLLNoRescan` | app.py:129 | Occurrences do not overlap and replaced text is not scanned again: `µLLL` becomes `µLL`. |
| `Units.ReplaceMicroLLTriple` | app.py:129 | Rule 2 turns `µLL` into `µL` (the instance of `ReplaceMicroLLTripleCons` with nothing after it). |
| `Units.ReplaceMicroLLPaired` | app.py:129 | Rule 2 keeps a micro-paired string micro-paired. |
| `Units.NormalizeUnits` | app.py:124-129 | Rule 1 then Rule 2. Its behaviour is stated by the `NormalizeUnits...` lemmas below. |
| `Units.NormalizeUnitsPaired` | app.py:124-129 | Every normalised value is micro-paired. In particular each micro sign in it is immediately followed by `L`. |
| `Units.NormalizeUnitsFixesPaired` | app.py:124-129 | A micro-paired string is left unchanged by the normaliser. |
| `Units.NormalizeUnitsFixpoints` | app.py:124-129 | The normaliser leaves a string unchanged if and only if the string is micro-paired. |
| `Units.NormalizeUnitsIdempotent` | app.py:124-129 | Normalising twice gives the same result as normalising once. |
| `Units.NormalizeUnitsAsciiPrefix` | app.py:124-129 | ASCII text in front of a value is kept unchanged and in order by the whole clean-up, Rule 1 then Rule 2. |
| `Units.NormalizeUnitsAscii` | app.py:124-129 | A pure-ASCII value is unchanged. |
| `Units.SelectorChoiceUnchanged` | app.py:124-129 | Each of the five selector values is left unchanged by the normaliser. |
| `Units.AsciiChoicesUnchanged` | app.py:124-129 | The selector choices `L`, `mL`, `Strips` and `column` are unchanged (worked instances of `SelectorChoiceUnchanged`). |
| `Units.MicroLitreChoiceUnchanged` | app.py:124-129 | The selector choice `µL` becomes `µLL` under Rule 1 and goes back to `µL` under Rule 2. |
| `Units.MisencodedMicroLitre` | app.py:124-129 | Any non-empty run of non-ASCII characters followed by `L` normalises to `µL`. |
| `Units.MisencodedExamples` | app.py:124-129 | The mis-decoded `ÂµL` and `ÅµL` both normalise to `µL`. |

## Left out

- The Streamlit page (title, instructions, upload widget, text fields,
  selector, table displays, download button). These only supply the `Config`
  values and the table. The selector restricting volume units to five
  choices is reflected only in the lemmas about those five values.
- Reading the CSV (UTF-8 with byte-order mark) and writing the result. The
  model starts from an already parsed `Table` and stops at `OutputTable`.
  `WellFormed` states what the reader guarantees: distinct column names and
  rectangular rows.
- pandas type inference. A cell is text, an integer, a floating-point number
  kept only as its lexeme, or missing. No floating-point arithmetic is
  modelled. Boolean cells are not modelled.
- The non-string branch of the Rule 1 lambda. The volume-units value is
  always a string from the selector.
- The regular-expression engine itself. Rule 1 is written directly over
  characters.
- Python strings may hold lone surrogate code points. Dafny's `char` cannot,
  but decoded UTF-8 never contains them.
- Lookups of output columns by literal name (for example `"Stock count"`) are
  stated once, generically, by `OutputCellByName` through the column index,
  together with `OutputColumnsDistinct`. They are not repeated for each
  literal name.
