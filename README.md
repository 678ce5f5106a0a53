# filler: the spreadsheet placeholder engine, its validators and facades

This project models the core of `filler`, a Python library that fills one
row of data into a Word or Excel template. A template cell such as
`{{name}}` or `Name: {{name}}` names a key of the data row. Filling
replaces the placeholder with the row's value for that key.

The model covers:

- **The current spreadsheet filler** (`src/filler/_utils/_fill.py`).
  - `remove_before` and `remove_after` take the key from the cell's first
    `{{ ... }}` pair, and `strip("{}")` then removes the braces.
  - `is_only_placeholder` is the full match of `{{` + word characters + `}}`.
  - `fill_xlsx` visits every cell of every sheet once and rewrites it in place.
    A cell that is exactly one placeholder takes the row's value with its own
    type. In any other cell, `{{key}}` is replaced by the value's text, or by
    nothing when the value counts as empty.
- **The older spreadsheet filler** (`src/filter/_utils/__fill.py`). It takes
  the key by stripping braces from the whole cell, and it has no empty-value
  case. Lemmas state where the two variants agree and where they differ.
- **The validators** of both trees:
  - the row and rows data shapes;
  - the dict-of-records check;
  - the template-extension rule, i.e. the `pathlib` suffix of the path's name
    is `.docx` or `.xlsx`;
  - emptiness.
- **Output paths**: `create_output_path` and the naming in `create_output_dir`,
  over POSIX `os.path.join` / `basename` / `dirname`.
- **The facades**:
  - `RowTemplateFiller` is a class. Its guard chain, fields, validated
    `output_name` setter and `fill` call are modelled.
  - `Onefillone` has a guard chain and a `fill` that does nothing.

How the model represents the source:

- Strings are `seq<char>`. Python's `str.find`, `rfind`, `strip`, `replace`
  and `in` are defined in `Strings`.
- A workbook is a sequence of distinct sheets, each an `array2<Value>`.
- A data row is a `map<string, Value>`.
- The pandas and dict shapes the validators classify are the tagged variant
  `Values.PyValue`.
- A Python call that raises is a `Failure` (or `Some`) carrying the kind of
  exception in `Errors.FillError`. A call that returns normally is a `Success`
  (or `None`).
- The file system is a pair of sets: existing files and existing directories
  (`Files.FileSystem`).

The model follows the code where it does less than its messages say:

- The error message of `check_template` says the template must be a file
  with a docx or xlsx extension. The code (`src/filler/resources/oto.py:93`)
  accepts a path that is an existing file *or* has a template name. So any
  existing file passes, and so does an existing directory with a template
  name. A directory `x.docx` passes every guard and selects the Word routine
  (`RowFiller.TemplateNamedDirectoryConstructs`). The lookup key is the
  template's last four characters (`src/filler/resources/oto.py:62`), not
  its suffix. An existing file whose last four characters are neither
  `docx` nor `xlsx`, or the directory written `out/report.docx/` with a
  trailing separator, fails only at the `fillers[...]` lookup with a
  `KeyError` (`RowFiller.ExistingFileOfOtherTypeFailsLookup`,
  `RowFiller.TemplateDirectoryFailsLookup`). An existing file such as
  `notes.odocx`, which has no template name, passes every guard and goes to
  the Word routine (`RowFiller.OtherFileEndingInDocxSelectsWord`).
- The older facade (`src/filter/resources/oto.py:54`) never checks that the
  template exists (`OneFill.MissingTemplateOnlyRefusedByRowFiller`).

## Model

| member | source | states |
|---|---|---|
| Strings.FindFromFirst | src/filler/_utils/_fill.py:86 | `find` from an index gives an occurrence at or after it with none in between, or -1 when none occurs there |
| Strings.FindFirst | src/filler/_utils/_fill.py:86 | `find` gives -1 exactly when the pattern does not occur; otherwise an index where it occurs with no earlier occurrence |
| Strings.StripExact | src/filler/_utils/_fill.py:60-62 | `strip(cs)` of `a + k + b`, with `a` and `b` made of `cs` characters and `k` neither starting nor ending with one, is exactly `k` |
| Strings.ReplaceNoOccurrence | src/filler/_utils/_fill.py:72-73 | `replace` leaves a string without an occurrence of the pattern unchanged |
| Strings.ReplaceKeepsPrefix | src/filler/_utils/_fill.py:72-73 | text in which the pattern's first character never appears is kept unchanged in front of the replaced rest |
| Strings.ReplaceAtStart | src/filler/_utils/_fill.py:72-73 | an unfolding of `Replace`: an occurrence at the start is replaced and the scan carries on after it |
| CurrentFill.RemoveBefore | src/filler/_utils/_fill.py:79-93 | the result is a suffix of `s` |
| CurrentFill.RemoveBeforeFirst | src/filler/_utils/_fill.py:79-93 | `s` unchanged when `spec` does not occur; otherwise the suffix of `s` that starts at the first occurrence of `spec` |
| CurrentFill.RemoveAfter | src/filler/_utils/_fill.py:96-110 | the result is a prefix of `s` |
| CurrentFill.RemoveAfterFirst | src/filler/_utils/_fill.py:96-110 | `s` unchanged when `spec` does not occur; otherwise the prefix of `s` that ends with the first occurrence of `spec` |
| Placeholders.IsOnlyPlaceholder | src/filler/_utils/_fill.py:113-130 | the full match of `^\{\{[\w\u4e00-\u9fa5]+\}\}$` (the older copy at `src/filter/_utils/__fill.py:79-95` is the same); its shape is proved in `Placeholders.PlaceholderShape` |
| Placeholders.PlaceholderShape | src/filler/_utils/_fill.py:113-130 | `is_only_placeholder(s)` holds exactly when `s` is `{{k}}` for a nonempty run `k` of word characters (both directions); the older tree's copy at `src/filter/_utils/__fill.py:79-95` is the same full match |
| Placeholders.PlaceholderExamples | src/filler/_utils/_fill.py:118-125 | `{{AA}}`, `{{编号}}` and `{{a_001}}` are single placeholders and `{{AA}}BC` is not |
| Placeholders.PlaceholderWithTailIsNotOnly | src/filler/_utils/_fill.py:127-128 | a placeholder followed by any further text is not a full match |
| Placeholders.StripPlaceholder | src/filler/_utils/_fill.py:60-62 | stripping `{` and `}` from `{{k}}` gives `k` back, since keys hold no braces |
| Workbook.RewriteSheet | src/filler/_utils/_fill.py:55-56 | every cell of the sheet becomes the rewrite of its former value, each cell visited once |
| Workbook.RewriteBook | src/filler/_utils/_fill.py:52-56 | every cell of every sheet becomes the rewrite of its former value, each cell visited once |
| CurrentFill.RewriteCell | src/filler/_utils/_fill.py:57-73 | a non-string cell, a string without `{{`, or a cell whose key is not in the row is unchanged; a changed cell that is not a single placeholder stays a string |
| CurrentFill.FillXlsx | src/filler/_utils/_fill.py:52-73 | after `fill_xlsx` each cell of each sheet holds the one-pass rewrite of its old value |
| CurrentFill.FirstOpenIsPlaceholder | src/filler/_utils/_fill.py:60 | with no `{` before `{{k}}`, `remove_before` cuts the cell exactly at the placeholder |
| CurrentFill.FirstCloseEndsPlaceholder | src/filler/_utils/_fill.py:60 | `remove_after` on `{{k}}` and any tail keeps exactly `{{k}}`, since keys hold no `}` |
| CurrentFill.Key | src/filler/_utils/_fill.py:60-62 | the key is no longer than the cell and neither starts nor ends with a brace |
| CurrentFill.KeyOfPlaceholder | src/filler/_utils/_fill.py:60-62 | the key of the cell `{{k}}` is `k` |
| CurrentFill.KeyOfFirstPlaceholder | src/filler/_utils/_fill.py:60-62 | for a cell `a + {{k}} + b` where `a` holds no `{`, the key read is `k`, whatever text `b` follows |
| CurrentFill.OnlyPlaceholderCell | src/filler/_utils/_fill.py:58-65 | a cell that is exactly `{{k}}` contains `{{`, has key `k` and is a single placeholder |
| CurrentFill.EmbeddedPlaceholderCell | src/filler/_utils/_fill.py:58-67 | a longer cell whose first `{` opens `{{k}}` contains `{{`, has key `k` and is not a single placeholder |
| CurrentFill.SinglePlaceholderTakesValue | src/filler/_utils/_fill.py:64-66 | a cell that is exactly `{{k}}` with `k` in the row becomes the row's value itself, keeping its type |
| CurrentFill.EmbeddedPlaceholderIsReplaced | src/filler/_utils/_fill.py:67-73 | in a longer cell `a + {{k}} + b` where `a` holds no `{` and `k` is in the row, this and every later `{{k}}` become the value's text, or nothing for an empty value; other text is kept and the cell stays a string |
| CurrentFill.ReplaceAfterPlainPrefix | src/filler/_utils/_fill.py:72-73 | text before the first `{` is kept by the placeholder replacement |
| CurrentFill.DistinctKeysDoNotOverlap | src/filler/_utils/_fill.py:68 | the placeholder of one key never occurs inside the placeholder of another |
| CurrentFill.OneKeyPerCell | src/filler/_utils/_fill.py:58-73 | in `{{A}}{{B}}` only `A` is substituted and `{{B}}` is left as it was |
| CurrentFill.SecondPassWouldResolveMore | src/filler/_utils/_fill.py:52-73 | a second pass over `{{A}}{{B}}` would also resolve `B`, so rewriting each cell exactly once matters |
| LegacyFill.Key | src/filter/_utils/__fill.py:61 | the key is no longer than the cell and neither starts nor ends with a brace |
| LegacyFill.RewriteCell | src/filter/_utils/__fill.py:59-71 | a non-string cell, one without `{{`, or one whose stripped text is not a key is unchanged; a changed cell that is not a single placeholder stays a string |
| LegacyFill.FillXlsx | src/filter/_utils/__fill.py:53-71 | after the older `fill_xlsx` each cell of each sheet holds the one-pass rewrite of its old value |
| LegacyFill.SinglePlaceholderTakesValue | src/filter/_utils/__fill.py:64-66 | a cell that is exactly `{{k}}` with `k` in the row becomes the row's value itself |
| LegacyFill.VariantsAgreeOnSinglePlaceholder | src/filter/_utils/__fill.py:61-66 | on a cell that is one placeholder the older and current fillers give the same result |
| LegacyFill.KeyIsHead | src/filter/_utils/__fill.py:61 | for a cell not starting with a brace, the key is a nonempty head of the cell followed only by braces |
| LegacyFill.OwnPlaceholderAbsent | src/filter/_utils/__fill.py:68-71 | the placeholder of such a key does not occur in the cell |
| LegacyFill.NoLeadingBraceUnchanged | src/filter/_utils/__fill.py:59-71 | the older filler never changes a cell whose first character is not a brace |
| LegacyFill.PrefixedPlaceholderOnlyFilledByCurrent | src/filter/_utils/__fill.py:59-71 | `text{{k}}` is left unchanged by the older filler and filled by the current one |
| LegacyFill.BraceTailCell | src/filter/_utils/__fill.py:59-65 | the older filler reads key `k` from `{{k}}` followed by closing braces, and the cell is not a single placeholder |
| LegacyFill.ReplaceBeforeBraceTail | src/filter/_utils/__fill.py:70-71 | `replace` of `{{k}}` in `{{k}}}...` leaves the trailing braces after the replacement |
| LegacyFill.LegacyFillsBraceTail | src/filter/_utils/__fill.py:59-71 | the older filler turns `{{k}}}...` into the value's text followed by the trailing braces |
| LegacyFill.CurrentFillsBraceTail | src/filler/_utils/_fill.py:58-73 | the current filler turns `{{k}}}...` into the rendered value followed by the trailing braces |
| LegacyFill.EmptyValueHandlingDiffers | src/filter/_utils/__fill.py:67-71 | on `{{k}}}...` both read key `k`; the older filler writes the value's text and the current one writes nothing for an empty value |
| Checks.IsFillRowType | src/filler/_utils/_check.py:16-39 | a Series or a dict is one row; its documented outcomes are proved in `Checks.ValidatorExamples` |
| Checks.IsFillRowsType | src/filler/_utils/_check.py:41-66 | a DataFrame, or a dict whose every value is a dict, is rows data; its documented outcomes are proved in `Checks.ValidatorExamples` |
| Checks.IsTemplateType | src/filler/_utils/_check.py:91-94 | the path's name ends in `.docx` or `.xlsx` with at least one character before the dot |
| Checks.TemplateSuffixRule | src/filler/_utils/_check.py:91-94 | the suffix of a name is an allowed one exactly when the name ends with it after at least one character (both directions) |
| Checks.PlainTemplateName | src/filler/_utils/_check.py:91-94 | on a bare file name the rule looks at the name itself |
| Checks.DocumentIsTemplate | src/filler/_utils/_check.py:79-80 | `document.docx` is a template name |
| Checks.WindowsPathIsTemplate | src/filler/_utils/_check.py:82-83 | `c:\dev\doc.docx` is a template name |
| Checks.SpreadsheetIsTemplate | src/filler/_utils/_check.py:85-86 | `spreadsheet.xlsx` is a template name |
| Checks.ImageIsNotTemplate | src/filler/_utils/_check.py:88-89 | `image.png` is not a template name |
| Checks.HiddenDocxIsNotTemplate | src/filler/_utils/_check.py:91-94 | `.docx` alone has no suffix and is refused |
| Checks.OtherEndingIsNotTemplate | src/filler/_utils/_check.py:91-94 | `notes.odocx` has the suffix `.odocx` and is refused |
| Checks.UpperCaseIsNotTemplate | src/filler/_utils/_check.py:91-94 | the comparison is case-sensitive: `report.DOCX` is refused |
| Checks.TrailingSepTemplate | src/filler/_utils/_check.py:91-94 | a trailing separator is ignored: `out/report.docx/` is a template name |
| Checks.IsEmpty | src/filler/_utils/_check.py:137-142 | empty exactly when the value is a DataFrame, Series or dict that holds no element; nothing else is empty |
| Checks.NonEmptyDictIsRow | src/filler/_utils/_check.py:131-142 | a dict with an entry is a row type and not empty |
| Checks.ValidatorExamples | src/filler/_utils/_check.py:27-134 | the documented outcomes of `is_fill_row_type`, `is_fill_rows_type` (the empty dict included) and `is_empty` |
| LegacyChecks.CheckFillDatasOfDictType | src/filter/_utils/_check.py:33-38 | true exactly for a dict whose every value is a dict or a Series, found by a search that stops at the first other value |
| LegacyChecks.CheckTemplateType | src/filter/_utils/_check.py:63-66 | the same suffix rule as `is_template_type` |
| LegacyChecks.RowsDictsAreDictsOfRecords | src/filter/_utils/_check.py:33-38 | every dict of dicts passes the older check; a dict of Series passes it but is not a rows type |
| LegacyChecks.DictOfRecordsExamples | src/filter/_utils/_check.py:22-29 | the documented outcomes, and the empty dict passes |
| PosixPath.Name | src/filler/_utils/_check.py:92 | the name of a path holds no separator and is not `.` |
| PosixPath.Suffix | src/filler/_utils/_check.py:92 | the suffix is empty or starts at the name's last dot, which is neither its first nor its last character |
| PosixPath.NameOfPlainName | src/filler/_utils/_check.py:92 | a bare file name is its own name |
| PosixPath.NameAfterSep | src/filler/_utils/_check.py:92 | the name of `d/n` is `n` |
| PosixPath.NameOfTrailingSep | src/filler/_utils/_check.py:92 | a trailing separator does not change the name |
| PosixPath.JoinLayout | src/filter/_utils/_path.py:40 | joining a bare name onto a directory puts the name in the basename and the directory, without trailing separators, in the dirname |
| OutputPaths.CreateOutputPath | src/filter/_utils/_path.py:68 | when neither `file` nor `ext` holds a separator, the basename of the result is `file.ext` and its dirname is `dir` without its trailing separators |
| OutputPaths.DefaultOutputPath | src/filter/_utils/_path.py:63-66 | with the defaults the basename is `f001.xlsx` and the dirname is the working directory |
| OutputPaths.CreateOutputDir | src/filter/_utils/_path.py:33-48 | the directory `pre_timestamp` directly under `parentdir` when it could be made, `None` (Python's `False`) otherwise |
| RowFiller.CheckTemplate | src/filler/resources/oto.py:92-98 | any existing file passes; success implies existence; the type error comes exactly when the path is neither a file nor a template name; the missing error exactly when it is a template name that does not exist |
| RowFiller.CheckOutputDir | src/filler/resources/oto.py:101-105 | fails, with the output-directory error, exactly when the path is not an existing directory |
| RowFiller.Last4 | src/filler/resources/oto.py:62 | the last four characters of the template, or all of a shorter one |
| RowFiller.FillerFor | src/filler/resources/oto.py:64-69 | `docx` selects the Word routine, `xlsx` the spreadsheet one |
| RowFiller.RowTemplateFiller.constructor | src/filler/resources/oto.py:59-71 | the fields hold the arguments, the extension is the template's last four characters, the filler is the table's entry for that extension (so `Valid()` holds) and the output name is `a001` |
| RowFiller.RowTemplateFiller.Create | src/filler/resources/oto.py:44-71 | fails exactly when a guard fails, with the first failing guard's error in the order type, empty, template, output dir, lookup; on success the fields are set and the routine matches the extension |
| RowFiller.RowTemplateFiller.SetOutputName | src/filler/resources/oto.py:77-84 | an accepted name is stored exactly; a refused one raises and leaves the previous name |
| RowFiller.RowTemplateFiller.Fill | src/filler/resources/oto.py:86-89 | the routine the extension selects gets the data, the template and `output_name.extension` inside the output directory; no field changes |
| RowFiller.TemplateExtensionSelectsRoutine | src/filler/resources/oto.py:62-69 | a template ending in `.docx` or `.xlsx` selects the routine of that extension |
| RowFiller.ValidArgumentsConstruct | src/filler/resources/oto.py:44-71 | a nonempty row, a template ending in `.docx` or `.xlsx` that is an existing file (in any directory) or an existing path with a template name, and an existing output directory pass every guard |
| RowFiller.TemplateInFolderConstructs | src/filler/resources/oto.py:44-71 | an existing file `tpl/report.docx` passes every guard |
| RowFiller.TemplateNamedDirectoryConstructs | src/filler/resources/oto.py:55-69 | an existing directory `x.docx` passes every guard, and the lookup selects the Word routine |
| RowFiller.ExistingFileOfOtherTypeFailsLookup | src/filler/resources/oto.py:55-69 | an existing file whose last four characters are neither `docx` nor `xlsx` passes the template guard and then fails the filler lookup |
| RowFiller.OtherFileEndingInDocxSelectsWord | src/filler/resources/oto.py:55-69 | an existing file `notes.odocx` has no template name, yet passes every guard and selects the Word routine |
| RowFiller.OtherEndingLookup | src/filler/resources/oto.py:62-69 | the last four characters of `notes.odocx` are `docx`, which selects the Word routine |
| RowFiller.ConstructionError | src/filler/resources/oto.py:44-71 | construction succeeds exactly when the data is a nonempty row, the template guard and the output-directory guard pass and the extension is in the table; success implies the template exists |
| RowFiller.TemplateDirectoryFailsLookup | src/filler/resources/oto.py:55-69 | an existing directory `out/report.docx/` passes the template guard and fails the lookup on `ocx/` |
| OneFill.ConstructionError | src/filter/resources/oto.py:39-59 | construction succeeds exactly when the data is a nonempty DataFrame or dict of records, the template is an existing file or has a template name, and the output directory exists |
| OneFill.Onefillone.Fill | src/filter/resources/oto.py:62-65 | `fill` does nothing: the method has an empty body and may change no state |
| OneFill.Onefillone.Create | src/filter/resources/oto.py:39-59 | fails exactly when a guard fails, with the first failing guard's error in the order type, empty, template, output dir |
| OneFill.EmptyDictRefusedAsEmpty | src/filter/resources/oto.py:46-51 | the empty dict passes the type guard and is refused as empty (in both facades) |
| OneFill.MissingTemplateOnlyRefusedByRowFiller | src/filter/resources/oto.py:54-55 | a template name that does not exist passes the older facade and is refused by the current one |
| OneFill.RowAndRowsData | src/filter/resources/oto.py:40-44 | a Series is refused by the older facade's type guard, a DataFrame by the current one's |

## Left out

- `fill_docx` in both trees: it only hands the data to docxtpl's `render` and `save`, an external engine.
- Workbook I/O: `load_workbook` and `book.save` are not modelled. `FillXlsx` works on the loaded sheets passed in.
- File system: `os.path.isfile`, `isdir` and `exists` are lookups in `Files.FileSystem`. The outcome of `os.makedirs` is the parameter `made`. `os.getcwd()` is the parameter `cwd`.
- Clock: `get_curtimestr` and `is_valid_timestamp` are not modelled. The timestamp is a parameter of `CreateOutputDir`.
- `is_number` and `rand_float`: floating point and randomness helpers outside the core.
- Exception classes: each becomes one constructor of `Errors.FillError`. Their messages and their class hierarchy are not modelled.
- `is_output_name` is imported by `src/filler/resources/oto.py:15`, but `src/filler/_utils/__init__.py` does not export it. It is the parameter `isOutputName` of `SetOutputName`.
- The `is_empty` that `src/filler/_utils/_fill.py:6` imports is not defined in `src/filler/_utils/_utils.py`. It is the parameter `isEmpty` of the fill functions.
- Placeholders.IsWordChar: Python's Unicode `\w` is narrowed to ASCII letters, digits, `_` and the range U+4E00–U+9FA5.
- Values.Text: `str()` is exact for strings, integers, booleans and `None`. Other values (floats, dates) carry their text with them. `str()` of containers is not modelled.
- pandas: a Series is its labels and a DataFrame its two sizes. `key in data` is map membership.
- Paths follow the POSIX flavour only. Windows drive letters and backslash separators are not modelled.
- `PosixPath.Name` skips empty and `.` components as `pathlib` does. It does not model the special anchor `//`.
- `replace` with an empty pattern is not modelled. The fillers always search for a pattern of at least four characters.
- The debug `print` calls in the older filler, the `print` in the exception branch of `create_output_dir` (`src/filter/_utils/_path.py:47`), and the doctest `__main__` blocks.
- Importability: the older facade imports `check_template_type`, `check_fill_datas_of_dict_type` and `check_dir` from `src/filter/_utils`, whose `__init__.py` does not re-export them. The model assumes the import succeeds.
- The doctests of both `is_only_placeholder` functions call a function named `is_placeholder`. The model states the listed outcomes for `is_only_placeholder`.
- RowFiller.RowTemplateFiller: the `output_name` getter is the field `outputName` itself. Python callers could reassign the other public attributes, but the model changes only `outputName`.
