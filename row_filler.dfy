/**
 * The current tree's facade: `RowTemplateFiller`, which validates one row of
 * data, a template and an output directory, picks the filler routine from the
 * template's extension and keeps a settable output name.
 *
 * A Python call that raises is modelled as a `Failure` (or `Some`) carrying
 * the kind of the exception; a call that returns normally as `Success` (or
 * `None`).
 */
module RowFiller {
  import opened Wrappers
  import opened Values
  import opened Errors
  import opened Files
  import opened PosixPath
  import Checks
  import OutputPaths

  /** `check_template`: `None` when it returns, otherwise the error it raises. */
  function CheckTemplate(template: string, fs: FileSystem): (r: Option<FillError>)
    ensures fs.IsFile(template) ==> r == None
    ensures r == None ==> fs.Exists(template)
    ensures r == Some(TemplateType) <==> !fs.IsFile(template) && !Checks.IsTemplateType(template)
    ensures r == Some(TemplateNotExist) <==> Checks.IsTemplateType(template) && !fs.Exists(template)
    ensures r == None || r == Some(TemplateType) || r == Some(TemplateNotExist)
  {
    if !(fs.IsFile(template) || Checks.IsTemplateType(template)) then Some(TemplateType)
    else if !fs.Exists(template) then Some(TemplateNotExist)
    else None
  }

  /** `check_outputdir`: fails exactly when the path is not an existing directory. */
  function CheckOutputDir(outputDir: string, fs: FileSystem): (r: Option<FillError>)
    ensures r == None <==> fs.IsDir(outputDir)
    ensures r == None || r == Some(OutputDir)
  {
    if !fs.IsDir(outputDir) then Some(OutputDir) else None
  }

  /** The two filler routines, `fill_docx` and `fill_xlsx`. */
  datatype TemplateKind = Docx | Xlsx

  /** `s[-4:]`: the last four characters, or all of a shorter string. */
  function Last4(s: string): (r: string)
    ensures |r| == if |s| < 4 then |s| else 4
    ensures r == s[|s| - |r|..]
  {
    if |s| < 4 then s else s[|s| - 4..]
  }

  /** The `fillers` table; `None` is the `KeyError` of a missing entry. */
  function FillerFor(ext: string): (r: Option<TemplateKind>)
    ensures r == Some(Docx) <==> ext == "docx"
    ensures r == Some(Xlsx) <==> ext == "xlsx"
  {
    if ext == "docx" then Some(Docx)
    else if ext == "xlsx" then Some(Xlsx)
    else None
  }

  /** The error construction raises, guard by guard in the constructor's order, or `None`. */
  function ConstructionError(data: PyValue, template: string, outputDir: string, fs: FileSystem): (r: Option<FillError>)
    ensures r == None <==>
      && Checks.IsFillRowType(data) && !Checks.IsEmpty(data)
      && CheckTemplate(template, fs) == None && fs.IsDir(outputDir)
      && FillerFor(Last4(template)).Some?
    ensures r == None ==> fs.Exists(template)
  {
    if !Checks.IsFillRowType(data) then Some(DataCollectionType)
    else if Checks.IsEmpty(data) then Some(DataCollectionEmpty)
    else if CheckTemplate(template, fs).Some? then CheckTemplate(template, fs)
    else if CheckOutputDir(outputDir, fs).Some? then CheckOutputDir(outputDir, fs)
    else if FillerFor(Last4(template)).None? then Some(UnknownExtension(Last4(template)))
    else None
  }

  /** What `fill` hands to the chosen filler routine. */
  datatype FillCall = FillCall(routine: TemplateKind, data: PyValue, template: string, outputPath: string)

  class RowTemplateFiller {
    var data: PyValue
    var template: string
    var outputDir: string
    var extension: string
    var filler: TemplateKind
    var outputName: string

    /** The filler routine is the one the extension selects. */
    predicate Valid()
      reads this
    {
      FillerFor(extension) == Some(filler)
    }

    /**
     * The field assignments of `__init__`, made once every guard has passed:
     * the filler routine is looked up from the template's extension, which
     * the lookup guard has found in the table.
     */
    constructor (data: PyValue, template: string, outputDir: string)
      requires FillerFor(Last4(template)).Some?
      ensures this.data == data && this.template == template && this.outputDir == outputDir
      ensures extension == Last4(template) && outputName == "a001"
      ensures Some(filler) == FillerFor(Last4(template))
      ensures Valid()
    {
      this.data := data;
      this.template := template;
      this.outputDir := outputDir;
      extension := Last4(template);
      filler := FillerFor(Last4(template)).value;
      outputName := "a001";
    }

    /**
     * `RowTemplateFiller(data, template, output_dir)`: the data type, the
     * data's emptiness, the template, the output directory and the filler
     * lookup are checked in this order, and the first failure is raised.
     */
    static method Create(data: PyValue, template: string, outputDir: string, fs: FileSystem)
      returns (r: Result<RowTemplateFiller, FillError>)
      ensures r.Failure? <==> ConstructionError(data, template, outputDir, fs).Some?
      ensures r.Failure? ==> Some(r.error) == ConstructionError(data, template, outputDir, fs)
      ensures r.Success? ==> fresh(r.value)
      ensures r.Success? ==>
        && r.value.data == data && r.value.template == template && r.value.outputDir == outputDir
        && r.value.extension == Last4(template) && r.value.outputName == "a001"
        && r.value.Valid()
    {
      if !Checks.IsFillRowType(data) {
        return Failure(DataCollectionType);
      }
      if Checks.IsEmpty(data) {
        return Failure(DataCollectionEmpty);
      }
      var err := CheckTemplate(template, fs);
      if err.Some? {
        return Failure(err.value);
      }
      err := CheckOutputDir(outputDir, fs);
      if err.Some? {
        return Failure(err.value);
      }
      var extension := Last4(template);
      var filler := FillerFor(extension);
      if filler.None? {
        return Failure(UnknownExtension(extension));
      }
      var created := new RowTemplateFiller(data, template, outputDir);
      return Success(created);
    }

    /**
     * The `output_name` setter: a name `isOutputName` accepts is stored as
     * given; any other raises and leaves the previous name in place.
     */
    method SetOutputName(value: string, isOutputName: string -> bool) returns (err: Option<FillError>)
      requires Valid()
      modifies this`outputName
      ensures Valid()
      ensures err == None <==> isOutputName(value)
      ensures err == None || err == Some(OutputName)
      ensures outputName == if isOutputName(value) then value else old(outputName)
    {
      if !isOutputName(value) {
        return Some(OutputName);
      }
      outputName := value;
      return None;
    }

    /**
     * `fill`: the chosen routine receives the data, the template and the
     * file `output_name.extension` inside the output directory.
     */
    method Fill() returns (call: FillCall)
      requires Valid()
      ensures FillerFor(extension) == Some(call.routine)
      ensures call.routine == filler && call.data == data && call.template == template
      ensures call.outputPath == OutputPaths.CreateOutputPath(outputName, extension, outputDir)
      ensures NoSep(outputName) && NoSep(extension) ==>
        && Basename(call.outputPath) == outputName + "." + extension
        && Dirname(call.outputPath) == DirOf(outputDir)
    {
      var outputPath := Join(outputDir, outputName + "." + extension);
      return FillCall(filler, data, template, outputPath);
    }
  }

  /**
   * A template path ending in `.docx` or `.xlsx` selects the routine of that
   * extension.
   */
  lemma TemplateExtensionSelectsRoutine(template: string)
    requires Checks.HasTemplateExtension(template)
    ensures FillerFor(Last4(template)) == Some(if template[|template| - 4..] == "docx" then Docx else Xlsx)
  {
    assert template[|template| - 4..] == template[|template| - 5..][1..];
  }

  /**
   * A non-empty row, a template ending in `.docx` or `.xlsx` that passes the
   * template guard (an existing file, or an existing path with a template
   * name), and an existing output directory pass every guard. The template
   * may lie in any directory.
   */
  lemma ValidArgumentsConstruct(data: PyValue, template: string, outputDir: string, fs: FileSystem)
    requires Checks.IsFillRowType(data) && !Checks.IsEmpty(data)
    requires Checks.HasTemplateExtension(template)
    requires fs.IsFile(template) || (fs.Exists(template) && Checks.IsTemplateType(template))
    requires fs.IsDir(outputDir)
    ensures ConstructionError(data, template, outputDir, fs) == None
  {
    TemplateExtensionSelectsRoutine(template);
  }

  /** A template file kept in a folder, such as `tpl/report.docx`, passes every guard. */
  lemma TemplateInFolderConstructs(data: PyValue, outputDir: string, fs: FileSystem)
    requires Checks.IsFillRowType(data) && !Checks.IsEmpty(data)
    requires fs.IsFile("tpl/report.docx") && fs.IsDir(outputDir)
    ensures ConstructionError(data, "tpl/report.docx", outputDir, fs) == None
  {
    var t := "tpl/report.docx";
    assert t[|t| - 5..] == ".docx";
    ValidArgumentsConstruct(data, t, outputDir, fs);
  }

  /**
   * An existing directory named like a template, without a trailing
   * separator, passes every guard and selects the Word routine.
   */
  lemma TemplateNamedDirectoryConstructs(data: PyValue, outputDir: string, fs: FileSystem)
    requires Checks.IsFillRowType(data) && !Checks.IsEmpty(data)
    requires fs.IsDir("x.docx") && fs.IsDir(outputDir)
    ensures ConstructionError(data, "x.docx", outputDir, fs) == None
    ensures FillerFor(Last4("x.docx")) == Some(Docx)
  {
    var t := "x.docx";
    assert t[|t| - 5..] == ".docx";
    assert NoSep(t);
    Checks.PlainTemplateName(t);
    ValidArgumentsConstruct(data, t, outputDir, fs);
  }

  /**
   * The template guard lets any existing file through whatever its
   * extension; such a template then fails at the filler lookup.
   */
  lemma ExistingFileOfOtherTypeFailsLookup(data: PyValue, template: string, outputDir: string, fs: FileSystem)
    requires Checks.IsFillRowType(data) && !Checks.IsEmpty(data)
    requires fs.IsFile(template) && fs.IsDir(outputDir)
    requires Last4(template) != "docx" && Last4(template) != "xlsx"
    ensures CheckTemplate(template, fs) == None
    ensures ConstructionError(data, template, outputDir, fs) == Some(UnknownExtension(Last4(template)))
  {
  }

  /**
   * The lookup reads the last four characters, not the suffix: an existing
   * file `notes.odocx` has no template name, yet passes every guard and is
   * handed to the Word routine.
   */
  lemma OtherFileEndingInDocxSelectsWord(data: PyValue, outputDir: string, fs: FileSystem)
    requires Checks.IsFillRowType(data) && !Checks.IsEmpty(data)
    requires fs.IsFile("notes.odocx") && fs.IsDir(outputDir)
    ensures !Checks.IsTemplateType("notes.odocx")
    ensures ConstructionError(data, "notes.odocx", outputDir, fs) == None
    ensures FillerFor(Last4("notes.odocx")) == Some(Docx)
  {
    Checks.OtherEndingIsNotTemplate();
    OtherEndingLookup();
  }

  /** The last four characters of `notes.odocx` select the Word routine. */
  lemma OtherEndingLookup()
    ensures Last4("notes.odocx") == "docx"
    ensures FillerFor(Last4("notes.odocx")) == Some(Docx)
  {
    var t := "notes.odocx";
    assert t[|t| - 4..] == "docx";
  }

  /**
   * An existing directory named like a template passes the template guard
   * too; with a trailing separator its last four characters are not an
   * extension, and the lookup fails.
   */
  lemma TemplateDirectoryFailsLookup(data: PyValue, outputDir: string, fs: FileSystem)
    requires Checks.IsFillRowType(data) && !Checks.IsEmpty(data)
    requires fs.IsDir("out/report.docx/") && fs.IsDir(outputDir)
    ensures CheckTemplate("out/report.docx/", fs) == None
    ensures ConstructionError(data, "out/report.docx/", outputDir, fs) == Some(UnknownExtension("ocx/"))
  {
    Checks.TrailingSepTemplate();
    TemplateDirectoryExtension();
  }

  /** The last four characters of `out/report.docx/`. */
  lemma TemplateDirectoryExtension()
    ensures Last4("out/report.docx/") == "ocx/"
    ensures FillerFor("ocx/") == None
  {
    var t := "out/report.docx/";
    assert t[|t| - 4..] == "ocx/";
  }
}
