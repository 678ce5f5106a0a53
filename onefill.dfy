/**
 * The older tree's facade: `Onefillone`, whose constructor only validates
 * its arguments (rows data, template, output directory) and stores nothing,
 * and whose `fill` does nothing.
 */
module OneFill {
  import opened Wrappers
  import opened Values
  import opened Errors
  import opened Files
  import Checks
  import LegacyChecks
  import RowFiller
  import PosixPath

  /** The error construction raises, guard by guard in the constructor's order, or `None`. */
  function ConstructionError(data: PyValue, template: string, outputDir: string, fs: FileSystem): (r: Option<FillError>)
    ensures r == None <==>
      && (data.Frame? || LegacyChecks.IsDictOfRecords(data)) && !Checks.IsEmpty(data)
      && (fs.IsFile(template) || Checks.HasTemplateExtension(PosixPath.Name(template)))
      && fs.IsDir(outputDir)
  {
    if !(data.Frame? || LegacyChecks.IsDictOfRecords(data)) then Some(DataCollectionType)
    else if Checks.IsEmpty(data) then Some(DataCollectionEmpty)
    else if !(fs.IsFile(template) || LegacyChecks.CheckTemplateType(template)) then Some(TemplateType)
    else if !fs.IsDir(outputDir) then Some(OutputDir)
    else None
  }

  class Onefillone {

    constructor ()
    {
    }

    /**
     * `Onefillone(data, template, output_dir)`: a DataFrame or a dict of
     * records, not empty, a template that is an existing file or has a
     * template name, and an existing output directory, checked in this order.
     */
    static method Create(data: PyValue, template: string, outputDir: string, fs: FileSystem)
      returns (r: Result<Onefillone, FillError>)
      ensures r.Failure? <==> ConstructionError(data, template, outputDir, fs).Some?
      ensures r.Failure? ==> Some(r.error) == ConstructionError(data, template, outputDir, fs)
    {
      var isDict := LegacyChecks.CheckFillDatasOfDictType(data);
      if !(data.Frame? || isDict) {
        return Failure(DataCollectionType);
      }
      var isEmpty: bool;
      if data.Frame? {
        isEmpty := data.rows == 0 || data.cols == 0;
      }
      if data.Dict? {
        isEmpty := data.entries == map[];
      }
      if isEmpty {
        return Failure(DataCollectionEmpty);
      }
      if !(fs.IsFile(template) || LegacyChecks.CheckTemplateType(template)) {
        return Failure(TemplateType);
      }
      if !fs.IsDir(outputDir) {
        return Failure(OutputDir);
      }
      var created := new Onefillone();
      return Success(created);
    }

    /** `fill`: does nothing. */
    method Fill()
    {
    }
  }

  /**
   * The empty dict passes the type guard (a dict all of whose values are
   * records) and is refused by the emptiness guard that follows.
   */
  lemma EmptyDictRefusedAsEmpty(template: string, outputDir: string, fs: FileSystem)
    ensures ConstructionError(Dict(map[]), template, outputDir, fs) == Some(DataCollectionEmpty)
    ensures RowFiller.ConstructionError(Dict(map[]), template, outputDir, fs) == Some(DataCollectionEmpty)
  {
  }

  /**
   * The two facades differ on a template that has a template name but does
   * not exist: the current one raises `FillTemplateNotExistError`, the older
   * one accepts it.
   */
  lemma MissingTemplateOnlyRefusedByRowFiller(data: PyValue, template: string, outputDir: string, fs: FileSystem)
    requires data.Dict? && data.entries != map[]
    requires forall k :: k in data.entries ==> data.entries[k].Dict?
    requires Checks.IsTemplateType(template) && !fs.Exists(template) && fs.IsDir(outputDir)
    ensures RowFiller.ConstructionError(data, template, outputDir, fs) == Some(TemplateNotExist)
    ensures ConstructionError(data, template, outputDir, fs) == None
  {
    Checks.NonEmptyDictIsRow(data);
  }

  /**
   * A single row is data for the current facade only, a DataFrame for the
   * older one only.
   */
  lemma RowAndRowsData(labels: map<string, Value>, rows: nat, cols: nat, template: string, outputDir: string, fs: FileSystem)
    ensures ConstructionError(Series(labels), template, outputDir, fs) == Some(DataCollectionType)
    ensures RowFiller.ConstructionError(Frame(rows, cols), template, outputDir, fs) == Some(DataCollectionType)
  {
  }
}
