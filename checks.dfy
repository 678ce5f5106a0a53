/**
 * The shape validators of the current tree: row and rows data types, the
 * template extension rule and emptiness.
 */
module Checks {
  import opened Values
  import opened PosixPath

  /** `is_fill_row_type`: a Series or a dict holds one row. */
  predicate IsFillRowType(v: PyValue) {
    v.Series? || v.Dict?
  }

  /** `is_fill_rows_type`: a DataFrame, or a dict whose every value is a dict. */
  predicate IsFillRowsType(v: PyValue) {
    || v.Frame?
    || (v.Dict? && forall k :: k in v.entries ==> v.entries[k].Dict?)
  }

  const TemplateSuffixes: set<string> := {".docx", ".xlsx"}

  /** A file name ending in `.docx` or `.xlsx` with something before the dot. */
  predicate HasTemplateExtension(n: string) {
    |n| >= 6 && n[|n| - 5..] in TemplateSuffixes
  }

  /**
   * `is_template_type`: the suffix of the path's name is `.docx` or `.xlsx`,
   * compared case-sensitively.
   */
  function IsTemplateType(filename: string): (r: bool)
    ensures r <==> HasTemplateExtension(Name(filename))
  {
    TemplateSuffixRule(Name(filename));
    Suffix(Name(filename)) in TemplateSuffixes
  }

  /** A name's suffix is an allowed one exactly when the name ends with it after at least one character. */
  lemma TemplateSuffixRule(n: string)
    ensures Suffix(n) in TemplateSuffixes <==> HasTemplateExtension(n)
  {
    if HasTemplateExtension(n) {
      var head, ext := n[..|n| - 4], n[|n| - 4..];
      assert n == head + ext;
      assert head[|head| - 1] == n[|n| - 5] == '.';
      assert ext == n[|n| - 5..][1..];
      assert forall j :: 0 <= j < |ext| ==> ext[j] != '.';
      RFindAtJoint(head, ext, '.');
      assert Suffix(n) == n[|n| - 5..];
    }
  }

  /** The number of elements a DataFrame, Series or dict holds. */
  function ElementCount(v: PyValue): nat
    requires v.Frame? || v.Series? || v.Dict?
  {
    match v
    case Frame(rows, cols) => rows * cols
    case Series(labels) => |labels|
    case Dict(entries) => |entries|
  }

  /**
   * `is_empty`: a DataFrame or Series with no elements, or a dict with no
   * entries; no other value is empty.
   */
  function IsEmpty(v: PyValue): (r: bool)
    ensures r <==> (v.Frame? || v.Series? || v.Dict?) && ElementCount(v) == 0
  {
    match v
    case Frame(rows, cols) =>
      assert rows > 0 && cols > 0 ==> rows * cols > 0 by {
        if rows > 0 && cols > 0 {
          MulPositive(rows, cols);
        }
      }
      rows == 0 || cols == 0
    case Series(labels) => |labels| == 0
    case Dict(entries) => |entries| == 0
    case _ => false
  }

  lemma MulPositive(a: nat, b: nat)
    requires a > 0 && b > 0
    ensures a * b > 0
  {
  }

  /** A dict with at least one entry is a row that is not empty. */
  lemma NonEmptyDictIsRow(v: PyValue)
    requires v.Dict? && v.entries != map[]
    ensures IsFillRowType(v) && !IsEmpty(v)
  {
    assert |v.entries| > 0 by {
      var k :| k in v.entries;
    }
  }

  /** The documented outcomes of the validators. */
  lemma ValidatorExamples()
    ensures IsFillRowType(Series(map["0" := Int(1), "1" := Int(2), "2" := Int(3)]))
    ensures IsFillRowType(Dict(map["a" := Scalar(Int(1)), "b" := Scalar(Int(2)), "c" := Scalar(Int(3))]))
    ensures !IsFillRowType(Scalar(Int(123)))
    ensures IsFillRowsType(Frame(3, 2))
    ensures IsFillRowsType(Dict(map["A" := Dict(map["1" := Scalar(Int(1))]), "B" := Dict(map["2" := Scalar(Int(2))])]))
    ensures !IsFillRowsType(Dict(map["A" := Listing([Scalar(Int(1)), Scalar(Int(2)), Scalar(Int(3))])]))
    ensures IsFillRowsType(Dict(map[]))
    ensures IsEmpty(Frame(0, 0)) && IsEmpty(Series(map[])) && IsEmpty(Dict(map[]))
    ensures !IsEmpty(Dict(map["A" := Scalar(Int(1)), "B" := Scalar(Int(2))]))
    ensures !IsEmpty(Scalar(Null)) && !IsEmpty(Listing([]))
  {
    var d := map["A" := Listing([Scalar(Int(1)), Scalar(Int(2)), Scalar(Int(3))])];
    assert "A" in d && !d["A"].Dict?;
    var e := map["A" := Scalar(Int(1)), "B" := Scalar(Int(2))];
    assert "A" in e;
  }

  /** On a bare file name the rule looks at the name itself. */
  lemma PlainTemplateName(n: string)
    requires n != [] && n != "." && NoSep(n)
    ensures IsTemplateType(n) <==> HasTemplateExtension(n)
  {
    NameOfPlainName(n);
  }

  /** A documented outcome: a Word document name is a template name. */
  lemma DocumentIsTemplate()
    ensures IsTemplateType("document.docx")
  {
    var n := "document.docx";
    assert NoSep(n) && HasTemplateExtension(n);
    PlainTemplateName(n);
  }

  /** A documented outcome: backslashes are not separators here, and the name still ends in `.docx`. */
  lemma WindowsPathIsTemplate()
    ensures IsTemplateType("c:\\dev\\doc.docx")
  {
    var n := "c:\\dev\\doc.docx";
    assert NoSep(n) && HasTemplateExtension(n);
    PlainTemplateName(n);
  }

  /** A documented outcome: a workbook name is a template name. */
  lemma SpreadsheetIsTemplate()
    ensures IsTemplateType("spreadsheet.xlsx")
  {
    var n := "spreadsheet.xlsx";
    assert NoSep(n) && HasTemplateExtension(n);
    PlainTemplateName(n);
  }

  /** A documented outcome: any other extension is refused. */
  lemma ImageIsNotTemplate()
    ensures !IsTemplateType("image.png")
  {
    var n := "image.png";
    assert n[|n| - 5..] == "e.png";
    assert NoSep(n) && !HasTemplateExtension(n);
    PlainTemplateName(n);
  }

  /** A hidden file called `.docx` has no suffix at all. */
  lemma HiddenDocxIsNotTemplate()
    ensures !IsTemplateType(".docx")
  {
    var n := ".docx";
    assert NoSep(n) && !HasTemplateExtension(n);
    PlainTemplateName(n);
  }

  /** A name ending in `odocx` has the suffix `.odocx`, which is refused. */
  lemma OtherEndingIsNotTemplate()
    ensures !IsTemplateType("notes.odocx")
  {
    var n := "notes.odocx";
    assert n[|n| - 5..] == "odocx";
    assert NoSep(n) && !HasTemplateExtension(n);
    PlainTemplateName(n);
  }

  /** The comparison is case-sensitive. */
  lemma UpperCaseIsNotTemplate()
    ensures !IsTemplateType("report.DOCX")
  {
    var n := "report.DOCX";
    assert n[|n| - 5..] == ".DOCX";
    assert NoSep(n) && !HasTemplateExtension(n);
    PlainTemplateName(n);
  }

  /** A trailing separator is ignored: the name of `out/report.docx/` is `report.docx`. */
  lemma TrailingSepTemplate()
    ensures IsTemplateType("out/report.docx/")
  {
    var n := "report.docx";
    assert NoSep(n) && HasTemplateExtension(n);
    var p := "out" + [Sep] + n;
    assert "out/report.docx/" == p + [Sep];
    NameOfTrailingSep(p);
    NameAfterSep("out", n);
  }
}

/** The older tree's validators. */
module LegacyChecks {
  import opened Values
  import opened PosixPath
  import Checks

  /** A record the older filler accepts as one row: a dict or a Series. */
  predicate IsRecord(v: PyValue) {
    v.Dict? || v.Series?
  }

  /** A dict whose every value is a record. */
  predicate IsDictOfRecords(v: PyValue) {
    v.Dict? && forall k :: k in v.entries ==> IsRecord(v.entries[k])
  }

  /**
   * `check_fill_datas_of_dict_type`: reject a non-dict, then look at the
   * dict's values one by one and stop at the first that is not a record.
   */
  method CheckFillDatasOfDictType(value: PyValue) returns (r: bool)
    ensures r <==> IsDictOfRecords(value)
  {
    if !value.Dict? {
      return false;
    }
    var unseen := value.entries.Keys;
    while unseen != {}
      invariant unseen <= value.entries.Keys
      invariant forall k :: k in value.entries && k !in unseen ==> IsRecord(value.entries[k])
      decreases |unseen|
    {
      var k :| k in unseen;
      if !IsRecord(value.entries[k]) {
        return false;
      }
      unseen := unseen - {k};
    }
    return true;
  }

  /** `check_template_type`: the same suffix rule as the current tree's `is_template_type`. */
  function CheckTemplateType(filename: string): (r: bool)
    ensures r <==> Checks.HasTemplateExtension(Name(filename))
  {
    Checks.IsTemplateType(filename)
  }

  /**
   * Every rows-typed dict of the current tree passes the older check, but not
   * conversely: a dict of Series passes the older check only.
   */
  lemma RowsDictsAreDictsOfRecords(v: PyValue)
    ensures Checks.IsFillRowsType(v) && v.Dict? ==> IsDictOfRecords(v)
    ensures var s := Dict(map["c" := Series(map[])]);
      IsDictOfRecords(s) && !Checks.IsFillRowsType(s)
  {
    var m := map["c" := Series(map[])];
    assert "c" in m && !m["c"].Dict?;
  }

  /** The documented outcomes of `check_fill_datas_of_dict_type`, and the empty dict. */
  lemma DictOfRecordsExamples()
    ensures IsDictOfRecords(Dict(map["a" := Dict(map["b" := Scalar(Int(1))]), "c" := Series(map["0" := Int(1)])]))
    ensures !IsDictOfRecords(Dict(map["a" := Dict(map["b" := Scalar(Int(1))]), "c" := Listing([Scalar(Int(1))])]))
    ensures !IsDictOfRecords(Dict(map["a" := Scalar(Int(1))]))
    ensures !IsDictOfRecords(Scalar(Str("a")))
    ensures IsDictOfRecords(Dict(map[]))
  {
    var d := map["a" := Dict(map["b" := Scalar(Int(1))]), "c" := Listing([Scalar(Int(1))])];
    assert "c" in d && !IsRecord(d["c"]);
    var e := map["a" := Scalar(Int(1))];
    assert "a" in e && !IsRecord(e["a"]);
  }
}
