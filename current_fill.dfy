/**
 * The spreadsheet filler of the current tree: the key of a cell is taken from
 * its first `{{ ... }}` pair, a cell that is exactly one placeholder takes the
 * row's value with its own type, and any other cell has `{{key}}` replaced by
 * the value's text (or by nothing when the value counts as empty).
 *
 * The emptiness test is imported from the sibling module `_utils.py`, which
 * does not define it (the `is_empty` of `_check.py` is a different module's),
 * so it is the parameter `isEmpty`.
 */
module CurrentFill {
  import opened Strings
  import opened Values
  import opened Placeholders
  import Workbook

  /** `remove_before(s, spec)`: `s` from the first occurrence of `spec` on. */
  function RemoveBefore(s: string, spec: string): (r: string)
    ensures |r| <= |s| && r == s[|s| - |r|..]
  {
    var idx := Find(s, spec);
    if idx == -1 then s else s[idx..]
  }

  /**
   * remove_before keeps `s` whole when `spec` does not occur, and otherwise
   * cuts exactly up to the first occurrence.
   */
  lemma RemoveBeforeFirst(s: string, spec: string)
    ensures !Contains(s, spec) ==> RemoveBefore(s, spec) == s
    ensures Contains(s, spec) ==>
      var d := |s| - |RemoveBefore(s, spec)|;
      OccursAt(s, spec, d) && NoneBetween(s, spec, 0, d)
  {
    FindFirst(s, spec);
  }

  /** `remove_after(s, spec)`: `s` up to and including the first occurrence of `spec`. */
  function RemoveAfter(s: string, spec: string): (r: string)
    ensures |r| <= |s| && r == s[..|r|]
  {
    var idx := Find(s, spec);
    if idx == -1 then s else s[..idx + |spec|]
  }

  /**
   * remove_after keeps `s` whole when `spec` does not occur, and otherwise
   * cuts exactly after the first occurrence.
   */
  lemma RemoveAfterFirst(s: string, spec: string)
    ensures !Contains(s, spec) ==> RemoveAfter(s, spec) == s
    ensures Contains(s, spec) ==>
      var e := |RemoveAfter(s, spec)| - |spec|;
      0 <= e && OccursAt(s, spec, e) && NoneBetween(s, spec, 0, e)
  {
    FindFirst(s, spec);
  }

  /** The key `fill_xlsx` reads out of a cell string. */
  function Key(cell: string): (r: string)
    ensures |r| <= |cell|
    ensures r == [] || (r[0] !in Braces && r[|r| - 1] !in Braces)
  {
    Strip(RemoveAfter(RemoveBefore(cell, "{{"), "}}"), Braces)
  }

  /** What an embedded placeholder turns into. */
  function Rendered(v: Value, isEmpty: Value -> bool): string {
    if isEmpty(v) then "" else Text(v)
  }

  /** The new value `fill_xlsx` gives one cell. */
  function RewriteCell(data: map<string, Value>, isEmpty: Value -> bool, v: Value): (r: Value)
    ensures !(v.Str? && Contains(v.s, "{{")) ==> r == v
    ensures v.Str? && Key(v.s) !in data ==> r == v
    ensures r != v && !IsOnlyPlaceholder(v.s) ==> r.Str?
  {
    if v.Str? && Contains(v.s, "{{") then
      var key := Key(v.s);
      if key in data then
        if IsOnlyPlaceholder(v.s) then data[key]
        else Str(Replace(v.s, Placeholder(key), Rendered(data[key], isEmpty)))
      else v
    else v
  }

  /** `fill_xlsx` on a loaded workbook: every cell of every sheet is rewritten once. */
  method FillXlsx(book: seq<Workbook.Sheet>, data: map<string, Value>, isEmpty: Value -> bool)
    requires Workbook.DistinctSheets(book)
    modifies set sheet | sheet in book
    ensures forall k, i, j :: 0 <= k < |book| && 0 <= i < book[k].Length0 && 0 <= j < book[k].Length1 ==>
      book[k][i, j] == RewriteCell(data, isEmpty, old(book[k][i, j]))
  {
    Workbook.RewriteBook(book, c => RewriteCell(data, isEmpty, c));
  }

  /**
   * The key of a cell whose first `{{` opens the placeholder `{{k}}` is `k`,
   * whatever text follows it.
   */
  lemma KeyOfFirstPlaceholder(a: string, k: string, b: string)
    requires forall i :: 0 <= i < |a| ==> a[i] != '{'
    requires IsKey(k)
    ensures Key(a + Placeholder(k) + b) == k
  {
    var p := Placeholder(k);
    FirstOpenIsPlaceholder(a, k, b);
    FirstCloseEndsPlaceholder(k, b);
    StripPlaceholder(k);
  }

  /** The first `{{` of `a + {{k}} + b`, with no `{` in `a`, opens the placeholder. */
  lemma FirstOpenIsPlaceholder(a: string, k: string, b: string)
    requires forall i :: 0 <= i < |a| ==> a[i] != '{'
    requires IsKey(k)
    ensures RemoveBefore(a + Placeholder(k) + b, "{{") == Placeholder(k) + b
  {
    var p := Placeholder(k);
    var s := a + p + b;
    OpensPlaceholder(a, k, b);
    RemoveBeforeFirst(s, "{{");
    var r1 := RemoveBefore(s, "{{");
    var d := |s| - |r1|;
    assert d <= |a| by {
      assert !(|a| < d && NoneBetween(s, "{{", 0, d));
    }
    assert d == |a| by {
      assert s[d..d + 2] == "{{";
      assert s[d] == s[d..d + 2][0] == '{';
      assert forall j :: 0 <= j < |a| ==> s[j] == a[j];
    }
    assert s[|a|..] == p + b;
  }

  /** The first `}}` of `{{k}} + b` closes the placeholder. */
  lemma FirstCloseEndsPlaceholder(k: string, b: string)
    requires IsKey(k)
    ensures RemoveAfter(Placeholder(k) + b, "}}") == Placeholder(k)
  {
    var p := Placeholder(k);
    var t := p + b;
    assert OccursAt(t, "}}", |k| + 2) by {
      assert t[|k| + 2..|k| + 4] == p[|k| + 2..];
    }
    RemoveAfterFirst(t, "}}");
    var r2 := RemoveAfter(t, "}}");
    var e := |r2| - 2;
    assert e <= |k| + 2 by {
      assert !(|k| + 2 < e && NoneBetween(t, "}}", 0, e));
    }
    assert e == |k| + 2 by {
      assert t[e..e + 2] == "}}";
      assert t[e] == t[e..e + 2][0] == '}';
      assert t[0] == t[1] == '{';
      forall j | 2 <= j < |k| + 2
        ensures t[j] != '}'
      {
        assert t[j] == k[j - 2];
        WordCharIsNotBrace(k[j - 2]);
      }
    }
    assert t[..|k| + 4] == p;
  }

  /** A cell that is exactly `{{k}}`, with `k` in the row, takes the row's value itself. */
  lemma SinglePlaceholderTakesValue(data: map<string, Value>, isEmpty: Value -> bool, k: string)
    requires IsKey(k) && k in data
    ensures RewriteCell(data, isEmpty, Str(Placeholder(k))) == data[k]
  {
    OnlyPlaceholderCell(k);
    ValuePathTaken(data, isEmpty, Placeholder(k));
  }

  /** A cell that is exactly `{{k}}` has key `k` and takes the value path. */
  lemma OnlyPlaceholderCell(k: string)
    requires IsKey(k)
    ensures var p := Placeholder(k);
      Contains(p, "{{") && Key(p) == k && IsOnlyPlaceholder(p)
  {
    var p := Placeholder(k);
    assert OccursAt(p, "{{", 0) by {
      assert p[0..2] == "{{";
    }
    KeyOfPlaceholder(k);
    PlaceholderShape(p, k);
  }

  /** The key of the cell `{{k}}` is `k`. */
  lemma KeyOfPlaceholder(k: string)
    requires IsKey(k)
    ensures Key(Placeholder(k)) == k
  {
    var p := Placeholder(k);
    assert [] + p + [] == p;
    KeyOfFirstPlaceholder([], k, []);
  }

  /**
   * A cell holding `{{k}}` among other text (and no `{` before it) has that
   * placeholder and every later one of the same key replaced by the
   * rendered value; everything else is kept and the cell stays a string.
   */
  lemma EmbeddedPlaceholderIsReplaced(data: map<string, Value>, isEmpty: Value -> bool, a: string, k: string, b: string)
    requires forall i :: 0 <= i < |a| ==> a[i] != '{'
    requires IsKey(k) && k in data
    requires a != [] || b != []
    ensures var rendered := Rendered(data[k], isEmpty);
      RewriteCell(data, isEmpty, Str(a + Placeholder(k) + b))
        == Str(a + rendered + Replace(b, Placeholder(k), rendered))
  {
    var p := Placeholder(k);
    var s := a + p + b;
    var rendered := Rendered(data[k], isEmpty);
    EmbeddedPlaceholderCell(a, k, b);
    ReplaceAfterPlainPrefix(a, p, b, rendered);
    TextPathTaken(data, isEmpty, s);
  }

  /** A cell with `{{k}}` among other text, and no `{` before it, has key `k` and takes the text path. */
  lemma EmbeddedPlaceholderCell(a: string, k: string, b: string)
    requires forall i :: 0 <= i < |a| ==> a[i] != '{'
    requires IsKey(k)
    requires a != [] || b != []
    ensures var s := a + Placeholder(k) + b;
      Contains(s, "{{") && Key(s) == k && !IsOnlyPlaceholder(s)
  {
    OpensPlaceholder(a, k, b);
    KeyOfFirstPlaceholder(a, k, b);
    EmbeddedIsNotOnly(a, k, b);
  }

  /** `{{` occurs where the placeholder starts. */
  lemma OpensPlaceholder(a: string, k: string, b: string)
    ensures OccursAt(a + Placeholder(k) + b, "{{", |a|)
    ensures Contains(a + Placeholder(k) + b, "{{")
  {
    var p := Placeholder(k);
    var s := a + p + b;
    assert s[|a|..|a| + 2] == p[0..2];
    assert OccursAt(s, "{{", |a|);
  }

  lemma ValuePathTaken(data: map<string, Value>, isEmpty: Value -> bool, s: string)
    requires Contains(s, "{{") && Key(s) in data && IsOnlyPlaceholder(s)
    ensures RewriteCell(data, isEmpty, Str(s)) == data[Key(s)]
  {
  }

  lemma TextPathTaken(data: map<string, Value>, isEmpty: Value -> bool, s: string)
    requires Contains(s, "{{") && Key(s) in data && !IsOnlyPlaceholder(s)
    ensures RewriteCell(data, isEmpty, Str(s))
      == Str(Replace(s, Placeholder(Key(s)), Rendered(data[Key(s)], isEmpty)))
  {
  }

  lemma EmbeddedIsNotOnly(a: string, k: string, b: string)
    requires forall i :: 0 <= i < |a| ==> a[i] != '{'
    requires a != [] || b != []
    ensures !IsOnlyPlaceholder(a + Placeholder(k) + b)
  {
    var s := a + Placeholder(k) + b;
    if a != [] {
      assert s[0] == a[0];
    } else {
      assert s == Placeholder(k) + b;
      PlaceholderWithTailIsNotOnly(k, b);
    }
  }

  /** replace on `a + p + b` where `a` has no `{` and `p` starts with `{`. */
  lemma ReplaceAfterPlainPrefix(a: string, p: string, b: string, rep: string)
    requires forall i :: 0 <= i < |a| ==> a[i] != '{'
    requires |p| > 0 && p[0] == '{'
    ensures Replace(a + p + b, p, rep) == a + rep + Replace(b, p, rep)
  {
    assert a + p + b == a + (p + b);
    ReplaceKeepsPrefix(a, p + b, p, rep);
    assert (p + b)[..|p|] == p;
    ReplaceAtStart(p + b, p, rep);
    assert (p + b)[|p|..] == b;
  }

  /**
   * Only the first key of a cell is resolved: in `{{A}}{{B}}` the `{{A}}` is
   * replaced and the `{{B}}` stays as it was.
   */
  lemma OneKeyPerCell(data: map<string, Value>, isEmpty: Value -> bool, ka: string, kb: string)
    requires IsKey(ka) && IsKey(kb) && ka != kb && ka in data
    ensures RewriteCell(data, isEmpty, Str(Placeholder(ka) + Placeholder(kb)))
      == Str(Rendered(data[ka], isEmpty) + Placeholder(kb))
  {
    var pa, pb := Placeholder(ka), Placeholder(kb);
    var rendered := Rendered(data[ka], isEmpty);
    assert [] + pa + pb == pa + pb;
    assert [] + rendered + pb == rendered + pb;
    DistinctKeysDoNotOverlap(ka, kb);
    ReplaceNoOccurrence(pb, pa, rendered);
    EmbeddedPlaceholderIsReplaced(data, isEmpty, [], ka, pb);
  }

  /** The placeholder of one key never occurs inside the placeholder of another. */
  lemma DistinctKeysDoNotOverlap(ka: string, kb: string)
    requires IsKey(ka) && IsKey(kb) && ka != kb
    ensures !Contains(Placeholder(kb), Placeholder(ka))
  {
    var pa, pb := Placeholder(ka), Placeholder(kb);
    forall i | 0 <= i <= |pb| - |pa|
      ensures !OccursAt(pb, pa, i)
    {
      if i == 0 {
        if |ka| < |kb| {
          assert pa[|ka| + 2] == '}';
          assert pb[|ka| + 2] == kb[|ka|];
          WordCharIsNotBrace(kb[|ka|]);
          assert pb[i..i + |pa|][|ka| + 2] != pa[|ka| + 2];
        } else {
          assert pa[2..|pa| - 2] == ka;
          assert pb[2..|pb| - 2] == kb;
          assert pb[i..i + |pa|] == pb;
        }
      } else if i == 1 {
        assert pb[2] == kb[0];
        WordCharIsNotBrace(kb[0]);
        assert pb[i..i + |pa|][1] != pa[1];
      } else {
        assert pb[i] == kb[i - 2];
        WordCharIsNotBrace(kb[i - 2]);
        assert pb[i..i + |pa|][0] != pa[0];
      }
    }
  }

  /**
   * Each cell must be rewritten exactly once: a second pass over
   * `{{A}}{{B}}` would go on to resolve `B` as well.
   */
  lemma SecondPassWouldResolveMore(data: map<string, Value>, isEmpty: Value -> bool, ka: string, kb: string)
    requires IsKey(ka) && IsKey(kb) && ka != kb && ka in data && kb in data
    requires Rendered(data[ka], isEmpty) != []
    requires forall i :: 0 <= i < |Rendered(data[ka], isEmpty)| ==> Rendered(data[ka], isEmpty)[i] != '{'
    ensures var once := RewriteCell(data, isEmpty, Str(Placeholder(ka) + Placeholder(kb)));
      && once == Str(Rendered(data[ka], isEmpty) + Placeholder(kb))
      && RewriteCell(data, isEmpty, once) == Str(Rendered(data[ka], isEmpty) + Rendered(data[kb], isEmpty))
  {
    var ra, rb := Rendered(data[ka], isEmpty), Rendered(data[kb], isEmpty);
    var pb := Placeholder(kb);
    assert ra + pb + [] == ra + pb;
    assert ra + rb + [] == ra + rb;
    assert Replace([], pb, rb) == [];
    OneKeyPerCell(data, isEmpty, ka, kb);
    EmbeddedPlaceholderIsReplaced(data, isEmpty, ra, kb, []);
  }
}
