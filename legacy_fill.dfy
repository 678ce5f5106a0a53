/**
 * The spreadsheet filler of the older tree. It differs from the current one
 * in two ways: the key is the whole cell with its outer braces stripped, and
 * an embedded placeholder is always replaced by the value's text, with no
 * special case for empty values.
 */
module LegacyFill {
  import opened Strings
  import opened Values
  import opened Placeholders
  import CurrentFill
  import Workbook

  /** The key the older `fill_xlsx` reads out of a cell string. */
  function Key(cell: string): (r: string)
    ensures |r| <= |cell|
    ensures r == [] || (r[0] !in Braces && r[|r| - 1] !in Braces)
  {
    Strip(cell, Braces)
  }

  /** The new value the older `fill_xlsx` gives one cell. */
  function RewriteCell(data: map<string, Value>, v: Value): (r: Value)
    ensures !(v.Str? && Contains(v.s, "{{")) ==> r == v
    ensures v.Str? && Key(v.s) !in data ==> r == v
    ensures r != v && !IsOnlyPlaceholder(v.s) ==> r.Str?
  {
    if v.Str? && Contains(v.s, "{{") then
      var key := Key(v.s);
      if key in data then
        if IsOnlyPlaceholder(v.s) then data[key]
        else Str(Replace(v.s, Placeholder(key), Text(data[key])))
      else v
    else v
  }

  /** The older `fill_xlsx` on a loaded workbook: every cell of every sheet is rewritten once. */
  method FillXlsx(book: seq<Workbook.Sheet>, data: map<string, Value>)
    requires Workbook.DistinctSheets(book)
    modifies set sheet | sheet in book
    ensures forall k, i, j :: 0 <= k < |book| && 0 <= i < book[k].Length0 && 0 <= j < book[k].Length1 ==>
      book[k][i, j] == RewriteCell(data, old(book[k][i, j]))
  {
    Workbook.RewriteBook(book, c => RewriteCell(data, c));
  }

  lemma TextPathTaken(data: map<string, Value>, s: string)
    requires Contains(s, "{{") && Key(s) in data && !IsOnlyPlaceholder(s)
    ensures RewriteCell(data, Str(s)) == Str(Replace(s, Placeholder(Key(s)), Text(data[Key(s)])))
  {
  }

  /** A cell that is exactly `{{k}}`, with `k` in the row, takes the row's value itself. */
  lemma SinglePlaceholderTakesValue(data: map<string, Value>, k: string)
    requires IsKey(k) && k in data
    ensures RewriteCell(data, Str(Placeholder(k))) == data[k]
  {
    var p := Placeholder(k);
    StripPlaceholder(k);
    assert p[0..2] == "{{";
    assert OccursAt(p, "{{", 0);
    PlaceholderShape(p, k);
  }

  /** On a cell that is exactly one placeholder the two fillers agree. */
  lemma VariantsAgreeOnSinglePlaceholder(data: map<string, Value>, isEmpty: Value -> bool, k: string)
    requires IsKey(k)
    ensures RewriteCell(data, Str(Placeholder(k))) == CurrentFill.RewriteCell(data, isEmpty, Str(Placeholder(k)))
  {
    var p := Placeholder(k);
    if k in data {
      SinglePlaceholderTakesValue(data, k);
      CurrentFill.SinglePlaceholderTakesValue(data, isEmpty, k);
    } else {
      StripPlaceholder(k);
      CurrentFill.OnlyPlaceholderCell(k);
    }
  }

  /**
   * The older filler never changes a cell whose first character is not a
   * brace: stripping braces leaves the whole text before the closing braces
   * as the key, and `{{key}}` cannot occur in the cell.
   */
  lemma NoLeadingBraceUnchanged(data: map<string, Value>, s: string)
    requires |s| > 0 && s[0] !in Braces
    ensures RewriteCell(data, Str(s)) == Str(s)
  {
    if Contains(s, "{{") && Key(s) in data {
      var key := Key(s);
      KeyIsHead(s);
      OwnPlaceholderAbsent(s, key);
      assert s[..2][0] == s[0];
      assert !IsOnlyPlaceholder(s);
      ReplaceNoOccurrence(s, Placeholder(key), Text(data[key]));
      TextPathTaken(data, s);
    }
  }

  /** Without a leading brace, the key is a nonempty head of the cell followed only by braces. */
  lemma KeyIsHead(s: string)
    requires |s| > 0 && s[0] !in Braces
    ensures var key := Key(s);
      && 0 < |key| <= |s| && key == s[..|key|] && AllIn(s[|key|..], Braces)
      && key[|key| - 1] !in Braces
  {
    LStripExact([], s, Braces);
    assert [] + s == s;
    var key := RStrip(s, Braces);
    assert Key(s) == key;
  }

  /** `{{key}}` cannot occur in a cell made of `key` and then only braces. */
  lemma OwnPlaceholderAbsent(s: string, key: string)
    requires 0 < |key| <= |s| && key == s[..|key|] && AllIn(s[|key|..], Braces)
    requires s[0] !in Braces && key[|key| - 1] !in Braces
    ensures !Contains(s, Placeholder(key))
  {
    var m := |key|;
    var p := Placeholder(key);
    forall i | 0 <= i <= |s| - |p|
      ensures !OccursAt(s, p, i)
    {
      if i == 0 {
        assert s[i..i + |p|][0] != p[0];
      } else {
        // The key's last character would land among the closing braces.
        var at := i + 1 + m;
        assert m < at < |s|;
        assert s[m..][at - m] == s[at];
        assert p[m + 1] == key[m - 1] == s[m - 1];
        assert s[i..i + |p|][m + 1] != p[m + 1];
      }
    }
  }

  /**
   * A placeholder preceded by text, such as `Name: {{name}}`, is filled by
   * the current filler and left alone by the older one.
   */
  lemma PrefixedPlaceholderOnlyFilledByCurrent(data: map<string, Value>, isEmpty: Value -> bool, a: string, k: string)
    requires a != [] && a[0] !in Braces && forall i :: 0 <= i < |a| ==> a[i] != '{'
    requires IsKey(k) && k in data
    ensures RewriteCell(data, Str(a + Placeholder(k))) == Str(a + Placeholder(k))
    ensures CurrentFill.RewriteCell(data, isEmpty, Str(a + Placeholder(k)))
      == Str(a + CurrentFill.Rendered(data[k], isEmpty))
  {
    var s := a + Placeholder(k);
    assert s[0] == a[0];
    NoLeadingBraceUnchanged(data, s);
    assert a + Placeholder(k) + [] == s;
    assert Replace([], Placeholder(k), CurrentFill.Rendered(data[k], isEmpty)) == [];
    assert a + CurrentFill.Rendered(data[k], isEmpty) + [] == a + CurrentFill.Rendered(data[k], isEmpty);
    CurrentFill.EmbeddedPlaceholderIsReplaced(data, isEmpty, a, k, []);
  }

  /**
   * When a placeholder is followed only by closing braces both fillers read
   * the same key, and they then differ exactly in the empty-value case: the
   * current filler writes nothing, the older one writes the value's text.
   */
  lemma EmptyValueHandlingDiffers(data: map<string, Value>, isEmpty: Value -> bool, k: string, t: string)
    requires IsKey(k) && k in data
    requires t != [] && forall i :: 0 <= i < |t| ==> t[i] == '}'
    ensures RewriteCell(data, Str(Placeholder(k) + t)) == Str(Text(data[k]) + t)
    ensures CurrentFill.RewriteCell(data, isEmpty, Str(Placeholder(k) + t))
      == Str(CurrentFill.Rendered(data[k], isEmpty) + t)
  {
    LegacyFillsBraceTail(data, k, t);
    CurrentFillsBraceTail(data, isEmpty, k, t);
  }

  /** A run of closing braces holds no placeholder. */
  lemma BraceTailHasNoPlaceholder(k: string, t: string)
    requires IsKey(k)
    requires forall i :: 0 <= i < |t| ==> t[i] == '}'
    ensures !Contains(t, Placeholder(k))
  {
    var p := Placeholder(k);
    forall i | 0 <= i <= |t| - |p|
      ensures !OccursAt(t, p, i)
    {
      assert t[i..i + |p|][0] != p[0];
    }
  }

  /** The older filler on `{{k}}` followed by closing braces. */
  lemma LegacyFillsBraceTail(data: map<string, Value>, k: string, t: string)
    requires IsKey(k) && k in data
    requires t != [] && forall i :: 0 <= i < |t| ==> t[i] == '}'
    ensures RewriteCell(data, Str(Placeholder(k) + t)) == Str(Text(data[k]) + t)
  {
    var p := Placeholder(k);
    var text := Text(data[k]);
    BraceTailCell(k, t);
    ReplaceBeforeBraceTail(k, t, text);
    TextPathTaken(data, p + t);
  }

  /** The older filler reads key `k` from `{{k}}` followed by closing braces, and takes the text path. */
  lemma BraceTailCell(k: string, t: string)
    requires IsKey(k)
    requires t != [] && forall i :: 0 <= i < |t| ==> t[i] == '}'
    ensures var s := Placeholder(k) + t;
      Contains(s, "{{") && Key(s) == k && !IsOnlyPlaceholder(s)
  {
    var s := Placeholder(k) + t;
    WordCharIsNotBrace(k[0]);
    WordCharIsNotBrace(k[|k| - 1]);
    assert AllIn(t, Braces);
    StripExact("{{", k, "}}" + t, Braces);
    assert "{{" + k + ("}}" + t) == s;
    CurrentFill.OpensPlaceholder([], k, t);
    assert [] + Placeholder(k) + t == s;
    PlaceholderWithTailIsNotOnly(k, t);
  }

  /** replace turns `{{k}}` followed by closing braces into the text followed by the same braces. */
  lemma ReplaceBeforeBraceTail(k: string, t: string, text: string)
    requires IsKey(k)
    requires forall i :: 0 <= i < |t| ==> t[i] == '}'
    ensures Replace(Placeholder(k) + t, Placeholder(k), text) == text + t
  {
    var p := Placeholder(k);
    BraceTailHasNoPlaceholder(k, t);
    ReplaceNoOccurrence(t, p, text);
    assert [] + p + t == p + t;
    CurrentFill.ReplaceAfterPlainPrefix([], p, t, text);
    assert [] + text + t == text + t;
  }

  /** The current filler on `{{k}}` followed by closing braces. */
  lemma CurrentFillsBraceTail(data: map<string, Value>, isEmpty: Value -> bool, k: string, t: string)
    requires IsKey(k) && k in data
    requires t != [] && forall i :: 0 <= i < |t| ==> t[i] == '}'
    ensures CurrentFill.RewriteCell(data, isEmpty, Str(Placeholder(k) + t))
      == Str(CurrentFill.Rendered(data[k], isEmpty) + t)
  {
    var p := Placeholder(k);
    var s := p + t;
    var rendered := CurrentFill.Rendered(data[k], isEmpty);
    assert [] + p + t == s;
    CurrentFill.EmbeddedPlaceholderCell([], k, t);
    ReplaceBeforeBraceTail(k, t, rendered);
    CurrentFill.TextPathTaken(data, isEmpty, s);
  }
}
