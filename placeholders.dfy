/**
 * The `{{key}}` placeholder syntax shared by both spreadsheet fillers, and
 * `is_only_placeholder`, the full-match test for `^\{\{[\w\u4e00-\u9fa5]+\}\}$`.
 */
module Placeholders {
  import opened Strings

  const Braces: set<char> := {'{', '}'}

  /** A character the pattern's class `[\w\u4e00-\u9fa5]` admits. */
  predicate IsWordChar(c: char) {
    || ('a' <= c <= 'z')
    || ('A' <= c <= 'Z')
    || ('0' <= c <= '9')
    || c == '_'
    || ('\U{4E00}' <= c <= '\U{9FA5}')
  }

  /** A placeholder key: one or more word characters. */
  predicate IsKey(k: string) {
    |k| > 0 && forall i :: 0 <= i < |k| ==> IsWordChar(k[i])
  }

  /** The literal text `{{key}}`. */
  function Placeholder(key: string): (p: string)
    ensures |p| == |key| + 4
  {
    "{{" + key + "}}"
  }

  /** `is_only_placeholder(s)`: the whole of `s` is `{{`, a run of word characters, `}}`. */
  predicate IsOnlyPlaceholder(s: string) {
    && |s| >= 5
    && s[..2] == "{{"
    && s[|s| - 2..] == "}}"
    && forall i :: 2 <= i < |s| - 2 ==> IsWordChar(s[i])
  }

  lemma WordCharIsNotBrace(c: char)
    requires IsWordChar(c)
    ensures c !in Braces && c != '{' && c != '}'
  {
  }

  /** Keys carry no brace, so stripping braces around a placeholder gives the key back. */
  lemma StripPlaceholder(k: string)
    requires IsKey(k)
    ensures Strip(Placeholder(k), Braces) == k
  {
    WordCharIsNotBrace(k[0]);
    WordCharIsNotBrace(k[|k| - 1]);
    assert Placeholder(k) == "{{" + k + "}}";
    StripExact("{{", k, "}}", Braces);
  }

  /**
   * `is_only_placeholder` holds exactly of the strings `{{k}}` with `k` a key:
   * both directions of the full match.
   */
  lemma PlaceholderShape(s: string, k: string)
    ensures IsOnlyPlaceholder(s) ==> |s| >= 5 && IsKey(s[2..|s| - 2]) && s == Placeholder(s[2..|s| - 2])
    ensures IsKey(k) ==> IsOnlyPlaceholder(Placeholder(k))
  {
    if IsOnlyPlaceholder(s) {
      var m := s[2..|s| - 2];
      assert forall i :: 0 <= i < |m| ==> m[i] == s[i + 2];
      assert s == s[..2] + m + s[|s| - 2..];
    }
    if IsKey(k) {
      var p := Placeholder(k);
      assert p[..2] == "{{";
      assert p[|p| - 2..] == "}}";
      assert forall i :: 2 <= i < |p| - 2 ==> p[i] == k[i - 2];
    }
  }

  /** The four documented outcomes of `is_only_placeholder`. */
  lemma PlaceholderExamples()
    ensures IsOnlyPlaceholder("{{AA}}")
    ensures IsOnlyPlaceholder("{{\U{7F16}\U{53F7}}}")
    ensures IsOnlyPlaceholder("{{a_001}}")
    ensures !IsOnlyPlaceholder("{{AA}}BC")
  {
    var s := "{{AA}}BC";
    assert s[|s| - 2..] == "BC";
  }

  /** A placeholder followed by more text is never the whole cell. */
  lemma PlaceholderWithTailIsNotOnly(k: string, b: string)
    requires b != []
    ensures !IsOnlyPlaceholder(Placeholder(k) + b)
  {
    var s := Placeholder(k) + b;
    assert s[|k| + 2] == '}';
    if IsOnlyPlaceholder(s) {
      assert 2 <= |k| + 2 < |s| - 2;
    }
  }
}
