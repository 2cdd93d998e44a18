/** The template resolver: an expectation string may carry a wildcard
    placeholder introduced by a double opening brace; only the literal text
    before it, trimmed, is compared against the configuration
    (main.py:39). */
module TemplateResolver {
  import opened Strings

  /** The wildcard delimiter, two opening braces, starts at index `k` of `s`. */
  predicate DelimiterAt(s: string, k: int) {
    0 <= k && k + 1 < |s| && s[k] == '{' && s[k + 1] == '{'
  }

  predicate HasDelimiter(s: string) {
    exists k :: 0 <= k < |s| && DelimiterAt(s, k)
  }

  /** Python's `s.split('{{')[0]`: the text before the first delimiter,
      or all of `s` when there is none. */
  function BeforeDelimiter(s: string): (r: string)
    ensures |r| <= |s| && r == s[..|r|]
    ensures forall k :: 0 <= k < |r| ==> !DelimiterAt(s, k)
    ensures |r| == |s| || DelimiterAt(s, |r|)
  {
    if |s| < 2 then s
    else if s[0] == '{' && s[1] == '{' then []
    else
      var t := BeforeDelimiter(s[1..]);
      assert forall k :: 1 <= k <= |t| ==> DelimiterAt(s, k) == DelimiterAt(s[1..], k - 1);
      [s[0]] + t
  }

  /** The match prefix of an expectation: the segment before the first
      delimiter, stripped of surrounding whitespace. */
  function MatchPrefix(expectation: string): (p: string)
    ensures Trimmed(p)
    ensures |p| <= |expectation|
  {
    Strip(BeforeDelimiter(expectation))
  }

  /** An expectation that does not begin with whitespace starts with its
      own match prefix: the prefix is a leading segment of it. */
  lemma StartsWithOwnPrefix(expectation: string)
    requires expectation == [] || !IsSpace(expectation[0])
    ensures StartsWith(expectation, MatchPrefix(expectation))
  {
    var b := BeforeDelimiter(expectation);
    assert TrimStart(b) == b;
    TrimEndCuts(b);
    var r := TrimEnd(b);
    assert MatchPrefix(expectation) == r;
    assert r == expectation[..|r|];
  }

  /** Without a delimiter the whole expectation, stripped, is the prefix. */
  lemma MatchPrefixOfPlain(expectation: string)
    requires !HasDelimiter(expectation)
    ensures MatchPrefix(expectation) == Strip(expectation)
  {
    var b := BeforeDelimiter(expectation);
    assert b == expectation[..|expectation|] == expectation;
  }

  /** A template written as literal text, the delimiter and a placeholder
      resolves to the stripped literal, provided the literal neither holds
      a delimiter nor ends in a brace that would pair with the first
      brace of the delimiter. */
  lemma BeforeDelimiterOfTemplate(literal: string, placeholder: string)
    requires !HasDelimiter(literal + "{")
    ensures BeforeDelimiter(literal + "{{" + placeholder) == literal
  {
    var s := literal + "{{" + placeholder;
    var r := BeforeDelimiter(s);
    assert DelimiterAt(s, |literal|);
    if |r| < |literal| {
      assert DelimiterAt(s, |r|);
      assert DelimiterAt(literal + "{", |r|);
      assert false;
    }
    assert s[..|literal|] == literal;
  }

  lemma MatchPrefixOfTemplate(literal: string, placeholder: string)
    requires !HasDelimiter(literal + "{")
    ensures MatchPrefix(literal + "{{" + placeholder) == Strip(literal)
  {
    BeforeDelimiterOfTemplate(literal, placeholder);
  }

  /** Text that has no opening brace before its last character cannot
      hold the delimiter. */
  lemma NoBraceNoDelimiter(s: string)
    requires forall i :: 0 <= i < |s| - 1 ==> s[i] != '{'
    ensures !HasDelimiter(s)
  {
  }

  /** The usual shape of a template, a keyword, one space and the
      placeholder, resolves to the keyword. */
  lemma MatchPrefixOfKeywordTemplate(keyword: string, placeholder: string)
    requires Trimmed(keyword) && forall i :: 0 <= i < |keyword| ==> keyword[i] != '{'
    ensures MatchPrefix(keyword + " {{" + placeholder) == keyword
  {
    var literal := keyword + " ";
    NoBraceNoDelimiter(literal + "{");
    assert literal + "{{" + placeholder == keyword + " {{" + placeholder;
    MatchPrefixOfTemplate(literal, placeholder);
    assert literal == [] + keyword + " ";
    StripUnique([], keyword, " ");
  }

  /** An interface template resolves to the keyword `interface`. */
  lemma InterfaceTemplateExample(template: string)
    requires template == "interface {{name}}"
    ensures MatchPrefix(template) == "interface"
  {
    assert template == "interface" + " {{" + "name}}";
    MatchPrefixOfKeywordTemplate("interface", "name}}");
  }
}
