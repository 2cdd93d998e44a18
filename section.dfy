/** The section validator, `validate_section` (main.py:29-56): each
    expectation of one section is classified as matched or unmatched
    against the normalised configuration. */
module SectionValidator {
  import opened Strings
  import opened TemplateResolver

  /** The pair `(matched_lines, unmatched_lines)` returned for a section. */
  datatype SectionResult = SectionResult(matched: seq<string>, unmatched: seq<string>)

  /** The stripped text of the configuration lines that the anchored search
      for `prefix` finds (main.py:40-43), the search read as a literal
      start-of-line test. */
  function MatchingLines(config: seq<string>, prefix: string): seq<string>
    decreases |config|
  {
    if config == [] then []
    else
      var n := |config| - 1;
      MatchingLines(config[..n], prefix)
        + (if StartsWith(config[n], prefix) then [Strip(config[n])] else [])
  }

  /** Every line the search returns comes from a line starting with the prefix. */
  lemma {:induction false} MatchingLinesSound(config: seq<string>, prefix: string, j: nat)
    returns (i: nat)
    requires j < |MatchingLines(config, prefix)|
    ensures i < |config| && StartsWith(config[i], prefix)
    ensures MatchingLines(config, prefix)[j] == Strip(config[i])
    decreases |config|
  {
    var n := |config| - 1;
    var init := MatchingLines(config[..n], prefix);
    if j < |init| {
      i := MatchingLinesSound(config[..n], prefix, j);
    } else {
      i := n;
    }
  }

  /** Every line starting with the prefix is returned. */
  lemma {:induction false} MatchingLinesComplete(config: seq<string>, prefix: string, i: nat)
    requires i < |config| && StartsWith(config[i], prefix)
    ensures Strip(config[i]) in MatchingLines(config, prefix)
    decreases |config|
  {
    var n := |config| - 1;
    if i < n {
      MatchingLinesComplete(config[..n], prefix, i);
    }
  }

  /** The confirmation pass `any(prefix in line for line in lines)`
      (main.py:46-49). */
  predicate AnyContains(lines: seq<string>, prefix: string) {
    exists j :: 0 <= j < |lines| && Contains(lines[j], prefix)
  }

  /** Some line of `config` starts with `prefix`. */
  predicate SomeLineStartsWith(config: seq<string>, prefix: string) {
    exists i :: 0 <= i < |config| && StartsWith(config[i], prefix)
  }

  /** An expectation is satisfied when some configuration line starts with
      its match prefix. */
  predicate IsMatched(expectation: string, config: seq<string>) {
    SomeLineStartsWith(config, MatchPrefix(expectation))
  }

  /** The anchored search decides: once it has found a line, the substring
      confirmation always succeeds, so the two steps together say exactly
      that some line starts with the prefix. */
  lemma AnchoredFindDecides(config: seq<string>, expectation: string)
    ensures AnyContains(MatchingLines(config, MatchPrefix(expectation)), MatchPrefix(expectation))
            <==> IsMatched(expectation, config)
  {
    var p := MatchPrefix(expectation);
    var lines := MatchingLines(config, p);
    if AnyContains(lines, p) {
      var j :| 0 <= j < |lines| && Contains(lines[j], p);
      var i := MatchingLinesSound(config, p, j);
    }
    if IsMatched(expectation, config) {
      var i :| 0 <= i < |config| && StartsWith(config[i], p);
      StripKeepsTrimmedPrefix(config[i], p);
      StartsWithContains(Strip(config[i]), p);
      MatchingLinesComplete(config, p, i);
      var j :| 0 <= j < |lines| && lines[j] == Strip(config[i]);
    }
  }

  /** Specification of `validate_section`: the expectations split by
      `IsMatched`, each list in input order. */
  function Classify(expectations: seq<string>, config: seq<string>): SectionResult
    decreases |expectations|
  {
    if expectations == [] then SectionResult([], [])
    else
      var r := Classify(expectations[..|expectations| - 1], config);
      var e := expectations[|expectations| - 1];
      if IsMatched(e, config) then SectionResult(r.matched + [e], r.unmatched)
      else SectionResult(r.matched, r.unmatched + [e])
  }

  /** main.py:29-56: one pass over the expectations, appending each to the
      matched or the unmatched list. */
  method ValidateSection(config: seq<string>, expectedLines: seq<string>)
    returns (matched: seq<string>, unmatched: seq<string>)
    ensures SectionResult(matched, unmatched) == Classify(expectedLines, config)
  {
    matched, unmatched := [], [];
    for k := 0 to |expectedLines|
      invariant SectionResult(matched, unmatched) == Classify(expectedLines[..k], config)
    {
      assert expectedLines[..k + 1][..k] == expectedLines[..k];
      var expectedLine := expectedLines[k];
      var matchPrefix := MatchPrefix(expectedLine);
      var matchingLines := MatchingLines(config, matchPrefix);
      var isMatched := AnyContains(matchingLines, matchPrefix);
      AnchoredFindDecides(config, expectedLine);
      if isMatched {
        matched := matched + [expectedLine];
      } else {
        unmatched := unmatched + [expectedLine];
      }
    }
    assert expectedLines[..|expectedLines|] == expectedLines;
  }

  /** `c` is an order-preserving merge of `a` and `b`: both are
      subsequences of `c` and every position of `c` comes from exactly one. */
  predicate Interleaves(a: seq<string>, b: seq<string>, c: seq<string>)
    decreases |c|
  {
    if c == [] then a == [] && b == []
    else
      var x := c[|c| - 1];
      || (a != [] && a[|a| - 1] == x && Interleaves(a[..|a| - 1], b, c[..|c| - 1]))
      || (b != [] && b[|b| - 1] == x && Interleaves(a, b[..|b| - 1], c[..|c| - 1]))
  }

  /** The two lists are a partition of the expectations: together a
      permutation of them, each element on the side `IsMatched` chooses. */
  lemma {:induction false} ClassifyPartition(expectations: seq<string>, config: seq<string>)
    ensures var r := Classify(expectations, config);
            && multiset(r.matched) + multiset(r.unmatched) == multiset(expectations)
            && (forall j :: 0 <= j < |r.matched| ==> IsMatched(r.matched[j], config))
            && (forall j :: 0 <= j < |r.unmatched| ==> !IsMatched(r.unmatched[j], config))
    decreases |expectations|
  {
    if expectations != [] {
      var n := |expectations| - 1;
      ClassifyPartition(expectations[..n], config);
      assert expectations == expectations[..n] + [expectations[n]];
    }
  }

  /** The lists keep the input order: the expectations are a merge of them. */
  lemma {:induction false} ClassifyInterleaves(expectations: seq<string>, config: seq<string>)
    ensures Interleaves(Classify(expectations, config).matched,
                        Classify(expectations, config).unmatched, expectations)
    decreases |expectations|
  {
    if expectations != [] {
      var n := |expectations| - 1;
      ClassifyInterleaves(expectations[..n], config);
      var r := Classify(expectations[..n], config);
      if IsMatched(expectations[n], config) {
        assert (r.matched + [expectations[n]])[..|r.matched|] == r.matched;
      } else {
        assert (r.unmatched + [expectations[n]])[..|r.unmatched|] == r.unmatched;
      }
    }
  }

  /** Every expectation lands, verbatim, in exactly the list its own match
      decides, and nothing else appears in either list. */
  lemma ClassifyMembership(expectations: seq<string>, config: seq<string>, e: string)
    ensures var r := Classify(expectations, config);
            && (e in r.matched <==> e in expectations && IsMatched(e, config))
            && (e in r.unmatched <==> e in expectations && !IsMatched(e, config))
  {
    ClassifyPartition(expectations, config);
    var r := Classify(expectations, config);
    assert e in expectations <==> e in multiset(expectations);
    assert e in r.matched <==> e in multiset(r.matched);
    assert e in r.unmatched <==> e in multiset(r.unmatched);
  }

  /** Classifying a concatenation classifies each part: an expectation's
      fate never depends on the other expectations of its section. */
  lemma {:induction false} ClassifyAppend(a: seq<string>, b: seq<string>, config: seq<string>)
    ensures Classify(a + b, config)
            == SectionResult(Classify(a, config).matched + Classify(b, config).matched,
                             Classify(a, config).unmatched + Classify(b, config).unmatched)
    decreases |b|
  {
    if b == [] {
      assert a + b == a;
    } else {
      var b' := b[..|b| - 1];
      assert (a + b)[..|a + b| - 1] == a + b';
      assert (a + b)[|a + b| - 1] == b[|b| - 1];
      ClassifyAppend(a, b', config);
    }
  }

  /** Against an empty configuration every expectation is unmatched. */
  lemma {:induction false} ClassifyEmptyConfig(expectations: seq<string>)
    ensures Classify(expectations, []) == SectionResult([], expectations)
    decreases |expectations|
  {
    if expectations != [] {
      var n := |expectations| - 1;
      ClassifyEmptyConfig(expectations[..n]);
      assert expectations[..n] + [expectations[n]] == expectations;
    }
  }

  /** An expectation whose match prefix is empty matches any non-empty
      configuration, and is never reported missing. */
  lemma EmptyPrefixMatches(expectations: seq<string>, config: seq<string>, e: string)
    requires config != [] && e in expectations && MatchPrefix(e) == []
    ensures e in Classify(expectations, config).matched
    ensures e !in Classify(expectations, config).unmatched
  {
    assert StartsWith(config[0], MatchPrefix(e));
    ClassifyMembership(expectations, config, e);
  }

  /** A plain expectation equal to a normalised configuration line matches. */
  lemma ExactLineMatches(config: seq<string>, i: nat, e: string)
    requires i < |config| && config[i] == e && Trimmed(e) && !HasDelimiter(e)
    ensures IsMatched(e, config)
  {
    MatchPrefixOfPlain(e);
    StripOfTrimmed(e);
    assert StartsWith(config[i], MatchPrefix(e));
  }

  /** Matching is anchored: `interface {{name}}` is satisfied by an
      interface line but not by `no interface`, although the substring
      confirmation alone would accept the latter. */
  lemma InterfaceAnchoringExample(template: string, ifLine: string, noLine: string)
    requires template == "interface {{name}}"
    requires ifLine == "interface GigabitEthernet0/1" && noLine == "no interface"
    ensures IsMatched(template, [ifLine])
    ensures !IsMatched(template, [noLine])
    ensures Contains(noLine, MatchPrefix(template))
  {
    InterfaceTemplateExample(template);
    assert ifLine[..|"interface"|] == "interface";
    assert StartsWith([ifLine][0], MatchPrefix(template));
    assert noLine[0] != "interface"[0];
    assert OccursAt(noLine, "interface", 3);
  }

  /** A section whose one template is present reports it matched. */
  lemma HostnameScenario(template: string, line: string)
    requires template == "hostname {{x}}" && line == "hostname router1"
    ensures Classify([template], [line]) == SectionResult([template], [])
  {
    assert template == "hostname" + " {{" + "x}}";
    MatchPrefixOfKeywordTemplate("hostname", "x}}");
    assert line[..|"hostname"|] == "hostname";
    assert StartsWith([line][0], MatchPrefix(template));
    assert [template][..0] == [];
  }

  /** A section whose one template is absent reports it unmatched. */
  lemma NtpScenario(template: string, line: string)
    requires template == "ntp server {{ip}}" && line == "hostname router1"
    ensures Classify([template], [line]) == SectionResult([], [template])
  {
    assert template == "ntp server" + " {{" + "ip}}";
    MatchPrefixOfKeywordTemplate("ntp server", "ip}}");
    assert line[0] != "ntp server"[0];
    assert !StartsWith([line][0], MatchPrefix(template));
    assert [template][..0] == [];
  }
}
