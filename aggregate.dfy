/** The result aggregator, the section loop of `validate_config`
    (main.py:81-101): the raw configuration is normalised once, every
    section of the golden standard is validated against it in order, and
    the diffs of the sections with unmatched expectations are collected. */
module Aggregator {
  import opened Strings
  import opened TemplateResolver
  import opened Normalizer
  import opened SectionValidator
  import opened DiffBuilder

  /** One entry of the golden standard: a section name and its ordered
      expectation templates. The golden standard itself is the ordered
      sequence of its entries, as a dictionary iterates them. */
  datatype Section = Section(name: string, expected: seq<string>)

  /** The three accumulators of the loop: `validation_results`, `matches`
      and `terminal_diff`. */
  datatype Report = Report(validationResults: map<string, SectionResult>,
                           matches: map<string, seq<string>>,
                           terminalDiff: seq<string>)

  /** Section names are dictionary keys, hence distinct. */
  predicate DistinctNames(golden: seq<Section>) {
    forall i, j :: 0 <= i < j < |golden| ==> golden[i].name != golden[j].name
  }

  /** The section names of `golden`. */
  function Names(golden: seq<Section>): set<string>
    decreases |golden|
  {
    if golden == [] then {} else Names(golden[..|golden| - 1]) + {golden[|golden| - 1].name}
  }

  /** The diff lines one section contributes: none when it is fully
      matched (main.py:98-101). */
  function SectionDiff(section: Section, config: seq<string>, unifiedDiff: UnifiedDiff): seq<string> {
    var r := Classify(section.expected, config);
    if r.unmatched != [] then GenerateDiff(section.name, r.unmatched, config, unifiedDiff) else []
  }

  /** The accumulators after the loop has run over `golden` against the
      normalised configuration `config`. */
  function Aggregate(golden: seq<Section>, config: seq<string>, unifiedDiff: UnifiedDiff): Report
    decreases |golden|
  {
    if golden == [] then Report(map[], map[], [])
    else
      var prev := Aggregate(golden[..|golden| - 1], config, unifiedDiff);
      var s := golden[|golden| - 1];
      var r := Classify(s.expected, config);
      Report(prev.validationResults[s.name := r],
             prev.matches[s.name := r.matched],
             prev.terminalDiff + SectionDiff(s, config, unifiedDiff))
  }

  /** The core entry point: raw configuration lines in, report out. */
  function Validate(golden: seq<Section>, rawConfig: seq<string>, unifiedDiff: UnifiedDiff): Report {
    Aggregate(golden, Normalized(rawConfig), unifiedDiff)
  }

  /** main.py:81-101: normalise, then validate every section in order,
      recording its split and appending its diff when it has unmatched
      expectations. */
  method ValidateConfig(goldenStandard: seq<Section>, rawConfig: seq<string>, unifiedDiff: UnifiedDiff)
    returns (validationResults: map<string, SectionResult>,
             matches: map<string, seq<string>>,
             terminalDiff: seq<string>)
    ensures Report(validationResults, matches, terminalDiff) == Validate(goldenStandard, rawConfig, unifiedDiff)
  {
    var normalizedConfig := NormalizeConfig(rawConfig);
    validationResults, matches, terminalDiff := map[], map[], [];
    for k := 0 to |goldenStandard|
      invariant Report(validationResults, matches, terminalDiff)
                == Aggregate(goldenStandard[..k], normalizedConfig, unifiedDiff)
    {
      assert goldenStandard[..k + 1][..k] == goldenStandard[..k];
      var section := goldenStandard[k].name;
      var matched, unmatched := ValidateSection(normalizedConfig, goldenStandard[k].expected);
      validationResults := validationResults[section := SectionResult(matched, unmatched)];
      matches := matches[section := matched];
      if unmatched != [] {
        var diff := GenerateDiff(section, unmatched, normalizedConfig, unifiedDiff);
        terminalDiff := terminalDiff + diff;
      }
    }
    assert goldenStandard[..|goldenStandard|] == goldenStandard;
  }

  /** Every section gets an entry in both dictionaries and nothing else
      does. */
  lemma {:induction false} AggregateKeys(golden: seq<Section>, config: seq<string>, unifiedDiff: UnifiedDiff)
    ensures Aggregate(golden, config, unifiedDiff).validationResults.Keys == Names(golden)
    ensures Aggregate(golden, config, unifiedDiff).matches.Keys == Names(golden)
    decreases |golden|
  {
    if golden != [] {
      AggregateKeys(golden[..|golden| - 1], config, unifiedDiff);
    }
  }

  /** The entry of each section is that section's own split, and `matches`
      repeats its matched list. */
  lemma {:induction false} AggregateEntry(golden: seq<Section>, config: seq<string>, unifiedDiff: UnifiedDiff, i: nat)
    requires DistinctNames(golden) && i < |golden|
    ensures var r := Aggregate(golden, config, unifiedDiff);
            && golden[i].name in r.validationResults && golden[i].name in r.matches
            && r.validationResults[golden[i].name] == Classify(golden[i].expected, config)
            && r.matches[golden[i].name] == Classify(golden[i].expected, config).matched
    decreases |golden|
  {
    var n := |golden| - 1;
    if i < n {
      var init := golden[..n];
      assert init[i] == golden[i];
      assert golden[i].name != golden[n].name;
      AggregateEntry(init, config, unifiedDiff, i);
    }
  }

  /** `matches[s]` always equals `validation_results[s]["matched"]`. */
  lemma {:induction false} MatchesAgree(golden: seq<Section>, config: seq<string>, unifiedDiff: UnifiedDiff)
    ensures var r := Aggregate(golden, config, unifiedDiff);
            && r.matches.Keys == r.validationResults.Keys
            && forall k :: k in r.matches ==> r.matches[k] == r.validationResults[k].matched
    decreases |golden|
  {
    if golden != [] {
      MatchesAgree(golden[..|golden| - 1], config, unifiedDiff);
    }
  }

  /** The diff text of a concatenation of sections is the concatenation of
      their diff texts: sections contribute in processing order and
      independently of each other. */
  lemma {:induction false} DiffAppend(g1: seq<Section>, g2: seq<Section>, config: seq<string>,
                                      unifiedDiff: UnifiedDiff)
    ensures Aggregate(g1 + g2, config, unifiedDiff).terminalDiff
            == Aggregate(g1, config, unifiedDiff).terminalDiff + Aggregate(g2, config, unifiedDiff).terminalDiff
    decreases |g2|
  {
    if g2 == [] {
      assert g1 + g2 == g1;
    } else {
      var g2' := g2[..|g2| - 1];
      var last := g2[|g2| - 1];
      assert (g1 + g2)[..|g1 + g2| - 1] == g1 + g2';
      assert (g1 + g2)[|g1 + g2| - 1] == last;
      DiffAppend(g1, g2', config, unifiedDiff);
      var d1 := Aggregate(g1, config, unifiedDiff).terminalDiff;
      var d2' := Aggregate(g2', config, unifiedDiff).terminalDiff;
      var dl := SectionDiff(last, config, unifiedDiff);
      calc {
        Aggregate(g1 + g2, config, unifiedDiff).terminalDiff;
        Aggregate(g1 + g2', config, unifiedDiff).terminalDiff + dl;
        (d1 + d2') + dl;
        d1 + (d2' + dl);
        d1 + Aggregate(g2, config, unifiedDiff).terminalDiff;
      }
    }
  }

  /** A single section contributes its diff exactly when it has unmatched
      expectations. */
  lemma SingleSectionDiff(s: Section, config: seq<string>, unifiedDiff: UnifiedDiff)
    ensures var u := Classify(s.expected, config).unmatched;
            Aggregate([s], config, unifiedDiff).terminalDiff
            == if u == [] then [] else unifiedDiff(ExpectedBlock(s.name, u), ActualBlock(s.name, config))
  {
    assert [s][..0] == [];
  }

  /** When every expectation of every section is matched, no diff is
      produced. */
  lemma {:induction false} NoDiffWhenAllMatched(golden: seq<Section>, config: seq<string>, unifiedDiff: UnifiedDiff)
    requires forall i :: 0 <= i < |golden| ==> Classify(golden[i].expected, config).unmatched == []
    ensures Aggregate(golden, config, unifiedDiff).terminalDiff == []
    decreases |golden|
  {
    if golden != [] {
      NoDiffWhenAllMatched(golden[..|golden| - 1], config, unifiedDiff);
    }
  }

  /** Sections do not interfere: a configuration line that satisfies an
      expectation of one section and one of another is reported matched in
      both. */
  lemma SharedLineMatchedInBoth(golden: seq<Section>, config: seq<string>, unifiedDiff: UnifiedDiff,
                                i: nat, j: nat, ei: string, ej: string, k: nat)
    requires DistinctNames(golden) && i < |golden| && j < |golden| && k < |config|
    requires ei in golden[i].expected && ej in golden[j].expected
    requires StartsWith(config[k], MatchPrefix(ei)) && StartsWith(config[k], MatchPrefix(ej))
    ensures var r := Aggregate(golden, config, unifiedDiff).validationResults;
            && golden[i].name in r && ei in r[golden[i].name].matched
            && golden[j].name in r && ej in r[golden[j].name].matched
  {
    AggregateEntry(golden, config, unifiedDiff, i);
    AggregateEntry(golden, config, unifiedDiff, j);
    ClassifyMembership(golden[i].expected, config, ei);
    ClassifyMembership(golden[j].expected, config, ej);
  }

  /** A section's entry is the same whatever other sections surround it. */
  lemma SectionIndependence(before: seq<Section>, s: Section, after: seq<Section>,
                            config: seq<string>, unifiedDiff: UnifiedDiff)
    requires DistinctNames(before + [s] + after)
    ensures var r := Aggregate(before + [s] + after, config, unifiedDiff).validationResults;
            s.name in r && r[s.name] == Aggregate([s], config, unifiedDiff).validationResults[s.name]
  {
    var golden := before + [s] + after;
    assert golden[|before|] == s;
    AggregateEntry(golden, config, unifiedDiff, |before|);
    assert [s][..0] == [];
  }

  /** Against a configuration with no non-blank line, every expectation of
      every section is unmatched. */
  lemma EmptyConfigAllUnmatched(golden: seq<Section>, rawConfig: seq<string>, unifiedDiff: UnifiedDiff)
    requires DistinctNames(golden)
    requires forall i :: 0 <= i < |rawConfig| ==> AllSpace(rawConfig[i])
    ensures forall i :: 0 <= i < |golden| ==>
              var r := Validate(golden, rawConfig, unifiedDiff).validationResults;
              golden[i].name in r && r[golden[i].name] == SectionResult([], golden[i].expected)
  {
    var config := Normalized(rawConfig);
    if config != [] {
      NormalizedLinesAreClean(rawConfig);
      var line := config[0];
      var m := NormalizedOrigin(rawConfig, line);
      StripEmptyIffBlank(rawConfig[m]);
      assert false;
    }
    forall i | 0 <= i < |golden|
      ensures var r := Aggregate(golden, config, unifiedDiff).validationResults;
              golden[i].name in r && r[golden[i].name] == SectionResult([], golden[i].expected)
    {
      AggregateEntry(golden, config, unifiedDiff, i);
      ClassifyEmptyConfig(golden[i].expected);
    }
  }

  /** A section with unmatched expectations hands two different blocks to
      the diff producer: a normalised line starts with its own match prefix,
      so it matches itself and can never be among the unmatched lines, and
      hence the unmatched lines are never the whole configuration. */
  lemma UnmatchedBlocksDiffer(name: string, expected: seq<string>, rawConfig: seq<string>)
    ensures var config := Normalized(rawConfig);
            var u := Classify(expected, config).unmatched;
            u != [] ==> ExpectedBlock(name, u) != ActualBlock(name, config)
  {
    var config := Normalized(rawConfig);
    var u := Classify(expected, config).unmatched;
    if u != [] {
      ClassifyPartition(expected, config);
      assert !IsMatched(u[0], config);
      if config != [] {
        NormalizedLinesAreClean(rawConfig);
        StartsWithOwnPrefix(config[0]);
        assert StartsWith(config[0], MatchPrefix(config[0]));
        assert IsMatched(config[0], config);
      }
      assert u != config;
      BlocksEqualIff(name, u, config);
    }
  }

  /** With a diff producer that reports every difference, a section
      contributes diff lines exactly when it has unmatched expectations. */
  lemma UnmatchedSectionReported(s: Section, rawConfig: seq<string>, unifiedDiff: UnifiedDiff)
    requires forall a, b :: a != b ==> unifiedDiff(a, b) != []
    ensures var config := Normalized(rawConfig);
            SectionDiff(s, config, unifiedDiff) != [] <==> Classify(s.expected, config).unmatched != []
  {
    UnmatchedBlocksDiffer(s.name, s.expected, rawConfig);
  }

  /** With a diff producer that reports every difference, the run's diff
      text is empty exactly when every section is fully matched. */
  lemma {:induction false} DiffReportsMissing(golden: seq<Section>, rawConfig: seq<string>,
                                              unifiedDiff: UnifiedDiff)
    requires forall a, b :: a != b ==> unifiedDiff(a, b) != []
    ensures Validate(golden, rawConfig, unifiedDiff).terminalDiff == []
            <==> forall i :: 0 <= i < |golden| ==>
                   Classify(golden[i].expected, Normalized(rawConfig)).unmatched == []
    decreases |golden|
  {
    if golden != [] {
      var n := |golden| - 1;
      var config := Normalized(rawConfig);
      var init := golden[..n];
      DiffReportsMissing(init, rawConfig, unifiedDiff);
      UnmatchedSectionReported(golden[n], rawConfig, unifiedDiff);
      var d := Aggregate(init, config, unifiedDiff).terminalDiff;
      var dl := SectionDiff(golden[n], config, unifiedDiff);
      assert Validate(golden, rawConfig, unifiedDiff).terminalDiff == d + dl;
      assert d + dl == [] <==> d == [] && dl == [];
      assert (forall i :: 0 <= i < |golden| ==> Classify(golden[i].expected, config).unmatched == [])
             <==> (forall i :: 0 <= i < n ==> Classify(init[i].expected, config).unmatched == [])
                  && Classify(golden[n].expected, config).unmatched == [];
    }
  }

  /** A fully matched section yields its split and no diff. */
  lemma HostnameReport(name: string, template: string, line: string, unifiedDiff: UnifiedDiff)
    requires name == "Section A" && template == "hostname {{x}}" && line == "hostname router1"
    ensures var r := Validate([Section(name, [template])], [line], unifiedDiff);
            && r.validationResults == map[name := SectionResult([template], [])]
            && r.matches == map[name := [template]]
            && r.terminalDiff == []
  {
    NormalizedOfConfigLines([line]);
    HostnameScenario(template, line);
    var g := [Section(name, [template])];
    assert g[..0] == [];
    assert Aggregate(g, [line], unifiedDiff)
           == Report(map[name := SectionResult([template], [])], map[name := [template]], []);
  }

  /** A section with a missing expectation yields a diff of the block of its
      unmatched templates against the block of the whole configuration. */
  lemma NtpReport(name: string, template: string, line: string, unifiedDiff: UnifiedDiff)
    requires name == "Section A" && template == "ntp server {{ip}}" && line == "hostname router1"
    ensures var r := Validate([Section(name, [template])], [line], unifiedDiff);
            && r.validationResults == map[name := SectionResult([], [template])]
            && r.matches == map[name := []]
            && r.terminalDiff == unifiedDiff(["## Section: Section A\n", template, "\n"],
                                             ["## Section: Section A\n", line, "\n"])
  {
    NormalizedOfConfigLines([line]);
    NtpScenario(template, line);
    var g := [Section(name, [template])];
    assert g[..0] == [];
    SectionABlocks(name, template, line);
    assert Aggregate(g, [line], unifiedDiff)
           == Report(map[name := SectionResult([], [template])], map[name := []],
                     GenerateDiff(name, [template], [line], unifiedDiff));
  }
}
