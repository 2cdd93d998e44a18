/** The diff builder, `generate_diff` (main.py:59-66): for a section with
    unmatched expectations, two line blocks are built and handed to a
    unified-diff producer. */
module DiffBuilder {

  /** A unified-diff producer, as `difflib.unified_diff(expected, actual,
      lineterm="")` collected into a list; its algorithm is not part of
      this model, so it is passed in. */
  type UnifiedDiff = (seq<string>, seq<string>) -> seq<string>

  const TITLE_LEAD := "## Section: "

  /** The heading line of both blocks (main.py:63). */
  function SectionTitle(section: string): string {
    TITLE_LEAD + section + "\n"
  }

  /** The "expected" block: heading, the unmatched expectations verbatim,
      a separator line (main.py:64). */
  function ExpectedBlock(section: string, unmatched: seq<string>): seq<string> {
    [SectionTitle(section)] + unmatched + ["\n"]
  }

  /** The "actual" block: heading, the whole normalised configuration,
      a separator line (main.py:65). */
  function ActualBlock(section: string, configLines: seq<string>): seq<string> {
    [SectionTitle(section)] + configLines + ["\n"]
  }

  /** main.py:59-66. */
  function GenerateDiff(section: string, unmatched: seq<string>, configLines: seq<string>,
                        unifiedDiff: UnifiedDiff): seq<string>
  {
    unifiedDiff(ExpectedBlock(section, unmatched), ActualBlock(section, configLines))
  }

  /** The heading names its section unambiguously. */
  lemma TitleInjective(a: string, b: string)
    requires SectionTitle(a) == SectionTitle(b)
    ensures a == b
  {
    var n := |TITLE_LEAD|;
    assert a == SectionTitle(a)[n..n + |a|];
    assert b == SectionTitle(b)[n..n + |b|];
  }

  /** The expected block determines the section and the unmatched lines it
      was built from. */
  lemma ExpectedBlockInjective(s1: string, u1: seq<string>, s2: string, u2: seq<string>)
    requires ExpectedBlock(s1, u1) == ExpectedBlock(s2, u2)
    ensures s1 == s2 && u1 == u2
  {
    var b := ExpectedBlock(s1, u1);
    assert b[0] == SectionTitle(s1) && ExpectedBlock(s2, u2)[0] == SectionTitle(s2);
    TitleInjective(s1, s2);
    assert u1 == b[1..|b| - 1];
    assert u2 == ExpectedBlock(s2, u2)[1..|b| - 1];
  }

  /** The actual block carries every configuration line, in order, after the
      heading: the whole configuration, not a per-section slice. */
  lemma ActualBlockHoldsConfig(section: string, configLines: seq<string>)
    ensures var b := ActualBlock(section, configLines);
            && |b| == |configLines| + 2
            && b[1..|b| - 1] == configLines
            && b[0] == SectionTitle(section) && b[|b| - 1] == "\n"
  {
  }

  /** The two blocks differ exactly when the unmatched lines differ from the
      configuration. */
  lemma BlocksEqualIff(section: string, unmatched: seq<string>, configLines: seq<string>)
    ensures ExpectedBlock(section, unmatched) == ActualBlock(section, configLines)
            <==> unmatched == configLines
  {
    if ExpectedBlock(section, unmatched) == ActualBlock(section, configLines) {
      ExpectedBlockInjective(section, unmatched, section, configLines);
    }
  }

  /** The blocks for a section named `Section A` with one unmatched
      template and a one-line configuration. */
  lemma SectionABlocks(name: string, template: string, line: string)
    requires name == "Section A"
    ensures ExpectedBlock(name, [template]) == ["## Section: Section A\n", template, "\n"]
    ensures ActualBlock(name, [line]) == ["## Section: Section A\n", line, "\n"]
  {
    assert SectionTitle(name) == "## Section: Section A\n";
  }
}
