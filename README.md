# Config Vali-Diff-Erator 2000: the matching engine in Dafny

The tool checks a network device's configuration file against a "golden
standard". The golden standard is a mapping from section names to ordered
lists of expectation templates. This project models the engine of
`main.py`: every step between "raw lines read" and "reports written".

- **Normalizer** (`normalize.dfy`, `normalize_config`). Each raw line is
  stripped of surrounding whitespace, with Python's definition of
  whitespace. Lines left empty are dropped and the rest keep file order.
- **Template resolver** (`template.dfy`). The *match prefix* of an
  expectation is its text before the first `{{`, stripped. With no `{{`,
  it is the whole stripped text.
- **Section validator** (`section.dfy`, `validate_section`). Each
  expectation is matched when some normalised line starts with its match
  prefix. The model has both steps of the source: the anchored search
  (`MatchingLines`) and the substring confirmation (`AnyContains`). It
  proves that together they are the single start-of-line test `IsMatched`,
  so the confirmation adds nothing to a literal search. In the source it
  is redundant only for prefixes without regex metacharacters (see
  "Left out"). The result splits the expectations, in
  order, into a matched and an unmatched list.
- **Diff builder** (`diff.dfy`, `generate_diff`). This builds the
  "expected" block (heading, unmatched templates, separator) and the
  "actual" block (heading, the whole normalised configuration, separator).
  It hands both to a unified-diff producer. That producer is a parameter
  of type `UnifiedDiff`.
- **Aggregator** (`aggregate.dfy`, the section loop of `validate_config`).
  It runs every section in order and fills `validation_results` and
  `matches`. For sections with unmatched expectations only, it appends
  their diff lines to `terminal_diff`.
- **String primitives** (`text.dfy`). These are `str.strip()`,
  `str.startswith` and `in` on strings.

The loops of the source are methods with loop invariants:
`NormalizeConfig`, `ValidateSection` and `ValidateConfig`. Each one is
proved equal to a specification function (`Normalized`, `Classify`,
`Aggregate`/`Validate`). The properties are lemmas about those functions.

The golden standard is a sequence of `Section(name, expected)` entries in
dictionary order. Distinct keys are the predicate `DistinctNames`. Only the
lemmas that look entries up by name require it. The methods and functions
accept any sequence. A repeated name has no counterpart in the source,
since `golden_standard.items()` never repeats a key. On such a sequence
`Aggregate` keeps the last split in the maps and appends a diff for every
entry with that name. Only the lemmas that require `DistinctNames`
describe the source's behaviour.

## Model

| member | source | states |
|---|---|---|
| `Strings.TrimStartCuts` | main.py:23 | leading-whitespace removal cuts only a run of whitespace off the front and stops at a non-space character |
| `Strings.TrimEndCuts` | main.py:23 | trailing-whitespace removal cuts only a run of whitespace off the back and stops at a non-space character |
| `Strings.Strip` | main.py:23 | `strip()` returns text with no whitespace at either end, never longer than its input |
| `Strings.StripIsInfix` | main.py:23 | the stripped text is an infix of the input with only whitespace before and after it |
| `Strings.StripUnique` | main.py:23 | a trimmed text surrounded by any whitespace strips to exactly that text (strip is determined by its result) |
| `Strings.StripOfTrimmed` | main.py:23 | a text with no surrounding whitespace is its own strip |
| `Strings.StripIdempotent` | main.py:23 | stripping twice equals stripping once |
| `Strings.StripEmptyIffBlank` | main.py:23-24 | a line strips to the empty string exactly when it is all whitespace, so exactly blank lines are dropped |
| `Strings.TrimEndKeepsNonSpace` | main.py:23 | trailing-whitespace removal never cuts into a non-space character |
| `Strings.StripKeepsTrimmedPrefix` | main.py:41-49 | stripping a line that starts with a trimmed prefix leaves a line that still starts with it |
| `Strings.StartsWithContains` | main.py:46-49 | a line that starts with the prefix contains it as a substring |
| `TemplateResolver.BeforeDelimiter` | main.py:39 | `split('{{')[0]` is a prefix of the input with no `{{` in it, ending at the first `{{` or at the end of the input |
| `TemplateResolver.MatchPrefix` | main.py:39 | the match prefix has no surrounding whitespace and is no longer than the expectation |
| `TemplateResolver.StartsWithOwnPrefix` | main.py:39 | an expectation that does not begin with whitespace (every normalised configuration line) starts with its own match prefix |
| `TemplateResolver.MatchPrefixOfPlain` | main.py:39 | without a `{{` the match prefix is the whole stripped expectation |
| `TemplateResolver.BeforeDelimiterOfTemplate` | main.py:39 | for literal + `{{` + placeholder, the text before the delimiter is exactly the literal (when the literal holds no `{{` and does not end in `{`) |
| `TemplateResolver.MatchPrefixOfTemplate` | main.py:39 | such a template's match prefix is the stripped literal; the placeholder is never looked at |
| `TemplateResolver.NoBraceNoDelimiter` | main.py:39 | text without an opening brace before its last character holds no delimiter |
| `TemplateResolver.MatchPrefixOfKeywordTemplate` | main.py:39 | `keyword {{placeholder}}` resolves to `keyword` |
| `TemplateResolver.InterfaceTemplateExample` | main.py:39 | `"interface {{name}}"` resolves to `"interface"` |
| `Normalizer.NormalizeConfig` | main.py:13-26 | the loop returns exactly `Normalized(config_lines)`: the input lines stripped, the empty ones dropped, in order |
| `Normalizer.NormalizedLinesAreClean` | main.py:20-26 | every output line is non-empty, has no surrounding whitespace and equals its own strip |
| `Normalizer.NormalizedAppend` | main.py:21-26 | normalising a concatenation normalises each part (relative order kept; one line's fate never depends on another) |
| `Normalizer.NormalizedKeeps` | main.py:21-25 | every raw line that does not strip to empty appears in the output, stripped |
| `Normalizer.NormalizedOrigin` | main.py:21-25 | every output line is the strip of some raw line |
| `Normalizer.NormalizedMembership` | main.py:21-26 | a line is in the output if and only if it is the non-empty strip of some raw line |
| `Normalizer.NormalizedOfConfigLines` | main.py:21-26 | an already normalised sequence passes through unchanged |
| `Normalizer.NormalizedIdempotent` | main.py:13-26 | normalising twice equals normalising once |
| `Normalizer.NormalizedShorter` | main.py:21-26 | normalisation never adds lines |
| `SectionValidator.MatchingLines` | main.py:40-43 | the `find_objects` comprehension: the stripped configuration lines that start with the prefix, in order; no contract of its own, its properties are `MatchingLinesSound` and `MatchingLinesComplete` |
| `SectionValidator.AnyContains` | main.py:46-49 | the `any(match_prefix in line ...)` confirmation; no contract of its own, `AnchoredFindDecides` states what it decides together with the search |
| `SectionValidator.MatchingLinesSound` | main.py:40-43 | every line the anchored search returns is the strip of a configuration line that starts with the prefix |
| `SectionValidator.MatchingLinesComplete` | main.py:40-43 | every configuration line starting with the prefix is returned, stripped |
| `SectionValidator.AnchoredFindDecides` | main.py:39-49 | anchored search followed by the substring check succeeds if and only if some configuration line starts with the match prefix (the substring check adds nothing) |
| `SectionValidator.ValidateSection` | main.py:29-56 | the loop returns exactly `Classify(expected_lines, config)` |
| `SectionValidator.ClassifyPartition` | main.py:34-56 | matched ++ unmatched is a permutation of the expectations (multisets), every matched entry is matched and every unmatched one is not |
| `SectionValidator.ClassifyInterleaves` | main.py:37-54 | the expectations are an order-preserving merge of the two lists, so each list is a subsequence of the input |
| `SectionValidator.ClassifyMembership` | main.py:37-54 | an expectation is in the matched list iff it is in the input and matched, and in the unmatched list iff it is in the input and not matched, verbatim |
| `SectionValidator.ClassifyAppend` | main.py:37-54 | splitting a concatenation splits each part; expectations do not influence each other |
| `SectionValidator.ClassifyEmptyConfig` | main.py:40-54 | against an empty configuration every expectation is unmatched |
| `SectionValidator.EmptyPrefixMatches` | main.py:39-52 | an expectation with an empty match prefix is matched by any non-empty configuration |
| `SectionValidator.ExactLineMatches` | main.py:39-52 | a plain expectation equal to a normalised configuration line is matched |
| `SectionValidator.InterfaceAnchoringExample` | main.py:39-49 | `interface {{name}}` matches `interface GigabitEthernet0/1`, not `no interface`, though `no interface` contains the prefix |
| `SectionValidator.HostnameScenario` | main.py:29-56 | `["hostname {{x}}"]` against `["hostname router1"]` is all matched |
| `SectionValidator.NtpScenario` | main.py:29-56 | `["ntp server {{ip}}"]` against `["hostname router1"]` is all unmatched |
| `DiffBuilder.SectionTitle` | main.py:63 | the heading `## Section: <name>\n`; no contract of its own, `TitleInjective` states that it names its section unambiguously |
| `DiffBuilder.ExpectedBlock` | main.py:64 | heading, unmatched lines, separator; no contract of its own, its properties are `ExpectedBlockInjective` and `BlocksEqualIff` |
| `DiffBuilder.ActualBlock` | main.py:65 | heading, whole configuration, separator; no contract of its own, its properties are `ActualBlockHoldsConfig` and `BlocksEqualIff` |
| `DiffBuilder.GenerateDiff` | main.py:59-66 | `generate_diff`: the producer applied to the expected and the actual block; no contract of its own, its properties are `ExpectedBlockInjective`, `ActualBlockHoldsConfig`, `BlocksEqualIff` and, within a run, `UnmatchedBlocksDiffer` |
| `DiffBuilder.TitleInjective` | main.py:63 | the heading `## Section: <name>\n` names its section unambiguously |
| `DiffBuilder.ExpectedBlockInjective` | main.py:63-64 | the expected block determines the section and the unmatched lines it was built from |
| `DiffBuilder.ActualBlockHoldsConfig` | main.py:63-65 | the actual block is heading, the whole configuration in order, separator `"\n"` |
| `DiffBuilder.BlocksEqualIff` | main.py:63-66 | the two blocks are equal if and only if the unmatched lines equal the configuration |
| `DiffBuilder.SectionABlocks` | main.py:63-65 | the concrete blocks for section `Section A` with one unmatched template and one configuration line |
| `Aggregator.ValidateConfig` | main.py:81-101 | the loop's three accumulators are exactly `Validate(golden_standard, raw_config)` |
| `Aggregator.AggregateKeys` | main.py:85-96 | `validation_results` and `matches` have exactly the section names as keys |
| `Aggregator.AggregateEntry` | main.py:90-96 | each section's entry is its own split, and `matches[section]` is its matched list |
| `Aggregator.MatchesAgree` | main.py:92-96 | `matches[s]` equals `validation_results[s]["matched"]` for every key |
| `Aggregator.DiffAppend` | main.py:87-101 | the accumulated diff of a concatenation of sections is the concatenation of their diffs, in section order |
| `Aggregator.SectionDiff` | main.py:98-101 | the `if unmatched:` branch: the diff of the section's blocks, or nothing; no contract of its own, its properties are `SingleSectionDiff` and `UnmatchedSectionReported` |
| `Aggregator.SingleSectionDiff` | main.py:98-101 | a section adds the diff of its blocks when it has unmatched entries and nothing otherwise |
| `Aggregator.NoDiffWhenAllMatched` | main.py:98-101 | when every section is fully matched the accumulated diff is empty |
| `Aggregator.UnmatchedBlocksDiffer` | main.py:90-101 | in a run, a section with unmatched expectations always hands two different blocks to the producer, because every normalised line matches itself and so is never unmatched |
| `Aggregator.UnmatchedSectionReported` | main.py:90-101 | with a producer that is non-empty on different inputs, a section adds diff lines if and only if it has unmatched expectations |
| `Aggregator.DiffReportsMissing` | main.py:81-101 | with such a producer, the run's diff text is empty if and only if every section is fully matched |
| `Aggregator.SharedLineMatchedInBoth` | main.py:90-96 | a configuration line that satisfies expectations in two sections makes both report them matched |
| `Aggregator.SectionIndependence` | main.py:90-96 | a section's entry is the same whatever other sections surround it |
| `Aggregator.EmptyConfigAllUnmatched` | main.py:81-96 | a configuration with only blank lines leaves every expectation of every section unmatched |
| `Aggregator.HostnameReport` | main.py:81-101 | section `Section A` with `hostname {{x}}` against `hostname router1`: matched, nothing unmatched, empty diff |
| `Aggregator.NtpReport` | main.py:81-101 | `ntp server {{ip}}` against `hostname router1`: unmatched, and the diff is taken of the template block against the whole-configuration block |

## Left out

- Reading the configuration file and loading the YAML golden standard
  (main.py:75-79) are I/O. The model starts from the raw lines and from
  the golden standard as an ordered sequence of sections. A YAML section
  whose value is not a list of strings is not modelled.
- Writing the failure, success and difference reports (main.py:104-131),
  the HTML export (main.py:141-146), the `rich` console output and the
  interactive prompts and banner (main.py:134-210) are I/O and UI. This
  includes the report-name global set only by the interactive entry point,
  and the two report headings written without string interpolation.
- `CiscoConfParse` itself. `find_objects(rf"^{prefix}")` is modelled as a
  literal start-of-line test. The source splices the prefix into a regular
  expression unescaped, so its pattern metacharacters act as regex syntax.
  The substring confirmation (main.py:46-49) still requires the literal
  prefix to occur in a found line. The model does not reproduce the regex
  reading. Among the differences:
  - a `.` matches any character. With `ip address 10.0.0.1`, the line
    `ip address 10x0x0x1` is unmatched in both, because the confirmation
    fails. The source accepts a line the model rejects only when the line
    matches the pattern at its start and also holds the literal prefix
    further along;
  - a `|` splits the pattern into alternatives. `^description A|B` finds any
    line containing `B`, and the confirmation then makes the test an
    unanchored substring test. So the source counts `no description A|B`
    as matched where the model does not;
  - a second `^` (as in `banner motd ^C`) never matches. Neither does a `$`
    followed by more text (as in hashed secrets such as `secret 5 $1$...`).
    The source reports such an expectation unmatched where the model
    matches it;
  - a balanced group such as `(uplink)` never matches its own literal line,
    so the source reports it unmatched where the model matches it;
  - an unbalanced `(` or `[` makes the regex compiler raise an error. The
    source aborts the run before any report is written, where the model
    classifies the expectation.
- The text `difflib.unified_diff` produces (main.py:66) is a library
  algorithm. `UnifiedDiff` is an uninterpreted parameter. The model states
  which blocks it receives and when it is called, not what it prints.
- The code gives no warning for an expectation whose match prefix is
  empty. It counts such an expectation as matched by any line, and the
  model does the same (`EmptyPrefixMatches`).
- Dafny maps have no order, so `validation_results` and `matches` are
  modelled as maps. The dictionary's insertion order is the order of the
  golden-standard sequence, which `Aggregate` follows.
- Idempotence of a whole run is not stated as a lemma. Every operation
  here is a function of its inputs, so two runs on equal inputs give equal
  reports by construction.
