# Verification of the analysis core

Dafny 4.11 models of the pure domain modules of RA2, with proofs of what they promise. Check everything with
`dafny verify dfyconfig.toml`.

What is modelled, in the system's own terms:

- **The narrative scrubber.** Regex rules and name lists propose spans of one text; overlaps are resolved greedily;
  names are found as leftmost-longest windows of tokens and tagged first name, last name or undecided; chosen spans are
  numbered per tag and replaced in one pass. The main results: a scrub changes nothing but its hits and can be undone
  from them, it fails closed, its placeholders are a bijection with values, the order of list entries never moves a
  span and when it decides nothing at all, when a second scrub gives back its text, and over any run of the counter
  every hit lands on exactly one row.
  (`RegexClaims`, `NameIndexes`, `WindowSearch`, `NameMatching`, `NameTagging`, `Numbering`, `Splicing`, `Replacement`,
  `Scrubbing`, `Reversal`, `ScrubTheorems`, `ListOrder`, `WindowWidths`, `NameRemainders`, `ScrubTwice`, `TextCuts`,
  `UnchangedText`, `SecondScrub`, `Fingerprints`, `NamesInText`, `NameLists`, `ListLines`, `ValueExamples`,
  `ScrubCounting`, `TallyMeaning`, `Places`, `RuleChecks`, `ScrubCountTheorems`; concrete texts and lists in `SampleEngine`,
  `SampleTexts`, `SampleNames`, `SampleClaims`, `SamplePlaceholders`, `SampleSpaces` and `SampleLists`)
- **Intervals, ties and ranking.** The Wilson interval is the inverted score test; its monotonicity makes the tie marks
  of one feature sound; ranks are competition ranks and agree with the tie marks; separating features are exact.
  (`Wilson`, `Ties`, `Scoring`, `ScoredTies`, `ScoreMeaning`, `MacroAverage`, `MacroMeaning`, `RankGroups`, `Ranking`,
  `Separation`)
- **Span location.** Sound and complete search, verbatim or with whitespace folded, which finds the quoted words however far apart.
  (`SpanLocate`, `SpanWords`)
- **Delivery validation.** A delivery has no blocking cross-file finding if and only if its declared totals can be read,
  its keys are unique, its references hold and its sets resolve, and then its totals are true join counts. A finding is
  reported if and only if what it says is so, and a set key comes from a canton or an id through shared keys alone.
  (`DeliveryTypes`, `KeyChecks`, `References`, `CantonalSets`, `DeclaredCells`, `DeclaredCounts`, `TextJoin`,
  `DeliveryValidation`, `DeliverySets`, `DeliveryFindings`)
- **Prompt templates.** The validator is exact for the expander, which never expands a value again.
  (`PromptTemplate`, `PromptResolution`, `PromptMeaning`)
- **Response parsing.** The value of every key of the features object is stored or the key is reported, a response without
  issues is exactly one that answers as asked, and it is known when parsing raises. (`JsonText`, `JsonLimits`,
  `OutputParsing`, `OutputMeaning`)
- **The parallel gate.** The differ count is a metric, so a passing gate bounds drift; calls are pinned only as far as a trial that
  stayed in its band. (`Qualification`, `GateTrials`, `Rounding`)

`Wrappers`, `Text`, `PythonText`, `Sorting` and `ScrubTypes` hold what these share.

How to read it. A loop that changes state is a `method` proved equal to a specification function, and the promises are
lemmas about that function. Foreign code is a parameter: `ScrubTypes.Engine` stands for the regular expression engine,
the tokeniser and the Unicode tables (its `Sound` predicate asks only that matches and tokens come left to right, inside
the text, without overlap); `OutputParsing.Reader` stands for scanning JSON, reading and printing literals, and validating answers;
`DeclaredCells.Digits` for the two digit classes and the digit limit of `int`; a square root is any function
that satisfies `Wilson.IsSqrt`; `isWord` is the word-character class of a regular expression. Python's dictionaries are
maps, with a sequence beside them where insertion order is used; `sorted` is a stable insertion sort.

Where the code and its own documentation disagree, the model follows the code:

- The remark at ra2/domain/stats.py:162 does not hold for arbitrary cells (`Ties.WideLeaderTiesDisjointCells`). It holds
  if and only if `Ties.TiedCellsOverlapIff`, and always for the cells of one feature
  (`ScoredTies.DisjointF1CellsNeverBothTied`).
- The table of ra2/domain/ranking.py:110 is not always in rank order (`Ranking.WideModelBreaksRankOrder`); when it is:
  `RankGroups.InRankOrderIff`.
- Lists are called sets whose order decides nothing (ra2/domain/scrub.py:398). That is so for which spans are replaced
  (`ListOrder.ListOrderNeverMovesASpan`), not for the key and so the number of a name
  (`NameIndexes.UmlautSpellingOrderDecides`, `SampleTexts.ListOrderDecidesANumber`). The keys are the same in every order
  if and only if no form has two of them (`NameIndexes.OrderIsFreeIff`), and then so is the whole scrub
  (`ListOrder.SameEntriesSameScrub`).
- The fingerprint of ra2/domain/scrub.py:393 is said to cover everything that decides a scrub. It names each list by its
  keys alone, so one payload can stand for rule sets that find different names (`SampleLists.SamePayloadOtherScrub`);
  two lists find the same if and only if their forms are the same (`Fingerprints.SameFoundIff`). For the same reason
  the order of the lines of a list file can decide which forms are found (`NameLists.ParsedListFindsIff`,
  `SampleLists.TransliteratedFirstLosesAForm`).
- Scrubbing a scrubbed text is said to give it back (docs/scrubbing.md:170, plan-text-scrubbing.md:129). It can change it
  (`SampleClaims.SecondScrubFindsMore`). Where no match in the scrubbed text holds a `<`, exactly when it comes back:
  `SecondScrub.ScrubbingTwiceIff`, whose condition on names is about the first text and the tags. A rule that matches
  `<` can match a whole placeholder, and the text then comes back with hits (`SamplePlaceholders.OwnPlaceholderStays`,
  `SecondScrub.PlaceholdersAreScrubbedToThemselves`). For such rules no condition on the single hits is exact: the
  text can come back although none reads as its placeholder (`SamplePlaceholders.TextComesBackByCoincidence`), unless
  all are as long as theirs (`SecondScrub.SameLengthTextComesBackIff`).
- A declared total that is no integer is said to be no mismatch (ra2/domain/validation.py:317). Text that passes the digit
  test and that `int` refuses ends the validation instead (`DeliveryValidation.OneTotalFailsValidation`); exactly when:
  `DeliveryValidation.ValidationFailsIff`.
- Answers are said to be stored verbatim (ra2/domain/extraction.py:188). Numbers are printed again and escapes are read
  (`OutputParsing.LiteralsAreNotKept`); exactly when that changes nothing: `OutputParsing.KeptAsSpeltIff`.
- Parsing a response is said never to raise (ra2/domain/extraction.py:347). One digit too many raises
  (`OutputParsing.OneDigitTooMany`); exactly when it does: `OutputParsing.ParsingRaisesIff`.

What the documentation says of overlaps, that a regex beats a name, has a consequence it does not spell out: the part of
the name that the claim does not cover stays in the text (`NameRemainders.RestOfNameStaysIff`,
`SampleClaims.FirstWordStays`).

## Model

| member | source | states |
|---|---|---|
| `RegexClaims.RegexCandidates` | ra2/domain/scrub.py:688-710 | collects every non-empty match of every rule in declared order, and fails at the first rule past its time budget |
| `RegexClaims.FailsClosed` | ra2/domain/scrub.py:688-710 | collection fails exactly when some rule exceeds its budget, and names the first such rule |
| `RegexClaims.CollectedFacts` | ra2/domain/scrub.py:690-707 | each candidate lies inside the text, is not empty, and carries the id of the rule it came from |
| `RegexClaims.CollectedIff` | ra2/domain/scrub.py:690-707 | collected is every non-empty match of every rule and nothing else, with the span, the tag, the id and the cleaned text of the match and no list entry |
| `RegexClaims.ResolveRegex` | ra2/domain/scrub.py:713-723 | the greedy `reach` loop keeps exactly the candidates no kept candidate before them, by start, length and declared order, overlaps |
| `RegexClaims.RuleIsUnique` | ra2/domain/scrub.py:714-716 | any selection that satisfies the stated rule is the computed one, so the rule leaves no choice |
| `RegexClaims.ClaimsAreDisjointAndMaximal` | ra2/domain/scrub.py:714-723 | claimed spans are disjoint and increasing, and every candidate given up overlaps a claimed one that starts earlier, or starts there and is longer, or spans the same and is of a rule declared no later |
| `RegexClaims.ResolutionIgnoresOrder` | ra2/domain/scrub.py:713-723 | the claimed spans do not depend on the order in which candidates were collected |
| `NameIndexes.NameIndex.constructor` | ra2/domain/scrub.py:614-626 | building the dictionary entry by entry gives the specified index, first key first, with short entries skipped |
| `NameIndexes.IndexHoldsForms` | ra2/domain/scrub.py:614-626 | the index holds exactly the two forms of the usable entries, each leading to the key of an entry with that form |
| `NameIndexes.IndexWidth` | ra2/domain/scrub.py:616-626 | `max_tokens` is the width of the widest usable entry, and 0 when there is none |
| `NameIndexes.LookupFinds` | ra2/domain/scrub.py:620-632 | a lookup succeeds if and only if one of its two forms is a form of some usable entry |
| `NameIndexes.ListOrderDecidesNothing` | ra2/domain/scrub.py:396-400 | reordering or repeating entries changes neither whether a lookup finds something nor the longest window tried |
| `NameIndexes.FirstEntryNamesTheForm` | ra2/domain/scrub.py:615-626 | a form leads to the key of the first entry that has it |
| `NameIndexes.OrderIsFreeIff` | ra2/domain/scrub.py:396-400 | every order of the entries gives the same keys if and only if no form is shared by two usable entries with different keys |
| `NameIndexes.UmlautSpellingOrderDecides` | ra2/domain/scrub.py:396-400 | an input: two spellings that share a form and have two keys; the one listed first names the form |
| `WindowSearch.Windows.SearchIsLeftmostLongest` | ra2/domain/scrub.py:741-769 | the windows found are disjoint, increasing and each the longest qualifying one at its start, and no window starting at a token they leave out qualifies |
| `WindowSearch.Windows.LeftmostLongestIsUnique` | ra2/domain/scrub.py:744-746 | that description determines the windows: any list that satisfies it is the one computed |
| `WindowSearch.Windows.QualifyingWindowIsCovered` | ra2/domain/scrub.py:749-768 | every token at which some window qualifies is covered by a found window |
| `NameMatching.TryWindow` | ra2/domain/scrub.py:751-764 | one window: rejected when not fully joined, on no list, or whitelisted without an honorific; otherwise a match with both list keys |
| `NameMatching.MatchAtToken` | ra2/domain/scrub.py:750-768 | the inner loop finds the longest qualifying window at a token, or nothing |
| `NameMatching.MatchTokens` | ra2/domain/scrub.py:741-769 | the token loop terminates and yields exactly the leftmost-longest matches, with their keys on both lists |
| `NameTagging.DecideNext` | ra2/domain/scrub.py:790-804 | one step of the pass, from the previous tag and the dictionary, decides what the declarative rule decides |
| `NameTagging.TagNames` | ra2/domain/scrub.py:772-810 | the one pass with its `decided` dictionary yields one candidate per match, tagged by the declarative rule, on exactly the matched tokens |
| `NameTagging.UndecidedMatchesAgree` | ra2/domain/scrub.py:779-804 | two matches of one ambiguous name that neither a last name after them nor a first name before them decides get the tag and key of the first of them |
| `NameTagging.TagsComeFromLists` | ra2/domain/scrub.py:777-804 | a first or last name tag is only given to a match on that list, `Name` only to one on both, and every key was matched at or before the match |
| `NameTagging.OneListDecides` | ra2/domain/scrub.py:799-804 | a match on one list only is tagged, keyed and reported by that list |
| `NameTagging.BeforeALastname` | ra2/domain/scrub.py:791-792 | a match on both lists is a first name, with its first-name key, when the next match stands right behind it, joined, and is on the last-name list |
| `NameTagging.AfterAFirstname` | ra2/domain/scrub.py:793-794 | otherwise a last name, with its last-name key, when the candidate right before it, joined, was tagged a first name |
| `NameTagging.NoNeighbourDecides` | ra2/domain/scrub.py:795-798 | and otherwise `Name` where this name is first matched on both lists, and later whatever it was tagged there |
| `SampleNames.LastnameMakesAFirstname` | ra2/domain/scrub.py:772-810 | an input: `Bar Van` with `Bar` on both lists and `Van` on the last-name list becomes `<Firstname_1> <Lastname_1>` |
| `Numbering.PlaceholderInjective` | ra2/domain/scrub.py:527-530 | two placeholders are the same text only for the same tag and number |
| `Numbering.SamePlaceholderIffSameValue` | ra2/domain/scrub.py:834-840 | two replaced values have the same placeholder if and only if they have the same tag and the same value key |
| `Numbering.NumbersHaveNoGaps` | ra2/domain/scrub.py:836-840 | the numbers given under a tag are 1 to k with none left out |
| `Numbering.NumbersFollowFirstOccurrence` | ra2/domain/scrub.py:827-840 | under one tag, a value has the smaller number if and only if it first occurs earlier |
| `Replacement.NextNumberOf` | ra2/domain/scrub.py:835-840 | the two dictionaries give the number the specification gives, and stay in step with it |
| `Replacement.Replace` | ra2/domain/scrub.py:826-856 | the single pass builds the spliced text and one hit per chosen span, with its number and the offset of its placeholder in the output |
| `Splicing.OnlyEditsChange` | ra2/domain/scrub.py:850-855 | every placeholder stands at its recorded offset, and the text between, before and after the edits is the original text |
| `Scrubbing.ChosenIsDisjoint` | ra2/domain/scrub.py:679-681 | claims and the names they leave alone are pairwise disjoint, and a name is chosen if and only if no claim overlaps it |
| `Scrubbing.NamesAreDisjoint` | ra2/domain/scrub.py:727-739 | name candidates never overlap each other and lie inside the text |
| `Scrubbing.Scrubber.constructor` | ra2/domain/scrub.py:646-656 | the three lists become three indexes and the longest window of the two name lists |
| `Scrubbing.Scrubber.NameCandidates` | ra2/domain/scrub.py:727-739 | tokenise, join, match and tag, and nothing at all when no list has a usable entry |
| `Scrubbing.Scrubber.Choose` | ra2/domain/scrub.py:680-681 | claims plus the names that overlap none of them, sorted by start |
| `Scrubbing.Scrubber.Scrub` | ra2/domain/scrub.py:672-684 | the result is the specified scrub of the text; the empty text and a text with nothing to replace come back unchanged |
| `Reversal.OnlyTheHitsChange` | ra2/domain/scrub.py:826-856 | in the output each hit reads as its placeholder, and everything around the hits is the original text |
| `Reversal.RestoreUndoesReplace` | ra2/domain/scrub.py:841-856 | putting each original slice back at its placeholder gives the original text, for every text and every disjoint choice |
| `ScrubTheorems.ScrubIsReversible` | ra2/domain/scrub.py:672-684 | a whole scrub can be undone from its hits and the slices they name, whatever the rules, lists and engine |
| `ScrubTheorems.ScrubFailsClosed` | ra2/domain/scrub.py:563-569 | a scrub of a non-empty text fails exactly when some rule times out; otherwise there is a result |
| `ScrubTheorems.ScrubNumbersValues` | ra2/domain/scrub.py:826-840 | each hit of a whole scrub has the span, tag, rule and list entry of its candidate; two have the same placeholder only for the same tag and value key; and the numbers under a tag run from 1 without a gap, each lower one given before |
| `ScrubTheorems.ListedNameIsReplacedUnlessClaimed` | ra2/domain/scrub.py:680-768 | each token that starts a qualifying window lies in a name candidate, and that candidate is replaced if and only if no regex claim overlaps it |
| `NamesInText.ListedIff` | ra2/domain/scrub.py:749-764 | a window qualifies if and only if its tokens are joined by separators, its stripped or transliterated words are a form of a first or last name of three letters or more, and no such whitelist entry has them or an honorific stands right before |
| `ScrubTheorems.WiderWindowsAreOnNoList` | ra2/domain/scrub.py:749-757 | given that no normal form holds a space, limiting windows to `max_tokens` loses nothing: no wider window is on a name list |
| `WindowWidths.BoundLosesNothingIff` | ra2/domain/scrub.py:749-757 | trying no window of more than so many tokens loses no name if and only if every form on the list that is a row of words has at most so many |
| `WindowWidths.ListedWindowIsTried` | ra2/domain/scrub.py:749-768 | where that holds of both lists, every listed window of a text whose tokens have words for forms is one that is tried |
| `SampleSpaces.SpacedNameIsMissed` | ra2/domain/scrub.py:749-757 | an input: a listed ligature whose normal form is two words, and a text with the two words, which is left alone |
| `ListOrder.ListOrderNeverMovesASpan` | ra2/domain/scrub.py:396-400 | permuting or repeating the entries of any list never changes which spans a scrub replaces |
| `ListOrder.SameEntriesSameScrub` | ra2/domain/scrub.py:396-400 | where no form of the two name lists has two keys, it changes nothing of the scrub: same text, hits, tags, keys and numbers |
| `SampleTexts.ListOrderDecidesANumber` | ra2/domain/scrub.py:396-400 | an input: the same two last names in the other order turn `<Lastname_1> <Lastname_2>` into `<Lastname_1> <Lastname_1>` |
| `Fingerprints.SameFoundIff` | ra2/domain/scrub.py:614-632 | two lists find the same windows if and only if their usable entries have the same forms |
| `Fingerprints.SamePayloadAndFormsSameSpans` | ra2/domain/scrub.py:393-420 | rule sets with one fingerprint payload replace the same spans in every text, given the same forms on each list and no space inside a normal form |
| `Fingerprints.SamePayloadAndFormsSameScrub` | ra2/domain/scrub.py:393-420 | and give the same whole scrub of every text, given besides that no form of a name list has two keys in the one or the other |
| `SampleLists.SamePayloadOtherScrub` | ra2/domain/scrub.py:393-420 | an input: two rule sets with one fingerprint payload, of which only the second replaces the name in a text |
| `NameRemainders.StaysIff` | ra2/domain/scrub.py:826-856 | a character of the text stays, at its place behind the hit before it, if and only if no hit covers it |
| `NameRemainders.RestOfNameStaysIff` | ra2/domain/scrub.py:679-682 | of a name that gives way to a regex claim each character stays in the output if and only if no claim covers that character |
| `SampleClaims.FirstWordStays` | ra2/domain/scrub.py:679-682 | an input: a rule claims the second word of a listed name, and the first word stays in the text |
| `ScrubTwice.LeftAloneIff` | ra2/domain/scrub.py:672-684 | a text comes back unchanged and without hits if and only if no rule matches in it and no window of it names anybody |
| `TextCuts.NamelessCutIff` | ra2/domain/scrub.py:190-212 | a text cut at a `<`, `>` or `_` names somebody if and only if one of its two pieces does, for an engine whose tokens, separators and honorifics hold none of these |
| `SamplePlaceholders.SampleCutsEverywhere` | ra2/domain/scrub.py:190-212 | the sample engine is such an engine, so that condition can be met |
| `SecondScrub.SecondNamesIff` | ra2/domain/scrub.py:672-769 | in a scrubbed text nobody is named if and only if no piece the first scrub kept of its text names anybody and no tag it put in is a name |
| `SecondScrub.SecondScrubFindsNothingIff` | ra2/domain/scrub.py:672-684 | a second scrub has no hits if and only if no rule matches in the scrubbed text, no kept piece of the first text names anybody and no tag is a name |
| `SecondScrub.TextComesBackIff` | ra2/domain/scrub.py:672-684 | where no match of a rule holds a `<`, a scrub gives back its text if and only if it has no hits |
| `SecondScrub.ScrubbingTwiceIff` | ra2/domain/scrub.py:672-684 | scrubbing the scrubbed text gives it back if and only if no rule matches in it, no kept piece of the first text names anybody and no tag is a name, given that no match in it holds a `<` |
| `SecondScrub.PlaceholdersAreScrubbedToThemselves` | ra2/domain/scrub.py:826-856 | whatever the rules match, a text comes back when every hit reads as its placeholder already |
| `SecondScrub.SameLengthTextComesBackIff` | ra2/domain/scrub.py:826-856 | and only then, where every hit is as long as its placeholder |
| `SamplePlaceholders.OwnPlaceholderStays` | ra2/domain/scrub.py:672-684 | an input: a rule that matches `<Firm_1>` with the tag `Firm` has a hit in that text and gives it back |
| `SamplePlaceholders.TextComesBackByCoincidence` | ra2/domain/scrub.py:826-856 | an input: a text that comes back although no hit reads as its placeholder, because a longer and a shorter span make up for each other |
| `SampleClaims.SecondScrubFindsMore` | ra2/domain/scrub.py:672-684 | an input on which a second scrub does change the scrubbed text: the word a claim left of a name is a listed name by itself |
| `ScrubCounting.ScrubCounter.constructor` | ra2/domain/scrub.py:957-973 | an empty counter with one row per rule, then one per list in use, then one for both lists |
| `ScrubCounting.ScrubCounter.Add` | ra2/domain/scrub.py:975-984 | one call appends the events of its result to the log the counter stands for, and marks the record as seen |
| `ScrubCounting.ScrubCounter.TallyRows` | ra2/domain/scrub.py:1019-1029 | each row reports the number of logged hits of its rule and the number of different records they came from |
| `ScrubCounting.ScrubCounter.TallyExamples` | ra2/domain/scrub.py:1042-1057 | each rule gets the row of examples of all its logged matches |
| `ScrubCounting.ExamplesRowMeans` | ra2/domain/scrub.py:1042-1057 | such a row lists the first 2000 values met, each with its own row, most hits first and of equal hits the smaller value |
| `ScrubCounting.HitAdded` | ra2/domain/scrub.py:975-984 | after one more hit every dictionary again says what the whole log adds up to |
| `TallyMeaning.EventsAre` | ra2/domain/scrub.py:975-984 | one call adds just its hits, in order, each with its record and both texts |
| `TallyMeaning.RuleCounts` | ra2/domain/scrub.py:977-978 | the hits of a rule are as many as there are places in the run where a hit of that rule stands |
| `TallyMeaning.RuleRecords` | ra2/domain/scrub.py:979 | the records of a rule are exactly those with a hit of the rule |
| `TallyMeaning.EntryCounts` | ra2/domain/scrub.py:980-981 | the hits of a list entry are as many as there are places where a hit names it |
| `TallyMeaning.ChangedIff` | ra2/domain/scrub.py:982 | the changed records are exactly those with a hit |
| `ScrubCounting.ScrubCounter.TallyRecords` | ra2/domain/scrub.py:1034-1040 | the number of records added and the number of those changed |
| `TallyMeaning.RowsInOrder` | ra2/domain/scrub.py:960-968 | one row per regex rule as declared, then the rows of the lists in use with their ids, tags and source, the row of both lists last |
| `TallyMeaning.MatchesAre` | ra2/domain/scrub.py:983-984 | the examples of a rule are made from its hits whose original is at hand, in order |
| `TallyMeaning.MatchShows` | ra2/domain/scrub.py:986-1017 | an example shows the replaced slice of the original, and of the scrubbed text its placeholder and the forty characters before and behind it; it is grouped by the list entry or else by the cleaned match |
| `TallyMeaning.FirstMetAre` | ra2/domain/scrub.py:996-1002 | the values are in the order in which they are first met |
| `TallyMeaning.ValueShows` | ra2/domain/scrub.py:1003-1017 | the row of a value: its spelling where it is first met, as many hits as it has, and the examples of the first three |
| `TallyMeaning.ValueRecords` | ra2/domain/scrub.py:1004 | its records are exactly those with a hit of that value |
| `ValueExamples.GatherGroups` | ra2/domain/scrub.py:986-1017 | the listed values are the first distinct ones met up to the cap, each as first spelt, with all its hits and records and the first three of its snippets in order |
| `ValueExamples.GatherAddsUp` | ra2/domain/scrub.py:997-1003 | listed value hits and other hits together are all hits, over any run |
| `ValueExamples.RecordsNeverExceedHits` | ra2/domain/scrub.py:1003-1004 | a value never has more records than hits |
| `ValueExamples.SnippetsAreHits` | ra2/domain/scrub.py:1005-1017 | a listed value shows as many snippets as it has hits, up to the cap |
| `RuleChecks.CheckIdentity` | ra2/domain/scrub.py:1103-1121 | each refusal is reported exactly when its condition holds, and none if and only if the rule is well named and its id is new |
| `RuleChecks.ShapeBounds` | ra2/domain/scrub.py:1103-1121 | the shapes of ids and tags at their bounds: 1 to 64 characters and 2 to 32, and what each position refuses |
| `RuleChecks.NamesAreReserved` | ra2/domain/scrub.py:1113-1118 | the reserved ids and tags are exactly those that names from the lists get |
| `RuleChecks.CheckProtected` | ra2/domain/scrub.py:1157-1176 | the loop scrubs every protected string and reports the specified errors: the rule that timed out, or the rule of the first hit |
| `RuleChecks.ErrorNamesTheRule` | ra2/domain/scrub.py:1166-1175 | an error about a protected string names the first rule that timed out, or else the rule of the leftmost hit |
| `RuleChecks.ProtectedErrorsIff` | ra2/domain/scrub.py:1157-1176 | no error is reported if and only if in no protected string a rule matches or a window names anybody |
| `RuleChecks.CheckRules` | ra2/domain/scrub.py:1073-1100 | a rule set is accepted if and only if ids are well formed, unreserved and different, tags are well formed and unreserved, patterns raise nothing, and in no protected string a rule matches or a window names anybody |
| `ScrubCountTheorems.AcceptedRulesHaveOwnRows` | ra2/domain/scrub.py:957-968 | in an accepted rule set no two rows of the tally share an id |
| `ScrubCountTheorems.EveryHitOnOneRow` | ra2/domain/scrub.py:957-1029 | over any run on scrubs of an accepted rule set every hit lands on exactly one row, so the row hits sum to all hits |
| `ScrubCountTheorems.ExamplesAddUp` | ra2/domain/scrub.py:1042-1057 | with every original collected, listed value hits plus other hits are the hits of the rule |
| `NameLists.ParseNameList` | ra2/domain/scrub.py:1302-1357 | sorts every line into blank, comment, no letters, too short, duplicate or accepted, with notices, and refuses a list with no accepted entry |
| `NameLists.EveryLineIsCounted` | ra2/domain/scrub.py:1305-1309 | every line of the file is in exactly one of the six counts |
| `NameLists.SiftedIsWell` | ra2/domain/scrub.py:1331-1340 | accepted entries are usable with one key each, and every duplicate is a usable line whose key an accepted entry has |
| `NameLists.AcceptedAreFirstLines` | ra2/domain/scrub.py:1321-1340 | the accepted entries are the usable lines that are the first with their key, in file order, and the duplicates the other usable lines |
| `ListLines.BlanksAreCounted` | ra2/domain/scrub.py:1324-1326 | as many blank lines are counted as there are |
| `ListLines.CommentsAreCounted` | ra2/domain/scrub.py:1327-1329 | as many comments are counted as there are |
| `ListLines.ShortAreReported` | ra2/domain/scrub.py:1333-1334 | reported as too short are exactly the entries with one or two letters, in file order |
| `ListLines.LetterlessAreReported` | ra2/domain/scrub.py:1331-1332 | reported as without letters are exactly the entries of which no letter is left, in file order |
| `ListLines.NoticesAre` | ra2/domain/scrub.py:1341-1354 | the notices: one for each kind of line that was not accepted and occurs, with the count and of entries the first five, in a fixed order |
| `NameLists.ParsedListFindsIff` | ra2/domain/scrub.py:1305-1340 | a parsed list finds whatever some usable line names if and only if the stripped form of each usable line is a form of a line that is the first with its key |
| `SampleLists.TransliteratedFirstLosesAForm` | ra2/domain/scrub.py:1331-1340 | an input: a file of two lines on which dropping the duplicate loses a form, and the same lines the other way round, on which nothing is lost |
| `Wilson.ClampsChangeNothing` | ra2/domain/stats.py:119-121 | over the reals the clamp into [0, 1] never changes a bound |
| `Wilson.WilsonInvertsScoreTest` | ra2/domain/stats.py:113-135 | a value p in [0, 1] lies in the interval if and only if n (k/n - p)^2 <= z^2 p (1 - p) |
| `Wilson.WilsonHoldsItsShare` | ra2/domain/stats.py:113-135 | 0 <= low <= k/n <= high <= 1 |
| `Wilson.WilsonIsMonotone` | ra2/domain/stats.py:113-135 | over one n both bounds are non-decreasing in the number of successes |
| `Wilson.WilsonMirrors` | ra2/domain/stats.py:113-135 | the interval of n - k successes is the mirror image of the interval of k |
| `Ties.SomebodyIsMarked` | ra2/domain/stats.py:160-161 | a non-empty row has either one best cell and no tie, or no best cell and at least two tied ones |
| `Ties.OverlapsIffSharedPoint` | ra2/domain/stats.py:182-186 | two intervals overlap if and only if they have a point in common, a bound included |
| `Ties.TiedMeansOverlapsLeader` | ra2/domain/stats.py:152-155 | a cell is tied if and only if it overlaps the leader and the leader has a rival |
| `Ties.WideLeaderTiesDisjointCells` | ra2/domain/stats.py:162 | the claim that disjoint cells are never both tied fails for a wide leader: three concrete cells |
| `Ties.TiedCellsOverlapIff` | ra2/domain/stats.py:162 | exactly when the claim holds: among the cells that overlap the leader no lower bound lies above an upper bound |
| `Ties.MonotoneLowsSuffice` | ra2/domain/stats.py:162 | the claim holds whenever a higher point never has a lower lower bound |
| `Scoring.HarmonicMeanBetween` | ra2/domain/scoring.py:256-274 | F1 lies between precision and recall |
| `Scoring.F1IsDice` | ra2/domain/scoring.py:256-274 | F1 is twice the hits over what was claimed plus what there was |
| `Scoring.RoundsToCount` | ra2/domain/scoring.py:389 | the value read back as a count is a count of the cases |
| `ScoredTies.DerivedRateInItsInterval` | ra2/domain/scoring.py:380-397 | every rate between 0 and 1 lies in its own interval, although the interval is computed from a rounded count |
| `ScoredTies.Goal1RowsAreCoherent` | ra2/domain/scoring.py:252-287 | the three rates lie in their intervals, F1 between the other two, and the three counts are the labelled cases |
| `ScoredTies.Goal1RatesReadBack` | ra2/domain/scoring.py:266-287 | each rate reads back into the counts beside it: precision times the claimed cases and recall times all cases are the hits, F1 times both together twice the hits |
| `ScoredTies.Goal2RowsAreCoherent` | ra2/domain/scoring.py:290-341 | the six cells are the flagged cases, the present ones those flagged present, and both rates lie in their intervals |
| `ScoreMeaning.Goal1RowsAre` | ra2/domain/scoring.py:252-287 | row by row: precision over the claimed cases, recall over all, F1 as twice the hits over both together, each with the score-test interval of its count, and the counts of hit, wrong and missing cases |
| `ScoreMeaning.Goal2RowsAre` | ra2/domain/scoring.py:290-341 | row by row: the flagged-present rate over all cases, the rate of hits flagged absent over the flagged ones, and the six cells, each the number of cases with that outcome and flag |
| `Rounding.RoundIff` | ra2/domain/scoring.py:380-397 | rounding is to the nearest whole number, and of two to the even one |
| `ScoredTies.DisjointF1CellsNeverBothTied` | ra2/domain/stats.py:162 | on one feature, scored over one number of cases, two cells with disjoint intervals are never both tied |
| `MacroAverage.MacroIntervalIsProper` | ra2/domain/stats.py:205-246 | averaging intervals inside [0, 1] gives an interval inside [0, 1] with its bounds in order |
| `MacroAverage.MacroOfOne` | ra2/domain/stats.py:205-246 | the interval of a single feature is its own macro interval |
| `MacroAverage.MacroMarginBounds` | ra2/domain/stats.py:234-241 | the unclamped half-width is at most the mean half-width, and at least that divided by the square root of the number of features |
| `MacroMeaning.MacroIntervalMeans` | ra2/domain/stats.py:234-246 | the interval lies around the average mid-point, with a half-width whose square times the squared number of features is the sum of the squared half-widths, clamped into [0, 1]; its n is the sum of the n |
| `MacroMeaning.UnclampedMacroInterval` | ra2/domain/stats.py:234-246 | where no clamp acts, k times the sum of the two bounds is the sum of all bounds, and k squared times the squared width the sum of all squared widths |
| `MacroMeaning.MacroIntervalIgnoresOrder` | ra2/domain/stats.py:205-246 | the order of the features does not matter |
| `MacroMeaning.MacroMeans` | ra2/domain/stats.py:189-202 | the macro average times the number of features is the sum of their values |
| `RankGroups.RanksAreCompetitionRanks` | ra2/domain/ranking.py:78-84 | a rank is one plus the number of models with a strictly smaller rank |
| `RankGroups.SharedRankIsSharedLeader` | ra2/domain/ranking.py:140-147 | two models share a rank if and only if they overlap the same leader first |
| `RankGroups.RankOneIffMarked` | ra2/domain/ranking.py:117-119 | the rank-1 models are exactly those the tie marks of the macro cells, in table order, do not leave unmarked |
| `RankGroups.InRankOrderIff` | ra2/domain/ranking.py:110 | the table is in rank order if and only if no row below a later leader overlaps an earlier one |
| `RankGroups.FallingBoundsKeepRankOrder` | ra2/domain/ranking.py:110 | it is in rank order whenever both interval bounds fall with the macro |
| `Ranking.ShareRank` | ra2/domain/ranking.py:146-147 | every member of a group gets the rank and nobody else is touched |
| `Ranking.RankGroup` | ra2/domain/ranking.py:139-148 | one round: the group of the first model left is ranked and leaves the list |
| `Ranking.AssignRanks` | ra2/domain/ranking.py:136-148 | the loop terminates and gives every row its competition rank |
| `Ranking.RankModels` | ra2/domain/ranking.py:109-161 | one row per model with a scored feature, in table order with its rank; refused exactly when nothing is scored |
| `Ranking.TableFacts` | ra2/domain/ranking.py:125-134 | the rows are exactly the summaries of models with a scored feature, ids are different, and the order is by macro, then id |
| `Text.LeqMeans` | ra2/domain/ranking.py:129-134 | ids are compared as Python compares strings: one that begins the other first, or else by the first character that differs |
| `Ranking.TableIgnoresMappingOrder` | ra2/domain/ranking.py:129-134 | the table does not depend on the order in which the mapping lists its models |
| `Ranking.RankingMeans` | ra2/domain/ranking.py:110-123 | each row: highest macro first, then model id; competition rank, rank 1 as the tie marks say; the macro and the interval are the averages over the scored features, and the counts say how often these carry each mark |
| `Ranking.ScoredAsOften` | ra2/domain/ranking.py:125-128 | every cell that is not suppressed is scored, as often as it is listed, and no other |
| `Ranking.WideModelBreaksRankOrder` | ra2/domain/ranking.py:109-161 | an input of three models with one scored cell each: the ranks in table order are 1, 3, 1 |
| `Ranking.SecondFeatureSeparates` | ra2/domain/ranking.py:109-161 | an input of two models with two cells each that differ in the second feature only: macros 0.85 and 0.55, ranks 1 and 2 |
| `Separation.SeparatingFeatures` | ra2/domain/ranking.py:164-211 | the loop finds exactly the specified rows and sorts them; empty for fewer than two models |
| `Separation.RowMeansDistinguishable` | ra2/domain/ranking.py:188-209 | a row exists if and only if the two intervals do not meet; it names the model whose whole interval is higher, with a positive delta |
| `Separation.SeparatingRowsAre` | ra2/domain/ranking.py:167-209 | whatever the cells are, the list has one row for each feature on which the top two could be scored and their intervals do not meet, and no other; the row names the model with the higher F1, of equal ones the first, and the difference; the widest gap comes first, of equal gaps the smaller feature id |
| `Separation.SeparatingRowsAreExact` | ra2/domain/ranking.py:167-174 | where each F1 lies in its interval every row is genuine, ahead with the whole interval, and no distinguishable feature is missing |
| `Separation.F1ByModelIsComplete` | ra2/domain/ranking.py:203-207 | the values beside a row are those of every model that could be scored on the feature |
| `SpanLocate.Occurrences` | ra2/domain/span_locate.py:49-55 | finds occurrences from left to right that do not overlap, with no further one beginning in a gap |
| `SpanLocate.OccurrencesAreUnique` | ra2/domain/span_locate.py:49-55 | only one list of offsets has that property |
| `SpanLocate.Fold` | ra2/domain/span_locate.py:58-75 | the loop with its run flag yields the folded text and the offset each of its characters came from |
| `SpanLocate.FoldedSlice` | ra2/domain/span_locate.py:58-75 | folding commutes with slicing from any offset that survives folding |
| `SpanLocate.ExactImpliesTolerant` | ra2/domain/span_locate.py:10-16 | a text with a verbatim occurrence also has a tolerant one |
| `SpanLocate.Locate` | ra2/domain/span_locate.py:33-46 | results are increasing, disjoint, inside the text, each showing the span verbatim or folded, with none missed in a gap; empty if and only if no stretch of the text folds to the folded stripped span |
| `SpanWords.WovenFolds` | ra2/domain/span_locate.py:58-75 | a text of words with any spaces, tabs and line breaks between them folds to the words with one space between them |
| `SpanWords.ShowsIff` | ra2/domain/span_locate.py:10-16 | the tolerant search finds a stretch if and only if it reads the words the span quotes, with any spaces, tabs and line breaks between them, and begins and ends with a word |
| `KeyChecks.DuplicateKeys` | ra2/domain/validation.py:81-109 | the two loops over the `seen` dictionary report the specified findings, in the order keys are first met |
| `KeyChecks.NoDuplicatesIff` | ra2/domain/validation.py:81-109 | no duplicate finding if and only if every non-empty key of the kind occurs once across all files |
| `KeyChecks.DuplicateNamesItsFiles` | ra2/domain/validation.py:96-108 | a duplicate finding names every file that has the key, sorted and once each, and the true number of occurrences |
| `References.FindOrphans` | ra2/domain/validation.py:112-159 | the nested loops report the specified orphan findings |
| `References.NoOrphansIff` | ra2/domain/validation.py:112-159 | no orphan finding if and only if every non-empty reference of every child file is a key of some parent row |
| `References.OrphanIsReal` | ra2/domain/validation.py:139-158 | an orphan finding names a file that holds the reference, and no parent has that key |
| `CantonalSets.BestOverlap` | ra2/domain/validation.py:225-233 | the loop returns the first file that shares the most keys, or nothing |
| `CantonalSets.BestMeans` | ra2/domain/validation.py:225-233 | a file is found if and only if some key is shared; it shares the most, and no earlier one shares as many |
| `CantonalSets.ResolveSets` | ra2/domain/validation.py:162-222 | the three passes fill the dictionary and the findings as specified |
| `CantonalSets.SetKeysAreKnown` | ra2/domain/validation.py:162-222 | the dictionary holds for every structured file what its keys say and nothing for any other file, so no pass overwrites another |
| `CantonalSets.ObjektSetIsThatOfMostLinked` | ra2/domain/validation.py:185-203 | an objekt file has a set if and only if it shares a key with an unfall file, and the set is that of the one it shares the most keys with, the first of several |
| `CantonalSets.PersonSetIsThatOfMostLinked` | ra2/domain/validation.py:205-220 | a person file has the set of the objekt file it shares the most keys with, the first of several; none if it shares no key or that file has no set |
| `DeclaredCounts.CountObjekts` | ra2/domain/validation.py:246-256 | the loop counts rows per accident and records the accident of each object |
| `DeclaredCounts.CountPersons` | ra2/domain/validation.py:258-263 | the loop counts persons per accident through that dictionary |
| `DeclaredCounts.ObjektTotalIsRowCount` | ra2/domain/validation.py:246-252 | the object total compared is the number of rows that refer to the accident |
| `DeclaredCounts.PersonTotalIsJoinCount` | ra2/domain/validation.py:246-263 | with unique object keys the person total compared is the size of the join person - objekt - unfall |
| `DeclaredCells.DecimalReadsBack` | ra2/domain/validation.py:321-325 | a total in decimal digits, up to the digit limit, is read as that number, with a minus as its negative |
| `DeclaredCells.CellIsRead` | ra2/domain/validation.py:313-327 | how any cell is read: no number when after the minuses nothing or another character than a digit stands, no integer after more than one minus, with a digit that is not decimal or too many digits, and otherwise a number of that sign, with its trimmed text |
| `DeclaredCells.NoIntegerIff` | ra2/domain/validation.py:321-325 | text that passes the digit test is no integer if and only if it has two or more leading minuses, a digit that is not decimal, or too many digits |
| `DeclaredCells.TwoUnreadableCells` | ra2/domain/validation.py:321-325 | inputs: `--5` and a superscript two pass the digit test and are no integers |
| `DeclaredCounts.CompareCounts` | ra2/domain/validation.py:265-297 | the nested loops report the specified findings, or fail at the first total that is no integer, whatever reads a cell |
| `DeclaredCounts.ComparisonStopsIff` | ra2/domain/validation.py:265-333 | the comparison fails if and only if some row with a key declares, in a configured column, a total that is no integer |
| `DeclaredCounts.CountFindingIff` | ra2/domain/validation.py:265-333 | a count finding is reported if and only if no total stops the comparison and a row declares, as a number, something other than what was delivered |
| `TextJoin.FindTextGaps` | ra2/domain/validation.py:336-377 | the two loops report the specified findings; nothing when either kind is not selected |
| `TextJoin.NoTextGapsIff` | ra2/domain/validation.py:336-377 | nothing is reported if and only if texts and accidents have the same non-empty keys |
| `DeliveryValidation.ValidateDelivery` | ra2/domain/validation.py:380-411 | validation of the selected files: the specified findings in order, and the set key of every listed file, or the failure of the count comparison |
| `DeliverySets.SetKeyIff` | ra2/domain/validation.py:162-222 | the set key of each listed file: of a selected accident file its canton, or `set:` and its id without one; of an object file that of the first accident file it shares the most keys with; of a person file that of such an object file; of any other none |
| `DeliverySets.KeyColumnIs` | ra2/domain/validation.py:64-78 | the key column of a kind is that of the first selected file of the kind with a known header, or the RADIS name without one |
| `DeliverySets.FilenamesDecideNothing` | ra2/domain/validation.py:162-169 | renaming the files changes no set key |
| `DeliverySets.CantonReachesAllThree` | ra2/domain/validation.py:162-222 | an input: an accident file of canton `ZH`, an object file that refers to it and a person file that refers to that all get the key `ZH`, and without a canton `set:u1` |
| `DeliveryFindings.FindingsAreExact` | ra2/domain/validation.py:380-411 | a cross-file finding is reported if and only if what it says is so: a key in several rows with all its files and its count, a reference no parent has, a file without a set, a declared total that differs from the rows, a text or an accident without the other |
| `DeliveryFindings.FindingsInTurn` | ra2/domain/validation.py:394-402 | the findings come in turn: files without a set, objects before persons; repeated keys; references to nothing, of objects before those of persons; totals; texts, then accidents without one |
| `DeliveryFindings.ObjektTotalIs` | ra2/domain/validation.py:243-250 | the object total of an accident is the number of rows of the object files that refer to it |
| `DeliveryFindings.ObjektRowsAre` | ra2/domain/validation.py:248-254 | the object rows counted are those of the object files with a reference column, each with the accident it refers to and its own key |
| `DeliveryFindings.OwnerIff` | ra2/domain/validation.py:251-254 | an object belongs to the accident of the last of its rows that names one |
| `DeliveryFindings.PersonTotalIs` | ra2/domain/validation.py:256-261 | the person total of an accident is the number of person rows that refer to an object that belongs to it |
| `DeliveryValidation.ValidationFailsIff` | ra2/domain/validation.py:265-333 | validation fails if and only if some selected accident row with a key declares a total that passes the digit test and is no integer |
| `DeliveryValidation.OneTotalFailsValidation` | ra2/domain/validation.py:313-325 | an input: a delivery of one accident whose only declared total is `--5` has no findings at all |
| `DeliveryValidation.DeselectedFileDoesNotMatter` | ra2/domain/validation.py:389-391 | a deselected file, wherever it is listed, changes no cross-file finding and gets no set key |
| `DeliveryValidation.NotBlockedIff` | ra2/domain/validation.py:383-411 | a delivery is validated without a blocking cross-file finding if and only if its declared totals can be read, keys are unique, references hold and sets resolve; counts that disagree and missing texts never block |
| `DeliveryValidation.ReferenceReachesOneParent` | ra2/domain/validation.py:81-159 | without a blocking cross-file finding every non-empty foreign key reaches exactly one parent row |
| `DeliveryValidation.EverySetComesFromAnUnfall` | ra2/domain/validation.py:162-222 | without a blocking cross-file finding every structured file has the set key of some accident file, which `DeliverySets.SetKeyIff` tells |
| `DeliveryValidation.TotalsAreJoins` | ra2/domain/validation.py:236-263 | without a blocking cross-file finding the totals compared are the true row and join counts |
| `PromptTemplate.ValidateTemplate` | ra2/domain/prompt.py:203-271 | the loops report all errors: unknown, then malformed, then missing slots |
| `PromptTemplate.TokensAreAll` | ra2/domain/prompt.py:235-244 | the left-to-right scan meets every well-formed slot |
| `PromptTemplate.NoErrorsIffValid` | ra2/domain/prompt.py:203-271 | no error if and only if the source is not blank, every pair of opening braces starts a slot of the catalogue, and both required slots occur |
| `PromptTemplate.UnknownIsExact` | ra2/domain/prompt.py:235-244 | an unknown slot is reported, by name and offset, exactly where a well-formed slot is not in the catalogue |
| `PromptTemplate.MalformedIsReal` | ra2/domain/prompt.py:246-258 | a malformed slot is reported only where two braces open and no slot stands, with the word that follows |
| `PromptMeaning.MalformedIsExact` | ra2/domain/prompt.py:246-258 | a malformed slot is reported, with the word behind it, if and only if a pair of braces opens there, counted from the left of its run, and no slot stands there |
| `PromptMeaning.BlankIsTheOnlyError` | ra2/domain/prompt.py:226-227 | a blank source has one error, and no other source has that error |
| `PromptMeaning.ErrorsInTurn` | ra2/domain/prompt.py:229-271 | unknown slots come first, then malformed ones, both from left to right, then missing ones in catalogue order |
| `PromptTemplate.NoBrokenSlotIsMissed` | ra2/domain/prompt.py:211-212 | every opening without a slot is reported, there or at the brace before it |
| `PromptTemplate.BrokenIsNotMissing` | ra2/domain/prompt.py:221-225 | a required slot is reported missing if and only if it is neither there nor there in broken form |
| `PromptResolution.ResolveTemplate` | ra2/domain/prompt.py:320-358 | the substitution yields the concatenation of literal pieces and slot values, and the slots used in catalogue order |
| `PromptMeaning.SlotsUsedAre` | ra2/domain/prompt.py:355-357 | the slots used are those whose name stands in double braces somewhere, in catalogue order |
| `PromptResolution.OwnTokensChangeNothing` | ra2/domain/prompt.py:320-340 | mapping every slot to its own token returns any source unchanged |
| `PromptResolution.ValidTemplateExpands` | ra2/domain/prompt.py:320-358 | a template that validates uses both required slots and expands to plain text and the blocks exactly as given, a slot without a block to nothing |
| `PromptResolution.UnusedSlotDoesNotMatter` | ra2/domain/prompt.py:344-350 | what a slot stands for does not matter to a template that does not use it |
| `OutputParsing.ParseOutput` | ra2/domain/extraction.py:341-499 | the specified reading of a response, the reason there is none, or the error of `json.loads` that is not caught |
| `OutputMeaning.RefusedIff` | ra2/domain/extraction.py:361-381 | a response is refused as no JSON, as no object, or for want of a features object, each exactly when that is so, and read otherwise |
| `OutputMeaning.ValuesAreKept` | ra2/domain/extraction.py:386-469 | of a readable answer the flag and the evidence are stored as they are, whatever its value, and the value beside its trimmed copy; of any other nothing |
| `OutputMeaning.EntitiesAreKept` | ra2/domain/extraction.py:481-497 | the entities are the readable items of the entities array, in order, and none without such an array |
| `OutputMeaning.ContradictionIsStored` | ra2/domain/extraction.py:461-469 | an input: an answer with a value that is flagged absent is stored with the value and the flag false |
| `OutputMeaning.GetIs` | ra2/domain/extraction.py:361-364 | a dictionary says what the last member with the key says |
| `OutputParsing.ParsingRaisesIff` | ra2/domain/extraction.py:361-369 | parsing raises if and only if the scan meets, before it ends, a whole number with more digits than can be converted or nesting too deep to follow |
| `JsonLimits.ReadingRaisesIff` | ra2/domain/extraction.py:361-369 | and that is: a literal of the response, a minus or not and digits, has more digits than the limit, or more arrays and objects than the limit are open at once, before the scan ends |
| `OutputParsing.OneDigitTooMany` | ra2/domain/extraction.py:361-369 | an input: any whole number of as many digits as can be converted is read, and with one digit more parsing raises |
| `JsonText.DictHolds` | ra2/domain/extraction.py:362-362 | of members with one key the dictionary keeps the last value, and every key once |
| `OutputParsing.OneValuePerFeature` | ra2/domain/extraction.py:386-469 | one value for each configured feature, in configured order |
| `OutputParsing.MissingAndUnknownAreExact` | ra2/domain/extraction.py:386-479 | missing features are exactly those without a key in the response, unknown ones exactly the keys nobody configured |
| `OutputParsing.IssuesAreExact` | ra2/domain/extraction.py:386-479 | the issues of a response are those that are so of a configured feature (missing, unreadable or of another type, a value without evidence, a code outside its list) and exactly one for each unknown key |
| `OutputMeaning.IssuesInTurn` | ra2/domain/extraction.py:386-479 | the issues of the features come in the order of the features, a missing piece of evidence before another issue of the same feature and no issue twice, and those of unknown keys behind them |
| `OutputParsing.AnswersAreKept` | ra2/domain/extraction.py:422-469 | a raw value is stored for exactly the readable non-null answers, and beside it the same text trimmed |
| `OutputParsing.NoIssuesIff` | ra2/domain/extraction.py:386-479 | a response is read without an issue if and only if its keys are the configured ones and every feature is readable, has evidence beside a value, fits its type and, where there is a list, is a listed code |
| `OutputParsing.KeyOrderDecidesNothing` | ra2/domain/extraction.py:386-499 | two responses with one features object in different key order give the same values and feature issues in the same order, and the same issues of unknown keys |
| `OutputParsing.EveryMemberIsKept` | ra2/domain/extraction.py:386-479 | the value of each key of the features dictionary is stored, or the key is shown by an issue: unknown, or its answer unreadable |
| `OutputParsing.KeptAsSpeltIff` | ra2/domain/extraction.py:291-313 | an answered scalar is stored as it was spelt if and only if it is a truth value, a number whose literal is also how it prints, or a text whose literal reads as it stands |
| `OutputParsing.LiteralsAreNotKept` | ra2/domain/extraction.py:291-313 | inputs: an answer of `1.10` is stored as `1.1`, one of `1e2` as `100.0`, and one spelt with the escape of a letter as that letter |
| `OutputParsing.FitsByValue` | ra2/domain/extraction.py:316-338 | which types a value fits, told by the kind of value: truth values and the boolean type belong together, numbers fit number types only, blank text fits no number type |
| `PythonText.TrimFacts` | ra2/domain/extraction.py:465 | stripping removes whitespace at the two ends and nothing else |
| `OutputParsing.CodelistsChangeNoValue` | ra2/domain/extraction.py:352-355 | code lists change what is reported, never what is kept |
| `Qualification.DifferCountIsMetric` | ra2/domain/qualification.py:231-243 | over the same records the differ count is zero for equal passes only, symmetric, and satisfies the triangle inequality |
| `Qualification.NoiseFloorRoundsUp` | ra2/domain/qualification.py:246-251 | the floor is the least whole number of records that reaches the share, and at least one |
| `Qualification.GateIsMadeIff` | ra2/domain/qualification.py:293-318 | a gate result exists if and only if there are two passes, measured times, records, and every pass covers the same records |
| `Qualification.BandIsTight` | ra2/domain/qualification.py:254-264 | the band is at least the floor, and it is the floor or the count of some one-slot pass |
| `Qualification.BandCoversBaseline` | ra2/domain/qualification.py:254-264 | every one-slot pass stays within the band of the first |
| `Qualification.PassingGateBoundsDrift` | ra2/domain/qualification.py:267-332 | both counts are against the first one-slot pass; a gate passes exactly on its three conditions, the speedup as measured, and fails in parallel exactly when the parallel count or the speedup does; on a pass serial and parallel answers differ from each other and from any one-slot pass on at most twice the band |
| `Qualification.GateIsConsistent` | ra2/domain/qualification.py:314-332 | a stored result still tells that a pass met all three conditions, after rounding too, that the verdict blames the server exactly when the serial count left the band, and the speedup to half a hundredth |
| `GateTrials.GateRecords` | ra2/domain/qualification.py:293-332 | a made gate stores the N it was made at, the number of records, the band, how many answers the serial and the parallel pass give differently, and the verdict those say |
| `GateTrials.RefusalNamesWhatIsMissing` | ra2/domain/qualification.py:310-318 | why there is no gate, the first obstacle named: too few passes, no time, no records, or passes over different ones |
| `Qualification.StoredSpeedupHidesIff` | ra2/domain/qualification.py:319-332 | the stored speedup reaches the bar that the measured one missed if and only if the measured one is at least 1.295 and below 1.3 |
| `Qualification.StoredSpeedupCanHideAFailure` | ra2/domain/qualification.py:319-332 | an input: 1297 ms against 1000 ms is stored as a speedup of 1.3 and fails for being too slow |
| `Qualification.PassingNIsLargest` | ra2/domain/qualification.py:190-198 | the passing N is the largest that passed, or 1 |
| `Qualification.ServerSensitiveIff` | ra2/domain/qualification.py:200-205 | over stored gates a model is server sensitive if and only if some serial pass left the band |
| `Qualification.DecisionIsSafe` | ra2/domain/qualification.py:335-375 | a decision pins 1 or the configured number, and more than 1 outside a measurement if and only if a gate passed at that number or more for the same digest and version |
| `Qualification.RefusalNamesFirstObstacle` | ra2/domain/qualification.py:363-375 | a refusal pins 1 and names the first obstacle: not mapped, no gate, digest, server version, failed gate |
| `Qualification.GatedRunStaysInBand` | ra2/domain/qualification.py:335-375 | a run pinned above 1 was cleared by a stored gate whose serial and parallel answers stayed in the band |
| `GateTrials.PinnedCallsWereTried` | ra2/domain/qualification.py:335-375 | outside a measurement several calls are pinned only if one of the trials behind the gates was made at as many or more, moved no more answers than its band and was at least 1.3 times as fast |
| `GateTrials.UntriedCallsAreRefused` | ra2/domain/qualification.py:373-374 | and if no trial made at as many stayed in its band, the gates of this model file and version refuse it as failed |
| `GateTrials.TrialAtFourClearsFour` | ra2/domain/qualification.py:293-375 | an input: a steady trial at 4 clears 4 calls, and 16 are refused as failed |

## Left out

- The regular expression engine, its timeouts, tokenisation, Unicode normalisation, honorific search and casefolding: functions of `ScrubTypes.Engine`.
- Decoding, byte order marks and line splitting of a list file: `NameLists` starts from the lines.
- Compiling and trying the pattern of a rule: what that reports is a parameter of `RuleChecks.CheckRules`. So are the protected strings themselves, and the shorter time budget of the check is that of the engine given.
- Parsing of rule files and searching the entries of a list. Of the rule set fingerprint the payload is modelled as far as it differs between rule sets without protected strings of their own; its canonical text and hash are not.
- The counter's table of most-hit entries: its dictionary is modelled, its sorted extract is not.
- The counter's per-rule and per-value accumulators are values inside the class, so aliasing between them is not modelled.
- Floating-point rounding: rates, bounds and square roots are real numbers; only `round`, of a rate to a whole count and of a speedup to hundredths, is modelled.
- Outcome classification and value matching, exploratory rows, and the language label that every score row carries.
- Suppression below a floor, which is one comparison; ranking takes the flag as given.
- Findings inside one file, which block as well, and header matching: a file offers a function from column name to index. Encoding, dialect and row recovery are not part of this model.
- The token estimate of a resolved prompt, its fingerprint, and rendering of the feature block.
- Scanning of JSON, validation of answers and entities, and the printed form of a value: functions of `OutputParsing.Reader`. What a broken text holds before its error is part of what scanning gives. The derived output schema is not modelled.
- Of a response, what the source drops without a report: other members of an answer or of the whole, earlier values of a key that is repeated, and entities that do not validate.
- Canonical form of an answer and the quality summary of a qualification.
- Services, persistence, HTTP, views and configuration.
