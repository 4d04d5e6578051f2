/** The values the narrative scrubber passes around, and the library calls it depends on. */
module ScrubTypes {
  import opened Wrappers

  const MIN_ENTRY_LETTERS: nat := 3
  const FIRSTNAME_RULE_ID := "firstnames"
  const LASTNAME_RULE_ID := "lastnames"
  const BOTH_LISTS_RULE_ID := "both-lists"
  const RESERVED_RULE_IDS: set<string> := {FIRSTNAME_RULE_ID, LASTNAME_RULE_ID, BOTH_LISTS_RULE_ID}
  const RESERVED_TAGS: set<string> := {"Firstname", "Lastname", "Name"}

  datatype RuleSource = Mandatory | Imported | NameList

  datatype NameTag = Firstname | Lastname | Name {
    function Value(): string {
      match this case Firstname => "Firstname" case Lastname => "Lastname" case Name => "Name"
    }

    function RuleId(): string {
      match this
      case Firstname => FIRSTNAME_RULE_ID
      case Lastname => LASTNAME_RULE_ID
      case Name => BOTH_LISTS_RULE_ID
    }
  }

  datatype RegexRule = RegexRule(ruleId: string, tag: string, pattern: string, source: RuleSource)

  datatype ScrubRules = ScrubRules(
    regexRules: seq<RegexRule>, firstnames: seq<string>, lastnames: seq<string>, whitelist: seq<string>)

  datatype Span = Span(start: nat, end: nat)

  datatype Candidate = Candidate(
    start: nat, end: nat, tag: string, ruleId: string, valueKey: string, entry: Option<string>)
  {
    function AsSpan(): Span { Span(start, end) }
  }

  datatype Token = Token(start: nat, end: nat, stripped: string, transliterated: string)

  datatype NameMatch = NameMatch(first: nat, count: nat, firstname: Option<string>, lastname: Option<string>)
  {
    predicate Both() { firstname.Some? && lastname.Some? }
  }

  datatype Hit = Hit(
    ruleId: string, tag: string, start: nat, end: nat, number: nat, entry: Option<string>, outStart: nat)

  datatype ScrubResult = ScrubResult(text: string, hits: seq<Hit>)

  /** `ScrubTimeoutError`: it names the rule and never carries the text. */
  datatype ScrubTimeout = ScrubTimeout(ruleId: string)

  /** The regular expression engine and Unicode tables, as functions.
      - `find(pattern, text)`: all matches in order, or `None` past the time budget
      - `clean`: what a regex match is compared by: casefolded, without separators
      - `tokens`: the letter runs of a text; `separator`: may this join two tokens of one name
      - `stripped`, `transliterated`: the two normal forms of a token
      - `honorific(text, i)`: does an honorific end right before offset `i` */
  datatype Engine = Engine(
    find: (string, string) -> Option<seq<Span>>,
    clean: string -> string,
    tokens: string -> seq<Span>,
    separator: string -> bool,
    stripped: string -> string,
    transliterated: string -> string,
    honorific: (string, nat) -> bool)

  /** Matches come left to right without overlapping, inside the text. */
  ghost predicate Ordered(spans: seq<Span>, length: nat) {
    && (forall i | 0 <= i < |spans| :: spans[i].start <= spans[i].end <= length)
    && (forall i, j | 0 <= i < j < |spans| :: spans[i].end <= spans[j].start)
  }

  ghost predicate Sound(e: Engine) {
    && (forall pattern, text {:trigger e.find(pattern, text)} | e.find(pattern, text).Some? :: Ordered(e.find(pattern, text).value, |text|))
    && (forall text {:trigger e.tokens(text)} :: Ordered(e.tokens(text), |text|))
    && (forall text, i | 0 <= i < |e.tokens(text)| :: e.tokens(text)[i].start < e.tokens(text)[i].end)
  }

  predicate Overlap(a: Candidate, b: Candidate) { a.start < b.end && b.start < a.end }

  /** Left to right, non-empty, not overlapping, inside the text. */
  ghost predicate Disjoint(cs: seq<Candidate>, length: nat) {
    && (forall i | 0 <= i < |cs| :: cs[i].start < cs[i].end <= length)
    && (forall i, j | 0 <= i < j < |cs| :: cs[i].end <= cs[j].start)
  }
}
