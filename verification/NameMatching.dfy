/** Finding listed names in a tokenised text: the longest window first, left to right. */
module NameMatching {
  import opened Wrappers
  import opened ScrubTypes
  import opened Text
  import opened NameIndexes
  import opened WindowSearch

  datatype Lists = Lists(first: Index, last: Index, white: Index) {
    function MaxTokens(): nat { Max(first.maxTokens, last.maxTokens) }
  }

  /** A text as the name search sees it: its tokens, which neighbours are joined, and before
      which tokens an honorific stands. */
  datatype Reading = Reading(lists: Lists, tokens: seq<Token>, joined: seq<bool>, honored: seq<bool>) {

    ghost predicate WellFormed() {
      |honored| == |tokens| && |joined| == if tokens == [] then 0 else |tokens| - 1
    }

    function Stripped(i: nat, n: nat): string
      requires i + n <= |tokens|
    {
      Join(seq(n, k requires 0 <= k < n => tokens[i + k].stripped))
    }

    function Transliterated(i: nat, n: nat): string
      requires i + n <= |tokens|
    {
      Join(seq(n, k requires 0 <= k < n => tokens[i + k].transliterated))
    }

    function Find(index: Index, i: nat, n: nat): Option<string>
      requires i + n <= |tokens|
    {
      index.Lookup(Stripped(i, n), Transliterated(i, n))
    }

    /** The `n` tokens from `i` on are joined and on a name list, and the whitelist does not
        protect them or an honorific lifts it. */
    ghost predicate Listed(i: nat, n: nat) {
      && WellFormed() && n >= 1 && i + n <= |tokens|
      && (forall k | i <= k < i + n - 1 :: joined[k])
      && (Find(lists.first, i, n).Some? || Find(lists.last, i, n).Some?)
      && (Find(lists.white, i, n).None? || honored[i])
    }

    ghost function Search(): Windows {
      Windows(|tokens|, lists.MaxTokens(), (i: nat, n: nat) => Listed(i, n))
    }

    ghost function MatchAt(w: Window): NameMatch {
      if w.first + w.count <= |tokens| then
        NameMatch(w.first, w.count, Find(lists.first, w.first, w.count), Find(lists.last, w.first, w.count))
      else NameMatch(w.first, w.count, None, None)
    }

    ghost function MatchAll(ws: seq<Window>): seq<NameMatch> {
      seq(|ws|, k requires 0 <= k < |ws| => MatchAt(ws[k]))
    }

    /** The matches of the whole text. */
    ghost function Matches(): seq<NameMatch> {
      MatchAll(Search().SearchFrom(0))
    }

    lemma {:induction false} MatchAllNext(ws: seq<Window>, w: Window)
      ensures MatchAll(ws + [w]) == MatchAll(ws) + [MatchAt(w)]
    {}

    /** Every match is a window on at least one list, and matches go left to right, disjoint. */
    lemma {:induction false} MatchesAreListed(k: nat)
      requires WellFormed() && k < |Matches()|
      ensures var m := Matches()[k];
              m.count >= 1 && m.first + m.count <= |tokens| && (m.firstname.Some? || m.lastname.Some?)
      ensures forall l | k < l < |Matches()| ::
                Matches()[k].first + Matches()[k].count <= Matches()[l].first
    {
      var ws := Search().SearchFrom(0);
      Search().SearchIsLeftmostLongest(0);
      assert ws[k] in ws;
      assert Search().Proper(ws[k]);
    }
  }

  /** Two readings of one text whose lists find the same windows match the same tokens. */
  lemma {:induction false} SameListsSameSpans(a: Reading, b: Reading)
    requires a.WellFormed() && b.WellFormed()
    requires a.tokens == b.tokens && a.joined == b.joined && a.honored == b.honored
    requires a.lists.MaxTokens() == b.lists.MaxTokens()
    requires forall s, t :: a.lists.first.Lookup(s, t).Some? <==> b.lists.first.Lookup(s, t).Some?
    requires forall s, t :: a.lists.last.Lookup(s, t).Some? <==> b.lists.last.Lookup(s, t).Some?
    requires forall s, t :: a.lists.white.Lookup(s, t).Some? <==> b.lists.white.Lookup(s, t).Some?
    ensures a.Search().SearchFrom(0) == b.Search().SearchFrom(0)
  {
    forall i: nat, n: nat ensures a.Search().Qualifies(i, n) <==> b.Search().Qualifies(i, n) {
      if i + n <= |a.tokens| {
        assert a.Stripped(i, n) == b.Stripped(i, n) && a.Transliterated(i, n) == b.Transliterated(i, n);
      }
    }
    SameWindowsSameSearch(a.Search(), b.Search(), 0);
  }

  /** Does the `n`-token window at `i` name somebody; the two list keys if so. */
  method TryWindow(firstnames: NameIndex, lastnames: NameIndex, whitelist: NameIndex, honored: bool,
                   tokens: seq<Token>, joined: seq<bool>, i: nat, n: nat, ghost r: Reading)
    returns (found: Option<NameMatch>)
    requires r.WellFormed() && r.tokens == tokens && r.joined == joined
    requires r.lists == Lists(firstnames.Contents(), lastnames.Contents(), whitelist.Contents())
    requires n >= 1 && i + n <= |tokens| && honored == r.honored[i]
    ensures found == if r.Listed(i, n) then Some(r.MatchAt(Window(i, n))) else None
  {
    if exists k | i <= k < i + n - 1 :: !joined[k] {
      return None;
    }
    var stripped := Join(seq(n, k requires 0 <= k < n => tokens[i + k].stripped));
    var transliterated := Join(seq(n, k requires 0 <= k < n => tokens[i + k].transliterated));
    assert stripped == r.Stripped(i, n) && transliterated == r.Transliterated(i, n);
    var firstname := firstnames.Lookup(stripped, transliterated);
    var lastname := lastnames.Lookup(stripped, transliterated);
    if firstname.None? && lastname.None? {
      return None;
    }
    var protected := whitelist.Lookup(stripped, transliterated);
    if protected.Some? && !honored {
      return None;
    }
    return Some(NameMatch(i, n, firstname, lastname));
  }

  /** `search` asks for exactly the windows that `r` lists. */
  ghost predicate Describes(search: Windows, r: Reading) {
    && search.length == |r.tokens| && search.widest == r.lists.MaxTokens()
    && forall i: nat, n: nat {:trigger r.Listed(i, n)} :: search.listed(i, n) <==> r.Listed(i, n)
  }

  /** `done` are the windows found before token `i`. */
  ghost predicate Progress(search: Windows, done: seq<Window>, i: nat) {
    i <= search.length && done + search.SearchFrom(i) == search.SearchFrom(0)
  }

  lemma {:induction false} ProgressNext(search: Windows, done: seq<Window>, i: nat)
    requires Progress(search, done, i) && i < search.length
    ensures var n := search.Longest(i, search.WidestAt(i));
            if n == 0 then Progress(search, done, i + 1) else Progress(search, done + [Window(i, n)], i + n)
  {}

  /** `matches` are the matches of the windows found before token `i`. */
  ghost predicate MatchedUpTo(r: Reading, search: Windows, i: nat, done: seq<Window>, matches: seq<NameMatch>) {
    Progress(search, done, i) && matches == r.MatchAll(done)
  }

  lemma {:induction false} MatchedNext(r: Reading, search: Windows, i: nat, done: seq<Window>, matches: seq<NameMatch>)
    requires MatchedUpTo(r, search, i, done, matches) && i < search.length
    ensures var n := search.Longest(i, search.WidestAt(i));
            if n == 0 then MatchedUpTo(r, search, i + 1, done, matches)
            else MatchedUpTo(r, search, i + n, done + [Window(i, n)], matches + [r.MatchAt(Window(i, n))])
  {
    ProgressNext(search, done, i);
    r.MatchAllNext(done, Window(i, search.Longest(i, search.WidestAt(i))));
  }

  /** The inner loop at one token: the widest window first, down to a single token. */
  method MatchAtToken(firstnames: NameIndex, lastnames: NameIndex, whitelist: NameIndex, maxTokens: nat,
                      honored: bool, tokens: seq<Token>, joined: seq<bool>, i: nat,
                      ghost r: Reading, ghost search: Windows)
    returns (found: Option<NameMatch>)
    requires r.WellFormed() && r.tokens == tokens && r.joined == joined
    requires r.lists == Lists(firstnames.Contents(), lastnames.Contents(), whitelist.Contents())
    requires i < |tokens| && honored == r.honored[i] && maxTokens == r.lists.MaxTokens() && Describes(search, r)
    ensures var n := search.Longest(i, search.WidestAt(i));
            found == if n == 0 then None else Some(r.MatchAt(Window(i, n)))
  {
    var widest := if maxTokens <= |tokens| - i then maxTokens else |tokens| - i;
    for n := widest downto 0
      invariant search.Longest(i, widest) == search.Longest(i, n)
    {
      found := TryWindow(firstnames, lastnames, whitelist, honored, tokens, joined, i, n + 1, r);
      if found.Some? {
        return;
      }
    }
    return None;
  }

  method MatchTokens(firstnames: NameIndex, lastnames: NameIndex, whitelist: NameIndex, maxTokens: nat,
                     text: string, e: Engine, tokens: seq<Token>, joined: seq<bool>,
                     ghost r: Reading, ghost search: Windows)
    returns (matches: seq<NameMatch>)
    requires r.WellFormed() && r.tokens == tokens && r.joined == joined
    requires r.lists == Lists(firstnames.Contents(), lastnames.Contents(), whitelist.Contents())
    requires maxTokens == r.lists.MaxTokens() && Describes(search, r)
    requires forall i | 0 <= i < |tokens| :: r.honored[i] == e.honorific(text, tokens[i].start)
    ensures matches == r.MatchAll(search.SearchFrom(0))
  {
    matches := [];
    var i := 0;
    ghost var done: seq<Window> := [];
    while i < |tokens|
      invariant MatchedUpTo(r, search, i, done, matches)
    {
      MatchedNext(r, search, i, done, matches);
      var honored := e.honorific(text, tokens[i].start);
      var found := MatchAtToken(firstnames, lastnames, whitelist, maxTokens, honored, tokens, joined, i, r, search);
      if found.Some? {
        matches := matches + [found.value];
        done := done + [Window(i, found.value.count)];
        i := i + found.value.count;
      } else {
        i := i + 1;
      }
    }
    assert done + [] == done;
  }
}
