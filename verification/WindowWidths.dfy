/** The longest window tried, and when that bound loses no name. */
module WindowWidths {
  import opened Wrappers
  import opened ScrubTypes
  import opened Text
  import opened NameIndexes
  import opened NameMatching
  import opened ScrubTheorems

  /** A form cut at its spaces. */
  function Parts(form: string): (parts: seq<string>)
    ensures parts != []
  {
    var k := FirstSpace(form);
    FirstSpaceInside(form);
    if k == |form| then [form] else [form[..k]] + Parts(form[k + 1..])
  }

  lemma {:induction false} FirstSpaceInside(s: string)
    ensures FirstSpace(s) <= |s|
  {
    if s != "" && s[0] != ' ' { FirstSpaceInside(s[1..]); }
  }

  lemma {:induction false} SpaceThere(s: string)
    requires FirstSpace(s) < |s|
    ensures s[FirstSpace(s)] == ' '
  {
    if s[0] != ' ' { SpaceThere(s[1..]); }
  }

  lemma {:induction false} JoinParts(form: string)
    ensures Join(Parts(form)) == form
    decreases |form|
  {
    var k := FirstSpace(form);
    FirstSpaceInside(form);
    if k < |form| {
      SpaceThere(form);
      var rest := form[k + 1..];
      JoinParts(rest);
      JoinCons(form[..k], Parts(rest));
      assert form == form[..k] + [form[k]] + rest;
    }
  }

  lemma {:induction false} JoinCons(first: string, rest: seq<string>)
    requires rest != []
    ensures Join([first] + rest) == first + " " + Join(rest)
  {
    assert ([first] + rest)[1..] == rest;
  }

  lemma {:induction false} PartsOfJoin(words: seq<string>)
    requires words != [] && AllSpaceFree(words)
    ensures Parts(Join(words)) == words
  {
    assert SpaceFree(words[0]);
    FirstWord(words);
    if |words| > 1 {
      var rest := words[1..];
      assert AllSpaceFree(rest) by {
        forall k | 0 <= k < |rest| ensures SpaceFree(rest[k]) { assert rest[k] == words[k + 1]; }
      }
      PartsOfJoin(rest);
      assert words == [words[0]] + rest;
    } else {
      assert words == [words[0]];
    }
  }

  /** Every form that is a row of words has at most as many as the longest window tried has tokens. */
  ghost predicate FormsFit(index: Index, widest: nat) {
    forall form | form in index.keys && AllSpaceFree(Parts(form)) :: |Parts(form)| <= widest
  }

  /** No wider window of words is on the list. */
  ghost predicate NothingWider(index: Index, widest: nat) {
    forall s, t | OnList(index, s, t) :: |s| <= widest
  }

  ghost predicate OnList(index: Index, stripped: seq<string>, transliterated: seq<string>) {
    && stripped != [] && |stripped| == |transliterated| && AllSpaceFree(stripped) && AllSpaceFree(transliterated)
    && index.Lookup(Join(stripped), Join(transliterated)).Some?
  }

  lemma {:induction false} OnListFits(index: Index, widest: nat, stripped: seq<string>, transliterated: seq<string>)
    requires FormsFit(index, widest) && OnList(index, stripped, transliterated)
    ensures |stripped| <= widest
  {
    PartsOfJoin(stripped);
    PartsOfJoin(transliterated);
    var form := if Join(stripped) in index.keys then Join(stripped) else Join(transliterated);
    assert form in index.keys && AllSpaceFree(Parts(form));
  }

  /** Trying no wider window loses no name if and only if every form that is a row of words has at
      most that many. */
  lemma {:induction false} BoundLosesNothingIff(index: Index, widest: nat)
    ensures NothingWider(index, widest) <==> FormsFit(index, widest)
  {
    if FormsFit(index, widest) {
      forall s, t | OnList(index, s, t) ensures |s| <= widest {
        OnListFits(index, widest, s, t);
      }
    }
    if NothingWider(index, widest) {
      forall form | form in index.keys && AllSpaceFree(Parts(form)) ensures |Parts(form)| <= widest {
        JoinParts(form);
        assert OnList(index, Parts(form), Parts(form));
      }
    }
  }

  /** The forms of the tokens of a text are words. */
  ghost predicate TokensAreWords(r: Reading) {
    forall i | 0 <= i < |r.tokens| :: SpaceFree(r.tokens[i].stripped) && SpaceFree(r.tokens[i].transliterated)
  }

  /** Where the forms of both lists fit, every listed window of a text of words is one that is tried. */
  lemma {:induction false} ListedWindowIsTried(r: Reading, i: nat, n: nat)
    requires r.Listed(i, n) && TokensAreWords(r)
    requires FormsFit(r.lists.first, r.lists.MaxTokens()) && FormsFit(r.lists.last, r.lists.MaxTokens())
    ensures r.Search().Qualifies(i, n)
  {
    var s := seq(n, k requires 0 <= k < n => r.tokens[i + k].stripped);
    var t := seq(n, k requires 0 <= k < n => r.tokens[i + k].transliterated);
    forall k | 0 <= k < n ensures SpaceFree(s[k]) && SpaceFree(t[k]) {
      assert SpaceFree(r.tokens[i + k].stripped);
    }
    if r.Find(r.lists.first, i, n).Some? {
      OnListFits(r.lists.first, r.lists.MaxTokens(), s, t);
    } else {
      OnListFits(r.lists.last, r.lists.MaxTokens(), s, t);
    }
  }
}
