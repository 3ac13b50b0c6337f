/**
 * time_experiment/time_aware_prompts.py: the answer prompt that tells the model its time
 * budget and lists its previous answers, the extraction of the last `<tag>...</tag>` section
 * of a reply, and the integer parse of the judge's score.
 */
module TimeAwarePrompts {
  import opened Wrappers
  import opened Strings

  // ---------------------------------------------------------------------------
  // Extracting tagged content

  function OpenTag(tag: string): string { "<" + tag + ">" }
  function CloseTag(tag: string): string { "</" + tag + ">" }

  /** The content between `from`..`to` is free of the closing tag when `to` is its first occurrence. */
  lemma NoCloseInside(text: string, close: string, from: nat, to: nat)
    requires |close| > 0 && from <= to <= |text|
    requires forall j :: from <= j < to ==> !OccursAt(text, close, j)
    ensures !Contains(text[from..to], close)
  {
    var m := text[from..to];
    forall j ensures !OccursAt(m, close, j) {
      if 0 <= j && j + |close| <= |m| {
        SliceOfSlice(text, from, to, j, j + |close|);
        assert !OccursAt(text, close, from + j);
      }
    }
  }

  /**
   * `re.findall(open + "(.*?)" + close, text[from:], re.DOTALL)`: each match starts at the
   * next opening tag and ends at the first closing tag after it; the search resumes after
   * that closing tag. An opening tag with no closing tag after it ends the search.
   */
  function FindAll(text: string, open: string, close: string, from: nat): seq<string>
    requires |close| > 0
    decreases |text| - from
  {
    IndexOfSpec(text, open, from);
    match IndexOf(text, open, from)
    case None => []
    case Some(o) =>
      IndexOfSpec(text, close, o + |open|);
      match IndexOf(text, close, o + |open|)
      case None => []
      case Some(c) => [text[o + |open|..c]] + FindAll(text, open, close, c + |close|)
  }

  /** `re.findall` with the tags of `tag`. */
  function FindTagged(text: string, tag: string): seq<string> {
    FindAll(text, OpenTag(tag), CloseTag(tag), 0)
  }

  /**
   * The text between an opening tag at `o` and the first closing tag after it holds no
   * closing tag, and the tags around it sit at `o`.
   */
  lemma TagMatch(text: string, open: string, close: string, o: nat, c: nat)
    requires |close| > 0 && OccursAt(text, open, o) && o + |open| <= c && OccursAt(text, close, c)
    requires forall j :: o + |open| <= j < c ==> !OccursAt(text, close, j)
    ensures !Contains(text[o + |open|..c], close)
    ensures OccursAt(text, open + text[o + |open|..c] + close, o)
  {
    var m := text[o + |open|..c];
    NoCloseInside(text, close, o + |open|, c);
    assert text[o..c + |close|] == open + m + close by {
      assert text[o..c + |close|] == text[o..o + |open|] + text[o + |open|..c] + text[c..c + |close|];
    }
  }

  /**
   * Some opening tag at or after `from` has a closing tag after it, which is when
   * `re.findall` finds a match in the text from `from` on.
   */
  ghost predicate HasMatchFrom(text: string, open: string, close: string, from: nat) {
    exists o, c :: from <= o && ClosedMatch(text, open, close, o, c)
  }

  /** An opening tag at `o` and a closing tag at `c` after it. */
  ghost predicate ClosedMatch(text: string, open: string, close: string, o: nat, c: nat) {
    OccursAt(text, open, o) && o + |open| <= c && OccursAt(text, close, c)
  }

  /** `re.findall` finds nothing exactly when no opening tag from `from` on is closed after it. */
  lemma FindAllEmpty(text: string, open: string, close: string, from: nat)
    requires |close| > 0
    ensures FindAll(text, open, close, from) == [] <==> !HasMatchFrom(text, open, close, from)
  {
    IndexOfSpec(text, open, from);
    match IndexOf(text, open, from)
    case None =>
    case Some(o) =>
      IndexOfSpec(text, close, o + |open|);
      match IndexOf(text, close, o + |open|)
      case None =>
      case Some(c) =>
        assert from <= o && ClosedMatch(text, open, close, o, c);
  }

  /** A search with no closed opening tag ahead finds nothing. */
  lemma NoMatchNothingFound(text: string, open: string, close: string, from: nat)
    requires |close| > 0 && !HasMatchFrom(text, open, close, from)
    ensures FindAll(text, open, close, from) == []
  {
    FindAllEmpty(text, open, close, from);
  }

  /** A search that finds nothing has no closed opening tag ahead. */
  lemma NothingFoundNoMatch(text: string, open: string, close: string, from: nat)
    requires |close| > 0 && FindAll(text, open, close, from) == []
    ensures !HasMatchFrom(text, open, close, from)
  {
    FindAllEmpty(text, open, close, from);
  }

  /**
   * The first match starts at the leftmost opening tag from `from` on and ends at the first
   * closing tag after it; the search goes on after that closing tag.
   */
  lemma FindAllFirst(text: string, open: string, close: string, from: nat, o: nat, c: nat)
    requires |close| > 0
    requires from <= o && OccursAt(text, open, o)
    requires forall j :: from <= j < o ==> !OccursAt(text, open, j)
    requires o + |open| <= c && OccursAt(text, close, c)
    requires forall j :: o + |open| <= j < c ==> !OccursAt(text, close, j)
    ensures FindAll(text, open, close, from) == [text[o + |open|..c]] + FindAll(text, open, close, c + |close|)
  {
    IndexOfFirst(text, open, from, o);
    IndexOfFirst(text, close, o + |open|, c);
    FindAllUnfold(text, open, close, from, o, c);
  }

  /** One step of the search, from the positions `IndexOf` finds. */
  lemma FindAllUnfold(text: string, open: string, close: string, from: nat, o: nat, c: nat)
    requires |close| > 0 && o + |open| <= c <= |text|
    requires IndexOf(text, open, from) == Some(o) && IndexOf(text, close, o + |open|) == Some(c)
    ensures FindAll(text, open, close, from) == [text[o + |open|..c]] + FindAll(text, open, close, c + |close|)
  {
  }

  /**
   * `open + m + close` sits at `p`, `m` holds no closing tag, and no opening tag after it is
   * closed: the tagged section a search ends with.
   */
  ghost predicate LastMatch(text: string, open: string, close: string, p: nat, m: string) {
    OccursAt(text, open + m + close, p)
    && !Contains(m, close)
    && !HasMatchFrom(text, open, close, p + |open| + |m| + |close|)
  }

  /** The last of the matches a search finds. */
  function Last(ms: seq<string>): string
    requires ms != []
  {
    ms[|ms| - 1]
  }

  /** The last element of `[m] + rest` is `m` when `rest` is empty and the last of `rest` otherwise. */
  lemma LastOfCons(all: seq<string>, m: string, rest: seq<string>)
    requires all == [m] + rest
    ensures all != [] && Last(all) == if rest == [] then m else Last(rest)
  {
  }

  /**
   * A search that finds something finds first the text between an opening tag at `o` and the
   * first closing tag after it, at `c`, and goes on after that closing tag.
   */
  lemma FindAllStep(text: string, open: string, close: string, from: nat) returns (o: nat, c: nat)
    requires |close| > 0 && FindAll(text, open, close, from) != []
    ensures from <= o && OccursAt(text, open, o) && o + |open| <= c && OccursAt(text, close, c)
    ensures forall j :: o + |open| <= j < c ==> !OccursAt(text, close, j)
    ensures FindAll(text, open, close, from) == [text[o + |open|..c]] + FindAll(text, open, close, c + |close|)
  {
    IndexOfSpec(text, open, from);
    o := IndexOf(text, open, from).value;
    IndexOfSpec(text, close, o + |open|);
    c := IndexOf(text, close, o + |open|).value;
    FindAllUnfold(text, open, close, from, o, c);
  }

  /** A search that finds something finds `m` first and goes on from `next`, further on. */
  lemma FindAllNext(text: string, open: string, close: string, from: nat) returns (m: string, next: nat)
    requires |close| > 0 && FindAll(text, open, close, from) != []
    ensures from < next && FindAll(text, open, close, from) == [m] + FindAll(text, open, close, next)
  {
    var o, c := FindAllStep(text, open, close, from);
    m, next := text[o + |open|..c], c + |close|;
  }

  /** The last match `m` of a search is a tagged section at `p` with no closed section after it. */
  lemma {:induction false} FindAllLastAt(text: string, open: string, close: string, from: nat)
    returns (p: nat, m: string)
    requires |close| > 0 && FindAll(text, open, close, from) != []
    ensures m == Last(FindAll(text, open, close, from))
    ensures from <= p && LastMatch(text, open, close, p, m)
    decreases |text| - from
  {
    var first, next := FindAllNext(text, open, close, from);
    var rest := FindAll(text, open, close, next);
    LastOfCons(FindAll(text, open, close, from), first, rest);
    if rest == [] {
      p, m := OnlyMatch(text, open, close, from);
    } else {
      p, m := FindAllLastAt(text, open, close, next);
    }
  }

  /** The one match of a search that finds one is a tagged section with no closed section after it. */
  lemma OnlyMatch(text: string, open: string, close: string, from: nat) returns (p: nat, m: string)
    requires |close| > 0 && |FindAll(text, open, close, from)| == 1
    ensures m == Last(FindAll(text, open, close, from))
    ensures from <= p && LastMatch(text, open, close, p, m)
  {
    var o, c := FindAllStep(text, open, close, from);
    NothingFoundNoMatch(text, open, close, c + |close|);
    SectionIsLast(text, open, close, o, c);
    p, m := o, text[o + |open|..c];
  }

  /** The section from an opening tag at `o` to the first closing tag after it, at `c`, with no closed section after it. */
  lemma SectionIsLast(text: string, open: string, close: string, o: nat, c: nat)
    requires |close| > 0 && OccursAt(text, open, o) && o + |open| <= c && OccursAt(text, close, c)
    requires forall j :: o + |open| <= j < c ==> !OccursAt(text, close, j)
    requires !HasMatchFrom(text, open, close, c + |close|)
    ensures LastMatch(text, open, close, o, text[o + |open|..c])
  {
    TagMatch(text, open, close, o, c);
    assert o + |open| + |text[o + |open|..c]| + |close| == c + |close|;
  }

  /** The last match of a search is a tagged section with no closed section after it. */
  lemma FindAllLast(text: string, open: string, close: string, from: nat)
    requires |close| > 0 && FindAll(text, open, close, from) != []
    ensures exists p :: from <= p && LastMatch(text, open, close, p, Last(FindAll(text, open, close, from)))
  {
    var p, m := FindAllLastAt(text, open, close, from);
  }

  /**
   * `_extract_xml_content`: with no match, the whole text unchanged; otherwise the last
   * match, stripped: a tagged section free of the closing tag with no closed section after it.
   */
  function ExtractXmlContent(text: string, tag: string): (r: string)
    ensures !HasMatchFrom(text, OpenTag(tag), CloseTag(tag), 0) ==> r == text
    ensures HasMatchFrom(text, OpenTag(tag), CloseTag(tag), 0) ==>
      FindTagged(text, tag) != [] && r == Strip(Last(FindTagged(text, tag)))
    ensures HasMatchFrom(text, OpenTag(tag), CloseTag(tag), 0) ==>
      exists p, m :: LastMatch(text, OpenTag(tag), CloseTag(tag), p, m) && r == Strip(m)
    ensures HasMatchFrom(text, OpenTag(tag), CloseTag(tag), 0) ==> !Contains(r, CloseTag(tag))
  {
    var ms := FindTagged(text, tag);
    FindAllEmpty(text, OpenTag(tag), CloseTag(tag), 0);
    if ms == [] then text
    else
      var m := Last(ms);
      FindAllLast(text, OpenTag(tag), CloseTag(tag), 0);
      LastNoClose(text, OpenTag(tag), CloseTag(tag), m);
      NoCloseInSlice(m, CloseTag(tag));
      Strip(m)
  }

  /** The content of a section a search ends with holds no closing tag. */
  lemma LastNoClose(text: string, open: string, close: string, m: string)
    requires exists p :: LastMatch(text, open, close, p, m)
    ensures !Contains(m, close)
  {
  }

  /** A slice of a string free of `t` (such as its stripped form) is free of `t` too. */
  lemma NoCloseInSlice(m: string, t: string)
    requires !Contains(m, t)
    ensures !Contains(Strip(m), t)
  {
    var a, b :| 0 <= a <= b <= |m| && Strip(m) == m[a..b];
    forall j ensures !OccursAt(m[a..b], t, j) {
      if 0 <= j && j + |t| <= b - a {
        SliceOfSlice(m, a, b, j, j + |t|);
        assert !OccursAt(m, t, a + j);
      }
    }
  }

  const ScoreTag: string := "coherence_score"

  /**
   * `judge_answer`: `int(...)` of the last `coherence_score` section, stripped, or of the whole
   * reply when it has none; raises when that is not an integer.
   */
  function JudgeAnswer(reply: string): (r: Result<int>)
    ensures !HasMatchFrom(reply, OpenTag(ScoreTag), CloseTag(ScoreTag), 0) ==> r == ParseInt(reply)
    ensures HasMatchFrom(reply, OpenTag(ScoreTag), CloseTag(ScoreTag), 0) ==>
      exists p, m :: LastMatch(reply, OpenTag(ScoreTag), CloseTag(ScoreTag), p, m) && r == ParseInt(Strip(m))
  {
    ParseInt(ExtractXmlContent(reply, ScoreTag))
  }

  /** Every opening tag starting before `e` is closed before `e`. */
  ghost predicate ClosedBefore(text: string, open: string, close: string, e: nat) {
    forall o: nat :: o < e ==> ClosedWithin(text, open, close, o, e)
  }

  /** An opening tag at `o`, if there is one, is closed before `e`. */
  ghost predicate ClosedWithin(text: string, open: string, close: string, o: nat, e: nat) {
    OccursAt(text, open, o) ==> exists c: nat :: ClosedMatch(text, open, close, o, c) && c + |close| <= e
  }

  /**
   * When every opening tag before `e` is closed before `e`, the search from `from` finds its
   * matches `ms` before `e` first and then goes on as the search from `e`.
   */
  lemma {:induction false} FindAllSkipClosed(text: string, open: string, close: string, from: nat, e: nat)
    returns (ms: seq<string>)
    requires |close| > 0 && from <= e && ClosedBefore(text, open, close, e)
    ensures FindAll(text, open, close, from) == ms + FindAll(text, open, close, e)
    decreases |text| - from
  {
    var found, o := OpenBefore(text, open, close, from, e);
    if !found {
      ms := [];
    } else {
      var m, c := SkipStep(text, open, close, from, e, o);
      var rest := FindAllSkipClosed(text, open, close, c + |close|, e);
      ms := [m] + rest;
      Reassociate(FindAll(text, open, close, from), m, FindAll(text, open, close, c + |close|),
                  rest, FindAll(text, open, close, e));
    }
  }

  /**
   * Either the first opening tag from `from` on is at `o`, before `e`, or there is none before
   * `e` and the searches from `from` and from `e` are the same.
   */
  lemma OpenBefore(text: string, open: string, close: string, from: nat, e: nat) returns (found: bool, o: nat)
    requires |close| > 0 && from <= e
    ensures found ==> from <= o < e && OccursAt(text, open, o) && IndexOf(text, open, from) == Some(o)
    ensures !found ==> FindAll(text, open, close, from) == FindAll(text, open, close, e)
  {
    IndexOfSpec(text, open, from);
    var io := IndexOf(text, open, from);
    if io.None? || io.value >= e {
      NoOpenBefore(text, open, close, from, e);
      found, o := false, 0;
    } else {
      found, o := true, io.value;
    }
  }

  /** A search whose first opening tag is at `o`, before `e`, first finds a match `m` closed before `e`. */
  lemma SkipStep(text: string, open: string, close: string, from: nat, e: nat, o: nat) returns (m: string, c: nat)
    requires |close| > 0 && ClosedBefore(text, open, close, e)
    requires from <= o < e && OccursAt(text, open, o) && IndexOf(text, open, from) == Some(o)
    ensures from < c + |close| <= e
    ensures FindAll(text, open, close, from) == [m] + FindAll(text, open, close, c + |close|)
  {
    c := ClosedAt(text, open, close, e, o);
    FindAllUnfold(text, open, close, from, o, c);
    m := text[o + |open|..c];
  }

  /** Splitting `[m] + (rest + tail)` after `rest`. */
  lemma Reassociate(all: seq<string>, m: string, after: seq<string>, rest: seq<string>, tail: seq<string>)
    requires all == [m] + after && after == rest + tail
    ensures all == ([m] + rest) + tail
  {
  }

  /** With no opening tag between `from` and `e`, the searches from both are the same. */
  lemma NoOpenBefore(text: string, open: string, close: string, from: nat, e: nat)
    requires |close| > 0 && from <= e
    requires IndexOf(text, open, from).None? || IndexOf(text, open, from).value >= e
    ensures FindAll(text, open, close, from) == FindAll(text, open, close, e)
  {
    IndexOfSpec(text, open, from);
    IndexOfSpec(text, open, e);
    if IndexOf(text, open, from).Some? {
      IndexOfFirst(text, open, e, IndexOf(text, open, from).value);
    }
  }

  /** The first closing tag after an opening tag before `e` ends before `e`. */
  lemma ClosedAt(text: string, open: string, close: string, e: nat, o: nat) returns (c: nat)
    requires ClosedBefore(text, open, close, e) && o < e && OccursAt(text, open, o)
    ensures IndexOf(text, close, o + |open|) == Some(c) && c + |close| <= e
    ensures o + |open| <= c && OccursAt(text, close, c)
  {
    assert ClosedWithin(text, open, close, o, e);
    var c': nat :| ClosedMatch(text, open, close, o, c') && c' + |close| <= e;
    IndexOfSpec(text, close, o + |open|);
    c := IndexOf(text, close, o + |open|).value;
  }

  /**
   * A tagged section whose content has no `<`, with a closing tag that starts with `<`, is the
   * next match of a search started at it.
   */
  lemma SectionMatch(text: string, open: string, close: string, p: nat, d: string)
    requires |close| > 0 && close[0] == '<' && '<' !in d
    requires OccursAt(text, open + d + close, p)
    ensures FindAll(text, open, close, p) == [d] + FindAll(text, open, close, p + |open| + |d| + |close|)
  {
    SectionParts(text, open, close, p, d);
    FindAllFirst(text, open, close, p, p, p + |open| + |d|);
  }

  /** The parts of a tagged section whose content has no `<`, with a closing tag that starts with `<`. */
  lemma SectionParts(text: string, open: string, close: string, p: nat, d: string)
    requires |close| > 0 && close[0] == '<' && '<' !in d
    requires OccursAt(text, open + d + close, p)
    ensures OccursAt(text, open, p) && OccursAt(text, close, p + |open| + |d|)
    ensures text[p + |open|..p + |open| + |d|] == d
    ensures forall j :: p + |open| <= j < p + |open| + |d| ==> !OccursAt(text, close, j)
  {
    var sec := open + d + close;
    var s, c := p + |open|, p + |open| + |d|;
    assert text[p..s] == open by {
      SliceOfSlice(text, p, p + |sec|, 0, |open|);
      assert sec[0..|open|] == open;
    }
    assert text[c..c + |close|] == close by {
      SliceOfSlice(text, p, p + |sec|, |open| + |d|, |sec|);
      assert sec[|open| + |d|..|sec|] == close;
    }
    forall j | s <= j < c ensures !OccursAt(text, close, j) {
      assert text[j] == sec[j - p] == d[j - s];
    }
    assert text[s..c] == d by {
      SliceOfSlice(text, p, p + |sec|, |open|, |open| + |d|);
      assert sec[|open|..|open| + |d|] == d;
    }
  }

  /** Both tags start with `<`. */
  lemma TagsOpenWithBracket(tag: string)
    ensures |OpenTag(tag)| > 0 && OpenTag(tag)[0] == '<'
    ensures |CloseTag(tag)| > 0 && CloseTag(tag)[0] == '<'
  {
  }

  /**
   * A section holding `d` (with no `<`) at `p`, after text whose opening tags are all closed and
   * with no closed section after it, is the last match of the search.
   */
  lemma LastSectionFound(text: string, open: string, close: string, p: nat, d: string)
    requires |close| > 0 && close[0] == '<' && '<' !in d
    requires OccursAt(text, open + d + close, p) && ClosedBefore(text, open, close, p)
    requires !HasMatchFrom(text, open, close, p + |open| + |d| + |close|)
    ensures FindAll(text, open, close, 0) != [] && Last(FindAll(text, open, close, 0)) == d
  {
    var ms := FindAllSkipClosed(text, open, close, 0, p);
    OnlySection(text, open, close, p, d);
    LastAfter(FindAll(text, open, close, 0), ms, FindAll(text, open, close, p), d);
  }

  /** A search started at a section with no closed section after it finds only that section. */
  lemma OnlySection(text: string, open: string, close: string, p: nat, d: string)
    requires |close| > 0 && close[0] == '<' && '<' !in d
    requires OccursAt(text, open + d + close, p)
    requires !HasMatchFrom(text, open, close, p + |open| + |d| + |close|)
    ensures FindAll(text, open, close, p) == [d]
  {
    SectionMatch(text, open, close, p, d);
    NoMatchNothingFound(text, open, close, p + |open| + |d| + |close|);
  }

  /** A sequence ending in `[d]` ends with `d`. */
  lemma LastAfter(all: seq<string>, ms: seq<string>, tail: seq<string>, d: string)
    requires all == ms + tail && tail == [d]
    ensures all != [] && Last(all) == d
  {
  }

  /**
   * A text whose last closed section holds `d` (with no `<`), after text whose opening tags
   * are all closed, yields `d` stripped, whatever surrounds it.
   */
  lemma ExtractLastSection(pre: string, tag: string, d: string, post: string)
    requires '<' !in d
    requires ClosedBefore(pre + OpenTag(tag) + d + CloseTag(tag) + post, OpenTag(tag), CloseTag(tag), |pre|)
    requires !HasMatchFrom(pre + OpenTag(tag) + d + CloseTag(tag) + post, OpenTag(tag), CloseTag(tag),
                           |pre| + |OpenTag(tag)| + |d| + |CloseTag(tag)|)
    ensures ExtractXmlContent(pre + OpenTag(tag) + d + CloseTag(tag) + post, tag) == Strip(d)
  {
    var open, close := OpenTag(tag), CloseTag(tag);
    var sec := open + d + close;
    var text := pre + open + d + close + post;
    assert OccursAt(text, sec, |pre|) by {
      assert text == pre + sec + post;
      assert text[|pre|..|pre| + |sec|] == sec;
    }
    TagsOpenWithBracket(tag);
    LastSectionFound(text, open, close, |pre|, d);
    FindAllEmpty(text, open, close, 0);
  }

  /**
   * The judge reads the last score section: a reply whose last closed `coherence_score`
   * section holds `str(n)`, after text whose opening tags are all closed, is judged `n`,
   * whatever surrounds it.
   */
  lemma JudgeAnswerLastScore(pre: string, n: int, post: string)
    requires ClosedBefore(pre + OpenTag(ScoreTag) + IntToString(n) + CloseTag(ScoreTag) + post,
                          OpenTag(ScoreTag), CloseTag(ScoreTag), |pre|)
    requires !HasMatchFrom(pre + OpenTag(ScoreTag) + IntToString(n) + CloseTag(ScoreTag) + post,
                           OpenTag(ScoreTag), CloseTag(ScoreTag),
                           |pre| + |OpenTag(ScoreTag)| + |IntToString(n)| + |CloseTag(ScoreTag)|)
    ensures JudgeAnswer(pre + OpenTag(ScoreTag) + IntToString(n) + CloseTag(ScoreTag) + post) == Success(n)
  {
    NoTagInNumber(n);
    ExtractLastSection(pre, ScoreTag, IntToString(n), post);
    StripOfNumeral(n);
    ParseIntOfIntToString(n);
  }

  /** The decimal form of an integer has no surrounding whitespace. */
  lemma StripOfNumeral(n: int)
    ensures Strip(IntToString(n)) == IntToString(n)
  {
    var d := IntToString(n);
    if n < 0 {
      assert d == "-" + NatToString(-n);
      assert d[1..] == NatToString(-n);
      StripOfDigits(d);
    } else {
      assert d[1..] == NatToString(n)[1..];
      StripOfDigits(d);
    }
  }

  /** A character of the decimal form of an integer is never `<`. */
  lemma NoTagInNumber(n: int)
    ensures '<' !in IntToString(n)
  {
    var s := IntToString(n);
    if n >= 0 {
      assert AllDigits(s);
    } else {
      assert AllDigits(s[1..]);
      forall i | 0 <= i < |s| ensures s[i] != '<' {
        if i > 0 { assert s[i] == s[1..][i - 1]; }
      }
    }
  }

  /** A text made of one tagged section whose content has no `<` yields that content alone. */
  lemma FindAllSingle(tag: string, d: string)
    requires '<' !in d
    ensures FindTagged(OpenTag(tag) + d + CloseTag(tag), tag) == [d]
  {
    var open, close := OpenTag(tag), CloseTag(tag);
    var text := open + d + close;
    assert close[0] == '<';
    assert OccursAt(text, open + d + close, 0) by {
      assert text[0..|text|] == text;
    }
    SectionMatch(text, open, close, 0, d);
    assert IndexOf(text, open, |text|) == None;
  }

  /**
   * No clamping: a reply holding just one tagged integer is judged as that integer, whatever
   * its range.
   */
  lemma JudgeAnswerNoClamp(n: int)
    ensures JudgeAnswer(OpenTag(ScoreTag) + IntToString(n) + CloseTag(ScoreTag)) == Success(n)
  {
    var d := IntToString(n);
    NoTagInNumber(n);
    FindAllSingle(ScoreTag, d);
    FindAllEmpty(OpenTag(ScoreTag) + d + CloseTag(ScoreTag), OpenTag(ScoreTag), CloseTag(ScoreTag), 0);
    StripOfNumeral(n);
    ParseIntOfIntToString(n);
  }

  // ---------------------------------------------------------------------------
  // The answer prompt

  /** The time sentence: a truthy timeout states the seconds, `None` or 0 grants unlimited time. */
  function TimeInfo(timeoutSeconds: Option<int>): string {
    if timeoutSeconds.Some? && timeoutSeconds.value != 0 then
      "\n**IMPORTANT: You have " + IntToString(timeoutSeconds.value)
      + " seconds to provide a complete answer. Budget your time accordingly and ensure you give a substantive response within this limit.**\n"
    else
      "\n**You have unlimited time for this response.**\n"
  }

  const OneAnswerRule: string :=
    "Your response should be one direct answer. Only provide one answer. DO NOT list multiple answers. Please try to be concise.\n"

  /** The opening line and the question inside `<question>` tags. */
  function QuestionHead(question: string): string {
    "Answer the following question:\n<question>" + question + "</question>\n"
  }

  /** The question, the time sentence and the answer-format line. */
  function QuestionPart(question: string, timeoutSeconds: Option<int>): string {
    QuestionHead(question) + TimeInfo(timeoutSeconds) + "Provide your answer in <answer></answer> XML tags.\n"
  }

  /** One previous answer, numbered from 1. */
  function PreviousEntry(id: int, answer: string): string {
    "<previous_answer id='" + IntToString(id) + "'>\n" + answer + "\n</previous_answer>"
  }

  /** The previous answers, each numbered by its place in the list from 1. */
  function Entries(previous: seq<string>): seq<string> {
    seq(|previous|, i requires 0 <= i < |previous| => PreviousEntry(i + 1, previous[i]))
  }

  /** `"\n\n".join(...)` of the numbered previous answers, in list order. */
  function PreviousAnswersText(previous: seq<string>): string {
    Join(Entries(previous), "\n\n")
  }

  function PreviousBlock(previous: seq<string>): string {
    "IMPORTANT: Provide an answer you *HAVE NOT* given previously.\n"
    + "Your previous answers are inside of <previous_answers></previous_answers> XML tags.\n"
    + "<previous_answers>\n" + PreviousAnswersText(previous) + "\n</previous_answers>"
  }

  /**
   * The prompt `gen_answer_with_time_limit` sends: the question part, the one-answer rule,
   * and the previous-answers block exactly when there are previous answers.
   */
  method BuildPrompt(question: string, previous: seq<string>, timeoutSeconds: Option<int>) returns (prompt: string)
    ensures StartsWith(prompt, QuestionPart(question, timeoutSeconds) + OneAnswerRule)
    ensures previous == [] <==> prompt == QuestionPart(question, timeoutSeconds) + OneAnswerRule
    ensures previous != [] ==> prompt == QuestionPart(question, timeoutSeconds) + OneAnswerRule + PreviousBlock(previous)
  {
    prompt := QuestionPart(question, timeoutSeconds);
    prompt := prompt + OneAnswerRule;
    ghost var base := prompt;
    StartsWithAppend(base, []);
    assert base + [] == base;
    if previous != [] {
      var block := PreviousBlock(previous);
      PreviousBlockNonEmpty(previous);
      prompt := prompt + block;
      StartsWithAppend(base, block);
    }
  }

  /** The previous-answers block is never empty, so adding it changes the prompt. */
  lemma PreviousBlockNonEmpty(previous: seq<string>)
    ensures |PreviousBlock(previous)| > 0
  {
    var tail := "\n</previous_answers>";
    assert |tail| > 0;
  }

  /** The sent prompt always opens with the question inside `<question>` tags. */
  lemma PromptOpensWithQuestion(question: string, timeoutSeconds: Option<int>, prompt: string)
    requires StartsWith(prompt, QuestionPart(question, timeoutSeconds) + OneAnswerRule)
    ensures StartsWith(prompt, QuestionHead(question))
  {
    var head := QuestionHead(question);
    var withTime := head + TimeInfo(timeoutSeconds);
    var qp := QuestionPart(question, timeoutSeconds);
    StartsWithAppend(head, TimeInfo(timeoutSeconds));
    StartsWithAppend(withTime, "Provide your answer in <answer></answer> XML tags.\n");
    StartsWithAppend(qp, OneAnswerRule);
    StartsWithTrans(qp, withTime, head);
    StartsWithTrans(qp + OneAnswerRule, qp, head);
    StartsWithTrans(prompt, qp + OneAnswerRule, head);
  }

  /**
   * The previous answers are numbered in list order: the text for one answer is its entry with
   * id 1, and one more answer adds a blank line and its entry with the next id.
   */
  lemma PreviousEntriesNumbered(previous: seq<string>, a: string)
    ensures previous == [] ==> PreviousAnswersText(previous + [a]) == PreviousEntry(1, a)
    ensures previous != [] ==>
      PreviousAnswersText(previous + [a]) == PreviousAnswersText(previous) + "\n\n" + PreviousEntry(|previous| + 1, a)
  {
    assert Entries(previous + [a]) == Entries(previous) + [PreviousEntry(|previous| + 1, a)];
    if previous != [] {
      JoinAppend(Entries(previous), PreviousEntry(|previous| + 1, a), "\n\n");
    }
  }

  /** The reply of a timed chat call, given rather than requested. */
  datatype TimedReply = TimedReply(content: string, processingTime: real, timedOut: bool, timeoutLimit: Option<int>)

  datatype GeneratedAnswer = GeneratedAnswer(answer: string, processingTime: real, timedOut: bool, timeoutLimit: Option<int>)

  /** The record `gen_answer_with_time_limit` returns for a given reply. */
  function AnswerOfReply(reply: TimedReply): (g: GeneratedAnswer)
    ensures g.answer == ExtractXmlContent(reply.content, "answer")
    ensures g.processingTime == reply.processingTime && g.timedOut == reply.timedOut
  {
    GeneratedAnswer(ExtractXmlContent(reply.content, "answer"), reply.processingTime, reply.timedOut, reply.timeoutLimit)
  }
}
