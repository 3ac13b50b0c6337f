/**
 * The text helpers of plot.py: matching question texts (`normalize_text`), wrapping
 * axis labels (`wrap_text`) and reading the lab out of a model id
 * (`get_company_from_model`).
 */
module PlotText {
  import opened Strings

  /**
   * `normalize_text`: lower-cased, every hyphen turned into a space, every double space
   * (left to right, one pass) turned into one, then stripped.
   */
  function NormalizeText(text: string): (r: string)
    ensures '-' !in r
    ensures forall i :: 0 <= i < |r| ==> !IsUpper(r[i])
    ensures r == [] || (!IsSpace(r[0]) && !IsSpace(r[|r| - 1]))
  {
    var spaced := ReplaceChar(Lower(text), '-', ' ');
    NormalizeSteps(spaced);
    Strip(ReplaceAll(spaced, "  ", " "))
  }

  /** Neither a hyphen nor an upper-case letter survives the last two steps once it is gone. */
  lemma NormalizeSteps(spaced: string)
    requires '-' !in spaced
    requires forall i :: 0 <= i < |spaced| ==> !IsUpper(spaced[i])
    ensures var r := Strip(ReplaceAll(spaced, "  ", " "));
      '-' !in r && forall i :: 0 <= i < |r| ==> !IsUpper(r[i])
  {
    var squeezed := ReplaceAll(spaced, "  ", " ");
    ReplaceAllKeepsOut(spaced, "  ", " ", '-');
    ReplaceAllKeepsNoUpper(spaced, "  ", " ");
    var r := Strip(squeezed);
    StripChars(squeezed);
    forall i | 0 <= i < |r| ensures !IsUpper(r[i]) {
      var j :| 0 <= j < |squeezed| && squeezed[j] == r[i];
    }
  }

  /** `get_company_from_model`: the part of a model id before its first `/`. */
  function CompanyOf(model: string): (r: string)
    ensures '/' !in r
    ensures StartsWith(model, r)
    ensures |r| < |model| ==> model[|r|] == '/'
  {
    SplitFirstPart(model, '/');
    Split(model, '/')[0]
  }

  /** The words `wrap_text` lays out: `" and "` becomes `"\n& "`, then the text is split on whitespace. */
  function WrapWords(text: string): seq<string> {
    SplitWords(ReplaceAll(text, " and ", "\n& "))
  }

  /** The words of the lines, one line after the other. */
  function Concat(lines: seq<seq<string>>): seq<string> {
    if lines == [] then [] else Concat(lines[..|lines| - 1]) + lines[|lines| - 1]
  }

  /** Each line as text: its words joined by single spaces. */
  function LineTexts(lines: seq<seq<string>>): seq<string> {
    seq(|lines|, k requires 0 <= k < |lines| => Join(lines[k], " "))
  }

  /** A line `wrap_text` emits: non-empty, made of words, at most `width` long if it has two words or more. */
  predicate GoodLine(line: seq<string>, width: int) {
    |line| >= 1
    && (forall k :: 0 <= k < |line| ==> IsWord(line[k]))
    && (|line| >= 2 ==> |Join(line, " ")| <= width)
  }

  /** Joined with newlines, well-formed lines split back into exactly their words. */
  lemma {:induction false} LinesWords(lines: seq<seq<string>>, width: int)
    requires forall k :: 0 <= k < |lines| ==> GoodLine(lines[k], width)
    ensures SplitWords(Join(LineTexts(lines), "\n")) == Concat(lines)
  {
    if lines != [] {
      var p, l := lines[..|lines| - 1], lines[|lines| - 1];
      LinesWords(p, width);
      assert LineTexts(lines) == LineTexts(p) + [Join(l, " ")];
      assert " " == [' '] && "\n" == ['\n'];
      SplitWordsJoin(l, ' ');
      if p == [] {
        assert LineTexts(lines) == [Join(l, " ")];
      } else {
        JoinAppend(LineTexts(p), Join(l, " "), "\n");
        SplitWordsAtSpace(Join(LineTexts(p), "\n"), '\n', Join(l, " "));
      }
    }
  }

  /** Joined with newlines, well-formed lines come back as the lines of the text, none of them too wide. */
  lemma LinesWidth(lines: seq<seq<string>>, width: int)
    requires forall k :: 0 <= k < |lines| ==> GoodLine(lines[k], width)
    ensures var r := Join(LineTexts(lines), "\n");
      forall k :: 0 <= k < |Split(r, '\n')| && |SplitWords(Split(r, '\n')[k])| >= 2 ==> |Split(r, '\n')[k]| <= width
  {
    var texts := LineTexts(lines);
    assert " " == [' '] && "\n" == ['\n'];
    if lines != [] {
      forall k | 0 <= k < |lines| ensures '\n' !in texts[k] && SplitWords(texts[k]) == lines[k] {
        forall j | 0 <= j < |lines[k]| ensures '\n' !in lines[k][j] {
          assert forall i :: 0 <= i < |lines[k][j]| ==> !IsSpace(lines[k][j][i]);
        }
        JoinKeepsOut(lines[k], " ", '\n');
        SplitWordsJoin(lines[k], ' ');
      }
      SplitJoin(texts, '\n');
    }
  }

  /**
   * `wrap_text(text, width)`: words are added to the current line while the running
   * length plus the word and a space fits `width`; otherwise the line is closed and the
   * word starts a new one. The running length starts a line at the first word's length
   * but adds one for every later word, so it never undercounts the line.
   */
  method WrapText(text: string, width: int) returns (r: string)
    ensures SplitWords(r) == WrapWords(text)
    ensures forall k :: 0 <= k < |Split(r, '\n')| && |SplitWords(Split(r, '\n')[k])| >= 2 ==> |Split(r, '\n')[k]| <= width
  {
    var words := WrapWords(text);
    var lines: seq<seq<string>> := [];
    var currentLine: seq<string> := [];
    var currentLength := 0;
    for i := 0 to |words|
      invariant Concat(lines) + currentLine == words[..i]
      invariant forall k :: 0 <= k < |lines| ==> GoodLine(lines[k], width)
      invariant forall k :: 0 <= k < |currentLine| ==> IsWord(currentLine[k])
      invariant currentLine == [] ==> lines == [] && currentLength == 0
      invariant currentLine != [] ==> |Join(currentLine, " ")| <= currentLength
      invariant |currentLine| >= 2 ==> currentLength <= width
    {
      var word := words[i];
      assert words[..i + 1] == words[..i] + [word];
      if currentLength + |word| + 1 <= width {
        if currentLine != [] {
          JoinAppend(currentLine, word, " ");
        }
        currentLine := currentLine + [word];
        currentLength := currentLength + |word| + 1;
      } else {
        if currentLine != [] {
          assert (lines + [currentLine])[..|lines|] == lines;
          lines := lines + [currentLine];
        }
        currentLine := [word];
        currentLength := |word|;
      }
    }
    if currentLine != [] {
      assert (lines + [currentLine])[..|lines|] == lines;
      lines := lines + [currentLine];
    }
    assert words[..|words|] == words;
    r := Join(LineTexts(lines), "\n");
    LinesWords(lines, width);
    LinesWidth(lines, width);
  }
}
