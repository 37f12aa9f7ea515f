/** `strip_markdown_syntax`: strip the generated text, drop an opening code-fence line and a
    closing code-fence line, and strip again. */
module Markdown {
  import opened Text

  const Fence: string := "```"

  /** `'\n'.join(code.split('\n')[1:])`: everything after the first line, or nothing when
      there is a single line. */
  function DropFirstLine(s: string): (r: string)
    ensures '\n' !in s ==> r == ""
    ensures '\n' in s ==> s == s[..FirstIndex(s, '\n')] + "\n" + r
  {
    DropFirstPiece(s, '\n');
    Join(Split(s, '\n')[1..], "\n")
  }

  /** `'\n'.join(code.split('\n')[:-1])`: everything before the last line, or nothing when
      there is a single line. */
  function DropLastLine(s: string): (r: string)
    ensures '\n' !in s ==> r == ""
    ensures '\n' in s ==> |r| < |s| && s == r + "\n" + s[|r| + 1..] && '\n' !in s[|r| + 1..]
  {
    var parts := Split(s, '\n');
    DropLastLineSpec(s);
    Join(parts[..|parts| - 1], "\n")
  }

  lemma DropLastLineSpec(s: string)
    ensures var parts := Split(s, '\n');
            var r := Join(parts[..|parts| - 1], "\n");
            ('\n' !in s ==> r == "")
            && ('\n' in s ==> |r| < |s| && s == r + "\n" + s[|r| + 1..] && '\n' !in s[|r| + 1..])
  {
    var parts := Split(s, '\n');
    var n := |parts|;
    if '\n' in s {
      assert n >= 2;
      var r := Join(parts[..n - 1], "\n");
      assert parts[..n - 1] + [parts[n - 1]] == parts;
      JoinSnoc(parts[..n - 1], "\n", parts[n - 1]);
      JoinSplit(s, '\n');
      assert s == r + "\n" + parts[n - 1];
      assert s[|r| + 1..] == parts[n - 1];
    }
  }

  /** The stripped text with a leading fence line removed. */
  function WithoutOpening(code: string): string
  {
    var c := Strip(code);
    if StartsWith(c, Fence) then DropFirstLine(c) else c
  }

  /** The same with a trailing fence line removed. */
  function WithoutFences(code: string): string
  {
    var c := WithoutOpening(code);
    if EndsWith(c, Fence) then DropLastLine(c) else c
  }

  function StripMarkdownSyntax(code: string): string
  {
    Strip(WithoutFences(code))
  }

  /** The result has no whitespace at either end. */
  lemma NoOuterWhitespace(code: string)
    ensures var r := StripMarkdownSyntax(code);
            r == [] || (!IsPySpace(r[0]) && !IsPySpace(r[|r| - 1]))
  {
    var w := WithoutFences(code);
    assert StripMarkdownSyntax(code) == Strip(w);
    StripEnds(w);
  }

  /** An input that, once stripped, neither opens nor closes with a fence is only stripped. */
  lemma NoFenceIsStrip(code: string)
    requires !StartsWith(Strip(code), Fence) && !EndsWith(Strip(code), Fence)
    ensures StripMarkdownSyntax(code) == Strip(code)
  {
    StripIdempotent(code);
  }

  lemma StripIdempotent(s: string)
    ensures Strip(Strip(s)) == Strip(s)
  {
    var c := Strip(s);
    StripSpec(s);
    assert LStrip(c) == c;
    assert RStrip(c) == c;
  }

  /** An opening fence takes its whole first line with it: the stripped text is that line,
      a newline and what the rest of the function works on; a one-line input leaves nothing. */
  lemma OpeningLineRemoved(code: string)
    requires StartsWith(Strip(code), Fence)
    ensures var c := Strip(code);
            ('\n' !in c ==> WithoutOpening(code) == "" && StripMarkdownSyntax(code) == "")
            && ('\n' in c ==> c == c[..FirstIndex(c, '\n')] + "\n" + WithoutOpening(code))
  {
    var c := Strip(code);
    var c1 := DropFirstLine(c);
    assert WithoutOpening(code) == c1;
    if '\n' !in c {
      assert c1 == "";
      assert !EndsWith(c1, Fence);
      assert WithoutFences(code) == "";
      assert Strip("") == "";
    }
  }

  /** A closing fence takes its whole last line with it: what remains, a newline and a line
      without newline make up the text before; a one-line text leaves nothing. */
  lemma ClosingLineRemoved(code: string)
    requires EndsWith(WithoutOpening(code), Fence)
    ensures var c := WithoutOpening(code);
            var r := WithoutFences(code);
            ('\n' !in c ==> r == "")
            && ('\n' in c ==> c == r + "\n" + c[|r| + 1..] && '\n' !in c[|r| + 1..])
  {
  }

  /** The result is a piece of the input, so it has no more lines than the input. */
  lemma ResultIsPieceOfInput(code: string)
    ensures IsInfix(StripMarkdownSyntax(code), code)
    ensures Count(StripMarkdownSyntax(code), '\n') <= Count(code, '\n')
  {
    var c0 := Strip(code);
    var c1 := WithoutOpening(code);
    var c2 := WithoutFences(code);
    var r := StripMarkdownSyntax(code);
    StripSpec(code);
    OpeningIsPiece(code);
    ClosingIsPiece(code);
    StripSpec(c2);
    InfixTransitive(c2, c1, c0);
    InfixTransitive(c2, c0, code);
    InfixTransitive(r, c2, code);
    CountInfix(r, code, '\n');
  }

  lemma OpeningIsPiece(code: string)
    ensures IsInfix(WithoutOpening(code), Strip(code))
  {
    var c0 := Strip(code);
    var c1 := WithoutOpening(code);
    if StartsWith(c0, Fence) && '\n' in c0 {
      var k := FirstIndex(c0, '\n');
      assert c0 == c0[..k] + "\n" + c1;
      TailIsPiece(c0[..k], c1);
    } else if StartsWith(c0, Fence) {
      assert c1 == "";
      assert InfixAt(c1, c0, 0);
    } else {
      assert c1 == c0;
      assert InfixAt(c1, c0, 0);
    }
  }

  lemma TailIsPiece(line: string, rest: string)
    ensures InfixAt(rest, line + "\n" + rest, |line| + 1)
  {
    assert (line + "\n" + rest)[|line| + 1..] == rest;
  }

  lemma ClosingIsPiece(code: string)
    ensures IsInfix(WithoutFences(code), WithoutOpening(code))
  {
    var c1 := WithoutOpening(code);
    var c2 := WithoutFences(code);
    if EndsWith(c1, Fence) && '\n' in c1 {
      assert c1 == c2 + "\n" + c1[|c2| + 1..];
      HeadIsPiece(c2, c1[|c2| + 1..]);
    } else if EndsWith(c1, Fence) {
      assert c2 == "";
      assert InfixAt(c2, c1, 0);
    } else {
      assert InfixAt(c2, c1, 0);
    }
  }

  lemma HeadIsPiece(start: string, line: string)
    ensures InfixAt(start, start + "\n" + line, 0)
  {
    assert (start + "\n" + line)[..|start|] == start;
  }
}
