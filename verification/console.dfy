/**
 * The console side of a round: reading an answer line and deciding
 * whether it confirms the guess. A line confirms when, trimmed of
 * whitespace at both ends and lower-cased, it is exactly "y".
 */
module Console {

  /** Rust's `char::is_whitespace`: the Unicode White_Space characters. */
  predicate IsWhitespace(c: char) {
    var n := c as int;
    || 0x09 <= n <= 0x0D || n == 0x20 || n == 0x85 || n == 0xA0 || n == 0x1680
    || 0x2000 <= n <= 0x200A || n == 0x2028 || n == 0x2029 || n == 0x202F
    || n == 0x205F || n == 0x3000
  }

  predicate AllWhitespace(s: string) {
    forall i :: 0 <= i < |s| ==> IsWhitespace(s[i])
  }

  /** `s` without its leading whitespace. */
  function TrimStart(s: string): (r: string)
    ensures |r| <= |s|
  {
    if |s| > 0 && IsWhitespace(s[0]) then TrimStart(s[1..]) else s
  }

  /** `s` without its trailing whitespace. */
  function TrimEnd(s: string): (r: string)
    ensures |r| <= |s|
  {
    if |s| > 0 && IsWhitespace(s[|s| - 1]) then TrimEnd(s[..|s| - 1]) else s
  }

  /** `TrimStart` removes exactly the leading whitespace: what is left is a suffix that does not start with whitespace. */
  lemma {:induction false} TrimStartRemovesLeading(s: string)
    ensures var r := TrimStart(s);
      && r == s[|s| - |r|..]
      && AllWhitespace(s[..|s| - |r|])
      && (r != [] ==> !IsWhitespace(r[0]))
  {
    if |s| > 0 && IsWhitespace(s[0]) {
      TrimStartRemovesLeading(s[1..]);
      var r := TrimStart(s);
      assert s[..|s| - |r|] == [s[0]] + s[1..][..|s| - 1 - |r|];
      assert s[1..][|s| - 1 - |r|..] == s[|s| - |r|..];
    }
  }

  /** `TrimEnd` removes exactly the trailing whitespace: what is left is a prefix that does not end in whitespace. */
  lemma {:induction false} TrimEndRemovesTrailing(s: string)
    ensures var r := TrimEnd(s);
      && r == s[..|r|]
      && AllWhitespace(s[|r|..])
      && (r != [] ==> !IsWhitespace(r[|r| - 1]))
  {
    if |s| > 0 && IsWhitespace(s[|s| - 1]) {
      TrimEndRemovesTrailing(s[..|s| - 1]);
      var r := TrimEnd(s);
      assert s[|r|..] == s[..|s| - 1][|r|..] + [s[|s| - 1]];
      assert s[..|s| - 1][..|r|] == s[..|r|];
    }
  }

  /** `str::trim`. */
  function Trim(s: string): string {
    TrimEnd(TrimStart(s))
  }

  /** A to Z become a to z; every other character is kept. */
  function LowerChar(ch: char): char {
    if 'A' <= ch <= 'Z' then (ch as int + 32) as char else ch
  }

  /**
   * `str::to_lowercase`, restricted to what the comparison with "y" can
   * see: every character is lowered on its own.
   */
  function ToLower(s: string): (r: string)
    ensures |r| == |s|
  {
    if |s| == 0 then [] else [LowerChar(s[0])] + ToLower(s[1..])
  }

  /** Lower-casing works character by character, in place. */
  lemma {:induction false} ToLowerEach(s: string)
    ensures forall i :: 0 <= i < |s| ==> ToLower(s)[i] == LowerChar(s[i])
  {
    if |s| > 0 {
      ToLowerEach(s[1..]);
      forall i | 1 <= i < |s|
        ensures ToLower(s)[i] == LowerChar(s[i])
      {
        assert ToLower(s)[i] == ToLower(s[1..])[i - 1];
      }
    }
  }

  /** The confirmation test applied to every answer line. */
  predicate IsYes(line: string) {
    ToLower(Trim(line)) == "y"
  }

  /**
   * `read_line` on a list of remaining lines: the next line, or "" once the
   * input is exhausted (the buffer is cleared before every read).
   */
  function ReadLine(lines: seq<string>): (r: (string, seq<string>))
    ensures lines == [] ==> r == ("", [])
    ensures lines != [] ==> [r.0] + r.1 == lines
  {
    if |lines| == 0 then ("", []) else (lines[0], lines[1..])
  }

  /** The lines still unread after `n` reads from `lines`. */
  function Unread(lines: seq<string>, n: nat): seq<string> {
    if n <= |lines| then lines[n..] else []
  }

  /** The `i`-th line read from `lines`, counting reads past the end as "". */
  function LineAt(lines: seq<string>, i: nat): string {
    if i < |lines| then lines[i] else ""
  }

  /** Trimming removes exactly the whitespace around a word. */
  lemma {:induction false} TrimPadded(lead: string, word: string, trail: string)
    requires AllWhitespace(lead) && AllWhitespace(trail)
    requires word != [] && !IsWhitespace(word[0]) && !IsWhitespace(word[|word| - 1])
    ensures Trim(lead + word + trail) == word
  {
    var rest := word + trail;
    assert lead + word + trail == lead + rest;
    assert rest[0] == word[0];
    TrimStartPadded(lead, rest);
    TrimEndPadded(word, trail);
  }

  lemma {:induction false} TrimStartPadded(lead: string, s: string)
    requires AllWhitespace(lead)
    requires s != [] && !IsWhitespace(s[0])
    ensures TrimStart(lead + s) == s
    decreases |lead|
  {
    if lead != [] {
      assert (lead + s)[1..] == lead[1..] + s;
      TrimStartPadded(lead[1..], s);
    } else {
      assert lead + s == s;
    }
  }

  lemma {:induction false} TrimEndPadded(s: string, trail: string)
    requires AllWhitespace(trail)
    requires s != [] && !IsWhitespace(s[|s| - 1])
    ensures TrimEnd(s + trail) == s
    decreases |trail|
  {
    if trail != [] {
      assert (s + trail)[..|s + trail| - 1] == s + trail[..|trail| - 1];
      TrimEndPadded(s, trail[..|trail| - 1]);
    } else {
      assert s + trail == s;
    }
  }

  /** A line confirms exactly when trimming leaves a single 'y' or 'Y'. */
  lemma YesIsOneLetter(line: string)
    ensures IsYes(line) <==> Trim(line) == "y" || Trim(line) == "Y"
  {
    var t := Trim(line);
    if IsYes(line) {
      assert |t| == 1;
      assert ToLower(t)[0] == 'y';
    }
  }

  /** 'y' or 'Y' surrounded by any whitespace, the line end included, confirms. */
  lemma PaddedYesConfirms(lead: string, c: char, trail: string)
    requires AllWhitespace(lead) && AllWhitespace(trail)
    requires c == 'y' || c == 'Y'
    ensures IsYes(lead + [c] + trail)
  {
    TrimPadded(lead, [c], trail);
    YesIsOneLetter(lead + [c] + trail);
  }

  /** An exhausted input reads as "", which does not confirm. */
  lemma EndOfInputDoesNotConfirm()
    ensures !IsYes(ReadLine([]).0)
  {
    assert Trim("") == "";
  }
}
