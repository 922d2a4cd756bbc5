/** Text as the byte-budgeted code sees it: the size of a string in UTF-8, its
    words, its lines, and the normal form of a line. */
module Utf8Text {

  /** Octets of a character in UTF-8 (section 3 of RFC 3629). */
  function Size(c: char): nat {
    if c as int < 0x80 then 1
    else if c as int < 0x800 then 2
    else if c as int < 0x10000 then 3
    else 4
  }

  /** The octets of a character. */
  function Encode(c: char): seq<int> {
    var n := c as int;
    var low, middle, high := n % 64, n / 64 % 64, n / 64 / 64;
    if n < 0x80 then [n]
    else if n < 0x800 then [0xC0 + n / 64, 0x80 + low]
    else if n < 0x10000 then [0xE0 + high, 0x80 + middle, 0x80 + low]
    else [0xF0 + high / 64, 0x80 + high % 64, 0x80 + middle, 0x80 + low]
  }

  /** The number that octets of this form stand for. */
  function Decode(o: seq<int>): int {
    if |o| == 1 then o[0]
    else if |o| == 2 then (o[0] - 0xC0) * 64 + (o[1] - 0x80)
    else if |o| == 3 then ((o[0] - 0xE0) * 64 + (o[1] - 0x80)) * 64 + (o[2] - 0x80)
    else if |o| == 4 then (((o[0] - 0xF0) * 64 + (o[1] - 0x80)) * 64 + (o[2] - 0x80)) * 64 + (o[3] - 0x80)
    else 0
  }

  /** Size counts the octets of the encoding, which can be read back, and is told by
      the first of them. */
  lemma SizeIsEncodedLength(c: char)
    ensures |Encode(c)| == Size(c) && Decode(Encode(c)) == c as int
    ensures forall k :: 0 <= k < |Encode(c)| ==> 0 <= Encode(c)[k] < 0x100 && (0 < k ==> 0x80 <= Encode(c)[k] < 0xC0)
    ensures var lead := Encode(c)[0];
            Size(c) == if lead < 0x80 then 1 else if lead < 0xE0 then 2 else if lead < 0xF0 then 3 else 4
  {
    assert c as int < 0x110000;
  }

  function Bytes(s: string): nat {
    if s == "" then 0 else Size(s[0]) + Bytes(s[1..])
  }

  lemma {:induction false} BytesAppend(a: string, b: string)
    ensures Bytes(a + b) == Bytes(a) + Bytes(b)
  {
    if a == "" {
      assert a + b == b;
    } else {
      assert (a + b)[1..] == a[1..] + b;
      BytesAppend(a[1..], b);
    }
  }

  lemma {:induction false} BytesBounds(s: string)
    ensures |s| <= Bytes(s) <= 4 * |s|
  {
    if s != "" { BytesBounds(s[1..]); }
  }

  /** The characters of a text that fit a budget, up to the first that does not. */
  function Truncated(value: string, budget: int): string {
    if value == "" || Size(value[0]) > budget then ""
    else [value[0]] + Truncated(value[1..], budget - Size(value[0]))
  }

  /** Truncation keeps the longest prefix of whole characters within a budget. */
  lemma {:induction false} TruncatedIsLongestPrefix(value: string, budget: int)
    ensures var kept := Truncated(value, budget);
            && kept <= value && Bytes(kept) <= Bytes(value)
            && (kept != "" ==> Bytes(kept) <= budget)
            && (|kept| < |value| ==> budget < Bytes(kept) + Size(value[|kept|]))
            && (Bytes(value) <= budget ==> kept == value)
  {
    if value != "" && Size(value[0]) <= budget {
      TruncatedIsLongestPrefix(value[1..], budget - Size(value[0]));
      assert value == [value[0]] + value[1..];
    }
  }

  method TruncateUtf8(value: string, maximum: int) returns (prefix: string)
    ensures prefix == Truncated(value, maximum)
  {
    var n, used := 0, 0;
    prefix := "";
    while n < |value|
      invariant n <= |value|
      invariant Truncated(value, maximum) == prefix + Truncated(value[n..], maximum - used)
    {
      TruncateNext(value, n, maximum - used, prefix);
      var size := Size(value[n]);
      if used + size > maximum {
        return;
      }
      prefix := prefix + [value[n]];
      used := used + size;
      n := n + 1;
    }
    assert value[n..] == "" && prefix + "" == prefix;
  }

  lemma TruncateNext(value: string, n: nat, budget: int, prefix: string)
    requires n < |value|
    ensures prefix + Truncated(value[n..], budget)
            == if Size(value[n]) > budget then prefix
               else (prefix + [value[n]]) + Truncated(value[n + 1..], budget - Size(value[n]))
  {
    assert value[n..][1..] == value[n + 1..];
  }

  // ----- Words and lines -----

  predicate IsLineBreak(c: char) {
    var n := c as int;
    0x0A <= n <= 0x0D || 0x1C <= n <= 0x1E || n == 0x85 || n == 0x2028 || n == 0x2029
  }

  predicate IsSpace(c: char) {
    var n := c as int;
    0x09 <= n <= 0x0D || 0x1C <= n <= 0x20 || n == 0x85 || n == 0xA0 || n == 0x1680
    || 0x2000 <= n <= 0x200A || n == 0x2028 || n == 0x2029 || n == 0x202F || n == 0x205F || n == 0x3000
  }

  function Join(separator: string, parts: seq<string>): string {
    if parts == [] then ""
    else if |parts| == 1 then parts[0]
    else parts[0] + separator + Join(separator, parts[1..])
  }

  /** The length of the leading run of characters that are not whitespace. */
  function WordLength(s: string): (n: nat)
    ensures n <= |s|
  {
    if s == "" || IsSpace(s[0]) then 0 else 1 + WordLength(s[1..])
  }

  lemma {:induction false} WordLengthIsWord(s: string)
    ensures var n := WordLength(s);
            (forall i :: 0 <= i < n ==> !IsSpace(s[i])) && (n < |s| ==> IsSpace(s[n])) && (s != "" && !IsSpace(s[0]) ==> 0 < n)
  {
    if s != "" && !IsSpace(s[0]) { WordLengthIsWord(s[1..]); }
  }

  /** Split at any run of whitespace, dropping it. */
  function Words(s: string): seq<string>
    decreases |s|
  {
    if s == "" then []
    else if IsSpace(s[0]) then Words(s[1..])
    else [s[..WordLength(s)]] + Words(s[WordLength(s)..])
  }

  predicate IsWord(s: string) {
    s != "" && forall i :: 0 <= i < |s| ==> !IsSpace(s[i])
  }

  /** One space between words, none around them. */
  function Normalise(s: string): string { Join(" ", Words(s)) }

  lemma {:induction false} WordsAreWords(s: string)
    ensures forall k :: 0 <= k < |Words(s)| ==> IsWord(Words(s)[k])
    decreases |s|
  {
    if s != "" {
      WordLengthIsWord(s);
      if IsSpace(s[0]) { WordsAreWords(s[1..]); } else { WordsAreWords(s[WordLength(s)..]); }
    }
  }

  lemma {:induction false} WordLengthOfWord(w: string, rest: string)
    requires IsWord(w) && (rest != "" ==> IsSpace(rest[0]))
    ensures WordLength(w + rest) == |w|
  {
    if |w| == 1 {
      assert (w + rest)[1..] == rest;
    } else {
      assert (w + rest)[1..] == w[1..] + rest;
      WordLengthOfWord(w[1..], rest);
    }
  }

  lemma FirstWord(w: string, rest: string)
    requires IsWord(w) && (rest != "" ==> IsSpace(rest[0]))
    ensures Words(w + rest) == [w] + Words(rest)
  {
    WordLengthOfWord(w, rest);
    assert (w + rest)[..|w|] == w && (w + rest)[|w|..] == rest;
  }

  lemma {:induction false} WordLengthStops(a: string, rest: string)
    requires rest != "" ==> IsSpace(rest[0])
    ensures WordLength(a + rest) == WordLength(a)
  {
    if a == "" {
      assert a + rest == rest;
    } else if !IsSpace(a[0]) {
      assert (a + rest)[1..] == a[1..] + rest;
      WordLengthStops(a[1..], rest);
    }
  }

  /** Whitespace, and nothing else, separates words: splitting before and behind it
      gives all the words; and a run of other characters is one word, as it is. */
  lemma {:induction false} WordsSplitAtSpace(a: string, space: char, b: string)
    requires IsSpace(space)
    ensures Words(a + [space] + b) == Words(a) + Words(b)
    decreases |a|
  {
    var s := a + [space] + b;
    assert s == a + ([space] + b);
    if a == "" {
      assert s[0] == space && s[1..] == b;
    } else if IsSpace(a[0]) {
      assert s[1..] == a[1..] + [space] + b;
      WordsSplitAtSpace(a[1..], space, b);
    } else {
      var n := WordLength(a);
      WordLengthIsWord(a);
      WordLengthStops(a, [space] + b);
      assert s[..n] == a[..n] && s[n..] == a[n..] + [space] + b;
      WordsSplitAtSpace(a[n..], space, b);
    }
  }

  lemma WordsOfWord(w: string)
    requires IsWord(w)
    ensures Words(w) == [w] && Words("") == []
  {
    FirstWord(w, "");
    assert w + "" == w;
  }

  /** Joining words with single spaces and splitting again gives the words. */
  lemma {:induction false} WordsOfJoined(words: seq<string>)
    requires forall k :: 0 <= k < |words| ==> IsWord(words[k])
    ensures Words(Join(" ", words)) == words
    decreases |words|
  {
    if |words| == 1 {
      FirstWord(words[0], "");
      assert words[0] + "" == words[0];
    } else if words != [] {
      var rest := " " + Join(" ", words[1..]);
      assert Join(" ", words) == words[0] + rest;
      FirstWord(words[0], rest);
      assert rest[1..] == Join(" ", words[1..]);
      WordsOfJoined(words[1..]);
    }
  }

  lemma NormaliseIsIdempotent(s: string)
    ensures Normalise(Normalise(s)) == Normalise(s)
    ensures Normalise(s) == "" <==> Words(s) == []
  {
    WordsAreWords(s);
    WordsOfJoined(Words(s));
  }

  /** A normalised line: not blank, nothing to normalise, nothing to split. */
  predicate IsLine(s: string) {
    s != "" && Normalise(s) == s && Unbroken(s)
  }

  predicate Unbroken(s: string) {
    forall i :: 0 <= i < |s| ==> !IsLineBreak(s[i])
  }

  lemma UnbrokenAppend(a: string, b: string)
    requires Unbroken(a) && Unbroken(b)
    ensures Unbroken(a + b)
  {
  }

  lemma WordIsUnbroken(w: string)
    requires IsWord(w)
    ensures Unbroken(w)
  {
    forall i | 0 <= i < |w| ensures !IsLineBreak(w[i]) { assert !IsSpace(w[i]); }
  }

  lemma {:induction false} JoinedWordsStayOnLine(words: seq<string>)
    requires forall k :: 0 <= k < |words| ==> IsWord(words[k])
    ensures Unbroken(Join(" ", words))
    decreases |words|
  {
    if words != [] {
      WordIsUnbroken(words[0]);
      if |words| > 1 {
        JoinedWordsStayOnLine(words[1..]);
        UnbrokenAppend(words[0], " ");
        UnbrokenAppend(words[0] + " ", Join(" ", words[1..]));
      }
    }
  }

  lemma NormalisedIsLine(s: string)
    requires Normalise(s) != ""
    ensures IsLine(Normalise(s))
  {
    NormaliseIsIdempotent(s);
    WordsAreWords(s);
    JoinedWordsStayOnLine(Words(s));
  }

  function LineLength(s: string): (n: nat)
    ensures n <= |s|
  {
    if s == "" || IsLineBreak(s[0]) then 0 else 1 + LineLength(s[1..])
  }

  /** The end of the line break at n: a carriage return and line feed count as one. */
  function BreakEnd(s: string, n: nat): (end: nat)
    requires n < |s|
    ensures n < end <= |s|
  {
    if s[n] == '\r' && n + 1 < |s| && s[n + 1] == '\n' then n + 2 else n + 1
  }

  /** Split at line breaks; a final break opens no further line. */
  function SplitLines(s: string): seq<string>
    decreases |s|
  {
    if s == "" then []
    else if LineLength(s) == |s| then [s]
    else [s[..LineLength(s)]] + SplitLines(s[BreakEnd(s, LineLength(s))..])
  }

  lemma {:induction false} LineLengthOfLine(line: string, rest: string)
    requires Unbroken(line) && (rest != "" ==> IsLineBreak(rest[0]))
    ensures LineLength(line + rest) == |line|
  {
    if line == "" {
      assert line + rest == rest;
    } else {
      assert (line + rest)[1..] == line[1..] + rest;
      LineLengthOfLine(line[1..], rest);
    }
  }

  /** Lines joined by line feeds are read back as the same lines. */
  lemma {:induction false} LinesOfJoined(lines: seq<string>)
    requires forall k :: 0 <= k < |lines| ==> IsLine(lines[k])
    ensures SplitLines(Join("\n", lines)) == lines
    decreases |lines|
  {
    if lines != [] {
      assert IsLine(lines[0]);
      assert lines == [lines[0]] + lines[1..];
      if |lines| > 1 {
        LinesOfJoined(lines[1..]);
        FirstLine(lines[0], Join("\n", lines[1..]));
      } else {
        LineLengthOfLine(lines[0], "");
        assert lines[0] + "" == lines[0];
      }
    }
  }

  lemma FirstLine(line: string, rest: string)
    requires line != "" && Unbroken(line)
    ensures SplitLines(line + "\n" + rest) == [line] + SplitLines(rest)
  {
    var s := line + "\n" + rest;
    assert s == line + ("\n" + rest);
    LineLengthOfLine(line, "\n" + rest);
    assert s[..|line|] == line && s[|line|] == '\n' && s[|line| + 1..] == rest;
  }

  /** A line break ends a line, whichever it is, and a carriage return takes its line
      feed along; what is before it is the line as it was. */
  lemma LineEndsAtBreak(line: string, stop: char, rest: string)
    requires Unbroken(line) && IsLineBreak(stop)
    ensures !(stop == '\r' && rest != "" && rest[0] == '\n') ==> SplitLines(line + [stop] + rest) == [line] + SplitLines(rest)
    ensures SplitLines(line + "\r\n" + rest) == [line] + SplitLines(rest)
    ensures SplitLines(line) == if line == "" then [] else [line]
  {
    var s, t := line + [stop] + rest, line + "\r\n" + rest;
    assert s == line + ([stop] + rest) && t == line + ("\r\n" + rest);
    LineLengthOfLine(line, [stop] + rest);
    LineLengthOfLine(line, "\r\n" + rest);
    LineLengthOfLine(line, "");
    assert line + "" == line;
    assert s[..|line|] == line && s[|line|] == stop && s[|line| + 1..] == rest;
    assert t[..|line|] == line && t[|line|] == '\r' && t[|line| + 1] == '\n' && t[|line| + 2..] == rest;
  }

  /** The normalised lines of a text, blank ones dropped. */
  function LinesOf(lines: seq<string>): seq<string> {
    if lines == [] then []
    else (if Normalise(lines[0]) == "" then [] else [Normalise(lines[0])]) + LinesOf(lines[1..])
  }

  function BodyLines(text: string): seq<string> { LinesOf(SplitLines(text)) }

  /** Line by line: each that is not blank, normalised. */
  lemma {:induction false} LinesOfAppend(a: seq<string>, b: seq<string>)
    ensures LinesOf(a + b) == LinesOf(a) + LinesOf(b)
    ensures forall line :: LinesOf([line]) == if Normalise(line) == "" then [] else [Normalise(line)]
  {
    if a == [] {
      assert a + b == b;
    } else {
      assert (a + b)[1..] == a[1..] + b;
      LinesOfAppend(a[1..], b);
    }
  }

  lemma {:induction false} BodyLinesAreLines(lines: seq<string>)
    ensures forall k :: 0 <= k < |LinesOf(lines)| ==> IsLine(LinesOf(lines)[k])
  {
    if lines != [] {
      BodyLinesAreLines(lines[1..]);
      if Normalise(lines[0]) != "" { NormalisedIsLine(lines[0]); }
    }
  }

  lemma {:induction false} NormalisedLinesStay(lines: seq<string>)
    requires forall k :: 0 <= k < |lines| ==> IsLine(lines[k])
    ensures LinesOf(lines) == lines
  {
    if lines != [] {
      assert IsLine(lines[0]);
      NormalisedLinesStay(lines[1..]);
    }
  }

  /** The size of joined parts: each part, and one octet between two. */
  lemma {:induction false} BytesOfJoined(separator: string, parts: seq<string>)
    requires Bytes(separator) == 1
    ensures parts != [] ==> Bytes(Join(separator, parts)) + 1 == Cost(parts)
  {
    if |parts| > 1 {
      BytesOfJoined(separator, parts[1..]);
      BytesAppend(parts[0] + separator, Join(separator, parts[1..]));
      BytesAppend(parts[0], separator);
    }
  }

  /** Each part with one more octet for its separator. */
  function Cost(parts: seq<string>): nat {
    if parts == [] then 0 else Bytes(parts[0]) + 1 + Cost(parts[1..])
  }

  lemma {:induction false} CostAppend(a: seq<string>, b: seq<string>)
    ensures Cost(a + b) == Cost(a) + Cost(b)
  {
    if a == [] {
      assert a + b == b;
    } else {
      assert (a + b)[1..] == a[1..] + b;
      CostAppend(a[1..], b);
    }
  }
}
