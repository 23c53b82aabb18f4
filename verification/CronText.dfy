/**
 The string operations of Python that cron fields go through. What counts as a digit or a space beyond
 ASCII, and how many digits `int` converts, differs between Python versions: everything here is for
 all of them.
 */
module CronText {
  import opened Prelude

  /**
   `decimals` are the non-ASCII decimal digits with their values; `otherDigits` are the characters that
   `str.isdigit` takes and `int` does not, like a superscript two.
   */
  datatype PythonText = PythonText(
    decimals: map<char, nat>,
    otherDigits: set<char>,
    otherSpaces: set<char>,
    maxDigits: Option<nat>)

  predicate BeyondAscii(chars: set<char>) {
    forall c :: c in chars ==> c >= 128 as char
  }

  predicate Sane(t: PythonText) {
    && BeyondAscii(t.decimals.Keys) && BeyondAscii(t.otherDigits) && BeyondAscii(t.otherSpaces)
    && t.decimals.Keys !! t.otherDigits !! t.otherSpaces
    && forall c :: c in t.decimals ==> t.decimals[c] <= 9
  }

  type Python = t: PythonText | Sane(t) witness PythonText(map[], {}, {}, None)

  predicate IsDecimal(py: Python, c: char) {
    '0' <= c <= '9' || c in py.decimals
  }

  predicate IsDigit(py: Python, c: char) {
    IsDecimal(py, c) || c in py.otherDigits
  }

  /** `s.isdigit()`. */
  predicate IsDigits(py: Python, s: string) {
    s != "" && forall i :: 0 <= i < |s| ==> IsDigit(py, s[i])
  }

  predicate AllDecimal(py: Python, s: string) {
    forall i :: 0 <= i < |s| ==> IsDecimal(py, s[i])
  }

  function DigitValue(py: Python, c: char): nat
    requires IsDecimal(py, c)
  {
    if '0' <= c <= '9' then c as int - '0' as int else py.decimals[c]
  }

  function DecimalValue(py: Python, s: string): nat
    requires AllDecimal(py, s)
  {
    if s == "" then 0
    else 10 * DecimalValue(py, s[..|s| - 1]) + DigitValue(py, s[|s| - 1])
  }

  // ---------------------------------------------------------------- spaces

  const ASCII_PADDING: set<char> := {' ', '\t', '\n', '\r', 11 as char, 12 as char}

  /** The separators 28 to 31 are spaces for `strip` and `split`, and not for `int`. */
  const ASCII_SPACES: set<char> := ASCII_PADDING + {28 as char, 29 as char, 30 as char, 31 as char}

  function Spaces(py: Python): set<char> {
    ASCII_SPACES + py.otherSpaces
  }

  function TrimLeft(s: string, spaces: set<char>): (r: string)
    ensures |r| <= |s|
  {
    if s != "" && s[0] in spaces then TrimLeft(s[1..], spaces) else s
  }

  function TrimRight(s: string, spaces: set<char>): (r: string)
    ensures |r| <= |s|
  {
    if s != "" && s[|s| - 1] in spaces then TrimRight(s[..|s| - 1], spaces) else s
  }

  function TrimAll(s: string, spaces: set<char>): (r: string)
    ensures |r| <= |s|
  {
    TrimRight(TrimLeft(s, spaces), spaces)
  }

  /** `s.strip()`. */
  function Trim(py: Python, s: string): (r: string)
    ensures |r| <= |s|
  {
    TrimAll(s, Spaces(py))
  }

  lemma TrimKeeps(py: Python, s: string, c: char)
    ensures c !in s ==> c !in Trim(py, s)
  {
    TrimLeftKeeps(s, Spaces(py), c);
    TrimRightKeeps(TrimLeft(s, Spaces(py)), Spaces(py), c);
  }

  lemma TrimLeftKeeps(s: string, spaces: set<char>, c: char)
    ensures c !in s ==> c !in TrimLeft(s, spaces)
  {
  }

  lemma TrimRightKeeps(s: string, spaces: set<char>, c: char)
    ensures c !in s ==> c !in TrimRight(s, spaces)
  {
  }

  /** `s.split()`: the maximal runs of non-space characters. */
  function Words(py: Python, s: string): seq<string>
    decreases |s|
  {
    var t := TrimLeft(s, Spaces(py));
    if t == "" then []
    else
      LeftIsTrimmed(s, Spaces(py));
      var n := WordLength(t, Spaces(py));
      [t[..n]] + Words(py, t[n..])
  }

  lemma LeftIsTrimmed(s: string, spaces: set<char>)
    ensures var t := TrimLeft(s, spaces); t != "" ==> t[0] !in spaces
  {
  }

  function WordLength(s: string, spaces: set<char>): (n: nat)
    ensures n <= |s|
    ensures s != "" && s[0] !in spaces ==> n >= 1
  {
    if s == "" || s[0] in spaces then 0 else 1 + WordLength(s[1..], spaces)
  }

  lemma {:induction false} WordAlone(word: string, rest: string, spaces: set<char>)
    requires forall i :: 0 <= i < |word| ==> word[i] !in spaces
    requires rest == "" || rest[0] in spaces
    ensures WordLength(word + rest, spaces) == |word|
    decreases |word|
  {
    if word != "" {
      assert (word + rest)[1..] == word[1..] + rest;
      WordAlone(word[1..], rest, spaces);
    } else {
      assert word + rest == rest;
    }
  }

  lemma WordsStep(py: Python, word: string, rest: string)
    requires word != "" && forall i :: 0 <= i < |word| ==> word[i] !in Spaces(py)
    requires rest == "" || rest[0] in Spaces(py)
    ensures Words(py, word + rest) == [word] + Words(py, rest)
  {
    var s := word + rest;
    assert s[0] == word[0] && TrimLeft(s, Spaces(py)) == s;
    WordAlone(word, rest, Spaces(py));
    assert s[..|word|] == word && s[|word|..] == rest;
  }

  predicate AllSpaces(py: Python, s: string) {
    forall i :: 0 <= i < |s| ==> s[i] in Spaces(py)
  }

  /** Non-empty text without a space in it. */
  predicate IsWord(py: Python, s: string) {
    s != "" && forall i :: 0 <= i < |s| ==> s[i] !in Spaces(py)
  }

  /** The words, each after its gap, and a last gap at the end. */
  function Spread(words: seq<string>, gaps: seq<string>): string
    requires |gaps| == |words| + 1
  {
    if words == [] then gaps[0] else gaps[0] + (words[0] + Spread(words[1..], gaps[1..]))
  }

  lemma {:induction false} GapSkipped(py: Python, gap: string, s: string)
    requires AllSpaces(py, gap)
    ensures Words(py, gap + s) == Words(py, s)
    decreases |gap|
  {
    if gap == "" {
      assert gap + s == s;
    } else {
      GapSkipped(py, gap[1..], s);
      assert (gap + s)[1..] == gap[1..] + s;
    }
  }

  /** Splitting undoes spacing: whatever the gaps, the words come back, and they alone. */
  lemma {:induction false} WordsOfSpread(py: Python, words: seq<string>, gaps: seq<string>)
    requires |gaps| == |words| + 1 && forall i :: 0 <= i < |words| ==> IsWord(py, words[i])
    requires forall i :: 0 <= i < |gaps| ==> AllSpaces(py, gaps[i])
    requires forall i :: 0 < i < |words| ==> gaps[i] != ""
    ensures Words(py, Spread(words, gaps)) == words
    decreases |words|
  {
    if words == [] {
      GapSkipped(py, gaps[0], "");
      assert gaps[0] + "" == gaps[0];
    } else {
      var rest := Spread(words[1..], gaps[1..]);
      WordsOfSpread(py, words[1..], gaps[1..]);
      GapSkipped(py, gaps[0], words[0] + rest);
      assert gaps[1..][0] == gaps[1];
      assert rest != "" ==> rest[0] in Spaces(py) by {
        if |words| == 1 {
          assert rest == gaps[1];
        } else {
          assert rest[0] == gaps[1][0];
        }
      }
      WordsStep(py, words[0], rest);
    }
  }

  /** Stripping undoes padding. */
  lemma TrimOfPadded(py: Python, left: string, s: string, right: string)
    requires AllSpaces(py, left) && AllSpaces(py, right)
    requires s != "" && s[0] !in Spaces(py) && s[|s| - 1] !in Spaces(py)
    ensures Trim(py, left + s + right) == s
  {
    assert left + s + right == left + (s + right);
    LeftPadding(left, s + right, Spaces(py));
    RightPadding(s, right, Spaces(py));
  }

  lemma {:induction false} LeftPadding(left: string, s: string, spaces: set<char>)
    requires s != "" && s[0] !in spaces && forall i :: 0 <= i < |left| ==> left[i] in spaces
    ensures TrimLeft(left + s, spaces) == s
    decreases |left|
  {
    if left == "" {
      assert left + s == s;
    } else {
      LeftPadding(left[1..], s, spaces);
      assert (left + s)[1..] == left[1..] + s;
    }
  }

  lemma {:induction false} RightPadding(s: string, right: string, spaces: set<char>)
    requires s != "" && s[|s| - 1] !in spaces && forall i :: 0 <= i < |right| ==> right[i] in spaces
    ensures TrimRight(s + right, spaces) == s
    decreases |right|
  {
    if right == "" {
      assert s + right == s;
    } else {
      var front := right[..|right| - 1];
      RightPadding(s, front, spaces);
      assert (s + right)[..|s + right| - 1] == s + front;
    }
  }

  // ---------------------------------------------------------------- int

  /** Digits, with single underscores between them. */
  predicate Grouped(py: Python, s: string) {
    && s != "" && IsDecimal(py, s[0]) && IsDecimal(py, s[|s| - 1])
    && forall i :: 0 <= i < |s| ==> Groups(py, s, i)
  }

  predicate Groups(py: Python, s: string, i: nat)
    requires i < |s|
  {
    IsDecimal(py, s[i]) || (s[i] == '_' && 0 < i && s[i - 1] != '_')
  }

  function Ungrouped(s: string): (r: string)
    ensures forall c :: c in r ==> c in s && c != '_'
  {
    if s == "" then "" else (if s[0] == '_' then "" else [s[0]]) + Ungrouped(s[1..])
  }

  lemma UngroupedIsDecimal(py: Python, s: string)
    requires Grouped(py, s)
    ensures AllDecimal(py, Ungrouped(s))
  {
    var r := Ungrouped(s);
    forall i | 0 <= i < |r|
      ensures IsDecimal(py, r[i])
    {
      assert r[i] in s && r[i] != '_';
      var k :| 0 <= k < |s| && s[k] == r[i];
      assert Groups(py, s, k);
    }
  }

  predicate Signed(s: string) {
    s != "" && s[0] in {'+', '-'}
  }

  predicate Convertible(py: Python, digits: nat) {
    py.maxDigits.None? || digits <= py.maxDigits.value
  }

  /** `int(s)`; `None` is its exception. */
  function ParseInt(py: Python, s: string): Option<int> {
    var t := TrimAll(s, ASCII_PADDING + py.otherSpaces);
    var body := if Signed(t) then t[1..] else t;
    if !Grouped(py, body) || !Convertible(py, |Ungrouped(body)|) then None
    else
      UngroupedIsDecimal(py, body);
      var n: int := DecimalValue(py, Ungrouped(body));
      Some(if Signed(t) && t[0] == '-' then -n else n)
  }

  /** A text `int` reads without sign, space or underscore. */
  predicate Plain(py: Python, s: string) {
    s != "" && AllDecimal(py, s) && Convertible(py, |s|)
  }

  lemma DigitsAreTrimmed(py: Python, s: string, spaces: set<char>)
    requires IsDigits(py, s) && spaces <= Spaces(py)
    ensures TrimAll(s, spaces) == s
  {
    assert IsDigit(py, s[0]) && IsDigit(py, s[|s| - 1]);
  }

  lemma {:induction false} NothingToUngroup(s: string)
    requires '_' !in s
    ensures Ungrouped(s) == s
    decreases |s|
  {
    if s != "" {
      NothingToUngroup(s[1..]);
    }
  }

  /** On digit text `int` reads exactly the plain decimals, and raises on the rest. */
  lemma ParseDigits(py: Python, s: string)
    requires IsDigits(py, s)
    ensures ParseInt(py, s) == if Plain(py, s) then Some(DecimalValue(py, s)) else None
  {
    DigitsAreTrimmed(py, s, ASCII_PADDING + py.otherSpaces);
    assert IsDigit(py, s[0]) && !Signed(s);
    if AllDecimal(py, s) {
      NothingToUngroup(s);
    } else {
      var i :| 0 <= i < |s| && !IsDecimal(py, s[i]);
      assert IsDigit(py, s[i]) && s[i] in py.otherDigits;
      assert s[i] != '_' && !Groups(py, s, i);
    }
  }

  /** Which ASCII characters are spaces, for `strip` and `split` and for `int`. */
  lemma AsciiSpaces(py: Python, c: char)
    requires c as int < 128
    ensures c in Spaces(py) <==> c == ' ' || 9 <= c as int <= 13 || 28 <= c as int <= 31
    ensures c in ASCII_PADDING + py.otherSpaces <==> c == ' ' || 9 <= c as int <= 13
  {
  }

  /** `int` undoes writing a number: padding goes, a sign counts, and underscores between digits do not. */
  lemma ParseSigned(py: Python, left: string, sign: string, body: string, right: string)
    requires sign in {"", "+", "-"} && Grouped(py, body) && Convertible(py, |Ungrouped(body)|)
    requires forall i :: 0 <= i < |left| ==> left[i] in ASCII_PADDING + py.otherSpaces
    requires forall i :: 0 <= i < |right| ==> right[i] in ASCII_PADDING + py.otherSpaces
    ensures AllDecimal(py, Ungrouped(body))
    ensures var n: int := DecimalValue(py, Ungrouped(body));
      ParseInt(py, left + (sign + body) + right) == Some(if sign == "-" then -n else n)
  {
    var spaces := ASCII_PADDING + py.otherSpaces;
    var s := sign + body;
    UngroupedIsDecimal(py, body);
    assert IsDecimal(py, body[0]) && IsDecimal(py, body[|body| - 1]);
    assert s[|s| - 1] == body[|body| - 1] && s[0] == if sign == "" then body[0] else sign[0];
    assert left + s + right == left + (s + right);
    LeftPadding(left, s + right, spaces);
    RightPadding(s, right, spaces);
    if sign == "" {
      assert s == body && !Signed(s);
    } else {
      assert Signed(s) && s[1..] == body;
    }
  }
}
