/** The weighted token estimate of a conversation, over the JSON text of its structured contents. */
module TokenEstimate {
  // ---------------------------------------------------------------- the estimate

  predicate Space(c: char) {
    c == ' ' || 9 <= c as int <= 13 || 28 <= c as int <= 31
  }

  /** Token weight in exact twentieths: 0.8 beyond ASCII, 0.05 for white space, 0.25 otherwise. */
  function Weight(c: char): nat {
    if c as int > 127 then 16 else if Space(c) then 1 else 5
  }

  function Units(s: string): nat {
    if s == "" then 0 else Units(s[..|s| - 1]) + Weight(s[|s| - 1])
  }

  /** `math.ceil` of so many twentieths. */
  function Tokens(units: nat): nat {
    (units + 19) / 20
  }

  function TextTokens(s: string): nat {
    Tokens(Units(s))
  }

  lemma {:induction false} UnitsConcat(a: string, b: string)
    ensures Units(a + b) == Units(a) + Units(b)
    decreases |b|
  {
    if b == "" {
      assert a + b == a;
    } else {
      assert (a + b)[..|a + b| - 1] == a + b[..|b| - 1];
      UnitsConcat(a, b[..|b| - 1]);
    }
  }

  // ---------------------------------------------------------------- serialized values

  function HexDigit(n: nat): char
    requires n < 16
  {
    if n < 10 then '0' + n as char else 'a' + (n - 10) as char
  }

  /** One character inside a JSON string, non-ASCII text kept as it is. */
  function Escape(c: char): string {
    if c == '\"' then "\\\""
    else if c == '\\' then "\\\\"
    else if c == '\n' then "\\n"
    else if c == '\r' then "\\r"
    else if c == '\t' then "\\t"
    else if c as int == 8 then "\\b"
    else if c as int == 12 then "\\f"
    else if c as int < 32 then "\\u00" + [HexDigit(c as int / 16), HexDigit(c as int % 16)]
    else [c]
  }

  function Escaped(s: string): string {
    if s == "" then "" else Escaped(s[..|s| - 1]) + Escape(s[|s| - 1])
  }

  /** `Raw` is any other value, given by its compact JSON text. */
  datatype Json = Null | Text(text: string) | Raw(json: string)

  function Serialized(v: Json): string {
    match v
    case Null => "null"
    case Text(text) => "\"" + Escaped(text) + "\""
    case Raw(json) => json
  }

  /** `estimate_value`: bare text is counted without quotes and escapes. */
  function ValueTokens(v: Json): nat {
    match v
    case Null => 0
    case Text(text) => TextTokens(text)
    case Raw(json) => TextTokens(json)
  }

  lemma EscapeCostsMore(c: char)
    ensures Units(Escape(c)) >= Weight(c)
  {
    var e := Escape(c);
    if |e| == 1 {
      assert e[..0] == "" && Units(e) == Weight(c);
    } else {
      assert e[0] == '\\' && e == "\\" + e[1..];
      assert "\\"[..0] == "";
      UnitsConcat("\\", e[1..]);
      assert e[1..][..|e| - 2] + [e[|e| - 1]] == e[1..];
    }
  }

  /** Escaping never makes a text cheaper. */
  lemma {:induction false} EscapedCostsMore(s: string)
    ensures Units(Escaped(s)) >= Units(s)
  {
    if s != "" {
      EscapedCostsMore(s[..|s| - 1]);
      EscapeCostsMore(s[|s| - 1]);
      UnitsConcat(Escaped(s[..|s| - 1]), Escape(s[|s| - 1]));
    }
  }

  lemma QuotedUnits(s: string)
    ensures Units("\"" + s + "\"") == Units(s) + 10
  {
    assert "\""[..0] == "" && Units("\"") == 5;
    UnitsConcat("\"" + s, "\"");
    UnitsConcat("\"", s);
  }

  /** What a value contributes to its message is at least what it is estimated at alone. */
  lemma SerializedCostsMore(v: Json)
    ensures Tokens(Units(Serialized(v))) >= ValueTokens(v)
  {
    if v.Text? {
      EscapedCostsMore(v.text);
      QuotedUnits(Escaped(v.text));
    }
  }

  // ---------------------------------------------------------------- messages

  /** The `content` entry of a tool result; the entry may be missing. */
  datatype Slot = Missing | Holds(value: Json)

  /** A block is serialized as `head`, its content when present, then `tail`. */
  datatype Block =
    | ToolResult(head: string, slot: Slot, tail: string)
    | Other(json: string)

  datatype Content = Single(value: Json) | Blocks(blocks: seq<Block>)

  datatype Message = Message(role: string, content: Content)

  function BlockJson(b: Block): string {
    match b
    case ToolResult(head, Holds(v), tail) => head + Serialized(v) + tail
    case ToolResult(head, Missing, tail) => head + tail
    case Other(json) => json
  }

  function Joined(bs: seq<Block>): string {
    if |bs| == 0 then ""
    else if |bs| == 1 then BlockJson(bs[0])
    else Joined(bs[..|bs| - 1]) + "," + BlockJson(bs[|bs| - 1])
  }

  function ContentTokens(c: Content): nat {
    match c
    case Single(v) => ValueTokens(v)
    case Blocks(bs) => TextTokens("[" + Joined(bs) + "]")
  }

  function MessageTokens(m: Message): nat {
    4 + TextTokens(m.role) + ContentTokens(m.content)
  }

  function Estimate(ms: seq<Message>): nat {
    if ms == [] then 0 else Estimate(ms[..|ms| - 1]) + MessageTokens(ms[|ms| - 1])
  }

  lemma {:induction false} EstimateUpdate(ms: seq<Message>, i: nat, m: Message)
    requires i < |ms|
    ensures Estimate(ms[i := m]) + MessageTokens(ms[i]) == Estimate(ms) + MessageTokens(m)
    decreases |ms|
  {
    var n := |ms| - 1;
    var ms' := ms[i := m];
    if i == n {
      assert ms'[..n] == ms[..n];
    } else {
      assert ms'[..n] == ms[..n][i := m];
      EstimateUpdate(ms[..n], i, m);
    }
  }

  lemma JoinedSplit(bs: seq<Block>)
    requires |bs| > 1
    ensures Units(Joined(bs)) == Units(Joined(bs[..|bs| - 1])) + Units(",") + Units(BlockJson(bs[|bs| - 1]))
  {
    var front := Joined(bs[..|bs| - 1]);
    UnitsConcat(front + ",", BlockJson(bs[|bs| - 1]));
    UnitsConcat(front, ",");
  }

  lemma {:induction false} JoinedUpdate(bs: seq<Block>, j: nat, b: Block)
    requires j < |bs|
    ensures Units(Joined(bs[j := b])) + Units(BlockJson(bs[j])) == Units(Joined(bs)) + Units(BlockJson(b))
    decreases |bs|
  {
    var n := |bs| - 1;
    if n > 0 {
      JoinedSplit(bs);
      JoinedSplit(bs[j := b]);
      if j == n {
        assert bs[j := b][..n] == bs[..n];
      } else {
        assert bs[j := b][..n] == bs[..n][j := b];
        JoinedUpdate(bs[..n], j, b);
      }
    }
  }

  // ---------------------------------------------------------------- the placeholder

  function Spaced(words: seq<string>): string {
    if |words| == 0 then ""
    else if |words| == 1 then words[0]
    else Spaced(words[..|words| - 1]) + " " + words[|words| - 1]
  }

  const NOTE_WORDS := ["[Earlier", "tool", "result", "compacted", "by", "context", "budget", "manager.",
                       "Re-run", "the", "tool", "if", "the", "full", "output", "is", "needed.]"]

  const NOTE := Spaced(NOTE_WORDS)

  predicate Plain(s: string) {
    forall i :: 0 <= i < |s| ==> 32 <= s[i] as int <= 127 && s[i] != '\"' && s[i] != '\\'
  }

  predicate Word(s: string) {
    Plain(s) && ' ' !in s
  }

  lemma PlainKept(c: char)
    requires Plain([c])
    ensures Escape(c) == [c]
  {
    assert [c][0] == c;
  }

  lemma PlainFront(s: string)
    requires Plain(s) && s != ""
    ensures Plain(s[..|s| - 1]) && Plain([s[|s| - 1]])
  {
  }

  lemma PlainNext(s: string, front: string, last: char)
    requires s != "" && front == s[..|s| - 1] && last == s[|s| - 1]
    requires Escaped(front) == front && Escape(last) == [last]
    ensures Escaped(s) == s
  {
  }

  lemma {:induction false} PlainUnescaped(s: string)
    requires Plain(s)
    ensures Escaped(s) == s
  {
    if s != "" {
      var front, last := s[..|s| - 1], s[|s| - 1];
      PlainFront(s);
      PlainUnescaped(front);
      PlainKept(last);
      PlainNext(s, front, last);
    }
  }

  lemma {:induction false} WordUnits(s: string)
    requires Word(s)
    ensures Units(s) == 5 * |s|
  {
    if s != "" {
      assert s[|s| - 1] in s;
      WordUnits(s[..|s| - 1]);
    }
  }

  function Letters(words: seq<string>, i: nat): nat
    requires i <= |words|
  {
    if i == 0 then 0 else Letters(words, i - 1) + |words[i - 1]|
  }

  lemma {:induction false} LettersOfPrefix(words: seq<string>, i: nat)
    requires i < |words|
    ensures Letters(words[..|words| - 1], i) == Letters(words, i)
  {
    if i > 0 {
      LettersOfPrefix(words, i - 1);
    }
  }

  lemma {:induction false} SpacedUnits(words: seq<string>)
    requires words != [] && forall i :: 0 <= i < |words| ==> Word(words[i])
    ensures Plain(Spaced(words)) && Units(Spaced(words)) == 5 * Letters(words, |words|) + |words| - 1
    decreases |words|
  {
    var n := |words| - 1;
    WordUnits(words[n]);
    if n > 0 {
      SpacedUnits(words[..n]);
      LettersOfPrefix(words, n);
      UnitsConcat(Spaced(words[..n]) + " ", words[n]);
      UnitsConcat(Spaced(words[..n]), " ");
      assert " "[..0] == "" && Units(" ") == 1;
    }
  }

  lemma NoteLetters()
    ensures Letters(NOTE_WORDS, 17) == 88
  {
    assert Letters(NOTE_WORDS, 4) == 27;
    assert Letters(NOTE_WORDS, 8) == 50;
    assert Letters(NOTE_WORDS, 12) == 65;
    assert Letters(NOTE_WORDS, 15) == 78;
  }

  lemma NoteWords()
    ensures forall i :: 0 <= i < |NOTE_WORDS| ==> Word(NOTE_WORDS[i])
  {
  }

  lemma NoteUnits()
    ensures Units(NOTE) == 456 && Escaped(NOTE) == NOTE && TextTokens(NOTE) == 23
  {
    NoteWords();
    NoteLetters();
    SpacedUnits(NOTE_WORDS);
    PlainUnescaped(NOTE);
  }

  // ---------------------------------------------------------------- the estimator's loops

  function AtLeastOne(n: nat): nat {
    if n < 1 then 1 else n
  }

  method EstimateText(text: string) returns (tokens: nat)
    ensures tokens == TextTokens(text)
    ensures text != "" ==> tokens >= 1
  {
    if text == "" {
      return 0;
    }
    var units := 0;
    for i := 0 to |text|
      invariant units == Units(text[..i]) && units >= i
    {
      assert text[..i + 1][..i] == text[..i];
      if text[i] as int > 127 {
        units := units + 16;
      } else if Space(text[i]) {
        units := units + 1;
      } else {
        units := units + 5;
      }
    }
    assert text[..|text|] == text;
    tokens := AtLeastOne(Tokens(units));
  }

  method EstimateValue(v: Json) returns (tokens: nat)
    ensures tokens == ValueTokens(v)
  {
    match v
    case Null => tokens := 0;
    case Text(text) => tokens := EstimateText(text);
    case Raw(json) => tokens := EstimateText(json);
  }

  method EstimateMessages(messages: seq<Message>) returns (total: nat)
    ensures total == Estimate(messages)
  {
    total := 0;
    for i := 0 to |messages|
      invariant total == Estimate(messages[..i])
    {
      assert messages[..i + 1][..i] == messages[..i];
      total := total + 4;
      var role := EstimateText(messages[i].role);
      var content;
      match messages[i].content {
        case Single(v) => content := EstimateValue(v);
        case Blocks(bs) => content := EstimateText("[" + Joined(bs) + "]");
      }
      total := total + role + content;
    }
    assert messages[..|messages|] == messages;
  }
}
