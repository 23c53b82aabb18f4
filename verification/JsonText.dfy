/** The JSON text of a string is read back as the string: escaping loses nothing. */
module JsonText {
  import opened Prelude
  import opened TokenEstimate

  function HexValue(c: char): Option<nat> {
    if '0' <= c <= '9' then Some(c as int - '0' as int)
    else if 'a' <= c <= 'f' then Some(c as int - 'a' as int + 10)
    else None
  }

  /** The characters that a backslash and a letter stand for. */
  function Unescape(c: char): Option<char> {
    match c
    case '\"' => Some('\"')
    case '\\' => Some('\\')
    case 'n' => Some(10 as char)
    case 'r' => Some(13 as char)
    case 't' => Some(9 as char)
    case 'b' => Some(8 as char)
    case 'f' => Some(12 as char)
    case _ => None
  }

  /** One character read from the front of a text, and the length of what was read. */
  function ReadOne(s: string): Option<(char, nat)> {
    if s == "" then None
    else if s[0] != '\\' then Some((s[0], 1))
    else if |s| >= 6 && s[1] == 'u' && s[2] == '0' && s[3] == '0' then
      match (HexValue(s[4]), HexValue(s[5]))
      case (Some(high), Some(low)) => Some(((16 * high + low) as char, 6))
      case _ => None
    else if |s| >= 2 && Unescape(s[1]).Some? then Some((Unescape(s[1]).value, 2))
    else None
  }

  function Read(s: string): Option<string>
    decreases |s|
  {
    if s == "" then Some("")
    else
      match ReadOne(s)
      case None => None
      case Some((c, n)) =>
        if n > |s| || n == 0 then None
        else match Read(s[n..])
          case None => None
          case Some(rest) => Some([c] + rest)
  }

  lemma HexRoundTrip(n: nat)
    requires n < 16
    ensures HexValue(HexDigit(n)) == Some(n) && HexDigit(n) != '\\'
  {
  }

  lemma ReadEscaped(c: char, rest: string)
    ensures ReadOne(Escape(c) + rest) == Some((c, |Escape(c)|))
  {
    if c as int < 32 && |Escape(c)| == 6 {
      HexRoundTrip(c as int / 16);
      HexRoundTrip(c as int % 16);
    }
  }

  /** What is read off a text does not depend on what follows it. */
  lemma ReadOneExtends(x: string, y: string)
    requires ReadOne(x).Some?
    ensures ReadOne(x + y) == ReadOne(x) && 1 <= ReadOne(x).value.1 <= |x|
  {
  }

  lemma ReadFront(s: string, a: string) returns (n: nat)
    requires s != "" && Read(s) == Some(a)
    ensures 1 <= n <= |s| && a != "" && ReadOne(s) == Some((a[0], n)) && Read(s[n..]) == Some(a[1..])
  {
    n := ReadOne(s).value.1;
    var rest := Read(s[n..]).value;
    assert a == [ReadOne(s).value.0] + rest && a[1..] == rest;
  }

  lemma ReadStep(s: string, c: char, n: nat, rest: string)
    requires 1 <= n <= |s| && ReadOne(s) == Some((c, n)) && Read(s[n..]) == Some(rest)
    ensures Read(s) == Some([c] + rest)
  {
  }

  lemma {:induction false} ReadConcat(x: string, y: string, a: string, b: string)
    requires Read(x) == Some(a) && Read(y) == Some(b)
    ensures Read(x + y) == Some(a + b)
    decreases |x|
  {
    if x == "" {
      assert x + y == y && a + b == b;
    } else {
      var n := ReadFront(x, a);
      ReadOneExtends(x, y);
      ReadConcat(x[n..], y, a[1..], b);
      assert (x + y)[n..] == x[n..] + y;
      ReadStep(x + y, a[0], n, a[1..] + b);
      assert a + b == [a[0]] + (a[1..] + b);
    }
  }

  lemma ReadSingle(c: char)
    ensures Read(Escape(c)) == Some([c])
  {
    var s := Escape(c);
    ReadEscaped(c, "");
    assert s + "" == s && s[|s|..] == "";
    assert Read("") == Some("") && [c] + "" == [c];
  }

  /** Reading undoes escaping, for every text. */
  lemma {:induction false} EscapedReadsBack(s: string)
    ensures Read(Escaped(s)) == Some(s)
    decreases |s|
  {
    if s != "" {
      var front, last := s[..|s| - 1], s[|s| - 1];
      EscapedReadsBack(front);
      ReadSingle(last);
      ReadConcat(Escaped(front), Escape(last), front, [last]);
      assert s == front + [last];
    }
  }
}
