/** What a text and a conversation are estimated at, counted by kinds of characters and by messages. */
module TokenShares {
  import opened TokenEstimate

  predicate Wide(c: char) {
    c as int > 127
  }

  predicate Blank(c: char) {
    c as int == 32 || 9 <= c as int <= 13 || 28 <= c as int <= 31
  }

  function CountOf(s: string, p: char -> bool): nat {
    if s == "" then 0 else CountOf(s[..|s| - 1], p) + if p(s[|s| - 1]) then 1 else 0
  }

  lemma {:induction false} UnitsAreShares(s: string)
    ensures CountOf(s, Wide) + CountOf(s, Blank) <= |s|
    ensures Units(s) == 16 * CountOf(s, Wide) + CountOf(s, Blank) + 5 * (|s| - CountOf(s, Wide) - CountOf(s, Blank))
  {
    if s != "" {
      UnitsAreShares(s[..|s| - 1]);
    }
  }

  /** A text costs 0.8 for each character beyond ASCII, 0.05 for each blank and 0.25 for any other, rounded up. */
  lemma TextCost(s: string)
    ensures var wide, blank := CountOf(s, Wide), CountOf(s, Blank);
      var cost := 0.8 * wide as real + 0.05 * blank as real + 0.25 * (|s| - wide - blank) as real;
      cost <= TextTokens(s) as real < cost + 1.0
  {
    UnitsAreShares(s);
  }

  function RoleTokens(ms: seq<Message>): nat {
    if ms == [] then 0 else RoleTokens(ms[..|ms| - 1]) + TextTokens(ms[|ms| - 1].role)
  }

  function AllContentTokens(ms: seq<Message>): nat {
    if ms == [] then 0 else AllContentTokens(ms[..|ms| - 1]) + ContentTokens(ms[|ms| - 1].content)
  }

  /** A conversation costs four tokens a message on top of its roles and contents. */
  lemma {:induction false} FramingCost(ms: seq<Message>)
    ensures Estimate(ms) == 4 * |ms| + RoleTokens(ms) + AllContentTokens(ms)
    decreases |ms|
  {
    if ms != [] {
      FramingCost(ms[..|ms| - 1]);
    }
  }
}
