/** Cutting text at separators: `find`, `split` on commas, and `join`. */
module Separators {
  /** The position of the first `c`, or the length of the text. */
  function IndexOf(s: string, c: char): (i: nat)
    ensures i <= |s| && c !in s[..i]
    ensures i < |s| ==> s[i] == c
    ensures i == |s| <==> c !in s
  {
    if s == "" then 0
    else if s[0] == c then 0
    else
      var i := IndexOf(s[1..], c);
      assert s[..i + 1] == [s[0]] + s[1..][..i];
      i + 1
  }

  /** `s.split(",")`. */
  function SplitCommas(s: string): (parts: seq<string>)
    ensures |parts| >= 1
    ensures ',' !in s ==> parts == [s]
    ensures ',' in s ==> |parts| >= 2 && forall i :: 0 <= i < |parts| ==> |parts[i]| < |s|
    ensures forall i :: 0 <= i < |parts| ==> ',' !in parts[i]
    decreases |s|
  {
    var i := IndexOf(s, ',');
    if i == |s| then [s] else [s[..i]] + SplitCommas(s[i + 1..])
  }

  function Join(parts: seq<string>): string {
    if parts == [] then ""
    else if |parts| == 1 then parts[0]
    else parts[0] + "," + Join(parts[1..])
  }

  lemma IndexOfSeparator(l: string, r: string, c: char)
    requires c !in l
    ensures IndexOf(l + [c] + r, c) == |l|
  {
    var s := l + [c] + r;
    var i := IndexOf(s, c);
    assert s[|l|] == c;
    assert forall k :: 0 <= k < |l| ==> s[k] == l[k];
    assert forall k :: |l| < k <= |s| ==> s[..k][|l|] == c;
  }

  lemma {:induction false} SplitInvertsJoin(parts: seq<string>)
    requires |parts| >= 1 && forall i :: 0 <= i < |parts| ==> ',' !in parts[i]
    ensures SplitCommas(Join(parts)) == parts
    ensures |parts| >= 2 ==> ',' in Join(parts)
    decreases |parts|
  {
    if |parts| > 1 {
      SplitInvertsJoin(parts[1..]);
      var s := Join(parts);
      assert s == parts[0] + [','] + Join(parts[1..]);
      IndexOfSeparator(parts[0], Join(parts[1..]), ',');
      assert s[|parts[0]|] == ',';
      assert s[..|parts[0]|] == parts[0] && s[|parts[0]| + 1..] == Join(parts[1..]);
    }
  }

  lemma CutAround(s: string, i: nat)
    requires i < |s|
    ensures s == s[..i] + [s[i]] + s[i + 1..]
  {
  }

  lemma {:induction false} JoinInvertsSplit(s: string)
    ensures Join(SplitCommas(s)) == s
    decreases |s|
  {
    var i := IndexOf(s, ',');
    if i < |s| {
      JoinInvertsSplit(s[i + 1..]);
      CutAround(s, i);
      assert SplitCommas(s)[1..] == SplitCommas(s[i + 1..]);
    }
  }
}
