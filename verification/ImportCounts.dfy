/** What the counters of a mailbox import count. */
module ImportCounts {
  import opened MessageLedger
  import opened MessageStores

  /** The first `n` lines that parse to a message and whose insert does not raise. */
  function Takeable(f: string, lines: seq<Line>, faults: Faults, n: nat): set<int>
    requires n <= |lines|
  {
    set i | 0 <= i < n && lines[i].parsed.Good? && (f, i + 1) !in faults
  }

  function BlankLines(lines: seq<Line>, n: nat): set<int>
    requires n <= |lines|
  {
    set i | 0 <= i < n && lines[i].parsed.Blank?
  }

  lemma NextTakeable(f: string, lines: seq<Line>, faults: Faults, i: nat)
    requires i < |lines|
    ensures Takeable(f, lines, faults, i + 1)
      == Takeable(f, lines, faults, i) + if Storable(f, lines, i, faults) then {i as int} else {}
  {
  }

  lemma NextBlank(lines: seq<Line>, i: nat)
    requires i < |lines|
    ensures BlankLines(lines, i + 1) == BlankLines(lines, i) + if lines[i].parsed.Blank? then {i as int} else {}
  {
  }

  /** Every line is blank, taken, or an error, and the counters say how many of each there are. */
  lemma {:induction false} CountersCount(f: string, lines: seq<Line>, faults: Faults, n: nat)
    requires n <= |lines|
    ensures Offered(f, lines, faults, n) == |Takeable(f, lines, faults, n)|
    ensures Refused(f, lines, faults, n) == n - |Takeable(f, lines, faults, n)| - |BlankLines(lines, n)|
    decreases n
  {
    if n > 0 {
      CountersCount(f, lines, faults, n - 1);
      NextTakeable(f, lines, faults, n - 1);
      NextBlank(lines, n - 1);
    }
  }

  /**
   A file that cannot be read is one error; otherwise each line that is neither blank nor taken is one, and if there is
   none, so is a removal that fails.
   */
  lemma FileCounts(f: string, file: File, faults: Faults)
    ensures file.Unreadable? ==> OfferedBy(f, file, faults) == 0 && ErrorsOf(f, file, faults) == 1
    ensures file.Lines? ==>
      var n := |file.lines|;
      var taken := |Takeable(f, file.lines, faults, n)|;
      var refused := n - taken - |BlankLines(file.lines, n)|;
      && OfferedBy(f, file, faults) == taken
      && ErrorsOf(f, file, faults) == if refused == 0 && (f, 0) in faults then 1 else refused
  {
    if file.Lines? {
      CountersCount(f, file.lines, faults, |file.lines|);
      CleanRefusesNone(f, file.lines, faults);
    }
  }
}
