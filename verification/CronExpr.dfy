/**
 Cron expressions: the validator and the matcher of the scheduler as written, the grammar they are
 about, and the proof that both agree with it.
 */
module CronExpr {
  import opened CronText
  import opened Prelude
  import opened Separators

  // ---------------------------------------------------------------- the code

  predicate StartsWithStep(field: string) {
    |field| >= 2 && field[0] == '*' && field[1] == '/'
  }

  /** `_field_matches`; `None` is an integer that does not parse. */
  function FieldMatches(py: Python, field: string, value: int): Option<bool>
    decreases |field|, 1
  {
    if field == "*" then Some(true)
    else if StartsWithStep(field) then
      match ParseInt(py, field[2..])
      case None => None
      case Some(step) => Some(step > 0 && value % step == 0)
    else if ',' in field then AnyMatches(py, field, SplitCommas(field), value)
    else if '-' in field then
      var i := IndexOf(field, '-');
      match ParseInt(py, field[..i])
      case None => None
      case Some(lo) =>
        if lo > value then Some(false)
        else match ParseInt(py, field[i + 1..])
          case None => None
          case Some(hi) => Some(value <= hi)
    else
      match ParseInt(py, field)
      case None => None
      case Some(v) => Some(value == v)
  }

  /** `any(...)` over the trimmed parts: stops at the first match, or at the first exception. */
  function AnyMatches(py: Python, field: string, parts: seq<string>, value: int): Option<bool>
    requires forall i :: 0 <= i < |parts| ==> |parts[i]| < |field|
    decreases |field|, 0, |parts|
  {
    if parts == [] then Some(false)
    else
      match FieldMatches(py, Trim(py, parts[0]), value)
      case None => None
      case Some(found) => if found then Some(true) else AnyMatches(py, field, parts[1..], value)
  }

  datatype Verdict = Accepted | Refused | Raises

  /** `_validate_field`: no message, a message, or an exception out of `int`. */
  function Validate(py: Python, field: string, lo: int, hi: int): Verdict
    decreases |field|, 1
  {
    if field == "*" then Accepted
    else if StartsWithStep(field) then ValidateStep(py, field[2..])
    else if ',' in field then ValidateAll(py, field, SplitCommas(field), lo, hi)
    else if '-' in field then
      var i := IndexOf(field, '-');
      ValidateRange(py, field[..i], field[i + 1..], lo, hi)
    else ValidateNumber(py, field, lo, hi)
  }

  function ValidateNumber(py: Python, number: string, lo: int, hi: int): Verdict {
    if !IsDigits(py, number) then Refused
    else
      match ParseInt(py, number)
      case None => Raises
      case Some(v) => if v < lo || v > hi then Refused else Accepted
  }

  function ValidateStep(py: Python, step: string): Verdict {
    if !IsDigits(py, step) then Refused
    else
      match ParseInt(py, step)
      case None => Raises
      case Some(n) => if n <= 0 then Refused else Accepted
  }

  function ValidateRange(py: Python, left: string, right: string, lo: int, hi: int): Verdict {
    if !IsDigits(py, left) || !IsDigits(py, right) then Refused
    else
      var first, last := ParseInt(py, left), ParseInt(py, right);
      if first.None? || last.None? then Raises
      else
        var a, b := first.value, last.value;
        if a < lo || a > hi || b < lo || b > hi then Refused else if a > b then Refused else Accepted
  }

  /** The first part that is not accepted decides. */
  function ValidateAll(py: Python, field: string, parts: seq<string>, lo: int, hi: int): Verdict
    requires forall i :: 0 <= i < |parts| ==> |parts[i]| < |field|
    decreases |field|, 0, |parts|
  {
    if parts == [] then Accepted
    else
      var verdict := Validate(py, Trim(py, parts[0]), lo, hi);
      if verdict != Accepted then verdict else ValidateAll(py, field, parts[1..], lo, hi)
  }

  predicate ValidField(py: Python, field: string, lo: int, hi: int) {
    Validate(py, field, lo, hi) == Accepted
  }

  datatype Instant = Instant(minute: int, hour: int, day: int, month: int, weekday: int)

  const LOWS: seq<int> := [0, 0, 1, 1, 0]
  const HIGHS: seq<int> := [59, 23, 31, 12, 6]

  /** The loop of `validate`, from the `i`-th field on. */
  function ValidateFrom(py: Python, fields: seq<string>, i: nat): Verdict
    requires |fields| == 5 && i <= 5
    decreases 5 - i
  {
    if i == 5 then Accepted
    else
      var verdict := Validate(py, fields[i], LOWS[i], HIGHS[i]);
      if verdict != Accepted then verdict else ValidateFrom(py, fields, i + 1)
  }

  /** `validate`. */
  function ValidateExpression(py: Python, expr: string): Verdict {
    var fields := Words(py, Trim(py, expr));
    if |fields| != 5 then Refused else ValidateFrom(py, fields, 0)
  }

  /** `matches`: all five fields are evaluated before any is tested. */
  function Matches(py: Python, expr: string, t: Instant): Option<bool> {
    var fields := Words(py, Trim(py, expr));
    if |fields| != 5 then Some(false)
    else
      var minute := FieldMatches(py, fields[0], t.minute);
      var hour := FieldMatches(py, fields[1], t.hour);
      var dom := FieldMatches(py, fields[2], t.day);
      var month := FieldMatches(py, fields[3], t.month);
      var dow := FieldMatches(py, fields[4], (t.weekday + 1) % 7);
      if minute.None? || hour.None? || dom.None? || month.None? || dow.None? then None
      else if !(minute.value && hour.value && month.value) then Some(false)
      else if fields[2] == "*" && fields[4] == "*" then Some(true)
      else if fields[2] == "*" then dow
      else if fields[4] == "*" then dom
      else Some(dom.value || dow.value)
  }

  // ---------------------------------------------------------------- the grammar and its meaning

  datatype Spec =
    | Any
    | Every(step: nat)
    | Between(first: nat, last: nat)
    | Exactly(value: nat)
    | OneOf(parts: seq<Spec>)

  ghost predicate Number(py: Python, s: string, v: nat) {
    Plain(py, s) && DecimalValue(py, s) == v
  }

  /** The text of one entry that is not a list. */
  ghost predicate ReadsAtom(py: Python, field: string, spec: Spec) {
    match spec
    case Any => field == "*"
    case Every(n) => n > 0 && exists d: string :: field == "*/" + d && Number(py, d, n)
    case Between(a, b) =>
      a <= b && exists l: string, r: string :: field == l + "-" + r && Number(py, l, a) && Number(py, r, b)
    case Exactly(v) => Number(py, field, v)
    case OneOf(_) => false
  }

  /** A list may not open with a step: the code then reads the whole field as that step. */
  ghost predicate ReadsList(py: Python, field: string, parts: seq<string>, specs: seq<Spec>) {
    && |parts| == |specs| >= 2
    && field == Join(parts) && !StartsWithStep(field)
    && forall i :: 0 <= i < |parts| ==> ',' !in parts[i] && ReadsAtom(py, Trim(py, parts[i]), specs[i])
  }

  ghost predicate Reads(py: Python, field: string, spec: Spec) {
    ReadsAtom(py, field, spec)
    || (spec.OneOf? && exists parts :: ReadsList(py, field, parts, spec.parts))
  }

  /** The values an entry stands for. */
  ghost predicate Member(v: int, spec: Spec) {
    match spec
    case Any => true
    case Every(n) => n > 0 && v % n == 0
    case Between(a, b) => a <= v <= b
    case Exactly(x) => v == x
    case OneOf(parts) => exists i :: 0 <= i < |parts| && Member(v, parts[i])
  }

  ghost predicate Bounded(spec: Spec, lo: int, hi: int) {
    match spec
    case Between(a, b) => lo <= a <= hi && lo <= b <= hi
    case Exactly(v) => lo <= v <= hi
    case OneOf(parts) => forall i :: 0 <= i < |parts| ==> Bounded(parts[i], lo, hi)
    case _ => true
  }

  // ---------------------------------------------------------------- code against grammar, one field

  lemma ReadsNumber(py: Python, s: string, v: nat)
    requires Number(py, s, v)
    ensures IsDigits(py, s) && ParseInt(py, s) == Some(v)
    ensures '-' !in s && ',' !in s && '*' !in s && s != "*" && !StartsWithStep(s)
  {
    DigitsHaveNoSeparators(py, s);
    ParseDigits(py, s);
  }

  lemma DigitsHaveNoSeparators(py: Python, s: string)
    requires IsDigits(py, s)
    ensures '-' !in s && ',' !in s && '*' !in s && s != "*" && !StartsWithStep(s)
  {
    assert IsDigit(py, s[0]);
  }

  lemma RangeMatches(py: Python, field: string, l: string, r: string, a: nat, b: nat, v: int)
    requires field == l + "-" + r && Number(py, l, a) && Number(py, r, b)
    ensures FieldMatches(py, field, v) == Some(a <= v <= b)
  {
    BetweenText(py, field, l, r, a, b);
  }

  lemma StepMatches(py: Python, field: string, d: string, n: nat, v: int)
    requires field == "*/" + d && Number(py, d, n) && n > 0
    ensures FieldMatches(py, field, v) == Some(v % n == 0)
  {
    ReadsNumber(py, d, n);
    assert field[2..] == d;
  }

  lemma AtomMatches(py: Python, field: string, spec: Spec, v: int)
    requires ReadsAtom(py, field, spec)
    ensures FieldMatches(py, field, v) == Some(Member(v, spec))
  {
    match spec
    case Any =>
    case Every(n) =>
      var d :| field == "*/" + d && Number(py, d, n);
      StepMatches(py, field, d, n, v);
    case Between(a, b) =>
      var l, r :| field == l + "-" + r && Number(py, l, a) && Number(py, r, b);
      RangeMatches(py, field, l, r, a, b, v);
    case Exactly(x) => ReadsNumber(py, field, x);
  }

  lemma BetweenText(py: Python, field: string, l: string, r: string, a: nat, b: nat)
    requires field == l + "-" + r && Number(py, l, a) && Number(py, r, b)
    ensures field != "*" && !StartsWithStep(field) && ',' !in field && '-' in field
    ensures IndexOf(field, '-') == |l| && field[..|l|] == l && field[|l| + 1..] == r
    ensures IsDigits(py, l) && IsDigits(py, r) && ParseInt(py, l) == Some(a) && ParseInt(py, r) == Some(b)
  {
    ReadsNumber(py, l, a);
    ReadsNumber(py, r, b);
    RangeText(py, field, l, r);
  }

  lemma RangeText(py: Python, field: string, l: string, r: string)
    requires field == l + "-" + r && IsDigits(py, l) && IsDigits(py, r)
    ensures field != "*" && !StartsWithStep(field) && ',' !in field && '-' in field
    ensures IndexOf(field, '-') == |l| && field[..|l|] == l && field[|l| + 1..] == r
  {
    DigitsHaveNoSeparators(py, l);
    DigitsHaveNoSeparators(py, r);
    IndexOfSeparator(l, r, '-');
    assert field[0] == l[0] && IsDigit(py, l[0]);
    assert field[|l|] == '-';
  }

  /** All digits for `isdigit`, and no number for `int`. */
  ghost predicate Unreadable(py: Python, s: string) {
    IsDigits(py, s) && !Plain(py, s)
  }

  lemma NumberVerdict(py: Python, s: string, lo: int, hi: int)
    ensures ValidateNumber(py, s, lo, hi) == Raises <==> Unreadable(py, s)
    ensures ValidateNumber(py, s, lo, hi) == Accepted <==> Plain(py, s) && lo <= DecimalValue(py, s) <= hi
  {
    if IsDigits(py, s) {
      ParseDigits(py, s);
    }
  }

  lemma StepVerdict(py: Python, s: string)
    ensures ValidateStep(py, s) == Raises <==> Unreadable(py, s)
    ensures ValidateStep(py, s) == Accepted <==> Plain(py, s) && DecimalValue(py, s) > 0
  {
    if IsDigits(py, s) {
      ParseDigits(py, s);
    }
  }

  lemma RangeVerdict(py: Python, l: string, r: string, lo: int, hi: int)
    ensures ValidateRange(py, l, r, lo, hi) == Raises <==>
      IsDigits(py, l) && IsDigits(py, r) && (Unreadable(py, l) || Unreadable(py, r))
    ensures ValidateRange(py, l, r, lo, hi) == Accepted <==>
      Plain(py, l) && Plain(py, r) && lo <= DecimalValue(py, l) <= DecimalValue(py, r) <= hi
  {
    if IsDigits(py, l) && IsDigits(py, r) {
      ParseDigits(py, l);
      ParseDigits(py, r);
    }
  }

  lemma RangeField(py: Python, field: string, l: string, r: string, lo: int, hi: int)
    requires field == l + "-" + r && IsDigits(py, l) && IsDigits(py, r)
    ensures Validate(py, field, lo, hi) == ValidateRange(py, l, r, lo, hi)
  {
    RangeText(py, field, l, r);
  }

  lemma NumberField(py: Python, field: string, lo: int, hi: int)
    requires IsDigits(py, field)
    ensures Validate(py, field, lo, hi) == ValidateNumber(py, field, lo, hi)
  {
    DigitsHaveNoSeparators(py, field);
  }

  lemma AtomValid(py: Python, field: string, spec: Spec, lo: int, hi: int)
    requires ReadsAtom(py, field, spec) && Bounded(spec, lo, hi)
    ensures ValidField(py, field, lo, hi)
  {
    match spec
    case Any =>
    case Every(n) =>
      var d :| field == "*/" + d && Number(py, d, n);
      StepVerdict(py, d);
      assert field[2..] == d;
    case Between(a, b) =>
      var l, r :| field == l + "-" + r && Number(py, l, a) && Number(py, r, b);
      RangeField(py, field, l, r, lo, hi);
      RangeVerdict(py, l, r, lo, hi);
    case Exactly(x) =>
      NumberField(py, field, lo, hi);
      NumberVerdict(py, field, lo, hi);
  }

  lemma CutAtDash(field: string) returns (l: string, r: string)
    requires '-' in field
    ensures field == l + "-" + r && l == field[..IndexOf(field, '-')] && r == field[IndexOf(field, '-') + 1..]
  {
    var i := IndexOf(field, '-');
    CutAround(field, i);
    l, r := field[..i], field[i + 1..];
  }

  lemma ValidRange(py: Python, field: string, l: string, r: string, lo: int, hi: int) returns (spec: Spec)
    requires field == l + "-" + r && ValidateRange(py, l, r, lo, hi) == Accepted
    ensures ReadsAtom(py, field, spec) && Bounded(spec, lo, hi) && spec.Between?
  {
    RangeVerdict(py, l, r, lo, hi);
    spec := Between(DecimalValue(py, l), DecimalValue(py, r));
    assert Number(py, l, spec.first) && Number(py, r, spec.last);
  }

  lemma ValidStep(py: Python, field: string, lo: int, hi: int) returns (spec: Spec)
    requires StartsWithStep(field) && ValidateStep(py, field[2..]) == Accepted
    ensures ReadsAtom(py, field, spec) && Bounded(spec, lo, hi) && spec.Every?
  {
    var d := field[2..];
    StepVerdict(py, d);
    spec := Every(DecimalValue(py, d));
    assert field == "*/" + d && Number(py, d, spec.step);
  }

  /** An accepted entry without commas is an entry of the grammar, within bounds. */
  lemma ValidAtom(py: Python, field: string, lo: int, hi: int) returns (spec: Spec)
    requires ',' !in field && ValidField(py, field, lo, hi)
    ensures ReadsAtom(py, field, spec) && Bounded(spec, lo, hi) && !spec.OneOf?
  {
    if field == "*" {
      spec := Any;
    } else if StartsWithStep(field) {
      spec := ValidStep(py, field, lo, hi);
    } else if '-' in field {
      var l, r := CutAtDash(field);
      spec := ValidRange(py, field, l, r, lo, hi);
    } else {
      NumberVerdict(py, field, lo, hi);
      spec := Exactly(DecimalValue(py, field));
    }
  }

  // ---------------------------------------------------------------- lists

  lemma {:induction false} AnyMatchesMembers(py: Python, field: string, parts: seq<string>, specs: seq<Spec>, v: int)
    requires forall i :: 0 <= i < |parts| ==> |parts[i]| < |field|
    requires |parts| == |specs| && forall i :: 0 <= i < |parts| ==> ReadsAtom(py, Trim(py, parts[i]), specs[i])
    ensures AnyMatches(py, field, parts, v) == Some(exists i :: 0 <= i < |specs| && Member(v, specs[i]))
    decreases |parts|
  {
    if parts != [] {
      AtomMatches(py, Trim(py, parts[0]), specs[0], v);
      AnyMatchesMembers(py, field, parts[1..], specs[1..], v);
      if Member(v, specs[0]) {
      } else if exists i :: 0 <= i < |specs| && Member(v, specs[i]) {
        var i :| 0 <= i < |specs| && Member(v, specs[i]);
        assert specs[1..][i - 1] == specs[i];
      }
    }
  }

  /** The first verdict that is not acceptance decides. */
  function First(verdicts: seq<Verdict>): Verdict {
    if verdicts == [] then Accepted
    else if verdicts[0] != Accepted then verdicts[0]
    else First(verdicts[1..])
  }

  ghost predicate DecidedAt(verdicts: seq<Verdict>, i: nat, verdict: Verdict)
    requires i < |verdicts|
  {
    verdicts[i] == verdict && forall j :: 0 <= j < i ==> verdicts[j] == Accepted
  }

  lemma {:induction false} FirstDecides(verdicts: seq<Verdict>)
    ensures First(verdicts) == Accepted <==> forall i :: 0 <= i < |verdicts| ==> verdicts[i] == Accepted
    ensures First(verdicts) == Raises <==> exists i :: 0 <= i < |verdicts| && DecidedAt(verdicts, i, Raises)
    decreases |verdicts|
  {
    if verdicts != [] && verdicts[0] == Accepted {
      var rest := verdicts[1..];
      FirstDecides(rest);
      assert forall i :: 0 <= i < |rest| ==> rest[i] == verdicts[i + 1];
      if First(verdicts) == Raises {
        var i :| 0 <= i < |rest| && DecidedAt(rest, i, Raises);
        assert DecidedAt(verdicts, i + 1, Raises) by {
          assert forall j :: 0 < j < i + 1 ==> verdicts[j] == rest[j - 1];
        }
      }
      forall i | 0 <= i < |verdicts| && DecidedAt(verdicts, i, Raises)
        ensures First(verdicts) == Raises
      {
        assert i > 0 && DecidedAt(rest, i - 1, Raises);
      }
      assert (forall i :: 0 <= i < |verdicts| ==> verdicts[i] == Accepted) ==>
        forall i :: 0 <= i < |rest| ==> rest[i] == Accepted;
    } else if verdicts != [] {
      assert verdicts[0] == Raises ==> DecidedAt(verdicts, 0, Raises);
    }
  }

  function Verdicts(py: Python, parts: seq<string>, lo: int, hi: int): seq<Verdict> {
    seq(|parts|, i requires 0 <= i < |parts| => Validate(py, Trim(py, parts[i]), lo, hi))
  }

  lemma {:induction false} PartsDecide(py: Python, field: string, parts: seq<string>, lo: int, hi: int)
    requires forall i :: 0 <= i < |parts| ==> |parts[i]| < |field|
    ensures ValidateAll(py, field, parts, lo, hi) == First(Verdicts(py, parts, lo, hi))
    decreases |parts|
  {
    if parts != [] {
      PartsDecide(py, field, parts[1..], lo, hi);
      assert Verdicts(py, parts, lo, hi)[1..] == Verdicts(py, parts[1..], lo, hi);
    }
  }

  lemma ListIsNotAtom(py: Python, field: string, parts: seq<string>, specs: seq<Spec>)
    requires ReadsList(py, field, parts, specs)
    ensures field != "*" && ',' in field && SplitCommas(field) == parts
  {
    SplitInvertsJoin(parts);
  }

  lemma ListMatches(py: Python, field: string, parts: seq<string>, specs: seq<Spec>, v: int)
    requires ReadsList(py, field, parts, specs)
    ensures FieldMatches(py, field, v) == Some(exists i :: 0 <= i < |specs| && Member(v, specs[i]))
  {
    ListIsNotAtom(py, field, parts, specs);
    assert FieldMatches(py, field, v) == AnyMatches(py, field, parts, v);
    AnyMatchesMembers(py, field, parts, specs, v);
  }

  /** Whatever the grammar reads, the matcher evaluates without an exception, to membership. */
  lemma FieldMatchesMeaning(py: Python, field: string, spec: Spec, v: int)
    requires Reads(py, field, spec)
    ensures FieldMatches(py, field, v) == Some(Member(v, spec))
  {
    if ReadsAtom(py, field, spec) {
      AtomMatches(py, field, spec, v);
    } else {
      var parts :| ReadsList(py, field, parts, spec.parts);
      ListMatches(py, field, parts, spec.parts, v);
    }
  }

  lemma ListValid(py: Python, field: string, parts: seq<string>, specs: seq<Spec>, lo: int, hi: int)
    requires ReadsList(py, field, parts, specs) && Bounded(OneOf(specs), lo, hi)
    ensures ValidField(py, field, lo, hi)
  {
    ListIsNotAtom(py, field, parts, specs);
    forall i | 0 <= i < |parts|
      ensures Verdicts(py, parts, lo, hi)[i] == Accepted
    {
      AtomValid(py, Trim(py, parts[i]), specs[i], lo, hi);
    }
    PartsDecide(py, field, parts, lo, hi);
    FirstDecides(Verdicts(py, parts, lo, hi));
  }

  /** The validator accepts exactly the fields that read as a bounded entry of the grammar. */
  lemma ValidFieldIff(py: Python, field: string, lo: int, hi: int)
    ensures ValidField(py, field, lo, hi) <==> exists spec :: Reads(py, field, spec) && Bounded(spec, lo, hi)
  {
    if ValidField(py, field, lo, hi) {
      var spec := ValidFieldReads(py, field, lo, hi);
    }
    forall spec | Reads(py, field, spec) && Bounded(spec, lo, hi)
      ensures ValidField(py, field, lo, hi)
    {
      if ReadsAtom(py, field, spec) {
        AtomValid(py, field, spec, lo, hi);
      } else {
        var parts :| ReadsList(py, field, parts, spec.parts);
        ListValid(py, field, parts, spec.parts, lo, hi);
      }
    }
  }

  lemma AllPartsValid(py: Python, parts: seq<string>, lo: int, hi: int)
    requires var vs := Verdicts(py, parts, lo, hi); forall i :: 0 <= i < |vs| ==> vs[i] == Accepted
    ensures forall i :: 0 <= i < |parts| ==> ValidField(py, Trim(py, parts[i]), lo, hi)
  {
    forall i | 0 <= i < |parts|
      ensures ValidField(py, Trim(py, parts[i]), lo, hi)
    {
      assert Verdicts(py, parts, lo, hi)[i] == Accepted;
    }
  }

  lemma ValidFieldReads(py: Python, field: string, lo: int, hi: int) returns (spec: Spec)
    requires ValidField(py, field, lo, hi)
    ensures Reads(py, field, spec) && Bounded(spec, lo, hi)
  {
    if ',' !in field {
      spec := ValidAtom(py, field, lo, hi);
    } else {
      StepHasNoComma(py, field, lo, hi);
      var parts := SplitCommas(field);
      PartsDecide(py, field, parts, lo, hi);
      FirstDecides(Verdicts(py, parts, lo, hi));
      AllPartsValid(py, parts, lo, hi);
      var specs := ValidParts(py, parts, lo, hi);
      JoinInvertsSplit(field);
      assert ReadsList(py, field, parts, specs);
      spec := OneOf(specs);
    }
  }

  lemma StepHasNoComma(py: Python, field: string, lo: int, hi: int)
    requires ',' in field && ValidField(py, field, lo, hi)
    ensures field != "*" && !StartsWithStep(field)
  {
    if |field| >= 2 {
      assert forall i :: 2 <= i < |field| ==> field[i] == field[2..][i - 2];
    }
  }

  lemma {:induction false} ValidParts(py: Python, parts: seq<string>, lo: int, hi: int) returns (specs: seq<Spec>)
    requires forall i :: 0 <= i < |parts| ==> ',' !in parts[i] && ValidField(py, Trim(py, parts[i]), lo, hi)
    ensures |specs| == |parts|
    ensures forall i :: 0 <= i < |parts| ==> ReadsAtom(py, Trim(py, parts[i]), specs[i]) && Bounded(specs[i], lo, hi)
    decreases |parts|
  {
    if parts == [] {
      specs := [];
    } else {
      TrimKeeps(py, parts[0], ',');
      var first := ValidAtom(py, Trim(py, parts[0]), lo, hi);
      var rest := ValidParts(py, parts[1..], lo, hi);
      specs := [first] + rest;
    }
  }

  // ---------------------------------------------------------------- whole expressions

  /** Five bounded entries: what an accepted expression says. */
  ghost predicate ExpressionReads(py: Python, expr: string, specs: seq<Spec>) {
    && |specs| == 5 && |Words(py, Trim(py, expr))| == 5
    && forall i :: 0 <= i < 5 ==> Reads(py, Words(py, Trim(py, expr))[i], specs[i])
  }

  /** Minutes, hours, days, months and weekdays within their ranges. */
  ghost predicate AllBounded(specs: seq<Spec>)
    requires |specs| == 5
  {
    && Bounded(specs[0], 0, 59) && Bounded(specs[1], 0, 23)
    && Bounded(specs[2], 1, 31) && Bounded(specs[3], 1, 12) && Bounded(specs[4], 0, 6)
  }

  /** An unrestricted day field defers to the other; two restricted ones are alternatives. */
  ghost predicate DayMatches(dom: Spec, dow: Spec, t: Instant) {
    var onDay := Member(t.day, dom);
    var onWeekday := Member((t.weekday + 1) % 7, dow);
    if dom == Any then dow == Any || onWeekday
    else if dow == Any then onDay
    else onDay || onWeekday
  }

  ghost predicate Fires(specs: seq<Spec>, t: Instant)
    requires |specs| == 5
  {
    && Member(t.minute, specs[0]) && Member(t.hour, specs[1]) && Member(t.month, specs[3])
    && DayMatches(specs[2], specs[4], t)
  }

  lemma StarIsAny(py: Python, field: string, spec: Spec)
    requires Reads(py, field, spec)
    ensures field == "*" <==> spec == Any
  {
    if field == "*" && spec != Any {
      match spec
      case Exactly(v) => ReadsNumber(py, field, v);
      case OneOf(specs) =>
        var parts :| ReadsList(py, field, parts, specs);
        ListIsNotAtom(py, field, parts, specs);
      case _ =>
    }
  }

  lemma ExpressionFires(py: Python, expr: string, specs: seq<Spec>, t: Instant)
    requires ExpressionReads(py, expr, specs)
    ensures Matches(py, expr, t) == Some(Fires(specs, t))
  {
    var fields := Words(py, Trim(py, expr));
    FieldMatchesMeaning(py, fields[0], specs[0], t.minute);
    FieldMatchesMeaning(py, fields[1], specs[1], t.hour);
    FieldMatchesMeaning(py, fields[2], specs[2], t.day);
    FieldMatchesMeaning(py, fields[3], specs[3], t.month);
    FieldMatchesMeaning(py, fields[4], specs[4], (t.weekday + 1) % 7);
    StarIsAny(py, fields[2], specs[2]);
    StarIsAny(py, fields[4], specs[4]);
  }

  function FieldVerdicts(py: Python, fields: seq<string>): seq<Verdict>
    requires |fields| == 5
  {
    seq(5, i requires 0 <= i < 5 => Validate(py, fields[i], LOWS[i], HIGHS[i]))
  }

  lemma {:induction false} FieldsDecide(py: Python, fields: seq<string>, i: nat)
    requires |fields| == 5 && i <= 5
    ensures ValidateFrom(py, fields, i) == First(FieldVerdicts(py, fields)[i..])
    decreases 5 - i
  {
    if i < 5 {
      FieldsDecide(py, fields, i + 1);
      assert FieldVerdicts(py, fields)[i..][1..] == FieldVerdicts(py, fields)[i + 1..];
    }
  }

  /** Acceptance and exceptions of the whole, from those of the fields. */
  lemma ExpressionVerdict(py: Python, expr: string)
    requires |Words(py, Trim(py, expr))| == 5
    ensures var vs := FieldVerdicts(py, Words(py, Trim(py, expr)));
      && (ValidateExpression(py, expr) == Accepted <==> forall i :: 0 <= i < 5 ==> vs[i] == Accepted)
      && (ValidateExpression(py, expr) == Raises <==> exists i :: 0 <= i < 5 && DecidedAt(vs, i, Raises))
  {
    var vs := FieldVerdicts(py, Words(py, Trim(py, expr)));
    FieldsDecide(py, Words(py, Trim(py, expr)), 0);
    assert vs[0..] == vs;
    FirstDecides(vs);
  }

  lemma ValidExpressionReads(py: Python, expr: string) returns (specs: seq<Spec>)
    requires ValidateExpression(py, expr) == Accepted
    ensures ExpressionReads(py, expr, specs) && AllBounded(specs)
  {
    var fields := Words(py, Trim(py, expr));
    ExpressionVerdict(py, expr);
    specs := [];
    for i := 0 to 5
      invariant |specs| == i
      invariant forall k :: 0 <= k < i ==> Reads(py, fields[k], specs[k]) && Bounded(specs[k], LOWS[k], HIGHS[k])
    {
      assert FieldVerdicts(py, fields)[i] == Accepted;
      var spec := ValidFieldReads(py, fields[i], LOWS[i], HIGHS[i]);
      specs := specs + [spec];
    }
  }

  lemma BoundedExpressionIsValid(py: Python, expr: string, specs: seq<Spec>)
    requires ExpressionReads(py, expr, specs) && AllBounded(specs)
    ensures ValidateExpression(py, expr) == Accepted
  {
    var fields := Words(py, Trim(py, expr));
    forall i | 0 <= i < 5
      ensures FieldVerdicts(py, fields)[i] == Accepted
    {
      ValidFieldIff(py, fields[i], LOWS[i], HIGHS[i]);
    }
    ExpressionVerdict(py, expr);
  }

  /** Other than five fields are refused and never fire. */
  lemma FiveFields(py: Python, expr: string, t: Instant)
    requires |Words(py, Trim(py, expr))| != 5
    ensures ValidateExpression(py, expr) == Refused && Matches(py, expr, t) == Some(false)
  {
  }

  /**
   Validator and matcher agree with the grammar on every expression: acceptance is exactly having five
   bounded entries, and an expression of the grammar never raises and fires exactly at the instants it
   denotes.
   */
  lemma AcceptedExpressionsFire(py: Python, expr: string, t: Instant)
    ensures ValidateExpression(py, expr) == Accepted <==>
      exists specs :: ExpressionReads(py, expr, specs) && AllBounded(specs)
    ensures forall specs :: ExpressionReads(py, expr, specs) ==> Matches(py, expr, t) == Some(Fires(specs, t))
  {
    if ValidateExpression(py, expr) == Accepted {
      var specs := ValidExpressionReads(py, expr);
    }
    forall specs | ExpressionReads(py, expr, specs)
      ensures Matches(py, expr, t) == Some(Fires(specs, t))
      ensures AllBounded(specs) ==> ValidateExpression(py, expr) == Accepted
    {
      ExpressionFires(py, expr, specs, t);
      if AllBounded(specs) {
        BoundedExpressionIsValid(py, expr, specs);
      }
    }
  }

  // ---------------------------------------------------------------- where the validator raises

  ghost predicate UnreadableStep(py: Python, field: string) {
    exists d: string :: field == "*/" + d && Unreadable(py, d)
  }

  ghost predicate UnreadableEnds(py: Python, l: string, r: string) {
    IsDigits(py, l) && IsDigits(py, r) && (Unreadable(py, l) || Unreadable(py, r))
  }

  ghost predicate UnreadableRange(py: Python, field: string) {
    exists l: string, r: string :: UnreadableEnds(py, l, r) && field == l + "-" + r
  }

  ghost predicate UnreadableAtom(py: Python, field: string) {
    UnreadableStep(py, field) || UnreadableRange(py, field) || Unreadable(py, field)
  }

  lemma OnlyStep(py: Python, field: string)
    requires StartsWithStep(field)
    ensures !UnreadableRange(py, field) && !Unreadable(py, field)
  {
    if UnreadableRange(py, field) {
      var l, r :| UnreadableEnds(py, l, r) && field == l + "-" + r;
      RangeText(py, field, l, r);
    }
    if IsDigits(py, field) {
      DigitsHaveNoSeparators(py, field);
    }
  }

  lemma StepRaisesIff(py: Python, field: string, lo: int, hi: int)
    requires StartsWithStep(field)
    ensures Validate(py, field, lo, hi) == Raises <==> UnreadableAtom(py, field)
  {
    var d := field[2..];
    assert field == "*/" + d;
    StepVerdict(py, d);
    OnlyStep(py, field);
    if UnreadableStep(py, field) {
      var e :| field == "*/" + e && Unreadable(py, e);
      assert d == e;
    }
  }

  lemma RangeRaisesIff(py: Python, field: string, lo: int, hi: int)
    requires ',' !in field && '-' in field && !StartsWithStep(field)
    ensures Validate(py, field, lo, hi) == Raises <==> UnreadableRange(py, field)
  {
    if Validate(py, field, lo, hi) == Raises {
      var l, r := CutAtDash(field);
      RangeVerdict(py, l, r, lo, hi);
      assert UnreadableEnds(py, l, r);
    }
    if UnreadableRange(py, field) {
      var l, r :| UnreadableEnds(py, l, r) && field == l + "-" + r;
      RangeField(py, field, l, r, lo, hi);
      RangeVerdict(py, l, r, lo, hi);
    }
  }

  lemma RangesHaveDashes(py: Python, field: string)
    ensures UnreadableRange(py, field) ==> '-' in field && !IsDigits(py, field)
  {
    if UnreadableRange(py, field) {
      var l, r :| UnreadableEnds(py, l, r) && field == l + "-" + r;
      RangeText(py, field, l, r);
      if IsDigits(py, field) {
        DigitsHaveNoSeparators(py, field);
      }
    }
  }

  lemma AtomRaisesIff(py: Python, field: string, lo: int, hi: int)
    requires ',' !in field
    ensures Validate(py, field, lo, hi) == Raises <==> UnreadableAtom(py, field)
  {
    if IsDigits(py, field) {
      DigitsHaveNoSeparators(py, field);
    }
    if StartsWithStep(field) {
      StepRaisesIff(py, field, lo, hi);
    } else if '-' in field {
      RangeRaisesIff(py, field, lo, hi);
    } else {
      NumberVerdict(py, field, lo, hi);
      RangesHaveDashes(py, field);
    }
  }

  ghost predicate ListRaises(py: Python, parts: seq<string>, lo: int, hi: int) {
    exists i :: 0 <= i < |parts| && UnreadableAtom(py, Trim(py, parts[i])) && AcceptedBefore(py, parts, lo, hi, i)
  }

  ghost predicate AcceptedBefore(py: Python, parts: seq<string>, lo: int, hi: int, i: nat) {
    forall j :: 0 <= j < i && j < |parts| ==> ValidField(py, Trim(py, parts[j]), lo, hi)
  }

  ghost predicate FieldRaises(py: Python, field: string, lo: int, hi: int) {
    if ',' !in field then UnreadableAtom(py, field)
    else !StartsWithStep(field) && ListRaises(py, SplitCommas(field), lo, hi)
  }

  /**
   The validator raises instead of answering exactly on a number that is all digits and that `int`
   refuses; in a list, when every entry before it is accepted.
   */
  lemma ValidateRaisesIff(py: Python, field: string, lo: int, hi: int)
    ensures Validate(py, field, lo, hi) == Raises <==> FieldRaises(py, field, lo, hi)
  {
    if ',' !in field {
      AtomRaisesIff(py, field, lo, hi);
    } else if StartsWithStep(field) {
      StepRaisesIff(py, field, lo, hi);
      StepWithComma(py, field);
    } else {
      var parts := SplitCommas(field);
      PartsDecide(py, field, parts, lo, hi);
      FirstDecides(Verdicts(py, parts, lo, hi));
      ListRaisesIff(py, parts, lo, hi);
    }
  }

  lemma ListRaisesIff(py: Python, parts: seq<string>, lo: int, hi: int)
    requires forall i :: 0 <= i < |parts| ==> ',' !in parts[i]
    ensures ListRaises(py, parts, lo, hi) <==>
      exists i :: 0 <= i < |Verdicts(py, parts, lo, hi)| && DecidedAt(Verdicts(py, parts, lo, hi), i, Raises)
  {
    forall i | 0 <= i < |parts|
      ensures DecidedAt(Verdicts(py, parts, lo, hi), i, Raises) <==>
        UnreadableAtom(py, Trim(py, parts[i])) && AcceptedBefore(py, parts, lo, hi, i)
    {
      PartRaisesIff(py, parts, lo, hi, i);
    }
  }

  lemma PartRaisesIff(py: Python, parts: seq<string>, lo: int, hi: int, i: nat)
    requires i < |parts| && ',' !in parts[i]
    ensures DecidedAt(Verdicts(py, parts, lo, hi), i, Raises) <==>
      UnreadableAtom(py, Trim(py, parts[i])) && AcceptedBefore(py, parts, lo, hi, i)
  {
    TrimKeeps(py, parts[i], ',');
    AtomRaisesIff(py, Trim(py, parts[i]), lo, hi);
    var vs := Verdicts(py, parts, lo, hi);
    assert forall j :: 0 <= j < |parts| ==> vs[j] == Validate(py, Trim(py, parts[j]), lo, hi);
  }

  lemma StepWithComma(py: Python, field: string)
    requires StartsWithStep(field) && ',' in field
    ensures !UnreadableAtom(py, field)
  {
    OnlyStep(py, field);
    if UnreadableStep(py, field) {
      var d :| field == "*/" + d && Unreadable(py, d);
      DigitsHaveNoSeparators(py, d);
    }
  }

  /** It does raise: on a superscript digit, and on a text of more zeros than `int` converts. */
  lemma ValidatorRaises(py: Python, c: char, lo: int, hi: int)
    ensures c in py.otherDigits ==> Validate(py, [c], lo, hi) == Raises
    ensures py.maxDigits.Some? ==>
      Validate(py, seq(py.maxDigits.value + 1, i => '0'), lo, hi) == Raises
  {
    if c in py.otherDigits {
      assert !IsDecimal(py, [c][0]) && Unreadable(py, [c]);
      ValidateRaisesIff(py, [c], lo, hi);
    }
    if py.maxDigits.Some? {
      var zeros: string := seq(py.maxDigits.value + 1, i => '0');
      assert Unreadable(py, zeros);
      DigitsHaveNoSeparators(py, zeros);
      ValidateRaisesIff(py, zeros, lo, hi);
    }
  }

  // ---------------------------------------------------------------- whole expressions that raise

  /** One of five fields raises, and those before it are bounded entries of the grammar. */
  ghost predicate ExpressionRaises(py: Python, fields: seq<string>, i: nat)
    requires |fields| == 5 && i < 5
  {
    && FieldRaises(py, fields[i], LOWS[i], HIGHS[i])
    && forall j :: 0 <= j < i ==> ReadsBounded(py, fields[j], LOWS[j], HIGHS[j])
  }

  ghost predicate ReadsBounded(py: Python, field: string, lo: int, hi: int) {
    exists spec :: Reads(py, field, spec) && Bounded(spec, lo, hi)
  }

  lemma DecidedIff(py: Python, fields: seq<string>, i: nat)
    requires |fields| == 5 && i < 5
    ensures DecidedAt(FieldVerdicts(py, fields), i, Raises) <==> ExpressionRaises(py, fields, i)
  {
    ValidateRaisesIff(py, fields[i], LOWS[i], HIGHS[i]);
    forall j | 0 <= j < i
      ensures FieldVerdicts(py, fields)[j] == Accepted <==> ReadsBounded(py, fields[j], LOWS[j], HIGHS[j])
    {
      ValidFieldIff(py, fields[j], LOWS[j], HIGHS[j]);
    }
  }

  /** The validator raises on an expression exactly when it comes to a field that raises. */
  lemma ExpressionRaisesIff(py: Python, expr: string)
    ensures var fields := Words(py, Trim(py, expr));
      ValidateExpression(py, expr) == Raises <==>
        |fields| == 5 && exists i :: 0 <= i < 5 && ExpressionRaises(py, fields, i)
  {
    var fields := Words(py, Trim(py, expr));
    if |fields| == 5 {
      ExpressionVerdict(py, expr);
      forall i | 0 <= i < 5
        ensures DecidedAt(FieldVerdicts(py, fields), i, Raises) <==> ExpressionRaises(py, fields, i)
      {
        DecidedIff(py, fields, i);
      }
    }
  }

  lemma WordsSkip(py: Python, s: string)
    ensures Words(py, " " + s) == Words(py, s)
  {
    assert (" " + s)[1..] == s;
  }

  /** The text of `n` unrestricted fields, each after a blank. */
  function Stars(n: nat): string {
    if n == 0 then "" else " " + ("*" + Stars(n - 1))
  }

  lemma {:induction false} StarsEnd(n: nat)
    ensures n > 0 ==> Stars(n) != "" && Stars(n)[0] == ' ' && Stars(n)[|Stars(n)| - 1] == '*'
  {
    if n > 1 {
      StarsEnd(n - 1);
    }
  }

  lemma StarStep(py: Python, rest: string)
    requires rest == "" || rest[0] in Spaces(py)
    ensures |Words(py, " " + ("*" + rest))| == 1 + |Words(py, rest)|
  {
    WordsSkip(py, "*" + rest);
    WordsStep(py, "*", rest);
  }

  lemma {:induction false} StarsAreWords(py: Python, n: nat)
    ensures |Words(py, Stars(n))| == n
  {
    if n > 0 {
      StarsAreWords(py, n - 1);
      StarsEnd(n - 1);
      assert n > 1 ==> Stars(n - 1)[0] in Spaces(py);
      StarStep(py, Stars(n - 1));
    }
  }

  /** With a superscript digit for the minute and four unrestricted fields the whole call raises. */
  lemma DigitExpressionRaises(py: Python, c: char)
    requires c in py.otherDigits
    ensures ValidateExpression(py, [c] + Stars(4)) == Raises
  {
    var expr := [c] + Stars(4);
    StarsEnd(4);
    assert c !in Spaces(py) && '*' !in Spaces(py);
    assert expr[0] == c && expr[|expr| - 1] == '*';
    assert Trim(py, expr) == expr;
    WordsStep(py, [c], Stars(4));
    StarsAreWords(py, 4);
    ValidatorRaises(py, c, LOWS[0], HIGHS[0]);
  }
}
