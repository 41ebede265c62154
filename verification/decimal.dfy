/** The decimal-amount pattern `^\d+(\.\d{1,2})?$` used for order totals and
    payment amounts: one or more ASCII digits, optionally a point followed by one
    or two ASCII digits, and nothing else. */
module Decimal {
  import opened Text

  /** The pattern read as a property of the string: the whole string is an
      integer part, or an integer part, a point and a fraction of one or two digits. */
  ghost predicate MatchesAmountPattern(s: string) {
    (|s| >= 1 && AllDigits(s))
    || exists k :: 1 <= k < |s| && s[k] == '.' && AllDigits(s[..k])
                   && 1 <= |s| - k - 1 <= 2 && AllDigits(s[k + 1..])
  }

  /** States of the matcher, named after what has been read so far. */
  datatype MatchState =
    | Start     // nothing
    | Whole     // one or more digits
    | Point     // digits and a point
    | Frac1     // digits, a point, one digit
    | Frac2     // digits, a point, two digits
    | Rejected  // a prefix no match can extend

  function Step(st: MatchState, c: char): MatchState {
    match st
    case Start => if IsDigit(c) then Whole else Rejected
    case Whole => if IsDigit(c) then Whole else if c == '.' then Point else Rejected
    case Point => if IsDigit(c) then Frac1 else Rejected
    case Frac1 => if IsDigit(c) then Frac2 else Rejected
    case Frac2 => Rejected
    case Rejected => Rejected
  }

  /** The state after reading `s` from the left. */
  function Run(s: string): MatchState {
    if s == [] then Start else Step(Run(s[..|s| - 1]), s[|s| - 1])
  }

  /** The validator: the string is accepted when the matcher ends after a
      complete integer part or a complete fraction. */
  function IsDecimalAmount(s: string): bool {
    Run(s) in {Whole, Frac1, Frac2}
  }

  /** What each state of the matcher means about the text read so far. */
  ghost predicate Reached(st: MatchState, s: string) {
    match st
    case Start => s == []
    case Whole => |s| >= 1 && AllDigits(s)
    case Point => |s| >= 2 && s[|s| - 1] == '.' && AllDigits(s[..|s| - 1])
    case Frac1 => |s| >= 3 && s[|s| - 2] == '.' && AllDigits(s[..|s| - 2]) && IsDigit(s[|s| - 1])
    case Frac2 => |s| >= 4 && s[|s| - 3] == '.' && AllDigits(s[..|s| - 3])
                  && IsDigit(s[|s| - 2]) && IsDigit(s[|s| - 1])
    case Rejected => true
  }

  /** The matcher is in state `st` after `s` exactly when `s` is of the shape `st` names
      (the rejecting state aside, which collects every other string). */
  lemma {:induction false} RunReaches(s: string)
    ensures Reached(Run(s), s)
    ensures forall st :: st != Rejected && Reached(st, s) ==> Run(s) == st
    decreases |s|
  {
    if s != [] {
      var p, c := s[..|s| - 1], s[|s| - 1];
      RunReaches(p);
      assert s == p + [c];
      forall st | st != Rejected && Reached(st, s) ensures Run(s) == st {
        match st
        case Start =>
        case Whole =>
          if |p| >= 1 { assert Reached(Whole, p); } else { assert Reached(Start, p); }
        case Point =>
          assert p[..|p|] == p;
          assert Reached(Whole, p);
        case Frac1 =>
          assert p[..|p| - 1] == s[..|s| - 2];
          assert Reached(Point, p);
        case Frac2 =>
          assert p[..|p| - 2] == s[..|s| - 3];
          assert Reached(Frac1, p);
      }
      match Run(p)
      case Start =>
      case Whole =>
      case Point =>
        assert s[..|s| - 2] == p[..|p| - 1];
      case Frac1 =>
        assert s[..|s| - 3] == p[..|p| - 2];
      case Frac2 =>
      case Rejected =>
    }
  }

  /** Every string the validator accepts has the pattern's shape. */
  lemma AcceptedMatchesPattern(s: string)
    requires IsDecimalAmount(s)
    ensures MatchesAmountPattern(s)
  {
    RunReaches(s);
    match Run(s)
    case Whole =>
    case Frac1 =>
      var k := |s| - 2;
      assert s[k + 1..] == [s[|s| - 1]];
      assert 1 <= k < |s| && s[k] == '.' && AllDigits(s[..k]) && 1 <= |s| - k - 1 <= 2 && AllDigits(s[k + 1..]);
    case Frac2 =>
      var k := |s| - 3;
      assert s[k + 1..] == [s[|s| - 2], s[|s| - 1]];
      assert 1 <= k < |s| && s[k] == '.' && AllDigits(s[..k]) && 1 <= |s| - k - 1 <= 2 && AllDigits(s[k + 1..]);
  }

  /** Every string of the pattern's shape is accepted. */
  lemma PatternIsAccepted(s: string)
    requires MatchesAmountPattern(s)
    ensures IsDecimalAmount(s)
  {
    RunReaches(s);
    if |s| >= 1 && AllDigits(s) {
      assert Reached(Whole, s);
    } else {
      var k :| 1 <= k < |s| && s[k] == '.' && AllDigits(s[..k])
               && 1 <= |s| - k - 1 <= 2 && AllDigits(s[k + 1..]);
      assert s[k + 1..][0] == s[k + 1];
      if |s| - k - 1 == 1 {
        assert Reached(Frac1, s);
      } else {
        assert s[k + 1..][1] == s[k + 2];
        assert s[..k + 1][..k] == s[..k];
        assert Reached(Frac2, s);
      }
    }
  }

  /** The validator accepts exactly the strings the pattern describes. */
  lemma AmountValidatorMatchesPattern(s: string)
    ensures IsDecimalAmount(s) <==> MatchesAmountPattern(s)
  {
    if IsDecimalAmount(s) {
      AcceptedMatchesPattern(s);
    }
    if MatchesAmountPattern(s) {
      PatternIsAccepted(s);
    }
  }

  /** More than two fractional digits are refused. */
  lemma RejectsThreeFractionDigits(s: string)
    requires |s| >= 5 && s[|s| - 4] == '.'
    ensures !IsDecimalAmount(s)
  {
    RunReaches(s);
    assert s[..|s| - 2][|s| - 4] == s[|s| - 4];
    assert s[..|s| - 3][|s| - 4] == s[|s| - 4];
  }

  /** A point needs digits on both sides, and no other character is accepted. */
  lemma AcceptedStringsAreDigitsAndOnePoint(s: string)
    ensures IsDecimalAmount(s) ==> |s| >= 1 && IsDigit(s[0]) && IsDigit(s[|s| - 1])
    ensures IsDecimalAmount(s) ==> forall i :: 0 <= i < |s| ==> IsDigit(s[i]) || s[i] == '.'
  {
    RunReaches(s);
    match Run(s)
    case Start =>
    case Point =>
    case Rejected =>
    case Whole =>
    case Frac1 =>
      forall i | 0 <= i < |s| ensures IsDigit(s[i]) || s[i] == '.' {
        if i < |s| - 2 { assert s[i] == s[..|s| - 2][i]; }
      }
      assert s[0] == s[..|s| - 2][0];
    case Frac2 =>
      forall i | 0 <= i < |s| ensures IsDigit(s[i]) || s[i] == '.' {
        if i < |s| - 3 { assert s[i] == s[..|s| - 3][i]; }
      }
      assert s[0] == s[..|s| - 3][0];
  }

  /** The boundary cases named by the pattern, decided by the validator. */
  lemma AmountExamples()
    ensures IsDecimalAmount("0") && IsDecimalAmount("10.5") && IsDecimalAmount("12.34")
    ensures !IsDecimalAmount("1.234") && !IsDecimalAmount("1.") && !IsDecimalAmount(".5")
    ensures !IsDecimalAmount("-1") && !IsDecimalAmount(" 1") && !IsDecimalAmount("1,50")
    ensures !IsDecimalAmount("")
  {
    RunReaches("0");
    assert Reached(Whole, "0");
    RunReaches("10.5");
    assert "10.5"[..2] == "10";
    assert Reached(Frac1, "10.5");
    RunReaches("12.34");
    assert "12.34"[..2] == "12";
    assert Reached(Frac2, "12.34");
    RejectsThreeFractionDigits("1.234");
    RunReaches("1.");
    assert "1."[..1] == "1";
    assert Reached(Point, "1.");
    AcceptedStringsAreDigitsAndOnePoint(".5");
    AcceptedStringsAreDigitsAndOnePoint("-1");
    AcceptedStringsAreDigitsAndOnePoint(" 1");
    AcceptedStringsAreDigitsAndOnePoint("1,50");
    assert "1,50"[1] == ',';
  }
}
