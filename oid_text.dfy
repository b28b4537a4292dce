/** The dotted-decimal text form of object identifiers: what
    ParseObjectIdentifier and String of smi/oid.go promise about each other,
    and the parser's edge cases. */
module OidText {
  import opened Decimal
  import opened Wrappers
  import opened Oid

  // ---------------------------------------------------------------------------
  // The parser

  /** The empty text is the empty OID, with no error, although the empty OID
      is not valid. */
  lemma ParseEmpty()
    ensures Parse("") == ParseOutcome([], None)
    ensures !IsValid([])
  {
  }

  /** The parser reports a syntax error exactly on text that is not well
      formed, and then returns no OID. Otherwise the OID is the arcs of the
      text, returned even when Validate rejects them, and the error is
      exactly the verdict of Validate. */
  lemma ParseSyntaxErrorIffMalformed(s: string)
    ensures Parse(s).err.Some? && Parse(s).err.value.Syntax? <==> !WellFormedText(s)
    ensures !WellFormedText(s) ==> Parse(s).oid == []
    ensures s != [] && WellFormedText(s) ==>
      Parse(s).oid == Arcs(s) && Parse(s).err == FromValidation(Validate(Parse(s).oid))
  {
    NoSyntaxErrorIffWellFormed(s);
  }

  /** The position of the first syntax error at or after i. */
  lemma {:induction false} FirstSyntaxErrorPosition(s: string, i: nat) returns (p: nat)
    requires i <= |s| && FirstSyntaxError(s, i).Some?
    decreases |s| - i
    ensures i <= p < |s| && CharError(s, p) == FirstSyntaxError(s, i)
    ensures forall k | i <= k < p :: CharError(s, k).None?
  {
    if CharError(s, i).Some? {
      p := i;
    } else {
      p := FirstSyntaxErrorPosition(s, i + 1);
    }
  }

  /** Every character before position p is accepted by the scan: a digit, or
      a period that neither follows a period nor ends the text. */
  predicate CleanBefore(s: string, p: nat)
    requires p <= |s|
  {
    forall k | 0 <= k < p ::
      IsDigit(s[k]) || (s[k] == '.' && (k == 0 || s[k - 1] != '.') && k != |s| - 1)
  }

  /** Each syntax error describes the first offending character: an invalid
      character carries its own 0-based position and value; consecutive
      periods and a trailing period are found where the text has them. */
  lemma ParseSyntaxErrorIsFirst(s: string)
    ensures match Parse(s).err
      case Some(Syntax(InvalidCharacter(p, c))) =>
        p < |s| && s[p] == c && !IsDigit(c) && c != '.' && CleanBefore(s, p)
      case Some(Syntax(ConsecutivePeriods)) =>
        exists p | 0 < p < |s| :: s[p] == '.' && s[p - 1] == '.' && CleanBefore(s, p)
      case Some(Syntax(EndsWithPeriod)) =>
        |s| >= 1 && s[|s| - 1] == '.' && (|s| == 1 || s[|s| - 2] != '.') && CleanBefore(s, |s| - 1)
      case _ => true
  {
    if s != [] && FirstSyntaxError(s, 0).Some? {
      var p := FirstSyntaxErrorPosition(s, 0);
      forall k | 0 <= k < p
        ensures IsDigit(s[k]) || (s[k] == '.' && (k == 0 || s[k - 1] != '.') && k != |s| - 1)
      {
        assert CharError(s, k).None?;
      }
    }
  }

  /** A single leading period is skipped: ".1.2" parses exactly as "1.2". */
  lemma ParseSkipsLeadingPeriod(t: string)
    requires |t| >= 2 && t[0] == '.' && t[1] != '.' && WellFormedText(t[1..])
    ensures Parse(t) == Parse(t[1..])
  {
    var s := t[1..];
    forall i | 0 < i < |t| ensures t[i] == '.' ==> t[i - 1] != '.' {
      if i > 1 {
        assert t[i] == s[i - 1] && t[i - 1] == s[i - 2];
      }
    }
    assert WellFormedText(t);
    NoSyntaxErrorIffWellFormed(s);
    NoSyntaxErrorIffWellFormed(t);
    assert Fields(t) == Fields(s);
  }

  // ---------------------------------------------------------------------------
  // The formatter

  /** The text of an OID of non-negative arcs is well formed and starts with
      a digit. */
  lemma {:induction false} FormatWellFormed(o: ObjectIdentifier)
    requires |o| >= 1 && forall k | 0 <= k < |o| :: o[k] >= 0
    ensures WellFormedText(Format(o)) && IsDigit(Format(o)[0])
  {
    if |o| > 1 {
      var init := o[..|o| - 1];
      FormatWellFormed(init);
      var p := Format(init);
      var d := Itoa(o[|o| - 1]);
      var s := p + "." + d;
      assert s == Format(o);
      assert IsDigit(p[|p| - 1]);
      forall i | 0 <= i < |s| ensures IsDigit(s[i]) || s[i] == '.' {
        if i < |p| {
          assert s[i] == p[i];
        } else if i > |p| {
          assert s[i] == d[i - |p| - 1];
        }
      }
      forall i | 0 < i < |s| ensures s[i] == '.' ==> s[i - 1] != '.' {
        if i < |p| {
          assert s[i] == p[i] && s[i - 1] == p[i - 1];
        } else if i > |p| {
          assert s[i] == d[i - |p| - 1];
        }
      }
      assert s[|s| - 1] == d[|d| - 1];
    }
  }

  /** A text made of a prefix, a period and a period-free field splits into
      the prefix's fields followed by that field. */
  lemma {:induction false} SplitDotsAppend(x: string, y: string)
    requires forall j | 0 <= j < |y| :: y[j] != '.'
    decreases |y|
    ensures SplitDots(x + ['.'] + y) == SplitDots(x) + [y]
  {
    var u := x + ['.'] + y;
    if y == [] {
      assert u == x + ['.'] && u[..|u| - 1] == x;
    } else {
      var y' := y[..|y| - 1];
      assert u[..|u| - 1] == x + ['.'] + y';
      SplitDotsAppend(x, y');
      assert y == y' + [y[|y| - 1]];
    }
  }

  /** A period-free text is a single field. */
  lemma {:induction false} SplitDotsSingle(y: string)
    requires forall j | 0 <= j < |y| :: y[j] != '.'
    decreases |y|
    ensures SplitDots(y) == [y]
  {
    if y != [] {
      var y' := y[..|y| - 1];
      SplitDotsSingle(y');
      assert y == y' + [y[|y| - 1]];
    }
  }

  /** The decimal texts of the arcs of o, in order. */
  function ArcTexts(o: ObjectIdentifier): (r: seq<string>)
    ensures |r| == |o|
  {
    if o == [] then [] else ArcTexts(o[..|o| - 1]) + [Itoa(o[|o| - 1])]
  }

  lemma {:induction false} ArcTextsAt(o: ObjectIdentifier, k: nat)
    requires k < |o|
    ensures ArcTexts(o)[k] == Itoa(o[k])
  {
    if k < |o| - 1 {
      ArcTextsAt(o[..|o| - 1], k);
    }
  }

  /** The fields of the text of an OID are the decimal texts of its arcs. */
  lemma {:induction false} SplitDotsOfFormat(o: ObjectIdentifier)
    requires |o| >= 1
    ensures SplitDots(Format(o)) == ArcTexts(o)
  {
    var init := o[..|o| - 1];
    var d := Itoa(o[|o| - 1]);
    if |o| == 1 {
      SplitDotsSingle(d);
      assert init == [];
    } else {
      SplitDotsOfFormat(init);
      SplitDotsAppend(Format(init), d);
      assert Format(o) == Format(init) + ['.'] + d;
    }
  }

  /** Reading back the decimal texts of non-negative arcs gives the arcs. */
  lemma {:induction false} ValuesOfArcTexts(o: ObjectIdentifier)
    requires forall k | 0 <= k < |o| :: o[k] >= 0
    ensures forall k | 0 <= k < |o| :: AllDigits(ArcTexts(o)[k])
    ensures Values(ArcTexts(o)) == o
  {
    forall k | 0 <= k < |o| ensures AllDigits(ArcTexts(o)[k]) {
      ArcTextsAt(o, k);
    }
    if o != [] {
      var init := o[..|o| - 1];
      var last := o[|o| - 1];
      ValuesOfArcTexts(init);
      ValuesSnoc(ArcTexts(init), Itoa(last));
      assert o == init + [last];
    }
  }

  /** Parsing the text of any non-empty OID of non-negative arcs gives that
      OID back, with the verdict of Validate on it as the error. */
  lemma ParseFormat(o: ObjectIdentifier)
    requires |o| >= 1 && forall k | 0 <= k < |o| :: o[k] >= 0
    ensures Parse(Format(o)) == ParseOutcome(o, FromValidation(Validate(o)))
  {
    var s := Format(o);
    FormatWellFormed(o);
    NoSyntaxErrorIffWellFormed(s);
    SplitDotsOfFormat(o);
    ValuesOfArcTexts(o);
    assert Fields(s) == ArcTexts(o);
    assert Arcs(s) == o;
  }

  /** The round trip: every valid OID survives formatting and parsing, with
      no error. */
  lemma ParseFormatRoundTrip(o: ObjectIdentifier)
    requires IsValid(o)
    ensures Parse(Format(o)) == ParseOutcome(o, None)
  {
    ParseFormat(o);
  }

  /** Text ending in a period and the canonical digits of v ends in ".0"
      exactly when v is 0, canonical digits having no leading zero. */
  lemma DotZeroSuffix(p: string, v: nat)
    ensures var s := p + "." + NatDigits(v); |s| >= 2 && (s[|s| - 2..] == ".0" <==> v == 0)
  {
    var d := NatDigits(v);
    var s := p + "." + d;
    if v == 0 {
      assert s[|s| - 2..] == ".0";
    } else if |d| == 1 {
      assert s[|s| - 2..][1] == d[0];
    } else {
      assert s[|s| - 2..][0] == d[|d| - 2];
    }
  }

  /** An OID of at least two non-negative arcs is a scalar instance exactly
      when its text ends in ".0". */
  lemma ScalarText(o: ObjectIdentifier)
    requires |o| >= 2 && forall k | 0 <= k < |o| :: o[k] >= 0
    ensures var s := Format(o); |s| >= 2 && (IsScalar(o) <==> s[|s| - 2..] == ".0")
  {
    var last := o[|o| - 1];
    assert Format(o) == Format(o[..|o| - 1]) + "." + NatDigits(last);
    DotZeroSuffix(Format(o[..|o| - 1]), last);
  }

  // ---------------------------------------------------------------------------
  // The cases of the source's table tests and of its documented quirks

  lemma ParseValidExample()
    ensures Parse("1.2.3") == ParseOutcome([1, 2, 3], None)
  {
    ParseFormat([1, 2, 3]);
    assert Format([1, 2, 3]) == "1.2.3";
  }

  lemma ParseConsecutivePeriodsExample()
    ensures Parse("1..3") == ParseOutcome([], Some(Syntax(ConsecutivePeriods)))
    ensures Parse("1..") == ParseOutcome([], Some(Syntax(ConsecutivePeriods)))
  {
    var s := "1..3";
    assert CharError(s, 0).None? && CharError(s, 1).None? && CharError(s, 2).Some?;
    FirstSyntaxErrorAt(s, 0, 2);
    var t := "1..";
    assert CharError(t, 0).None? && CharError(t, 1).None? && CharError(t, 2).Some?;
    FirstSyntaxErrorAt(t, 0, 2);
  }

  lemma ParseEndsWithPeriodExample()
    ensures Parse("1.2.") == ParseOutcome([], Some(Syntax(EndsWithPeriod)))
    ensures Parse(".") == ParseOutcome([], Some(Syntax(EndsWithPeriod)))
  {
    var s := "1.2.";
    assert CharError(s, 0).None? && CharError(s, 1).None? && CharError(s, 2).None?;
    assert CharError(s, 3).Some?;
    FirstSyntaxErrorAt(s, 0, 3);
    var t := ".";
    assert CharError(t, 0).Some?;
    FirstSyntaxErrorAt(t, 0, 0);
  }

  lemma ParseInvalidCharacterExample()
    ensures Parse("1.2a.3") == ParseOutcome([], Some(Syntax(InvalidCharacter(3, 'a'))))
  {
    var s := "1.2a.3";
    assert CharError(s, 0).None? && CharError(s, 1).None? && CharError(s, 2).None?;
    assert CharError(s, 3).Some?;
    FirstSyntaxErrorAt(s, 0, 3);
  }

  lemma ParseLeadingPeriodExample()
    ensures Parse(".1.2") == Parse("1.2") == ParseOutcome([1, 2], None)
  {
    ParseFormat([1, 2]);
    assert Format([1, 2]) == "1.2";
    var t := ".1.2";
    assert t[1..] == "1.2";
    assert WellFormedText(t[1..]);
    ParseSkipsLeadingPeriod(t);
  }

  /** The OID is returned together with the validation error. */
  lemma ParseInvalidRootExample()
    ensures Parse("7.2") == ParseOutcome([7, 2], Some(Invalid(FirstSubIdentifierOutOfRange(7))))
  {
    ParseFormat([7, 2]);
    assert Format([7, 2]) == "7.2";
  }

  lemma FormatExamples()
    ensures Format([1, 2, 3]) == "1.2.3"
    ensures Format([]) == ""
  {
  }
}
