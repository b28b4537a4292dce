/** The ASN.1 object identifier value of the `smi` package (smi/oid.go):
    structural validation against the constraints of section 7.1.3 of
    RFC 2578, tree-order predicates, the dotted-decimal formatter and the
    dotted-decimal parser. */
module Oid {
  import opened Wrappers
  import opened Decimal

  /** A sequence of sub-identifiers. The source stores them in a signed
      machine int; here they are unbounded integers, and Validate is what
      confines them to the unsigned 32-bit range. */
  type ObjectIdentifier = seq<int>

  /** math.MaxUint32 */
  const MaxUint32: int := 4294967295

  /** Errors of the dotted-decimal scan. Positions are 0-based byte offsets. */
  datatype SyntaxError =
    | ConsecutivePeriods
    | EndsWithPeriod
    | InvalidCharacter(pos: nat, c: char)

  /** Errors of Validate. Positions are 1-based. */
  datatype ValidationError =
    | TooFewSubIdentifiers
    | NegativeSubIdentifier(pos: nat, v: int)
    | SubIdentifierTooLarge(pos: nat, v: int)
    | FirstSubIdentifierOutOfRange(v: int)

  datatype ParseError = Syntax(syntax: SyntaxError) | Invalid(invalid: ValidationError)

  /** The pair (oid, err) that ParseObjectIdentifier returns; a nil slice is []. */
  datatype ParseOutcome = ParseOutcome(oid: ObjectIdentifier, err: Option<ParseError>)

  // ---------------------------------------------------------------------------
  // Validation

  predicate ArcInRange(v: int) {
    0 <= v <= MaxUint32
  }

  /** The structural constraints Validate enforces, stated declaratively:
      at least two arcs, every arc an unsigned 32-bit value, and a first arc
      that is one of the three root arcs 0, 1 and 2 of ITU-T X.660. The
      128-arc limit of RFC 2578 is deliberately not among them. */
  predicate SmiConstraints(o: ObjectIdentifier) {
    |o| >= 2 && (forall k | 0 <= k < |o| :: ArcInRange(o[k])) && o[0] <= 2
  }

  /** The per-element checks of Validate for the arc at 0-based index i, in
      the order the source applies them: negative, too large, first arc. */
  function ArcError(i: nat, v: int): (r: Option<ValidationError>)
    ensures r.None? <==> ArcInRange(v) && (i == 0 ==> v <= 2)
    ensures r != Some(TooFewSubIdentifiers)
  {
    if v < 0 then Some(NegativeSubIdentifier(i + 1, v))
    else if v > MaxUint32 then Some(SubIdentifierTooLarge(i + 1, v))
    else if i == 0 && v > 2 then Some(FirstSubIdentifierOutOfRange(v))
    else None
  }

  /** The first violation among the arcs at indices i.. of o, left to right. */
  function ValidateFrom(o: ObjectIdentifier, i: nat): (r: Option<ValidationError>)
    requires i <= |o|
    decreases |o| - i
    ensures r.None? <==>
      (forall k | i <= k < |o| :: ArcInRange(o[k])) && (i == 0 < |o| ==> o[0] <= 2)
    ensures r != Some(TooFewSubIdentifiers)
  {
    if i == |o| then None
    else match ArcError(i, o[i])
      case Some(e) => Some(e)
      case None => ValidateFrom(o, i + 1)
  }

  /** ObjectIdentifier.Validate: None is the nil error. */
  function Validate(o: ObjectIdentifier): (r: Option<ValidationError>)
    ensures r.None? <==> SmiConstraints(o)
    ensures r == Some(TooFewSubIdentifiers) <==> |o| < 2
  {
    if |o| < 2 then Some(TooFewSubIdentifiers) else ValidateFrom(o, 0)
  }

  /** ObjectIdentifier.IsValid */
  function IsValid(o: ObjectIdentifier): (r: bool)
    ensures r <==> |o| >= 2 && (forall k | 0 <= k < |o| :: 0 <= o[k] <= MaxUint32) && 0 <= o[0] <= 2
  {
    Validate(o).None?
  }

  // ---------------------------------------------------------------------------
  // Comparison

  /** The shared element scan of Equals and IsPrefixOf: do the arcs of a from
      index i on agree with the arcs of b at the same indices? */
  function AgreeFrom(a: ObjectIdentifier, b: ObjectIdentifier, i: nat): (r: bool)
    requires i <= |a| <= |b|
    decreases |a| - i
    ensures r <==> forall k | i <= k < |a| :: a[k] == b[k]
  {
    if i == |a| then true
    else if a[i] != b[i] then false
    else AgreeFrom(a, b, i + 1)
  }

  /** ObjectIdentifier.Equals */
  function Equals(a: ObjectIdentifier, b: ObjectIdentifier): (r: bool)
    ensures r <==> a == b
  {
    |a| == |b| && AgreeFrom(a, b, 0)
  }

  /** ObjectIdentifier.IsPrefixOf */
  function IsPrefixOf(a: ObjectIdentifier, b: ObjectIdentifier): (r: bool)
    ensures r <==> |a| <= |b| && a == b[..|a|]
  {
    |a| <= |b| && AgreeFrom(a, b, 0)
  }

  /** The scan of IsBefore from index i of a: false once b runs out, decided by
      the first differing arc, and true once a runs out. In particular it
      holds whenever the rest of a from i is a prefix of the rest of b. */
  function BeforeFrom(a: ObjectIdentifier, b: ObjectIdentifier, i: nat): (r: bool)
    requires i <= |a|
    decreases |a| - i
    ensures |a| <= |b| && a[i..] == b[i..|a|] ==> r
  {
    if i == |a| then true
    else if i >= |b| then false
    else if a[i] < b[i] then true
    else if a[i] > b[i] then false
    else BeforeFrom(a, b, i + 1)
  }

  /** ObjectIdentifier.IsBefore; its meaning (lexicographic "before or equal")
      is established in module OidOrder. */
  function IsBefore(a: ObjectIdentifier, b: ObjectIdentifier): (r: bool)
    ensures |a| <= |b| && a == b[..|a|] ==> r
  {
    BeforeFrom(a, b, 0)
  }

  /** ObjectIdentifier.IsAfter: a.IsAfter(b) is b.IsBefore(a), so an OID is
      after each of its prefixes. */
  function IsAfter(a: ObjectIdentifier, b: ObjectIdentifier): (r: bool)
    ensures |b| <= |a| && b == a[..|b|] ==> r
  {
    IsBefore(b, a)
  }

  /** IsScalar: the OID names the single instance of a scalar object. */
  function IsScalar(o: ObjectIdentifier): (r: bool)
    ensures r <==> |o| >= 1 && o[|o| - 1] == 0
  {
    if |o| == 0 then false else o[|o| - 1] == 0
  }

  // ---------------------------------------------------------------------------
  // Formatting

  /** The text String produces: the decimal arcs joined by single periods. */
  function Format(o: ObjectIdentifier): (r: string)
    ensures r == [] <==> o == []
  {
    if o == [] then []
    else if |o| == 1 then Itoa(o[0])
    else Format(o[..|o| - 1]) + "." + Itoa(o[|o| - 1])
  }

  /** The text of the first n arcs extends the text of the first n - 1 by
      the decimal text of arc n - 1, after a period unless it is the first. */
  lemma FormatPrefix(o: ObjectIdentifier, n: nat)
    requires 0 < n <= |o|
    ensures Format(o[..n]) ==
      if n == 1 then Itoa(o[0]) else Format(o[..n - 1]) + "." + Itoa(o[n - 1])
  {
    assert o[..n][..n - 1] == o[..n - 1];
  }

  /** The text of a non-empty OID holds exactly one period fewer than the OID
      has arcs: one between each pair of neighbours, none inside an arc. */
  lemma {:induction false} FormatPeriodCount(o: ObjectIdentifier)
    requires o != []
    ensures multiset(Format(o))['.'] == |o| - 1
  {
    var d := Itoa(o[|o| - 1]);
    assert '.' !in d;
    assert multiset(d)['.'] == 0;
    if |o| > 1 {
      FormatPeriodCount(o[..|o| - 1]);
    }
  }

  /** ObjectIdentifier.String, writing into a builder arc by arc. */
  method String(o: ObjectIdentifier) returns (s: string)
    ensures s == Format(o)
  {
    if |o| == 0 {
      return "";
    }
    s := "";
    var i := 0;
    while i < |o|
      invariant 0 <= i <= |o|
      invariant s == Format(o[..i])
    {
      if i > 0 {
        s := s + ".";
      }
      s := s + Itoa(o[i]);
      i := i + 1;
      FormatPrefix(o, i);
    }
    assert o[..|o|] == o;
  }

  // ---------------------------------------------------------------------------
  // Parsing

  /** The characters the dotted-decimal scan accepts at all. */
  predicate OidChars(s: string) {
    forall i | 0 <= i < |s| :: IsDigit(s[i]) || s[i] == '.'
  }

  /** Text the scan accepts without a syntax error, stated declaratively:
      only digits and periods, no two adjacent periods, no trailing period. */
  predicate WellFormedText(s: string) {
    OidChars(s)
    && (forall i | 0 < i < |s| :: s[i] == '.' ==> s[i - 1] != '.')
    && (|s| > 0 ==> s[|s| - 1] != '.')
  }

  /** The syntax check the scan applies to the character at byte position i,
      in the source's order: a period after a period, a period at the end, and
      then any character that is neither a digit nor a period. */
  function CharError(s: string, i: nat): (r: Option<SyntaxError>)
    requires i < |s|
    ensures r.None? <==>
      IsDigit(s[i]) || (s[i] == '.' && (i == 0 || s[i - 1] != '.') && i < |s| - 1)
    ensures r == Some(InvalidCharacter(i, s[i])) <==> !IsDigit(s[i]) && s[i] != '.'
  {
    if s[i] == '.' then
      if i > 0 && s[i - 1] == '.' then Some(ConsecutivePeriods)
      else if i == |s| - 1 then Some(EndsWithPeriod)
      else None
    else if IsDigit(s[i]) then None
    else Some(InvalidCharacter(i, s[i]))
  }

  /** The first syntax error at or after position i. */
  function FirstSyntaxError(s: string, i: nat): (r: Option<SyntaxError>)
    requires i <= |s|
    decreases |s| - i
    ensures r.None? <==> forall k | i <= k < |s| :: CharError(s, k).None?
  {
    if i == |s| then None
    else if CharError(s, i).Some? then CharError(s, i)
    else FirstSyntaxError(s, i + 1)
  }

  /** The scan finds no syntax error exactly on well-formed text. */
  lemma NoSyntaxErrorIffWellFormed(s: string)
    ensures FirstSyntaxError(s, 0).None? <==> WellFormedText(s)
  {
    if FirstSyntaxError(s, 0).None? {
      forall i | 0 <= i < |s| ensures IsDigit(s[i]) || s[i] == '.' {
        assert CharError(s, i).None?;
      }
      forall i | 0 < i < |s| ensures s[i] == '.' ==> s[i - 1] != '.' {
        assert CharError(s, i).None?;
      }
      if |s| > 0 {
        assert CharError(s, |s| - 1).None?;
      }
    }
  }

  /** The scan reports the error of the first offending position. */
  lemma {:induction false} FirstSyntaxErrorAt(s: string, j: nat, i: nat)
    requires j <= i < |s|
    requires forall k | j <= k < i :: CharError(s, k).None?
    requires CharError(s, i).Some?
    decreases i - j
    ensures FirstSyntaxError(s, j) == CharError(s, i)
  {
    if j < i {
      FirstSyntaxErrorAt(s, j + 1, i);
    }
  }

  /** The fields of s between periods, in order; "" has one empty field. */
  function SplitDots(s: string): (r: seq<string>)
    ensures |r| >= 1
  {
    if s == [] then [[]]
    else if s[|s| - 1] == '.' then SplitDots(s[..|s| - 1]) + [[]]
    else
      var p := SplitDots(s[..|s| - 1]);
      p[..|p| - 1] + [p[|p| - 1] + [s[|s| - 1]]]
  }

  /** The fields the scan turns into arcs: a single leading period is
      skipped rather than opening an empty first field. */
  function Fields(s: string): (r: seq<string>)
    ensures |r| >= 1
  {
    if |s| > 0 && s[0] == '.' then SplitDots(s[1..]) else SplitDots(s)
  }

  /** The fields of text made of digits and periods are runs of digits. */
  lemma {:induction false} SplitDotsAllDigits(s: string)
    requires OidChars(s)
    ensures forall k | 0 <= k < |SplitDots(s)| :: AllDigits(SplitDots(s)[k])
  {
    if s != [] {
      var t := s[..|s| - 1];
      assert OidChars(t) by {
        forall i | 0 <= i < |t| ensures IsDigit(t[i]) || t[i] == '.' {
          assert t[i] == s[i];
        }
      }
      SplitDotsAllDigits(t);
    }
  }

  lemma FieldsAllDigits(s: string)
    requires OidChars(s)
    ensures forall k | 0 <= k < |Fields(s)| :: AllDigits(Fields(s)[k])
  {
    if |s| > 0 && s[0] == '.' {
      assert OidChars(s[1..]) by {
        forall i | 0 <= i < |s[1..]| ensures IsDigit(s[1..][i]) || s[1..][i] == '.' {
          assert s[1..][i] == s[i + 1];
        }
      }
      SplitDotsAllDigits(s[1..]);
    } else {
      SplitDotsAllDigits(s);
    }
  }

  /** The decimal value of each field, in order. */
  function Values(fs: seq<string>): (o: ObjectIdentifier)
    requires forall k | 0 <= k < |fs| :: AllDigits(fs[k])
    ensures |o| == |fs|
  {
    if fs == [] then [] else Values(fs[..|fs| - 1]) + [DecValue(fs[|fs| - 1])]
  }

  /** The arcs a text denotes: the decimal value of each of its fields. */
  function Arcs(s: string): (o: ObjectIdentifier)
    requires OidChars(s)
    ensures |o| >= 1
  {
    FieldsAllDigits(s);
    Values(Fields(s))
  }

  function FromValidation(e: Option<ValidationError>): Option<ParseError> {
    match e
    case None => None
    case Some(v) => Some(Invalid(v))
  }

  /** What ParseObjectIdentifier returns: the empty OID and no error for the
      empty text; the first syntax error with a nil OID; otherwise the arcs of
      the text together with the verdict of Validate on them. */
  function Parse(s: string): (r: ParseOutcome)
    ensures r.err.Some? && r.err.value.Syntax? ==> r.oid == []
    ensures s != [] && r.err.None? ==> IsValid(r.oid)
    ensures r.err.Some? && r.err.value.Invalid? ==> Validate(r.oid) == Some(r.err.value.invalid)
  {
    if s == [] then ParseOutcome([], None)
    else match FirstSyntaxError(s, 0)
      case Some(e) => ParseOutcome([], Some(Syntax(e)))
      case None =>
        NoSyntaxErrorIffWellFormed(s);
        var o := Arcs(s);
        ParseOutcome(o, FromValidation(Validate(o)))
  }

  /** How the fields of a text change when one more character is scanned,
      unless it is a leading period: a period opens a new empty field... */
  lemma FieldsSnocPeriod(t: string)
    requires t != []
    ensures Fields(t + ['.']) == Fields(t) + [[]]
  {
    var u := t + ['.'];
    assert u[..|u| - 1] == t;
    if t[0] == '.' {
      assert u[1..][..|u[1..]| - 1] == t[1..];
    }
  }

  /** A character other than a period extends the last field... */
  lemma SplitDotsSnocOther(x: string, c: char)
    requires c != '.'
    ensures var p := SplitDots(x); SplitDots(x + [c]) == p[..|p| - 1] + [p[|p| - 1] + [c]]
  {
    assert (x + [c])[..|x|] == x;
  }

  /** ...also after a skipped leading period. */
  lemma FieldsSnocOther(t: string, c: char)
    requires c != '.'
    ensures var fs := Fields(t); Fields(t + [c]) == fs[..|fs| - 1] + [fs[|fs| - 1] + [c]]
  {
    var u := t + [c];
    if |t| > 0 && t[0] == '.' {
      assert u[0] == '.' && u[1..] == t[1..] + [c];
      SplitDotsSnocOther(t[1..], c);
    } else {
      assert u[0] != '.';
      SplitDotsSnocOther(t, c);
    }
  }

  /** A period after the first position appends a 0 arc. */
  lemma ArcsSnocPeriod(t: string)
    requires t != [] && OidChars(t)
    ensures OidChars(t + ['.'])
    ensures Arcs(t + ['.']) == Arcs(t) + [0]
  {
    FieldsSnocPeriod(t);
    OidCharsSnoc(t, '.');
    FieldsAllDigits(t);
    var fs := Fields(t);
    var gs := fs + [[]];
    assert gs[..|gs| - 1] == fs;
  }

  /** A period at position 0 changes no arc. */
  lemma ArcsLeadingPeriod()
    ensures Arcs(['.']) == Arcs([])
  {
    assert ['.'][1..] == [];
  }

  lemma ValuesSnoc(p: seq<string>, x: string)
    requires forall k | 0 <= k < |p| :: AllDigits(p[k])
    requires AllDigits(x)
    ensures Values(p + [x]) == Values(p) + [DecValue(x)]
  {
    assert (p + [x])[..|p|] == p;
  }

  lemma DecValueSnoc(d: string, c: char)
    requires AllDigits(d) && IsDigit(c)
    ensures AllDigits(d + [c]) && DecValue(d + [c]) == DecValue(d) * 10 + DigitValue(c)
  {
    assert (d + [c])[..|d|] == d;
  }

  lemma OidCharsSnoc(t: string, c: char)
    requires OidChars(t) && (IsDigit(c) || c == '.')
    ensures OidChars(t + [c])
  {
    forall i | 0 <= i < |t| + 1 ensures IsDigit((t + [c])[i]) || (t + [c])[i] == '.' {
      if i < |t| {
        assert (t + [c])[i] == t[i];
      }
    }
  }

  /** The values of all fields but the last are the finished arcs, the
      value of the last field the current arc. */
  lemma ValuesLast(fs: seq<string>, oid: ObjectIdentifier, sid: int)
    requires |fs| >= 1 && forall k | 0 <= k < |fs| :: AllDigits(fs[k])
    requires Values(fs) == oid + [sid]
    ensures Values(fs[..|fs| - 1]) == oid && DecValue(fs[|fs| - 1]) == sid
  {
    var v := Values(fs[..|fs| - 1]);
    assert v + [DecValue(fs[|fs| - 1])] == oid + [sid];
    assert v == (oid + [sid])[..|oid|];
  }

  /** Extending the last field by a digit turns its value v into v*10 +
      digit and leaves the other values alone. */
  lemma ValuesExtendLast(fs: seq<string>, c: char, oid: ObjectIdentifier, sid: int)
    requires |fs| >= 1 && forall k | 0 <= k < |fs| :: AllDigits(fs[k])
    requires IsDigit(c) && Values(fs) == oid + [sid]
    ensures var gs := fs[..|fs| - 1] + [fs[|fs| - 1] + [c]];
      (forall k | 0 <= k < |gs| :: AllDigits(gs[k])) &&
      Values(gs) == oid + [sid * 10 + DigitValue(c)]
  {
    var last := fs[|fs| - 1];
    ValuesLast(fs, oid, sid);
    DecValueSnoc(last, c);
    ValuesSnoc(fs[..|fs| - 1], last + [c]);
  }

  /** A digit extends the last arc as value*10 + digit. */
  lemma ArcsSnocDigit(t: string, c: char, oid: ObjectIdentifier, sid: int)
    requires OidChars(t) && IsDigit(c) && Arcs(t) == oid + [sid]
    ensures OidChars(t + [c])
    ensures Arcs(t + [c]) == oid + [sid * 10 + DigitValue(c)]
  {
    OidCharsSnoc(t, c);
    FieldsSnocOther(t, c);
    FieldsAllDigits(t);
    ValuesExtendLast(Fields(t), c, oid, sid);
  }

  /** The scan accepts a digit anywhere, and a period that neither follows a
      period nor ends the text; accepting the character at n - 1 extends the
      clean prefix to n characters. */
  lemma ScanAccepts(s: string, n: nat)
    requires 0 < n <= |s|
    requires var c := s[n - 1];
      IsDigit(c) || (c == '.' && !(n > 1 && s[n - 2] == '.') && n != |s|)
    requires forall k | 0 <= k < n - 1 :: CharError(s, k).None?
    ensures forall k | 0 <= k < n :: CharError(s, k).None?
  {
    assert CharError(s, n - 1).None?;
  }

  /** A digit at n - 1 extends the current arc. */
  lemma ScanDigit(s: string, n: nat, oid0: ObjectIdentifier, sid0: int, oid: ObjectIdentifier, sid: int)
    requires 0 < n <= |s| && IsDigit(s[n - 1])
    requires OidChars(s[..n - 1]) && oid0 + [sid0] == Arcs(s[..n - 1])
    requires oid == oid0 && sid == sid0 * 10 + DigitValue(s[n - 1])
    ensures OidChars(s[..n]) && oid + [sid] == Arcs(s[..n])
  {
    var t := s[..n - 1];
    assert s[..n] == t + [s[n - 1]];
    ArcsSnocDigit(t, s[n - 1], oid0, sid0);
  }

  /** A period at n - 1, after the first position, finishes the current arc
      and opens a new one at 0. */
  lemma ScanPeriod(s: string, n: nat, oid0: ObjectIdentifier, sid0: int, oid: ObjectIdentifier, sid: int)
    requires 1 < n <= |s| && s[n - 1] == '.'
    requires OidChars(s[..n - 1]) && oid0 + [sid0] == Arcs(s[..n - 1])
    requires oid == oid0 + [sid0] && sid == 0
    ensures OidChars(s[..n]) && oid + [sid] == Arcs(s[..n])
  {
    var t := s[..n - 1];
    assert s[..n] == t + ['.'];
    ArcsSnocPeriod(t);
  }

  /** A leading period changes nothing. */
  lemma ScanLeadingPeriod(s: string, oid0: ObjectIdentifier, sid0: int, oid: ObjectIdentifier, sid: int)
    requires 0 < |s| && s[0] == '.'
    requires oid0 + [sid0] == Arcs(s[..0])
    requires oid == oid0 && sid == sid0
    ensures OidChars(s[..1]) && oid + [sid] == Arcs(s[..1])
  {
    assert s[..1] == ['.'] && s[..0] == [];
    ArcsLeadingPeriod();
  }

  /** The state of the scan after the first n characters: none of them is
      a syntax error, and the arcs they denote are the finished arcs oid
      followed by the current arc sid. */
  predicate Scanned(s: string, n: nat, oid: ObjectIdentifier, sid: int)
    requires n <= |s|
  {
    (forall k | 0 <= k < n :: CharError(s, k).None?) &&
    OidChars(s[..n]) && oid + [sid] == Arcs(s[..n])
  }

  /** One step of the scan over the character c at n - 1, which it accepts:
      a digit extends the current arc, a period after the first position
      finishes it and opens a new one at 0, and a leading period changes
      nothing. From the state oid0, sid0 after n - 1 characters this gives
      the state oid, sid after n. */
  lemma ScanStep(s: string, n: nat, c: char, oid0: ObjectIdentifier, sid0: int, oid: ObjectIdentifier, sid: int)
    requires 0 < n <= |s| && c == s[n - 1]
    requires IsDigit(c) || (c == '.' && !(n > 1 && s[n - 2] == '.') && n != |s|)
    requires Scanned(s, n - 1, oid0, sid0)
    requires IsDigit(c) ==> oid == oid0 && sid == sid0 * 10 + DigitValue(c)
    requires c == '.' && n > 1 ==> oid == oid0 + [sid0] && sid == 0
    requires c == '.' && n == 1 ==> oid == oid0 && sid == sid0
    ensures Scanned(s, n, oid, sid)
  {
    ScanAccepts(s, n);
    if IsDigit(c) {
      ScanDigit(s, n, oid0, sid0, oid, sid);
    } else if n > 1 {
      ScanPeriod(s, n, oid0, sid0, oid, sid);
    } else {
      ScanLeadingPeriod(s, oid0, sid0, oid, sid);
    }
  }

  /** On a syntax error at position i, all earlier positions being clean, the
      parse result is that error and no OID. */
  lemma ParseAtSyntaxError(s: string, i: nat)
    requires i < |s|
    requires forall k | 0 <= k < i :: CharError(s, k).None?
    requires CharError(s, i).Some?
    ensures Parse(s) == ParseOutcome([], Some(Syntax(CharError(s, i).value)))
  {
    FirstSyntaxErrorAt(s, 0, i);
  }

  /** On text with no syntax error the parse result is its arcs with the
      verdict of Validate. */
  lemma ParseClean(s: string)
    requires s != [] && OidChars(s)
    requires forall k | 0 <= k < |s| :: CharError(s, k).None?
    ensures Parse(s) == ParseOutcome(Arcs(s), FromValidation(Validate(Arcs(s))))
  {
  }

  /** ParseObjectIdentifier: one left-to-right scan with an accumulator for the
      current sub-identifier. The source accumulates in a 64-bit int, which
      wraps around once a run's value exceeds 2^63-1 (19 or more significant
      digits); here the accumulator is an
      unbounded integer, so Validate rejects every oversized arc. */
  method ParseObjectIdentifier(s: string) returns (oid: ObjectIdentifier, err: Option<ParseError>)
    ensures ParseOutcome(oid, err) == Parse(s)
  {
    if s == [] {
      return [], None;
    }
    oid := [];
    var sid := 0;
    var i := 0;
    while i < |s|
      invariant 0 <= i <= |s|
      invariant Scanned(s, i, oid, sid)
    {
      var c := s[i];
      ghost var oid0, sid0 := oid, sid;
      if c == '.' {
        if i > 0 && s[i - 1] == '.' {
          ParseAtSyntaxError(s, i);
          return [], Some(Syntax(ConsecutivePeriods));
        }
        if i == |s| - 1 {
          ParseAtSyntaxError(s, i);
          return [], Some(Syntax(EndsWithPeriod));
        }
        if i > 0 {
          oid := oid + [sid];
          sid := 0;
        }
      } else if IsDigit(c) {
        sid := sid * 10 + DigitValue(c);
      } else {
        ParseAtSyntaxError(s, i);
        return [], Some(Syntax(InvalidCharacter(i, c)));
      }
      i := i + 1;
      ScanStep(s, i, c, oid0, sid0, oid, sid);
    }
    assert s[..i] == s;
    ParseClean(s);
    oid := oid + [sid];
    err := FromValidation(Validate(oid));
  }
}
