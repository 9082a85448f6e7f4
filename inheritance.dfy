/**
 * Inherit of each scalar variant with facets, on values: the receiver's state afterwards and the
 * error returned, for a child `c` and an ancestor `p` of the same variant. The lemmas state the
 * narrowing rule: when the merge succeeds, which facet check reports a failure, what the
 * receiver holds then, and that a successful merge admits exactly what both shapes admit.
 */
module Inheritance {
  import opened Wrappers
  import opened Nodes
  import opened Errors
  import opened Outcomes
  import opened Facets

  /** IntegerShape.Inherit: minimum, maximum, multipleOf, then enum, then format. */
  function InheritInteger(c: IntegerValue, p: IntegerValue): Outcome<IntegerValue>
  {
    var i := MergeIntegerFacets(c.integerFacets, p.integerFacets);
    if i.error.Some? then Outcome(c.(integerFacets := i.state), i.error)
    else
      var e := MergeEnumFacets(c.enumFacets, p.enumFacets);
      if e.error.Some? then Outcome(c.(integerFacets := i.state), e.error)
      else Outcome(c.(integerFacets := i.state, enumFacets := e.state,
                      formatFacets := MergeFormatFacets(c.formatFacets, p.formatFacets)), None)
  }

  /** NumberShape.Inherit: minimum, maximum, multipleOf, then enum, then format. */
  function InheritNumber(c: NumberValue, p: NumberValue): Outcome<NumberValue>
  {
    var n := MergeNumberFacets(c.numberFacets, p.numberFacets);
    if n.error.Some? then Outcome(c.(numberFacets := n.state), n.error)
    else
      var e := MergeEnumFacets(c.enumFacets, p.enumFacets);
      if e.error.Some? then Outcome(c.(numberFacets := n.state), e.error)
      else Outcome(c.(numberFacets := n.state, enumFacets := e.state,
                      formatFacets := MergeFormatFacets(c.formatFacets, p.formatFacets)), None)
  }

  /** StringShape.Inherit: minLength, maxLength, pattern, then enum. */
  function InheritString(c: StringValue, p: StringValue): Outcome<StringValue>
  {
    var s := MergeStringFacets(c.stringFacets, p.stringFacets);
    if s.error.Some? then Outcome(c.(stringFacets := s.state), s.error)
    else
      var e := MergeEnumFacets(c.enumFacets, p.enumFacets);
      if e.error.Some? then Outcome(c.(stringFacets := s.state), e.error)
      else Outcome(c.(stringFacets := s.state, enumFacets := e.state), None)
  }

  /** FileShape.Inherit: minLength, maxLength, then fileTypes. */
  function InheritFile(c: FileValue, p: FileValue): Outcome<FileValue>
  {
    var l := MergeLengthFacets(c.lengthFacets, p.lengthFacets);
    if l.error.Some? then Outcome(c.(lengthFacets := l.state), l.error)
    else Outcome(c.(lengthFacets := l.state, fileFacets := MergeFileFacets(c.fileFacets, p.fileFacets)), None)
  }

  /** BooleanShape.Inherit: the enum only. */
  function InheritBoolean(c: BooleanValue, p: BooleanValue): Outcome<BooleanValue>
  {
    var e := MergeEnumFacets(c.enumFacets, p.enumFacets);
    Outcome(c.(enumFacets := e.state), e.error)
  }

  /** DateTimeShape.Inherit: the format only. */
  function InheritDateTime(c: DateTimeValue, p: DateTimeValue): Outcome<DateTimeValue>
  {
    Outcome(c.(formatFacets := MergeFormatFacets(c.formatFacets, p.formatFacets)), None)
  }

  // ---- IntegerShape ----

  /**
   * The integer merge succeeds exactly when neither bound nor the enum widens the ancestor's;
   * then every facet the child left unset holds the ancestor's value, every facet it set
   * (multipleOf and format included) is kept, and its base is untouched.
   */
  lemma InheritIntegerSuccess(c: IntegerValue, p: IntegerValue)
    ensures var m := InheritInteger(c, p);
      m.error.None? <==>
        !MinimumWidens(c.integerFacets.minimum, p.integerFacets.minimum) &&
        !MaximumWidens(c.integerFacets.maximum, p.integerFacets.maximum) &&
        !EnumWidens(c.enumFacets.enum, p.enumFacets.enum)
    ensures var m := InheritInteger(c, p);
      m.error.None? ==> m.state == IntegerValue(
        c.base,
        EnumFacets(Adopt(c.enumFacets.enum, p.enumFacets.enum)),
        FormatFacets(Adopt(c.formatFacets.format, p.formatFacets.format)),
        IntegerFacets(Adopt(c.integerFacets.minimum, p.integerFacets.minimum),
                      Adopt(c.integerFacets.maximum, p.integerFacets.maximum),
                      Adopt(c.integerFacets.multipleOf, p.integerFacets.multipleOf)))
  {
  }

  /**
   * A failing integer merge reports the first failing check in the order minimum, maximum,
   * enum, with the ancestor's and the child's values; facets adopted before that check stay
   * adopted in the receiver, later ones are untouched.
   */
  lemma InheritIntegerFailure(c: IntegerValue, p: IntegerValue)
    ensures var f, g := c.integerFacets, p.integerFacets;
      MinimumWidens(f.minimum, g.minimum) ==>
        InheritInteger(c, p) == Outcome(c, Some(Violation(Minimum, IntBound(g.minimum.value), IntBound(f.minimum.value))))
    ensures var f, g := c.integerFacets, p.integerFacets;
      !MinimumWidens(f.minimum, g.minimum) && MaximumWidens(f.maximum, g.maximum) ==>
        InheritInteger(c, p) == Outcome(c.(integerFacets := f.(minimum := Adopt(f.minimum, g.minimum))),
                                        Some(Violation(Maximum, IntBound(g.maximum.value), IntBound(f.maximum.value))))
    ensures var f, g := c.integerFacets, p.integerFacets;
      !MinimumWidens(f.minimum, g.minimum) && !MaximumWidens(f.maximum, g.maximum) &&
      EnumWidens(c.enumFacets.enum, p.enumFacets.enum) ==>
        InheritInteger(c, p) == Outcome(
          c.(integerFacets := IntegerFacets(Adopt(f.minimum, g.minimum), Adopt(f.maximum, g.maximum), Adopt(f.multipleOf, g.multipleOf))),
          Some(Violation(Enum, EnumBound(p.enumFacets.enum.value), EnumBound(c.enumFacets.enum.value))))
  {
  }

  /**
   * A successful integer merge admits exactly the integers within both shapes' bounds and the
   * enum values both shapes admit. multipleOf is not part of this meet: see below.
   */
  lemma InheritIntegerIsMeet(c: IntegerValue, p: IntegerValue, x: int, v: Payload)
    requires InheritInteger(c, p).error.None?
    ensures var r := InheritInteger(c, p).state;
      AdmitsIntegerBounds(r.integerFacets, x) <==> AdmitsIntegerBounds(c.integerFacets, x) && AdmitsIntegerBounds(p.integerFacets, x)
    ensures var r := InheritInteger(c, p).state;
      AdmitsEnum(r.enumFacets, v) <==> AdmitsEnum(c.enumFacets, v) && AdmitsEnum(p.enumFacets, v)
  {
    EnumMergeIsMeet(c.enumFacets, p.enumFacets, v);
  }

  /**
   * The merged integer multipleOf is the child's whenever the child sets one, and the ancestor's
   * otherwise: the ancestor's multipleOf is never combined with the child's.
   */
  lemma InheritIntegerMultipleOf(c: IntegerValue, p: IntegerValue, x: int)
    requires InheritInteger(c, p).error.None?
    ensures var m := InheritInteger(c, p).state.integerFacets.multipleOf;
      AdmitsIntegerMultiple(m, x) <==>
        if c.integerFacets.multipleOf.Some? then AdmitsIntegerMultiple(c.integerFacets.multipleOf, x)
        else AdmitsIntegerMultiple(p.integerFacets.multipleOf, x)
  {
    InheritIntegerSuccess(c, p);
  }

  /**
   * So the integer merge is no meet once multipleOf counts: a child multipleOf 2 under an
   * ancestor multipleOf 3 is kept, and the merged shape admits 4, which the ancestor rejects.
   */
  lemma InheritIntegerMultipleOfNotMeet(c: IntegerValue, p: IntegerValue)
    requires c.integerFacets.multipleOf == Some(2) && p.integerFacets.multipleOf == Some(3)
    requires InheritInteger(c, p).error.None?
    ensures var m := InheritInteger(c, p).state.integerFacets.multipleOf;
      AdmitsIntegerMultiple(m, 4) && AdmitsIntegerMultiple(c.integerFacets.multipleOf, 4) &&
      !AdmitsIntegerMultiple(p.integerFacets.multipleOf, 4)
  {
    InheritIntegerMultipleOf(c, p, 4);
  }

  // ---- NumberShape ----

  /**
   * The number merge succeeds exactly when neither bound nor the enum widens the ancestor's;
   * then gaps are filled from the ancestor and set facets kept, except multipleOf, which takes
   * the ancestor's value whenever the ancestor sets one.
   */
  lemma InheritNumberSuccess(c: NumberValue, p: NumberValue)
    ensures var m := InheritNumber(c, p);
      m.error.None? <==>
        !NumberMinimumWidens(c.numberFacets.minimum, p.numberFacets.minimum) &&
        !NumberMaximumWidens(c.numberFacets.maximum, p.numberFacets.maximum) &&
        !EnumWidens(c.enumFacets.enum, p.enumFacets.enum)
    ensures var m := InheritNumber(c, p);
      m.error.None? ==> m.state == NumberValue(
        c.base,
        EnumFacets(Adopt(c.enumFacets.enum, p.enumFacets.enum)),
        FormatFacets(Adopt(c.formatFacets.format, p.formatFacets.format)),
        NumberFacets(Adopt(c.numberFacets.minimum, p.numberFacets.minimum),
                     Adopt(c.numberFacets.maximum, p.numberFacets.maximum),
                     if p.numberFacets.multipleOf.Some? then p.numberFacets.multipleOf else c.numberFacets.multipleOf))
  {
  }

  /** A failing number merge reports the first failing check, minimum, maximum, enum, as for integers. */
  lemma InheritNumberFailure(c: NumberValue, p: NumberValue)
    ensures var f, g := c.numberFacets, p.numberFacets;
      NumberMinimumWidens(f.minimum, g.minimum) ==>
        InheritNumber(c, p) == Outcome(c, Some(Violation(Minimum, NumberBound(g.minimum.value), NumberBound(f.minimum.value))))
    ensures var f, g := c.numberFacets, p.numberFacets;
      !NumberMinimumWidens(f.minimum, g.minimum) && NumberMaximumWidens(f.maximum, g.maximum) ==>
        InheritNumber(c, p) == Outcome(c.(numberFacets := f.(minimum := Adopt(f.minimum, g.minimum))),
                                       Some(Violation(Maximum, NumberBound(g.maximum.value), NumberBound(f.maximum.value))))
    ensures var f, g := c.numberFacets, p.numberFacets;
      !NumberMinimumWidens(f.minimum, g.minimum) && !NumberMaximumWidens(f.maximum, g.maximum) &&
      EnumWidens(c.enumFacets.enum, p.enumFacets.enum) ==>
        InheritNumber(c, p) == Outcome(
          c.(numberFacets := NumberFacets(Adopt(f.minimum, g.minimum), Adopt(f.maximum, g.maximum), Adopt(g.multipleOf, f.multipleOf))),
          Some(Violation(Enum, EnumBound(p.enumFacets.enum.value), EnumBound(c.enumFacets.enum.value))))
  {
  }

  /**
   * A successful number merge admits exactly the numbers within both shapes' bounds and the
   * enum values both shapes admit. multipleOf is not part of this meet: see below.
   */
  lemma InheritNumberIsMeet(c: NumberValue, p: NumberValue, x: real, v: Payload)
    requires InheritNumber(c, p).error.None?
    ensures var r := InheritNumber(c, p).state;
      AdmitsNumberBounds(r.numberFacets, x) <==> AdmitsNumberBounds(c.numberFacets, x) && AdmitsNumberBounds(p.numberFacets, x)
    ensures var r := InheritNumber(c, p).state;
      AdmitsEnum(r.enumFacets, v) <==> AdmitsEnum(c.enumFacets, v) && AdmitsEnum(p.enumFacets, v)
  {
    EnumMergeIsMeet(c.enumFacets, p.enumFacets, v);
  }

  /**
   * The merged number multipleOf is the ancestor's whenever the ancestor sets one, and the
   * child's otherwise, the reverse of the integer rule.
   */
  lemma InheritNumberMultipleOf(c: NumberValue, p: NumberValue, x: real)
    requires InheritNumber(c, p).error.None?
    ensures var m := InheritNumber(c, p).state.numberFacets.multipleOf;
      AdmitsNumberMultiple(m, x) <==>
        if p.numberFacets.multipleOf.Some? then AdmitsNumberMultiple(p.numberFacets.multipleOf, x)
        else AdmitsNumberMultiple(c.numberFacets.multipleOf, x)
  {
    InheritNumberSuccess(c, p);
  }

  /**
   * So the number merge is no meet once multipleOf counts: a child multipleOf 2.0 under an
   * ancestor multipleOf 3.0 is replaced, and the merged shape admits 3.0, which the child rejects.
   */
  lemma InheritNumberMultipleOfNotMeet(c: NumberValue, p: NumberValue)
    requires c.numberFacets.multipleOf == Some(2.0) && p.numberFacets.multipleOf == Some(3.0)
    requires InheritNumber(c, p).error.None?
    ensures var m := InheritNumber(c, p).state.numberFacets.multipleOf;
      AdmitsNumberMultiple(m, 3.0) && AdmitsNumberMultiple(p.numberFacets.multipleOf, 3.0) &&
      !AdmitsNumberMultiple(c.numberFacets.multipleOf, 3.0)
  {
    InheritNumberMultipleOf(c, p, 3.0);
    assert 3.0 / 2.0 == 1.5;
  }

  // ---- StringShape ----

  /**
   * The string merge succeeds exactly when neither length bound nor the enum widens the
   * ancestor's; then gaps are filled from the ancestor and set facets (the pattern included) kept.
   */
  lemma InheritStringSuccess(c: StringValue, p: StringValue)
    ensures var m := InheritString(c, p);
      m.error.None? <==>
        !MinLengthWidens(c.stringFacets.lengthFacets.minLength, p.stringFacets.lengthFacets.minLength) &&
        !MaxLengthWidens(c.stringFacets.lengthFacets.maxLength, p.stringFacets.lengthFacets.maxLength) &&
        !EnumWidens(c.enumFacets.enum, p.enumFacets.enum)
    ensures var m := InheritString(c, p);
      var f, g := c.stringFacets, p.stringFacets;
      m.error.None? ==> m.state == StringValue(
        c.base,
        EnumFacets(Adopt(c.enumFacets.enum, p.enumFacets.enum)),
        StringFacets(LengthFacets(Adopt(f.lengthFacets.maxLength, g.lengthFacets.maxLength),
                                  Adopt(f.lengthFacets.minLength, g.lengthFacets.minLength)),
                     Adopt(f.pattern, g.pattern)))
  {
  }

  /**
   * A failing string merge reports the first failing check in the order minLength, maxLength,
   * enum; when the enum check fails, the lengths and the pattern have already been adopted.
   */
  lemma InheritStringFailure(c: StringValue, p: StringValue)
    ensures var f, g := c.stringFacets.lengthFacets, p.stringFacets.lengthFacets;
      MinLengthWidens(f.minLength, g.minLength) ==>
        InheritString(c, p) == Outcome(c, Some(Violation(MinLength, LengthBound(g.minLength.value), LengthBound(f.minLength.value))))
    ensures var f, g := c.stringFacets.lengthFacets, p.stringFacets.lengthFacets;
      !MinLengthWidens(f.minLength, g.minLength) && MaxLengthWidens(f.maxLength, g.maxLength) ==>
        InheritString(c, p) == Outcome(
          c.(stringFacets := c.stringFacets.(lengthFacets := f.(minLength := Adopt(f.minLength, g.minLength)))),
          Some(Violation(MaxLength, LengthBound(g.maxLength.value), LengthBound(f.maxLength.value))))
    ensures var f, g := c.stringFacets.lengthFacets, p.stringFacets.lengthFacets;
      !MinLengthWidens(f.minLength, g.minLength) && !MaxLengthWidens(f.maxLength, g.maxLength) &&
      EnumWidens(c.enumFacets.enum, p.enumFacets.enum) ==>
        InheritString(c, p) == Outcome(
          c.(stringFacets := StringFacets(LengthFacets(Adopt(f.maxLength, g.maxLength), Adopt(f.minLength, g.minLength)),
                                          Adopt(c.stringFacets.pattern, p.stringFacets.pattern))),
          Some(Violation(Enum, EnumBound(p.enumFacets.enum.value), EnumBound(c.enumFacets.enum.value))))
  {
  }

  /** A successful string merge admits exactly the lengths and enum values both shapes admit. */
  lemma InheritStringIsMeet(c: StringValue, p: StringValue, n: nat, v: Payload)
    requires InheritString(c, p).error.None?
    ensures var r := InheritString(c, p).state;
      AdmitsLength(r.stringFacets.lengthFacets, n) <==>
        AdmitsLength(c.stringFacets.lengthFacets, n) && AdmitsLength(p.stringFacets.lengthFacets, n)
    ensures var r := InheritString(c, p).state;
      AdmitsEnum(r.enumFacets, v) <==> AdmitsEnum(c.enumFacets, v) && AdmitsEnum(p.enumFacets, v)
  {
    EnumMergeIsMeet(c.enumFacets, p.enumFacets, v);
  }

  // ---- FileShape ----

  /**
   * The file merge succeeds exactly when neither length bound widens the ancestor's; then gaps
   * are filled from the ancestor and set facets (the file types included) kept. A failure
   * reports minLength before maxLength, with minLength already adopted when maxLength fails.
   */
  lemma InheritFileOutcome(c: FileValue, p: FileValue)
    ensures var m, f, g := InheritFile(c, p), c.lengthFacets, p.lengthFacets;
      m.error.None? <==> !MinLengthWidens(f.minLength, g.minLength) && !MaxLengthWidens(f.maxLength, g.maxLength)
    ensures var m, f, g := InheritFile(c, p), c.lengthFacets, p.lengthFacets;
      m.error.None? ==> m.state == FileValue(
        c.base,
        LengthFacets(Adopt(f.maxLength, g.maxLength), Adopt(f.minLength, g.minLength)),
        FileFacets(Adopt(c.fileFacets.fileTypes, p.fileFacets.fileTypes)))
    ensures var f, g := c.lengthFacets, p.lengthFacets;
      MinLengthWidens(f.minLength, g.minLength) ==>
        InheritFile(c, p) == Outcome(c, Some(Violation(MinLength, LengthBound(g.minLength.value), LengthBound(f.minLength.value))))
    ensures var f, g := c.lengthFacets, p.lengthFacets;
      !MinLengthWidens(f.minLength, g.minLength) && MaxLengthWidens(f.maxLength, g.maxLength) ==>
        InheritFile(c, p) == Outcome(c.(lengthFacets := f.(minLength := Adopt(f.minLength, g.minLength))),
                                     Some(Violation(MaxLength, LengthBound(g.maxLength.value), LengthBound(f.maxLength.value))))
  {
  }

  /** A successful file merge admits exactly the lengths both shapes admit. */
  lemma InheritFileIsMeet(c: FileValue, p: FileValue, n: nat)
    requires InheritFile(c, p).error.None?
    ensures AdmitsLength(InheritFile(c, p).state.lengthFacets, n) <==> AdmitsLength(c.lengthFacets, n) && AdmitsLength(p.lengthFacets, n)
  {
  }

  // ---- BooleanShape and DateTimeShape ----

  /**
   * The boolean merge fails exactly when both enums are set and some child member is missing
   * from the ancestor's, leaving the receiver as it was; otherwise an unset child enum takes
   * the ancestor's. A set but empty child enum is always accepted.
   */
  lemma InheritBooleanOutcome(c: BooleanValue, p: BooleanValue)
    ensures var m := InheritBoolean(c, p);
      m.error.Some? <==>
        c.enumFacets.enum.Some? && p.enumFacets.enum.Some? &&
        exists i | 0 <= i < |c.enumFacets.enum.value| :: !HasValue(p.enumFacets.enum.value, c.enumFacets.enum.value[i].value)
    ensures var m := InheritBoolean(c, p);
      m.error.Some? ==> m == Outcome(c, Some(Violation(Enum, EnumBound(p.enumFacets.enum.value), EnumBound(c.enumFacets.enum.value))))
    ensures var m := InheritBoolean(c, p);
      m.error.None? ==> m.state == c.(enumFacets := EnumFacets(Adopt(c.enumFacets.enum, p.enumFacets.enum)))
    ensures c.enumFacets.enum == Some([]) ==> InheritBoolean(c, p) == Outcome(c, None)
  {
  }

  /** The date-time merge never fails: an unset format takes the ancestor's, a set one is kept. */
  lemma InheritDateTimeOutcome(c: DateTimeValue, p: DateTimeValue)
    ensures InheritDateTime(c, p) ==
      Outcome(c.(formatFacets := FormatFacets(if c.formatFacets.format.None? then p.formatFacets.format else c.formatFacets.format)), None)
  {
  }
}
