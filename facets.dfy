/**
 * The facet bundles of scalars.go, the value of each shape variant's struct, the enum
 * overridability rule, and the per-bundle steps of the narrowing merge (Inherit). Each step
 * checks one facet after another and, like the Go code, leaves earlier adoptions in place
 * when a later check fails.
 */
module Facets {
  import opened Wrappers
  import opened Nodes
  import opened Errors
  import opened Outcomes

  datatype EnumFacets = EnumFacets(enum: Option<seq<Node>>)
  datatype FormatFacets = FormatFacets(format: Option<string>)
  datatype IntegerFacets = IntegerFacets(minimum: Option<int>, maximum: Option<int>, multipleOf: Option<int64>)
  datatype NumberFacets = NumberFacets(minimum: Option<real>, maximum: Option<real>, multipleOf: Option<real>)
  datatype LengthFacets = LengthFacets(maxLength: Option<uint64>, minLength: Option<uint64>)
  datatype StringFacets = StringFacets(lengthFacets: LengthFacets, pattern: Option<Regexp>)
  datatype FileFacets = FileFacets(fileTypes: Option<seq<Node>>)

  /* The struct of each variant with facets, as a value. The facet-less variants hold a BaseShape only. */
  datatype IntegerValue = IntegerValue(base: BaseShape, enumFacets: EnumFacets, formatFacets: FormatFacets, integerFacets: IntegerFacets)
  datatype NumberValue = NumberValue(base: BaseShape, enumFacets: EnumFacets, formatFacets: FormatFacets, numberFacets: NumberFacets)
  datatype StringValue = StringValue(base: BaseShape, enumFacets: EnumFacets, stringFacets: StringFacets)
  datatype FileValue = FileValue(base: BaseShape, lengthFacets: LengthFacets, fileFacets: FileFacets)
  datatype BooleanValue = BooleanValue(base: BaseShape, enumFacets: EnumFacets)
  datatype DateTimeValue = DateTimeValue(base: BaseShape, formatFacets: FormatFacets)

  /** Some node of `nodes` holds the value `v`. */
  predicate HasValue(nodes: seq<Node>, v: Payload)
  {
    exists j | 0 <= j < |nodes| :: nodes[j].value == v
  }

  /**
   * A child enum narrows an ancestor enum when each of its members equals, by value, some
   * member of the ancestor's: set containment, blind to order and duplicates.
   */
  function IsOverridableEnum(parent: seq<Node>, child: seq<Node>): (b: bool)
    ensures b <==> forall i | 0 <= i < |child| :: HasValue(parent, child[i].value)
  {
    |child| == 0 || (HasValue(parent, child[0].value) && IsOverridableEnum(parent, child[1..]))
  }

  /* When both child and ancestor set a facet, the child's value is looser than the ancestor's. */

  predicate MinimumWidens(child: Option<int>, parent: Option<int>)
  {
    child.Some? && parent.Some? && child.value < parent.value
  }

  predicate MaximumWidens(child: Option<int>, parent: Option<int>)
  {
    child.Some? && parent.Some? && child.value > parent.value
  }

  predicate NumberMinimumWidens(child: Option<real>, parent: Option<real>)
  {
    child.Some? && parent.Some? && child.value < parent.value
  }

  predicate NumberMaximumWidens(child: Option<real>, parent: Option<real>)
  {
    child.Some? && parent.Some? && child.value > parent.value
  }

  predicate MinLengthWidens(child: Option<uint64>, parent: Option<uint64>)
  {
    child.Some? && parent.Some? && child.value < parent.value
  }

  predicate MaxLengthWidens(child: Option<uint64>, parent: Option<uint64>)
  {
    child.Some? && parent.Some? && child.value > parent.value
  }

  predicate EnumWidens(child: Option<seq<Node>>, parent: Option<seq<Node>>)
  {
    child.Some? && parent.Some? && !IsOverridableEnum(parent.value, child.value)
  }

  /*
   * The values each bundle admits; an unset facet admits everything. The bound predicates look
   * at minimum and maximum only; multipleOf, which the merge treats differently, has its own.
   */

  predicate AdmitsIntegerBounds(f: IntegerFacets, x: int)
  {
    (f.minimum.None? || f.minimum.value <= x) && (f.maximum.None? || x <= f.maximum.value)
  }

  predicate AdmitsNumberBounds(f: NumberFacets, x: real)
  {
    (f.minimum.None? || f.minimum.value <= x) && (f.maximum.None? || x <= f.maximum.value)
  }

  /** x is a multiple of a set integer multipleOf; a zero multipleOf admits nothing. */
  predicate AdmitsIntegerMultiple(m: Option<int64>, x: int)
  {
    m.None? || (m.value != 0 && x % (m.value as int) == 0)
  }

  /** x is a whole multiple of a set number multipleOf; a zero multipleOf admits nothing. */
  predicate AdmitsNumberMultiple(m: Option<real>, x: real)
  {
    m.None? || (m.value != 0.0 && (x / m.value).Floor as real == x / m.value)
  }

  predicate AdmitsLength(f: LengthFacets, n: int)
  {
    (f.minLength.None? || f.minLength.value as int <= n) && (f.maxLength.None? || n <= f.maxLength.value as int)
  }

  predicate AdmitsEnum(f: EnumFacets, v: Payload)
  {
    f.enum.None? || HasValue(f.enum.value, v)
  }

  /* The per-bundle steps of Inherit, child first, ancestor second. */

  /** minimum, then maximum, then multipleOf (child wins). */
  function MergeIntegerFacets(c: IntegerFacets, p: IntegerFacets): Outcome<IntegerFacets>
  {
    if MinimumWidens(c.minimum, p.minimum) then
      Outcome(c, Some(Violation(Minimum, IntBound(p.minimum.value), IntBound(c.minimum.value))))
    else
      var c1 := c.(minimum := Adopt(c.minimum, p.minimum));
      if MaximumWidens(c1.maximum, p.maximum) then
        Outcome(c1, Some(Violation(Maximum, IntBound(p.maximum.value), IntBound(c1.maximum.value))))
      else
        Outcome(c1.(maximum := Adopt(c1.maximum, p.maximum), multipleOf := Adopt(c1.multipleOf, p.multipleOf)), None)
  }

  /** minimum, then maximum, then multipleOf (the ancestor's value wins whenever it is set). */
  function MergeNumberFacets(c: NumberFacets, p: NumberFacets): Outcome<NumberFacets>
  {
    if NumberMinimumWidens(c.minimum, p.minimum) then
      Outcome(c, Some(Violation(Minimum, NumberBound(p.minimum.value), NumberBound(c.minimum.value))))
    else
      var c1 := c.(minimum := Adopt(c.minimum, p.minimum));
      if NumberMaximumWidens(c1.maximum, p.maximum) then
        Outcome(c1, Some(Violation(Maximum, NumberBound(p.maximum.value), NumberBound(c1.maximum.value))))
      else
        Outcome(c1.(maximum := Adopt(c1.maximum, p.maximum), multipleOf := Adopt(p.multipleOf, c1.multipleOf)), None)
  }

  /** minLength, then maxLength. */
  function MergeLengthFacets(c: LengthFacets, p: LengthFacets): Outcome<LengthFacets>
  {
    if MinLengthWidens(c.minLength, p.minLength) then
      Outcome(c, Some(Violation(MinLength, LengthBound(p.minLength.value), LengthBound(c.minLength.value))))
    else
      var c1 := c.(minLength := Adopt(c.minLength, p.minLength));
      if MaxLengthWidens(c1.maxLength, p.maxLength) then
        Outcome(c1, Some(Violation(MaxLength, LengthBound(p.maxLength.value), LengthBound(c1.maxLength.value))))
      else
        Outcome(c1.(maxLength := Adopt(c1.maxLength, p.maxLength)), None)
  }

  /** The length facets, then the pattern (child wins, no compatibility check). */
  function MergeStringFacets(c: StringFacets, p: StringFacets): Outcome<StringFacets>
  {
    var l := MergeLengthFacets(c.lengthFacets, p.lengthFacets);
    if l.error.Some? then Outcome(c.(lengthFacets := l.state), l.error)
    else Outcome(StringFacets(l.state, Adopt(c.pattern, p.pattern)), None)
  }

  /** The enum: a set child enum must be overridable by the ancestor's. */
  function MergeEnumFacets(c: EnumFacets, p: EnumFacets): Outcome<EnumFacets>
  {
    if EnumWidens(c.enum, p.enum) then
      Outcome(c, Some(Violation(Enum, EnumBound(p.enum.value), EnumBound(c.enum.value))))
    else
      Outcome(EnumFacets(Adopt(c.enum, p.enum)), None)
  }

  /** The format: child wins, no compatibility check. */
  function MergeFormatFacets(c: FormatFacets, p: FormatFacets): FormatFacets
  {
    FormatFacets(Adopt(c.format, p.format))
  }

  /** The file types: child wins, no compatibility check. */
  function MergeFileFacets(c: FileFacets, p: FileFacets): FileFacets
  {
    FileFacets(Adopt(c.fileTypes, p.fileTypes))
  }

  /** An accepted enum merge admits exactly the values both enums admit. */
  lemma EnumMergeIsMeet(c: EnumFacets, p: EnumFacets, v: Payload)
    requires MergeEnumFacets(c, p).error.None?
    ensures AdmitsEnum(MergeEnumFacets(c, p).state, v) <==> AdmitsEnum(c, v) && AdmitsEnum(p, v)
  {
    if c.enum.Some? && p.enum.Some? && HasValue(c.enum.value, v) {
      var j :| 0 <= j < |c.enum.value| && c.enum.value[j].value == v;
      assert HasValue(p.enum.value, c.enum.value[j].value);
    }
  }
}
