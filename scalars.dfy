/**
 * The scalar shapes of scalars.go as objects: one class per variant, whose fields are the
 * embedded BaseShape and facet structs, and whose Inherit and UnmarshalYAMLNodes change those
 * fields step by step, as the Go methods do. Each method is proved against the value-level
 * definition in Inheritance or Decoders, whose properties are proved there.
 */
module Scalars {
  import opened Wrappers
  import opened Nodes
  import opened Errors
  import opened Outcomes
  import opened Decimal
  import opened Facets
  import opened Pairs
  import opened Inheritance
  import opened Decoders

  /** The Shape interface, closed over the scalar variants that implement it here. */
  datatype Shape =
    | Integer(integer: IntegerShape)
    | Number(number: NumberShape)
    | String(str: StringShape)
    | File(file: FileShape)
    | Boolean(boolean: BooleanShape)
    | DateTime(dateTime: DateTimeShape)
    | DateTimeOnly(dateTimeOnly: DateTimeOnlyShape)
    | DateOnly(dateOnly: DateOnlyShape)
    | TimeOnly(timeOnly: TimeOnlyShape)
    | Any(any: AnyShape)
    | Nil(nil: NilShape)
  {
    /** The object behind the interface value. */
    function Object(): object
    {
      match this
      case Integer(s) => s
      case Number(s) => s
      case String(s) => s
      case File(s) => s
      case Boolean(s) => s
      case DateTime(s) => s
      case DateTimeOnly(s) => s
      case DateOnly(s) => s
      case TimeOnly(s) => s
      case Any(s) => s
      case Nil(s) => s
    }

    /** Base(): the BaseShape embedded in the shape. */
    function Base(): BaseShape
      reads Object()
    {
      match this
      case Integer(s) => s.base
      case Number(s) => s.base
      case String(s) => s.base
      case File(s) => s.base
      case Boolean(s) => s.base
      case DateTime(s) => s.base
      case DateTimeOnly(s) => s.base
      case DateOnly(s) => s.base
      case TimeOnly(s) => s.base
      case Any(s) => s.base
      case Nil(s) => s.base
    }
  }

  class IntegerShape {
    var base: BaseShape
    var enumFacets: EnumFacets
    var formatFacets: FormatFacets
    var integerFacets: IntegerFacets

    /** The shape's fields as a value. */
    function Value(): IntegerValue
      reads this
    {
      IntegerValue(base, enumFacets, formatFacets, integerFacets)
    }

    constructor (v: IntegerValue)
      ensures Value() == v
    {
      base, enumFacets, formatFacets, integerFacets := v.base, v.enumFacets, v.formatFacets, v.integerFacets;
    }

    /** A copy of every field under a newly generated id. */
    method Clone(ids: ShapeIds) returns (c: Shape)
      modifies ids
      ensures c.Integer? && fresh(c.integer)
      ensures c.integer.Value() == Value().(base := base.(id := old(ids.next)))
      ensures ids.next == old(ids.next) + 1
      ensures base.id < old(ids.next) ==> c.integer.base.id != base.id
    {
      var id := ids.Generate();
      var copy := new IntegerShape(Value().(base := base.(id := id)));
      c := Integer(copy);
    }

    /**
     * Narrows this shape by an ancestor: an ancestor of another variant is a type mismatch that
     * changes nothing; otherwise the fields end as InheritInteger says, and success returns
     * this very shape.
     */
    method Inherit(source: Shape) returns (r: Result<Shape, Error>)
      modifies this
      ensures !source.Integer? ==> r == Err(TypeMismatch(source.Base().typeName, base.typeName)) && unchanged(this)
      ensures source.Integer? ==>
        var m := InheritInteger(old(Value()), old(source.integer.Value()));
        Value() == m.state && r == (if m.error.None? then Ok(Integer(this)) else Err(m.error.value))
    {
      if !source.Integer? {
        return Err(TypeMismatch(source.Base().typeName, base.typeName));
      }
      // Each ancestor field is read before the receiver's field of the same name is written, so
      // a snapshot taken here reads what the Go code reads, even when the ancestor is the receiver.
      var ss := source.integer.Value();
      if integerFacets.minimum.None? {
        integerFacets := integerFacets.(minimum := ss.integerFacets.minimum);
      } else if ss.integerFacets.minimum.Some? && integerFacets.minimum.value < ss.integerFacets.minimum.value {
        return Err(Violation(Minimum, IntBound(ss.integerFacets.minimum.value), IntBound(integerFacets.minimum.value)));
      }
      if integerFacets.maximum.None? {
        integerFacets := integerFacets.(maximum := ss.integerFacets.maximum);
      } else if ss.integerFacets.maximum.Some? && integerFacets.maximum.value > ss.integerFacets.maximum.value {
        return Err(Violation(Maximum, IntBound(ss.integerFacets.maximum.value), IntBound(integerFacets.maximum.value)));
      }
      if integerFacets.multipleOf.None? {
        integerFacets := integerFacets.(multipleOf := ss.integerFacets.multipleOf);
      }
      if enumFacets.enum.None? {
        enumFacets := EnumFacets(ss.enumFacets.enum);
      } else if ss.enumFacets.enum.Some? && !IsOverridableEnum(ss.enumFacets.enum.value, enumFacets.enum.value) {
        return Err(Violation(Enum, EnumBound(ss.enumFacets.enum.value), EnumBound(enumFacets.enum.value)));
      }
      if formatFacets.format.None? {
        formatFacets := FormatFacets(ss.formatFacets.format);
      }
      return Ok(Integer(this));
    }

    /**
     * Decodes a mapping's flattened key/value list into the facets, pair by pair; the fields
     * and the error end as DecodePairs of IntegerFacet says.
     */
    method UnmarshalYAMLNodes(lib: Library, v: seq<YamlNode>) returns (err: Option<Error>)
      requires |v| % 2 == 0
      modifies this
      ensures Value() == DecodePairs(lib, IntegerFacet, old(Value()), v).state
      ensures err == DecodePairs(lib, IntegerFacet, old(Value()), v).error
    {
      ghost var d := DecodePairs(lib, IntegerFacet, Value(), v);
      var i := 0;
      while i != |v|
        invariant 0 <= i <= |v| && i % 2 == 0
        invariant d == DecodePairs(lib, IntegerFacet, Value(), v[i..])
        decreases |v| - i
      {
        var node, valueNode := v[i], v[i + 1];
        assert v[i..][0] == node && v[i..][1] == valueNode && v[i..][2..] == v[i + 2..];
        if node.value == "minimum" {
          if valueNode.tag != "!!int" {
            return Some(Invalid("minimum must be integer"));
          }
          var num := ParseDecimal(valueNode.value);
          if num.None? {
            return Some(Invalid("invalid minimum value"));
          }
          integerFacets := integerFacets.(minimum := num);
        } else if node.value == "maximum" {
          if valueNode.tag != "!!int" {
            return Some(Invalid("maximum must be integer"));
          }
          var num := ParseDecimal(valueNode.value);
          if num.None? {
            return Some(Invalid("invalid maximum value"));
          }
          integerFacets := integerFacets.(maximum := num);
        } else if node.value == "multipleOf" {
          if valueNode.tag != "!!int" {
            return Some(Invalid("multipleOf must be integer"));
          }
          var m := lib.decodeInt64(valueNode);
          if m.Err? {
            return Some(Wrapped("decode multipleOf", Foreign(m.error)));
          }
          integerFacets := integerFacets.(multipleOf := m.value);
        } else if node.value == "format" {
          var f := lib.decodeString(valueNode);
          if f.Err? {
            return Some(Wrapped("decode format", Foreign(f.error)));
          }
          formatFacets := FormatFacets(f.value);
        } else if node.value == "enum" {
          var enums := MakeEnum(lib, valueNode, base.location);
          if enums.Err? {
            return Some(Wrapped("make enum", enums.error));
          }
          enumFacets := EnumFacets(Some(enums.value));
        } else {
          var n := lib.makeNode(valueNode, base.location);
          if n.Err? {
            return Some(Wrapped("make node", Foreign(n.error)));
          }
          base := base.(customShapeFacets := base.customShapeFacets[node.value := n.value]);
        }
        i := i + 2;
      }
      return None;
    }
  }

  class NumberShape {
    var base: BaseShape
    var enumFacets: EnumFacets
    var formatFacets: FormatFacets
    var numberFacets: NumberFacets

    /** The shape's fields as a value. */
    function Value(): NumberValue
      reads this
    {
      NumberValue(base, enumFacets, formatFacets, numberFacets)
    }

    constructor (v: NumberValue)
      ensures Value() == v
    {
      base, enumFacets, formatFacets, numberFacets := v.base, v.enumFacets, v.formatFacets, v.numberFacets;
    }

    /** A copy of every field under a newly generated id. */
    method Clone(ids: ShapeIds) returns (c: Shape)
      modifies ids
      ensures c.Number? && fresh(c.number)
      ensures c.number.Value() == Value().(base := base.(id := old(ids.next)))
      ensures ids.next == old(ids.next) + 1
      ensures base.id < old(ids.next) ==> c.number.base.id != base.id
    {
      var id := ids.Generate();
      var copy := new NumberShape(Value().(base := base.(id := id)));
      c := Number(copy);
    }

    /** Narrows this shape by an ancestor, as InheritNumber says. */
    method Inherit(source: Shape) returns (r: Result<Shape, Error>)
      modifies this
      ensures !source.Number? ==> r == Err(TypeMismatch(source.Base().typeName, base.typeName)) && unchanged(this)
      ensures source.Number? ==>
        var m := InheritNumber(old(Value()), old(source.number.Value()));
        Value() == m.state && r == (if m.error.None? then Ok(Number(this)) else Err(m.error.value))
    {
      if !source.Number? {
        return Err(TypeMismatch(source.Base().typeName, base.typeName));
      }
      // Each ancestor field is read before the receiver's field of the same name is written, so
      // a snapshot taken here reads what the Go code reads, even when the ancestor is the receiver.
      var ss := source.number.Value();
      if numberFacets.minimum.None? {
        numberFacets := numberFacets.(minimum := ss.numberFacets.minimum);
      } else if ss.numberFacets.minimum.Some? && numberFacets.minimum.value < ss.numberFacets.minimum.value {
        return Err(Violation(Minimum, NumberBound(ss.numberFacets.minimum.value), NumberBound(numberFacets.minimum.value)));
      }
      if numberFacets.maximum.None? {
        numberFacets := numberFacets.(maximum := ss.numberFacets.maximum);
      } else if ss.numberFacets.maximum.Some? && numberFacets.maximum.value > ss.numberFacets.maximum.value {
        return Err(Violation(Maximum, NumberBound(ss.numberFacets.maximum.value), NumberBound(numberFacets.maximum.value)));
      }
      if ss.numberFacets.multipleOf.Some? {
        numberFacets := numberFacets.(multipleOf := ss.numberFacets.multipleOf);
      }
      if enumFacets.enum.None? {
        enumFacets := EnumFacets(ss.enumFacets.enum);
      } else if ss.enumFacets.enum.Some? && !IsOverridableEnum(ss.enumFacets.enum.value, enumFacets.enum.value) {
        return Err(Violation(Enum, EnumBound(ss.enumFacets.enum.value), EnumBound(enumFacets.enum.value)));
      }
      if formatFacets.format.None? {
        formatFacets := FormatFacets(ss.formatFacets.format);
      }
      return Ok(Number(this));
    }

    /** Decodes the key/value list pair by pair, as DecodePairs of NumberFacet says. */
    method UnmarshalYAMLNodes(lib: Library, v: seq<YamlNode>) returns (err: Option<Error>)
      requires |v| % 2 == 0
      modifies this
      ensures Value() == DecodePairs(lib, NumberFacet, old(Value()), v).state
      ensures err == DecodePairs(lib, NumberFacet, old(Value()), v).error
    {
      ghost var d := DecodePairs(lib, NumberFacet, Value(), v);
      var i := 0;
      while i != |v|
        invariant 0 <= i <= |v| && i % 2 == 0
        invariant d == DecodePairs(lib, NumberFacet, Value(), v[i..])
        decreases |v| - i
      {
        var node, valueNode := v[i], v[i + 1];
        assert v[i..][0] == node && v[i..][1] == valueNode && v[i..][2..] == v[i + 2..];
        if node.value == "minimum" {
          var d := lib.decodeFloat64(valueNode);
          if d.Err? {
            return Some(Wrapped("decode minimum", Foreign(d.error)));
          }
          numberFacets := numberFacets.(minimum := d.value);
        } else if node.value == "maximum" {
          var d := lib.decodeFloat64(valueNode);
          if d.Err? {
            return Some(Wrapped("decode maximum", Foreign(d.error)));
          }
          numberFacets := numberFacets.(maximum := d.value);
        } else if node.value == "format" {
          var f := lib.decodeString(valueNode);
          if f.Err? {
            return Some(Wrapped("decode format", Foreign(f.error)));
          }
          formatFacets := FormatFacets(f.value);
        } else if node.value == "enum" {
          var enums := MakeEnum(lib, valueNode, base.location);
          if enums.Err? {
            return Some(Wrapped("make enum", enums.error));
          }
          enumFacets := EnumFacets(Some(enums.value));
        } else if node.value == "multipleOf" {
          var d := lib.decodeFloat64(valueNode);
          if d.Err? {
            return Some(Wrapped("decode multipleOf", Foreign(d.error)));
          }
          numberFacets := numberFacets.(multipleOf := d.value);
        } else {
          var n := lib.makeNode(valueNode, base.location);
          if n.Err? {
            return Some(Wrapped("make node", Foreign(n.error)));
          }
          base := base.(customShapeFacets := base.customShapeFacets[node.value := n.value]);
        }
        i := i + 2;
      }
      return None;
    }
  }

  class StringShape {
    var base: BaseShape
    var enumFacets: EnumFacets
    var stringFacets: StringFacets

    /** The shape's fields as a value. */
    function Value(): StringValue
      reads this
    {
      StringValue(base, enumFacets, stringFacets)
    }

    constructor (v: StringValue)
      ensures Value() == v
    {
      base, enumFacets, stringFacets := v.base, v.enumFacets, v.stringFacets;
    }

    /** A copy of every field under a newly generated id. */
    method Clone(ids: ShapeIds) returns (c: Shape)
      modifies ids
      ensures c.String? && fresh(c.str)
      ensures c.str.Value() == Value().(base := base.(id := old(ids.next)))
      ensures ids.next == old(ids.next) + 1
      ensures base.id < old(ids.next) ==> c.str.base.id != base.id
    {
      var id := ids.Generate();
      var copy := new StringShape(Value().(base := base.(id := id)));
      c := String(copy);
    }

    /** Narrows this shape by an ancestor, as InheritString says. */
    method Inherit(source: Shape) returns (r: Result<Shape, Error>)
      modifies this
      ensures !source.String? ==> r == Err(TypeMismatch(source.Base().typeName, base.typeName)) && unchanged(this)
      ensures source.String? ==>
        var m := InheritString(old(Value()), old(source.str.Value()));
        Value() == m.state && r == (if m.error.None? then Ok(String(this)) else Err(m.error.value))
    {
      if !source.String? {
        return Err(TypeMismatch(source.Base().typeName, base.typeName));
      }
      // Each ancestor field is read before the receiver's field of the same name is written, so
      // a snapshot taken here reads what the Go code reads, even when the ancestor is the receiver.
      var ss := source.str.Value();
      var lf := stringFacets.lengthFacets;
      var sl := ss.stringFacets.lengthFacets;
      if lf.minLength.None? {
        lf := lf.(minLength := sl.minLength);
        stringFacets := stringFacets.(lengthFacets := lf);
      } else if sl.minLength.Some? && lf.minLength.value < sl.minLength.value {
        return Err(Violation(MinLength, LengthBound(sl.minLength.value), LengthBound(lf.minLength.value)));
      }
      if lf.maxLength.None? {
        lf := lf.(maxLength := sl.maxLength);
        stringFacets := stringFacets.(lengthFacets := lf);
      } else if sl.maxLength.Some? && lf.maxLength.value > sl.maxLength.value {
        return Err(Violation(MaxLength, LengthBound(sl.maxLength.value), LengthBound(lf.maxLength.value)));
      }
      if stringFacets.pattern.None? {
        stringFacets := stringFacets.(pattern := ss.stringFacets.pattern);
      }
      if enumFacets.enum.None? {
        enumFacets := EnumFacets(ss.enumFacets.enum);
      } else if ss.enumFacets.enum.Some? && !IsOverridableEnum(ss.enumFacets.enum.value, enumFacets.enum.value) {
        return Err(Violation(Enum, EnumBound(ss.enumFacets.enum.value), EnumBound(enumFacets.enum.value)));
      }
      return Ok(String(this));
    }

    /** Decodes the key/value list pair by pair, as DecodePairs of StringFacet says. */
    method UnmarshalYAMLNodes(lib: Library, v: seq<YamlNode>) returns (err: Option<Error>)
      requires |v| % 2 == 0
      modifies this
      ensures Value() == DecodePairs(lib, StringFacet, old(Value()), v).state
      ensures err == DecodePairs(lib, StringFacet, old(Value()), v).error
    {
      ghost var d := DecodePairs(lib, StringFacet, Value(), v);
      var i := 0;
      while i != |v|
        invariant 0 <= i <= |v| && i % 2 == 0
        invariant d == DecodePairs(lib, StringFacet, Value(), v[i..])
        decreases |v| - i
      {
        var node, valueNode := v[i], v[i + 1];
        assert v[i..][0] == node && v[i..][1] == valueNode && v[i..][2..] == v[i + 2..];
        if node.value == "minLength" {
          var d := lib.decodeUint64(valueNode);
          if d.Err? {
            return Some(Wrapped("decode minLength", Foreign(d.error)));
          }
          stringFacets := stringFacets.(lengthFacets := stringFacets.lengthFacets.(minLength := d.value));
        } else if node.value == "maxLength" {
          var d := lib.decodeUint64(valueNode);
          if d.Err? {
            return Some(Wrapped("decode maxLength", Foreign(d.error)));
          }
          stringFacets := stringFacets.(lengthFacets := stringFacets.lengthFacets.(maxLength := d.value));
        } else if node.value == "pattern" {
          if valueNode.tag != "!!str" {
            return Some(Invalid("pattern must be string"));
          }
          var re := lib.compile(valueNode.value);
          if re.Err? {
            return Some(Wrapped("decode pattern", Foreign(re.error)));
          }
          stringFacets := stringFacets.(pattern := Some(re.value));
        } else if node.value == "enum" {
          var enums := MakeEnum(lib, valueNode, base.location);
          if enums.Err? {
            return Some(Wrapped("make enum", enums.error));
          }
          enumFacets := EnumFacets(Some(enums.value));
        } else {
          var n := lib.makeNode(valueNode, base.location);
          if n.Err? {
            return Some(Wrapped("make node", Foreign(n.error)));
          }
          base := base.(customShapeFacets := base.customShapeFacets[node.value := n.value]);
        }
        i := i + 2;
      }
      return None;
    }
  }

  class FileShape {
    var base: BaseShape
    var lengthFacets: LengthFacets
    var fileFacets: FileFacets

    /** The shape's fields as a value. */
    function Value(): FileValue
      reads this
    {
      FileValue(base, lengthFacets, fileFacets)
    }

    constructor (v: FileValue)
      ensures Value() == v
    {
      base, lengthFacets, fileFacets := v.base, v.lengthFacets, v.fileFacets;
    }

    /** A copy of every field under a newly generated id. */
    method Clone(ids: ShapeIds) returns (c: Shape)
      modifies ids
      ensures c.File? && fresh(c.file)
      ensures c.file.Value() == Value().(base := base.(id := old(ids.next)))
      ensures ids.next == old(ids.next) + 1
      ensures base.id < old(ids.next) ==> c.file.base.id != base.id
    {
      var id := ids.Generate();
      var copy := new FileShape(Value().(base := base.(id := id)));
      c := File(copy);
    }

    /** Narrows this shape by an ancestor, as InheritFile says. */
    method Inherit(source: Shape) returns (r: Result<Shape, Error>)
      modifies this
      ensures !source.File? ==> r == Err(TypeMismatch(source.Base().typeName, base.typeName)) && unchanged(this)
      ensures source.File? ==>
        var m := InheritFile(old(Value()), old(source.file.Value()));
        Value() == m.state && r == (if m.error.None? then Ok(File(this)) else Err(m.error.value))
    {
      if !source.File? {
        return Err(TypeMismatch(source.Base().typeName, base.typeName));
      }
      // Each ancestor field is read before the receiver's field of the same name is written, so
      // a snapshot taken here reads what the Go code reads, even when the ancestor is the receiver.
      var ss := source.file.Value();
      if lengthFacets.minLength.None? {
        lengthFacets := lengthFacets.(minLength := ss.lengthFacets.minLength);
      } else if ss.lengthFacets.minLength.Some? && lengthFacets.minLength.value < ss.lengthFacets.minLength.value {
        return Err(Violation(MinLength, LengthBound(ss.lengthFacets.minLength.value), LengthBound(lengthFacets.minLength.value)));
      }
      if lengthFacets.maxLength.None? {
        lengthFacets := lengthFacets.(maxLength := ss.lengthFacets.maxLength);
      } else if ss.lengthFacets.maxLength.Some? && lengthFacets.maxLength.value > ss.lengthFacets.maxLength.value {
        return Err(Violation(MaxLength, LengthBound(ss.lengthFacets.maxLength.value), LengthBound(lengthFacets.maxLength.value)));
      }
      if fileFacets.fileTypes.None? {
        fileFacets := FileFacets(ss.fileFacets.fileTypes);
      }
      return Ok(File(this));
    }

    /** Decodes the key/value list pair by pair, as DecodePairs of FileFacet says. */
    method UnmarshalYAMLNodes(lib: Library, v: seq<YamlNode>) returns (err: Option<Error>)
      requires |v| % 2 == 0
      modifies this
      ensures Value() == DecodePairs(lib, FileFacet, old(Value()), v).state
      ensures err == DecodePairs(lib, FileFacet, old(Value()), v).error
    {
      ghost var d := DecodePairs(lib, FileFacet, Value(), v);
      var i := 0;
      while i != |v|
        invariant 0 <= i <= |v| && i % 2 == 0
        invariant d == DecodePairs(lib, FileFacet, Value(), v[i..])
        decreases |v| - i
      {
        var node, valueNode := v[i], v[i + 1];
        assert v[i..][0] == node && v[i..][1] == valueNode && v[i..][2..] == v[i + 2..];
        if node.value == "minLength" {
          var d := lib.decodeUint64(valueNode);
          if d.Err? {
            return Some(Wrapped("decode minLength", Foreign(d.error)));
          }
          lengthFacets := lengthFacets.(minLength := d.value);
        } else if node.value == "maxLength" {
          var d := lib.decodeUint64(valueNode);
          if d.Err? {
            return Some(Wrapped("decode maxLength", Foreign(d.error)));
          }
          lengthFacets := lengthFacets.(maxLength := d.value);
        } else if node.value == "fileTypes" {
          var fileTypes := MakeFileTypes(lib, valueNode, base.location);
          if fileTypes.Err? {
            return Some(fileTypes.error);
          }
          fileFacets := FileFacets(Some(fileTypes.value));
        } else {
          var n := lib.makeNode(valueNode, base.location);
          if n.Err? {
            return Some(Wrapped("make node", Foreign(n.error)));
          }
          base := base.(customShapeFacets := base.customShapeFacets[node.value := n.value]);
        }
        i := i + 2;
      }
      return None;
    }
  }

  class BooleanShape {
    var base: BaseShape
    var enumFacets: EnumFacets

    /** The shape's fields as a value. */
    function Value(): BooleanValue
      reads this
    {
      BooleanValue(base, enumFacets)
    }

    constructor (v: BooleanValue)
      ensures Value() == v
    {
      base, enumFacets := v.base, v.enumFacets;
    }

    /** A copy of every field under a newly generated id. */
    method Clone(ids: ShapeIds) returns (c: Shape)
      modifies ids
      ensures c.Boolean? && fresh(c.boolean)
      ensures c.boolean.Value() == Value().(base := base.(id := old(ids.next)))
      ensures ids.next == old(ids.next) + 1
      ensures base.id < old(ids.next) ==> c.boolean.base.id != base.id
    {
      var id := ids.Generate();
      var copy := new BooleanShape(Value().(base := base.(id := id)));
      c := Boolean(copy);
    }

    /** Narrows this shape by an ancestor, as InheritBoolean says. */
    method Inherit(source: Shape) returns (r: Result<Shape, Error>)
      modifies this
      ensures !source.Boolean? ==> r == Err(TypeMismatch(source.Base().typeName, base.typeName)) && unchanged(this)
      ensures source.Boolean? ==>
        var m := InheritBoolean(old(Value()), old(source.boolean.Value()));
        Value() == m.state && r == (if m.error.None? then Ok(Boolean(this)) else Err(m.error.value))
    {
      if !source.Boolean? {
        return Err(TypeMismatch(source.Base().typeName, base.typeName));
      }
      // Each ancestor field is read before the receiver's field of the same name is written, so
      // a snapshot taken here reads what the Go code reads, even when the ancestor is the receiver.
      var ss := source.boolean.Value();
      if enumFacets.enum.None? {
        enumFacets := EnumFacets(ss.enumFacets.enum);
      } else if ss.enumFacets.enum.Some? && !IsOverridableEnum(ss.enumFacets.enum.value, enumFacets.enum.value) {
        return Err(Violation(Enum, EnumBound(ss.enumFacets.enum.value), EnumBound(enumFacets.enum.value)));
      }
      return Ok(Boolean(this));
    }

    /** Decodes the key/value list pair by pair, as DecodePairs of BooleanFacet says. */
    method UnmarshalYAMLNodes(lib: Library, v: seq<YamlNode>) returns (err: Option<Error>)
      requires |v| % 2 == 0
      modifies this
      ensures Value() == DecodePairs(lib, BooleanFacet, old(Value()), v).state
      ensures err == DecodePairs(lib, BooleanFacet, old(Value()), v).error
    {
      ghost var d := DecodePairs(lib, BooleanFacet, Value(), v);
      var i := 0;
      while i != |v|
        invariant 0 <= i <= |v| && i % 2 == 0
        invariant d == DecodePairs(lib, BooleanFacet, Value(), v[i..])
        decreases |v| - i
      {
        var node, valueNode := v[i], v[i + 1];
        assert v[i..][0] == node && v[i..][1] == valueNode && v[i..][2..] == v[i + 2..];
        if node.value == "enum" {
          var enums := MakeEnum(lib, valueNode, base.location);
          if enums.Err? {
            return Some(Wrapped("make enum", enums.error));
          }
          enumFacets := EnumFacets(Some(enums.value));
        } else {
          var n := lib.makeNode(valueNode, base.location);
          if n.Err? {
            return Some(Wrapped("make node", Foreign(n.error)));
          }
          base := base.(customShapeFacets := base.customShapeFacets[node.value := n.value]);
        }
        i := i + 2;
      }
      return None;
    }
  }

  class DateTimeShape {
    var base: BaseShape
    var formatFacets: FormatFacets

    /** The shape's fields as a value. */
    function Value(): DateTimeValue
      reads this
    {
      DateTimeValue(base, formatFacets)
    }

    constructor (v: DateTimeValue)
      ensures Value() == v
    {
      base, formatFacets := v.base, v.formatFacets;
    }

    /** A copy of every field under a newly generated id. */
    method Clone(ids: ShapeIds) returns (c: Shape)
      modifies ids
      ensures c.DateTime? && fresh(c.dateTime)
      ensures c.dateTime.Value() == Value().(base := base.(id := old(ids.next)))
      ensures ids.next == old(ids.next) + 1
      ensures base.id < old(ids.next) ==> c.dateTime.base.id != base.id
    {
      var id := ids.Generate();
      var copy := new DateTimeShape(Value().(base := base.(id := id)));
      c := DateTime(copy);
    }

    /** Narrows this shape by an ancestor, as InheritDateTime says. */
    method Inherit(source: Shape) returns (r: Result<Shape, Error>)
      modifies this
      ensures !source.DateTime? ==> r == Err(TypeMismatch(source.Base().typeName, base.typeName)) && unchanged(this)
      ensures source.DateTime? ==>
        Value() == InheritDateTime(old(Value()), old(source.dateTime.Value())).state && r == Ok(DateTime(this))
    {
      if !source.DateTime? {
        return Err(TypeMismatch(source.Base().typeName, base.typeName));
      }
      // Each ancestor field is read before the receiver's field of the same name is written, so
      // a snapshot taken here reads what the Go code reads, even when the ancestor is the receiver.
      var ss := source.dateTime.Value();
      if formatFacets.format.None? {
        formatFacets := FormatFacets(ss.formatFacets.format);
      }
      return Ok(DateTime(this));
    }

    /** Decodes the key/value list pair by pair, as DecodePairs of DateTimeFacet says. */
    method UnmarshalYAMLNodes(lib: Library, v: seq<YamlNode>) returns (err: Option<Error>)
      requires |v| % 2 == 0
      modifies this
      ensures Value() == DecodePairs(lib, DateTimeFacet, old(Value()), v).state
      ensures err == DecodePairs(lib, DateTimeFacet, old(Value()), v).error
    {
      ghost var d := DecodePairs(lib, DateTimeFacet, Value(), v);
      var i := 0;
      while i != |v|
        invariant 0 <= i <= |v| && i % 2 == 0
        invariant d == DecodePairs(lib, DateTimeFacet, Value(), v[i..])
        decreases |v| - i
      {
        var node, valueNode := v[i], v[i + 1];
        assert v[i..][0] == node && v[i..][1] == valueNode && v[i..][2..] == v[i + 2..];
        if node.value == "format" {
          var f := lib.decodeString(valueNode);
          if f.Err? {
            return Some(Wrapped("decode format", Foreign(f.error)));
          }
          formatFacets := FormatFacets(f.value);
        } else {
          var n := lib.makeNode(valueNode, base.location);
          if n.Err? {
            return Some(Wrapped("make node", Foreign(n.error)));
          }
          base := base.(customShapeFacets := base.customShapeFacets[node.value := n.value]);
        }
        i := i + 2;
      }
      return None;
    }
  }

  /** A variant with no facets of its own: only the embedded BaseShape. */
  class DateTimeOnlyShape {
    var base: BaseShape

    constructor (base: BaseShape)
      ensures this.base == base
    {
      this.base := base;
    }

    /** A copy of the base under a newly generated id. */
    method Clone(ids: ShapeIds) returns (c: Shape)
      modifies ids
      ensures c.DateTimeOnly? && fresh(c.dateTimeOnly)
      ensures c.dateTimeOnly.base == base.(id := old(ids.next))
      ensures ids.next == old(ids.next) + 1
      ensures base.id < old(ids.next) ==> c.dateTimeOnly.base.id != base.id
    {
      var id := ids.Generate();
      var copy := new DateTimeOnlyShape(base.(id := id));
      c := DateTimeOnly(copy);
    }

    /** Any ancestor, of any variant, is accepted: the shape itself, unchanged. */
    method Inherit(source: Shape) returns (r: Result<Shape, Error>)
      ensures r == Ok(DateTimeOnly(this))
    {
      return Ok(DateTimeOnly(this));
    }

    /** Nothing is decoded, not even custom facets, whatever the list holds. */
    method UnmarshalYAMLNodes(lib: Library, v: seq<YamlNode>) returns (err: Option<Error>)
      ensures err == None
    {
      return None;
    }
  }

  /** A variant with no facets of its own: only the embedded BaseShape. */
  class DateOnlyShape {
    var base: BaseShape

    constructor (base: BaseShape)
      ensures this.base == base
    {
      this.base := base;
    }

    /** A copy of the base under a newly generated id. */
    method Clone(ids: ShapeIds) returns (c: Shape)
      modifies ids
      ensures c.DateOnly? && fresh(c.dateOnly)
      ensures c.dateOnly.base == base.(id := old(ids.next))
      ensures ids.next == old(ids.next) + 1
      ensures base.id < old(ids.next) ==> c.dateOnly.base.id != base.id
    {
      var id := ids.Generate();
      var copy := new DateOnlyShape(base.(id := id));
      c := DateOnly(copy);
    }

    /** Any ancestor, of any variant, is accepted: the shape itself, unchanged. */
    method Inherit(source: Shape) returns (r: Result<Shape, Error>)
      ensures r == Ok(DateOnly(this))
    {
      return Ok(DateOnly(this));
    }

    /** Nothing is decoded, not even custom facets, whatever the list holds. */
    method UnmarshalYAMLNodes(lib: Library, v: seq<YamlNode>) returns (err: Option<Error>)
      ensures err == None
    {
      return None;
    }
  }

  /** A variant with no facets of its own: only the embedded BaseShape. */
  class TimeOnlyShape {
    var base: BaseShape

    constructor (base: BaseShape)
      ensures this.base == base
    {
      this.base := base;
    }

    /** A copy of the base under a newly generated id. */
    method Clone(ids: ShapeIds) returns (c: Shape)
      modifies ids
      ensures c.TimeOnly? && fresh(c.timeOnly)
      ensures c.timeOnly.base == base.(id := old(ids.next))
      ensures ids.next == old(ids.next) + 1
      ensures base.id < old(ids.next) ==> c.timeOnly.base.id != base.id
    {
      var id := ids.Generate();
      var copy := new TimeOnlyShape(base.(id := id));
      c := TimeOnly(copy);
    }

    /** Any ancestor, of any variant, is accepted: the shape itself, unchanged. */
    method Inherit(source: Shape) returns (r: Result<Shape, Error>)
      ensures r == Ok(TimeOnly(this))
    {
      return Ok(TimeOnly(this));
    }

    /** Nothing is decoded, not even custom facets, whatever the list holds. */
    method UnmarshalYAMLNodes(lib: Library, v: seq<YamlNode>) returns (err: Option<Error>)
      ensures err == None
    {
      return None;
    }
  }

  /** A variant with no facets of its own: only the embedded BaseShape. */
  class AnyShape {
    var base: BaseShape

    constructor (base: BaseShape)
      ensures this.base == base
    {
      this.base := base;
    }

    /** A copy of the base under a newly generated id. */
    method Clone(ids: ShapeIds) returns (c: Shape)
      modifies ids
      ensures c.Any? && fresh(c.any)
      ensures c.any.base == base.(id := old(ids.next))
      ensures ids.next == old(ids.next) + 1
      ensures base.id < old(ids.next) ==> c.any.base.id != base.id
    {
      var id := ids.Generate();
      var copy := new AnyShape(base.(id := id));
      c := Any(copy);
    }

    /** Any ancestor, of any variant, is accepted: the shape itself, unchanged. */
    method Inherit(source: Shape) returns (r: Result<Shape, Error>)
      ensures r == Ok(Any(this))
    {
      return Ok(Any(this));
    }

    /** Nothing is decoded, not even custom facets, whatever the list holds. */
    method UnmarshalYAMLNodes(lib: Library, v: seq<YamlNode>) returns (err: Option<Error>)
      ensures err == None
    {
      return None;
    }
  }

  /** A variant with no facets of its own: only the embedded BaseShape. */
  class NilShape {
    var base: BaseShape

    constructor (base: BaseShape)
      ensures this.base == base
    {
      this.base := base;
    }

    /** A copy of the base under a newly generated id. */
    method Clone(ids: ShapeIds) returns (c: Shape)
      modifies ids
      ensures c.Nil? && fresh(c.nil)
      ensures c.nil.base == base.(id := old(ids.next))
      ensures ids.next == old(ids.next) + 1
      ensures base.id < old(ids.next) ==> c.nil.base.id != base.id
    {
      var id := ids.Generate();
      var copy := new NilShape(base.(id := id));
      c := Nil(copy);
    }

    /** Any ancestor, of any variant, is accepted: the shape itself, unchanged. */
    method Inherit(source: Shape) returns (r: Result<Shape, Error>)
      ensures r == Ok(Nil(this))
    {
      return Ok(Nil(this));
    }

    /** Nothing is decoded, not even custom facets, whatever the list holds. */
    method UnmarshalYAMLNodes(lib: Library, v: seq<YamlNode>) returns (err: Option<Error>)
      ensures err == None
    {
      return None;
    }
  }
}
